/**
 * The checksum the SD-card copy sends with a file (pkg/util/crc32.go): a
 * 32-bit register shifted right one bit at a time, XORed with the reflected
 * polynomial 0xEDB88320 whenever a one falls out, each byte XORed into the
 * low end first. The register starts at 0 and is not complemented at the
 * end, so this is not the CRC-32 of IEEE 802.3 (clause 3.2.9), which starts
 * at all ones and complements its result.
 */
module Crc32 {
  import opened Bytes

  const POLY: bv32 := 0xEDB8_8320

  /** One bit step of the register. */
  function Shift(crc: bv32): bv32 {
    if crc & 1 != 0 then (crc >> 1) ^ POLY else crc >> 1
  }

  /** `k` bit steps. */
  function Shifts(crc: bv32, k: nat): bv32 {
    if k == 0 then crc else Shift(Shifts(crc, k - 1))
  }

  /** The register after one more byte: the byte XORed in, then eight bit steps. */
  function Update(crc: bv32, b: byte): bv32 {
    Shifts(crc ^ (b as bv32), 8)
  }

  /** The register after `data`, starting from `crc`, bytes taken in order. */
  function Fold(crc: bv32, data: seq<byte>): bv32 {
    if |data| == 0 then crc else Update(Fold(crc, data[..|data| - 1]), data[|data| - 1])
  }

  /** `CalculateCRC32`: the register after all of `data`, starting from 0. */
  function Crc(data: seq<byte>): bv32 {
    Fold(0, data)
  }

  /** One more byte at the end: the register after the front, updated with that byte. */
  lemma FoldSnoc(crc: bv32, s: seq<byte>, b: byte)
    ensures Fold(crc, s + [b]) == Update(Fold(crc, s), b)
  {
    assert (s + [b])[..|s|] == s;
  }

  /** The inner loop of `CalculateCRC32`: one byte XORed into the register, then eight bit steps. */
  method UpdateRegister(crc0: bv32, b: byte) returns (crc: bv32)
    ensures crc == Update(crc0, b)
  {
    crc := crc0 ^ (b as bv32);
    ghost var start := crc;
    for i := 0 to 8
      invariant crc == Shifts(start, i)
    {
      if crc & 1 != 0 {
        crc := (crc >> 1) ^ POLY;
      } else {
        crc := crc >> 1;
      }
    }
  }

  /** `CalculateCRC32`: the register starts at 0 and takes the bytes in order. */
  method CalculateCRC32(data: seq<byte>) returns (crc: bv32)
    ensures crc == Crc(data)
  {
    crc := 0;
    for n := 0 to |data|
      invariant crc == Fold(0, data[..n])
    {
      assert data[..n + 1] == data[..n] + [data[n]];
      FoldSnoc(0, data[..n], data[n]);
      crc := UpdateRegister(crc, data[n]);
    }
    assert data[..|data|] == data;
  }

  // ---------------------------------------------------------------------
  // Properties of the checksum

  /** A left fold: the checksum of `a + b` carries on from the register left after `a`. */
  lemma {:induction false} FoldAppend(crc: bv32, a: seq<byte>, b: seq<byte>)
    ensures Fold(crc, a + b) == Fold(Fold(crc, a), b)
    decreases |b|
  {
    if |b| > 0 {
      var ab := a + b;
      assert ab[..|ab| - 1] == a + b[..|b| - 1];
      assert ab[|ab| - 1] == b[|b| - 1];
      FoldAppend(crc, a, b[..|b| - 1]);
    } else {
      assert a + b == a;
    }
  }

  /** A zero register stays zero under bit steps. */
  lemma {:induction false} ShiftsZero(k: nat)
    ensures Shifts(0, k) == 0
  {
    if k > 0 {
      ShiftsZero(k - 1);
    }
  }

  /** Data made only of zero bytes, of any length, checks to 0. */
  lemma {:induction false} ZerosCheckToZero(data: seq<byte>)
    requires forall i :: 0 <= i < |data| ==> data[i] == 0
    ensures Crc(data) == 0
    decreases |data|
  {
    if |data| > 0 {
      ZerosCheckToZero(data[..|data| - 1]);
      ShiftsZero(8);
    }
  }

  /** Four bytes in a row: the register updated with each in turn. */
  lemma FoldFour(crc: bv32, a: byte, b: byte, c: byte, d: byte)
    ensures Fold(crc, [a, b, c, d]) == Update(Update(Update(Update(crc, a), b), c), d)
  {
    FoldSnoc(crc, [], a);
    assert [] + [a] == [a];
    FoldSnoc(crc, [a], b);
    assert [a] + [b] == [a, b];
    FoldSnoc(crc, [a, b], c);
    assert [a, b] + [c] == [a, b, c];
    FoldSnoc(crc, [a, b, c], d);
    assert [a, b, c] + [d] == [a, b, c, d];
  }

  // The register after each byte of the examples below, one evaluation per lemma.

  lemma CountingStep0()
    ensures Update(0x00000000, 0x01) == 0x77073096
  {
    assert (0x01 as bv32) == 0x01;
    assert Shifts(0x00000001, 8) == 0x77073096;
  }

  lemma CountingStep1()
    ensures Update(0x77073096, 0x02) == 0xF715506D
  {
    assert (0x02 as bv32) == 0x02;
    assert Shifts(0x77073094, 8) == 0xF715506D;
  }

  lemma CountingStep2()
    ensures Update(0xF715506D, 0x03) == 0xAAFD590F
  {
    assert (0x03 as bv32) == 0x03;
    assert Shifts(0xF715506E, 8) == 0xAAFD590F;
  }

  lemma CountingStep3()
    ensures Update(0xAAFD590F, 0x04) == 0x977824D1
  {
    assert (0x04 as bv32) == 0x04;
    assert Shifts(0xAAFD590B, 8) == 0x977824D1;
  }

  lemma OnesStep0()
    ensures Update(0x00000000, 0xFF) == 0x2D02EF8D
  {
    assert (0xFF as bv32) == 0xFF;
    assert Shifts(0x000000FF, 8) == 0x2D02EF8D;
  }

  lemma OnesStep1()
    ensures Update(0x2D02EF8D, 0xFF) == 0xBE2612FF
  {
    assert (0xFF as bv32) == 0xFF;
    assert Shifts(0x2D02EF72, 8) == 0xBE2612FF;
  }

  lemma OnesStep2()
    ensures Update(0xBE2612FF, 0xFF) == 0x00BE2612
  {
    assert (0xFF as bv32) == 0xFF;
    assert Shifts(0xBE261200, 8) == 0x00BE2612;
  }

  lemma OnesStep3()
    ensures Update(0x00BE2612, 0xFF) == 0xDEBB20E3
  {
    assert (0xFF as bv32) == 0xFF;
    assert Shifts(0x00BE26ED, 8) == 0xDEBB20E3;
  }

  lemma TextStep0()
    ensures Update(0x00000000, 0x43) == 0xEFD5102A
  {
    assert (0x43 as bv32) == 0x43;
    assert Shifts(0x00000043, 8) == 0xEFD5102A;
  }

  lemma TextStep1()
    ensures Update(0xEFD5102A, 0x4F) == 0x3D3740C7
  {
    assert (0x4F as bv32) == 0x4F;
    assert Shifts(0xEFD51065, 8) == 0x3D3740C7;
  }

  lemma TextStep2()
    ensures Update(0x3D3740C7, 0x50) == 0x6E5631A7
  {
    assert (0x50 as bv32) == 0x50;
    assert Shifts(0x3D374097, 8) == 0x6E5631A7;
  }

  lemma TextStep3()
    ensures Update(0x6E5631A7, 0x59) == 0x5A6B892A
  {
    assert (0x59 as bv32) == 0x59;
    assert Shifts(0x6E5631FE, 8) == 0x5A6B892A;
  }

  lemma TextStepB0()
    ensures Update(0x5A6B892A, 0x46) == 0x445E46FA
  {
    assert (0x46 as bv32) == 0x46;
    assert Shifts(0x5A6B896C, 8) == 0x445E46FA;
  }

  lemma TextStepB1()
    ensures Update(0x445E46FA, 0x49) == 0x522CBC70
  {
    assert (0x49 as bv32) == 0x49;
    assert Shifts(0x445E46B3, 8) == 0x522CBC70;
  }

  lemma TextStepB2()
    ensures Update(0x522CBC70, 0x4C) == 0x2F3D503B
  {
    assert (0x4C as bv32) == 0x4C;
    assert Shifts(0x522CBC3C, 8) == 0x2F3D503B;
  }

  lemma TextStepB3()
    ensures Update(0x2F3D503B, 0x45) == 0xB792616B
  {
    assert (0x45 as bv32) == 0x45;
    assert Shifts(0x2F3D507E, 8) == 0xB792616B;
  }

  /** [01 02 03 04] checks to 0x977824D1. */
  lemma ExampleCounting()
    ensures Crc([0x01, 0x02, 0x03, 0x04]) == 0x977824D1
  {
    FoldFour(0, 0x01, 0x02, 0x03, 0x04);
    CountingStep0();
    CountingStep1();
    CountingStep2();
    CountingStep3();
  }

  /** [FF FF FF FF] checks to 0xDEBB20E3. */
  lemma ExampleOnes()
    ensures Crc([0xFF, 0xFF, 0xFF, 0xFF]) == 0xDEBB20E3
  {
    FoldFour(0, 0xFF, 0xFF, 0xFF, 0xFF);
    OnesStep0();
    OnesStep1();
    OnesStep2();
    OnesStep3();
  }

  /** The ASCII text "COPYFILE" checks to 0xB792616B. */
  lemma ExampleText()
    ensures Crc([0x43, 0x4F, 0x50, 0x59, 0x46, 0x49, 0x4C, 0x45]) == 0xB792616B
  {
    FoldFour(0, 0x43, 0x4F, 0x50, 0x59);
    TextStep0();
    TextStep1();
    TextStep2();
    TextStep3();
    FoldFour(0x5A6B892A, 0x46, 0x49, 0x4C, 0x45);
    TextStepB0();
    TextStepB1();
    TextStepB2();
    TextStepB3();
    FoldAppend(0, [0x43, 0x4F, 0x50, 0x59], [0x46, 0x49, 0x4C, 0x45]);
    assert [0x43, 0x4F, 0x50, 0x59] + [0x46, 0x49, 0x4C, 0x45] == [0x43, 0x4F, 0x50, 0x59, 0x46, 0x49, 0x4C, 0x45];
  }
}
