/**
 * Fixed-width integers, byte orders and hexadecimal digits.
 *
 * Go's unsigned types are ranges of `int`; every Go conversion that
 * truncates (`byte(x)`, `uint16(x)`, `uint32(x)`) is written out as a
 * remainder, and bitwise exclusive or is defined bit by bit.
 */
module Bytes {

  type byte = x: int | 0 <= x < 0x100
  type u8 = x: int | 0 <= x < 0x100
  type u16 = x: int | 0 <= x < 0x1_0000
  type u32 = x: int | 0 <= x < 0x1_0000_0000

  const TWO_8: int := 0x100
  const TWO_16: int := 0x1_0000
  const TWO_24: int := 0x100_0000
  const TWO_32: int := 0x1_0000_0000

  /** Go's `byte(x)` for a non-negative `x`: the low eight bits. */
  function Low8(x: int): (b: byte)
    requires 0 <= x
    ensures b == x % TWO_8
  {
    x % TWO_8
  }

  /** Go's `uint32(x)` for a non-negative `x`: wrap-around modulo 2^32. */
  function Wrap32(x: int): (r: u32)
    requires 0 <= x
    ensures r == x % TWO_32
  {
    x % TWO_32
  }

  /** Adding after a wrap-around is adding before it. */
  lemma WrapAdd(a: int, b: int)
    requires 0 <= a && 0 <= b
    ensures Wrap32(Wrap32(a) + b) == Wrap32(a + b)
  {
    var q := a / TWO_32;
    assert a == q * TWO_32 + Wrap32(a);
    assert a + b == q * TWO_32 + (Wrap32(a) + b);
  }

  function Pow2(k: nat): (p: nat)
    ensures p >= 1
  {
    if k == 0 then 1 else 2 * Pow2(k - 1)
  }

  /** Bitwise exclusive or of two naturals, lowest bit first. */
  function Xor(a: nat, b: nat): nat
    decreases a + b
  {
    if a == 0 then b
    else if b == 0 then a
    else 2 * Xor(a / 2, b / 2) + (if a % 2 == b % 2 then 0 else 1)
  }

  /** The lowest bit of `Xor(a, b)` is the sum of the lowest bits, and the rest is the xor of the rest. */
  lemma XorBits(a: nat, b: nat)
    ensures Xor(a, b) % 2 == (a % 2 + b % 2) % 2
    ensures Xor(a, b) / 2 == Xor(a / 2, b / 2)
  {
  }

  /** Two naturals are equal when their lowest bits and the rest agree. */
  lemma BitsEqual(x: nat, y: nat)
    requires x % 2 == y % 2 && x / 2 == y / 2
    ensures x == y
  {
  }

  lemma XorZero(a: nat)
    ensures Xor(a, 0) == a && Xor(0, a) == a
  {
  }

  lemma {:induction false} XorSelf(a: nat)
    ensures Xor(a, a) == 0
    decreases a
  {
    if a > 0 {
      XorSelf(a / 2);
    }
  }

  lemma {:induction false} XorComm(a: nat, b: nat)
    ensures Xor(a, b) == Xor(b, a)
    decreases a + b
  {
    if a > 0 && b > 0 {
      XorComm(a / 2, b / 2);
    }
  }

  lemma {:induction false} XorAssoc(a: nat, b: nat, c: nat)
    ensures Xor(Xor(a, b), c) == Xor(a, Xor(b, c))
    decreases a + b + c
  {
    if a > 0 || b > 0 || c > 0 {
      XorBits(a, b);
      XorBits(b, c);
      XorBits(Xor(a, b), c);
      XorBits(a, Xor(b, c));
      XorAssoc(a / 2, b / 2, c / 2);
      BitsEqual(Xor(Xor(a, b), c), Xor(a, Xor(b, c)));
    }
  }

  /** Exclusive or keeps a width of `k` bits. */
  lemma {:induction false} XorBounded(a: nat, b: nat, k: nat)
    requires a < Pow2(k) && b < Pow2(k)
    ensures Xor(a, b) < Pow2(k)
  {
    if a > 0 && b > 0 {
      XorBounded(a / 2, b / 2, k - 1);
    }
  }

  /** Exclusive or of two bytes. */
  function Xor8(a: byte, b: byte): (c: byte)
    ensures c == Xor(a, b)
  {
    XorBounded(a, b, 8);
    Xor(a, b)
  }

  /** The unsigned value of `bs` read least significant byte first. */
  function LE(bs: seq<byte>): (v: nat)
    ensures v < Pow256(|bs|)
  {
    if |bs| == 0 then 0 else bs[0] + TWO_8 * LE(bs[1..])
  }

  /** The unsigned value of `bs` read most significant byte first. */
  function BE(bs: seq<byte>): (v: nat)
    ensures v < Pow256(|bs|)
  {
    if |bs| == 0 then 0 else BE(bs[..|bs| - 1]) * TWO_8 + bs[|bs| - 1]
  }

  function Pow256(n: nat): (p: nat)
    ensures p >= 1
  {
    if n == 0 then 1 else TWO_8 * Pow256(n - 1)
  }

  /** The `n` bytes of `v` least significant first, each `byte(v >> 8k)`. */
  function LEBytes(v: nat, n: nat): (bs: seq<byte>)
    ensures |bs| == n
  {
    if n == 0 then [] else [Low8(v)] + LEBytes(v / TWO_8, n - 1)
  }

  /** The `n` bytes of `v` most significant first (truncated to `n` bytes). */
  function BEBytes(v: nat, n: nat): (bs: seq<byte>)
    ensures |bs| == n
  {
    if n == 0 then [] else BEBytes(v / TWO_8, n - 1) + [Low8(v)]
  }

  lemma {:induction false} LEOfLEBytes(v: nat, n: nat)
    requires v < Pow256(n)
    ensures LE(LEBytes(v, n)) == v
  {
    if n > 0 {
      LEOfLEBytes(v / TWO_8, n - 1);
      assert LEBytes(v, n)[1..] == LEBytes(v / TWO_8, n - 1);
    }
  }

  lemma {:induction false} BEOfBEBytes(v: nat, n: nat)
    requires v < Pow256(n)
    ensures BE(BEBytes(v, n)) == v
  {
    if n > 0 {
      BEOfBEBytes(v / TWO_8, n - 1);
      var bs := BEBytes(v, n);
      assert bs[..|bs| - 1] == BEBytes(v / TWO_8, n - 1);
    }
  }

  // Hexadecimal digits, as accepted by Go's `strconv` and `fmt` in base 16.

  predicate IsHexDigit(c: char) {
    ('0' <= c <= '9') || ('a' <= c <= 'f') || ('A' <= c <= 'F')
  }

  predicate AllHex(s: string) {
    forall i :: 0 <= i < |s| ==> IsHexDigit(s[i])
  }

  function DigitValue(c: char): (v: int)
    requires IsHexDigit(c)
    ensures 0 <= v < 16
  {
    if '0' <= c <= '9' then c as int - '0' as int
    else if 'a' <= c <= 'f' then c as int - 'a' as int + 10
    else c as int - 'A' as int + 10
  }

  function Pow16(n: nat): (p: nat)
    ensures p >= 1
  {
    if n == 0 then 1 else 16 * Pow16(n - 1)
  }

  lemma Pow16Values()
    ensures Pow16(2) == TWO_8 && Pow16(4) == TWO_16 && Pow16(6) == TWO_24 && Pow16(8) == TWO_32
  {
    assert Pow16(1) == 16;
    assert Pow16(3) == 0x1000;
    assert Pow16(5) == 0x10_0000;
    assert Pow16(7) == 0x1000_0000;
  }

  lemma {:induction false} Pow16Monotonic(m: nat, n: nat)
    requires m <= n
    ensures Pow16(m) <= Pow16(n)
    decreases n
  {
    if m < n {
      Pow16Monotonic(m, n - 1);
    }
  }

  /** The value of a run of hex digits, most significant digit first. */
  function HexValue(s: string): (v: nat)
    requires AllHex(s)
    ensures v < Pow16(|s|)
  {
    if |s| == 0 then 0 else HexValue(s[..|s| - 1]) * 16 + DigitValue(s[|s| - 1])
  }

  lemma AllHexSlice(s: string, i: nat, j: nat)
    requires AllHex(s) && i <= j <= |s|
    ensures AllHex(s[i..j])
  {
    forall k | 0 <= k < j - i
      ensures IsHexDigit(s[i..j][k])
    {
      assert s[i..j][k] == s[i + k];
    }
  }

  lemma AllHexConcat(a: string, b: string)
    requires AllHex(a) && AllHex(b)
    ensures AllHex(a + b)
  {
    forall k | 0 <= k < |a + b|
      ensures IsHexDigit((a + b)[k])
    {
      if k < |a| {
        assert (a + b)[k] == a[k];
      } else {
        assert (a + b)[k] == b[k - |a|];
      }
    }
  }

  lemma ShiftDigit(x: int, p: int, y: int, d: int)
    ensures (x * p + y) * 16 + d == x * (p * 16) + (y * 16 + d)
  {
  }

  /** Digits appended to a run shift its value by one place each. */
  lemma {:induction false} HexValueAppend(a: string, b: string)
    requires AllHex(a) && AllHex(b)
    ensures AllHex(a + b) && HexValue(a + b) == HexValue(a) * Pow16(|b|) + HexValue(b)
    decreases |b|
  {
    AllHexConcat(a, b);
    if |b| == 0 {
      assert a + b == a;
    } else {
      var b' := b[..|b| - 1];
      AllHexSlice(b, 0, |b| - 1);
      HexValueAppend(a, b');
      assert (a + b)[..|a + b| - 1] == a + b';
      assert (a + b)[|a + b| - 1] == b[|b| - 1];
      var d := DigitValue(b[|b| - 1]);
      var x, y, p := HexValue(a), HexValue(b'), Pow16(|b'|);
      assert HexValue(a + b) == (x * p + y) * 16 + d;
      ShiftDigit(x, p, y, d);
      assert Pow16(|b|) == p * 16;
    }
  }

  /** The two digits of a byte read back as the byte. */
  lemma HexValuePair(b: byte)
    ensures HexValue(HexPair(b)) == b
  {
    var s := HexPair(b);
    assert s[..1] == [s[0]] && s[..1][..0] == [];
  }

  /** Length of the longest prefix of `s` made of hex digits. */
  function HexRunLength(s: string): (n: nat)
    ensures n <= |s|
    ensures AllHex(s[..n])
    ensures n < |s| ==> !IsHexDigit(s[n])
  {
    if |s| == 0 || !IsHexDigit(s[0]) then 0
    else
      var n := 1 + HexRunLength(s[1..]);
      assert s[..n] == [s[0]] + s[1..][..n - 1];
      n
  }

  /** A string of hex digits is one run. */
  lemma {:induction false} HexRunAll(s: string)
    requires AllHex(s)
    ensures HexRunLength(s) == |s|
  {
    if |s| > 0 {
      AllHexSlice(s, 1, |s|);
      HexRunAll(s[1..]);
    }
  }

  /** The upper-case hex digit of `v`, as `fmt`'s `%X` prints it. */
  function UpperDigit(v: int): (c: char)
    requires 0 <= v < 16
    ensures IsHexDigit(c) && DigitValue(c) == v
    ensures !('a' <= c <= 'f')
  {
    if v < 10 then (v + '0' as int) as char else (v - 10 + 'A' as int) as char
  }

  /** Two-digit encoding of a byte, most significant nibble first. */
  function HexPair(b: byte): (s: string)
    ensures |s| == 2 && AllHex(s)
  {
    [UpperDigit(b / 16), UpperDigit(b % 16)]
  }

  /** The sum of the bytes, as the record checksums of the text formats add them up. */
  function Sum(bs: seq<byte>): nat {
    if |bs| == 0 then 0 else bs[0] + Sum(bs[1..])
  }

  // ---------------------------------------------------------------------
  // Fixed-size little-endian fields

  /** `uint32(b0) | uint32(b1)<<8 | uint32(b2)<<16`: the bits do not overlap, so the OR is a sum. */
  function Field24(b0: byte, b1: byte, b2: byte): (v: u32)
    ensures v < TWO_24
  {
    b0 + b1 * TWO_8 + b2 * TWO_16
  }

  /** The same three bytes read as a little-endian number. */
  lemma Field24IsLE(bs: seq<byte>)
    requires |bs| == 3
    ensures Field24(bs[0], bs[1], bs[2]) == LE(bs)
  {
    assert bs[1..][1..][1..] == [];
    assert LE(bs[1..][1..]) == bs[2];
    assert LE(bs[1..]) == bs[1] + TWO_8 * bs[2];
  }

  /** `binary.LittleEndian.Uint32` of four bytes. */
  function Field32(b0: byte, b1: byte, b2: byte, b3: byte): (v: u32) {
    b0 + b1 * TWO_8 + b2 * TWO_16 + b3 * TWO_24
  }

  /** The same four bytes read as a little-endian number. */
  lemma Field32IsLE(bs: seq<byte>)
    requires |bs| == 4
    ensures Field32(bs[0], bs[1], bs[2], bs[3]) == LE(bs)
  {
    assert bs[1..][1..][1..][1..] == [];
    assert LE(bs[1..][1..][1..]) == bs[3];
    assert LE(bs[1..][1..]) == bs[2] + TWO_8 * bs[3];
    assert LE(bs[1..]) == bs[1] + TWO_8 * (bs[2] + TWO_8 * bs[3]);
  }

  /** Appending a byte adds it at the next power of 256. */
  lemma {:induction false} LEAppend(bs: seq<byte>, b: byte)
    ensures LE(bs + [b]) == LE(bs) + b * Pow256(|bs|)
  {
    if |bs| > 0 {
      assert (bs + [b])[1..] == bs[1..] + [b];
      LEAppend(bs[1..], b);
      assert Pow256(|bs|) == TWO_8 * Pow256(|bs[1..]|);
      assert LE(bs + [b]) == bs[0] + TWO_8 * (LE(bs[1..]) + b * Pow256(|bs[1..]|));
    } else {
      assert (bs + [b])[1..] == [];
    }
  }

  /** Up to four bytes fit in 32 bits. */
  lemma Pow256Bound(n: nat)
    requires n <= 4
    ensures Pow256(n) <= TWO_32
  {
    assert Pow256(4) == TWO_32 by {
      assert Pow256(2) == TWO_16;
    }
    if n < 4 {
      assert Pow256(n) <= Pow256(3) by {
        assert Pow256(1) == TWO_8;
      }
    }
  }
}
