/**
 * The longitudinal redundancy check of the debug-port protocol
 * (pkg/protocol/checksum.go): the XOR of a run of bytes.
 */
module Checksum {
  import opened Bytes

  /** XOR of all bytes of `data`, folded from the left as the Go loop does. */
  function Lrc(data: seq<byte>): byte {
    if |data| == 0 then 0 else Xor8(Lrc(data[..|data| - 1]), data[|data| - 1])
  }

  /** `calculateLRC`: one pass over `data` accumulating the XOR. */
  method CalculateLRC(data: seq<byte>) returns (lrc: byte)
    ensures lrc == Lrc(data)
  {
    lrc := 0;
    for i := 0 to |data|
      invariant lrc == Lrc(data[..i])
    {
      assert data[..i + 1][..i] == data[..i];
      lrc := Xor8(lrc, data[i]);
    }
    assert data[..|data|] == data;
  }

  /** `verifyLRC`: at least two bytes, and the last one is the LRC of the others. */
  function VerifyLRC(data: seq<byte>): bool {
    if |data| < 2 then false else data[|data| - 1] == Lrc(data[..|data| - 1])
  }

  lemma LrcEmpty()
    ensures Lrc([]) == 0
  {
  }

  /** The LRC of a concatenation is the XOR of the LRCs of its parts. */
  lemma {:induction false} LrcAppend(a: seq<byte>, b: seq<byte>)
    ensures Lrc(a + b) == Xor8(Lrc(a), Lrc(b))
  {
    if |b| > 0 {
      var b' := b[..|b| - 1];
      assert (a + b)[..|a + b| - 1] == a + b';
      LrcAppend(a, b');
      XorAssoc(Lrc(a), Lrc(b'), b[|b| - 1]);
    } else {
      assert a + b == a;
      XorZero(Lrc(a));
    }
  }

  lemma LrcSingle(x: byte)
    ensures Lrc([x]) == x
  {
    assert [x][..0] == [];
  }

  /** Two equal bytes cancel out. */
  lemma LrcPairCancels(x: byte)
    ensures Lrc([x, x]) == 0
  {
    assert [x, x][..1] == [x];
    LrcSingle(x);
    XorSelf(x);
  }

  /** XOR is order-independent: reversing the operands does not change the LRC. */
  lemma LrcSwap(a: seq<byte>, b: seq<byte>)
    ensures Lrc(a + b) == Lrc(b + a)
  {
    LrcAppend(a, b);
    LrcAppend(b, a);
    XorComm(Lrc(a), Lrc(b));
  }

  /** The request-header example of the tests: `55 00 00 10 00 00 10` has LRC 0x55. */
  lemma LrcHeaderExample()
    ensures Lrc([0x55, 0x00, 0x00, 0x10, 0x00, 0x00, 0x10]) == 0x55
  {
    var h: seq<byte> := [0x55, 0x00, 0x00, 0x10, 0x00, 0x00, 0x10];
    assert h[..1] == [0x55] && h[..1][..0] == [];
    assert h[..2][..1] == h[..1] && h[..3][..2] == h[..2] && h[..4][..3] == h[..3];
    assert h[..5][..4] == h[..4] && h[..6][..5] == h[..5] && h[..7][..6] == h[..6];
    assert Lrc(h[..1]) == 0x55;
    assert Lrc(h[..2]) == 0x55;
    assert Lrc(h[..3]) == 0x55;
    assert Lrc(h[..4]) == 0x45;
    assert Lrc(h[..5]) == 0x45;
    assert Lrc(h[..6]) == 0x45;
    assert h[..7] == h;
  }

  lemma VerifyRejectsShort(data: seq<byte>)
    requires |data| < 2
    ensures !VerifyLRC(data)
  {
  }

  /** Appending the LRC of a non-empty message makes it verify. */
  lemma VerifyAcceptsAppended(x: seq<byte>)
    requires |x| > 0
    ensures VerifyLRC(x + [Lrc(x)])
  {
    assert (x + [Lrc(x)])[..|x|] == x;
  }

  /** Any other trailing byte makes it fail. */
  lemma VerifyRejectsWrongLast(x: seq<byte>, c: byte)
    requires c != Lrc(x)
    ensures !VerifyLRC(x + [c])
  {
    assert (x + [c])[..|x|] == x;
  }

  /** The two test vectors of `verifyLRC`: the header with 0x55 verifies, with 0x00 it does not. */
  lemma VerifyExamples()
    ensures VerifyLRC([0x55, 0x00, 0x00, 0x10, 0x00, 0x00, 0x10, 0x55])
    ensures !VerifyLRC([0x55, 0x00, 0x00, 0x10, 0x00, 0x00, 0x10, 0x00])
    ensures VerifyLRC([0xAA, 0xAA])
  {
    var h: seq<byte> := [0x55, 0x00, 0x00, 0x10, 0x00, 0x00, 0x10];
    assert h + [0x55] == [0x55, 0x00, 0x00, 0x10, 0x00, 0x00, 0x10, 0x55];
    assert h + [0x00] == [0x55, 0x00, 0x00, 0x10, 0x00, 0x00, 0x10, 0x00];
    LrcHeaderExample();
    VerifyAcceptsAppended(h);
    VerifyRejectsWrongLast(h, 0x00);
    LrcSingle(0xAA);
    VerifyAcceptsAppended([0xAA]);
  }
}
