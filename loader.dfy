/**
 * What the five file-format loaders share (pkg/loader/loader.go): the
 * errors a load ends with, the decoder of hexadecimal digit pairs used by
 * the two text formats, and the embedded base loader that holds the open
 * file and the write handler.
 *
 * A loader's write handler is a `Device.Port`: each `(address, data)` the
 * loader emits is a `WriteBlock(address, data)` call on it, which the
 * handler may refuse.
 */
module Loader {
  import opened Wrappers
  import opened Bytes
  import opened Device
  import Vectors

  /** Why `hexStringToBytes` refused its input. */
  datatype HexError = OddLength | InvalidHex(position: nat)

  /** Why an `Open` or a `Process` call failed. Line numbers count from 1. */
  datatype LoadError =
    | OpenFailed
    | ReadFailed
    | CloseFailed
    | FileNotOpen
    | HandlerNotSet
    | InvalidFormat(line: nat)
    | InvalidData(line: nat, cause: HexError)
    | ByteCountMismatch(line: nat, expected: nat, got: nat)
    | HandlerFailed(line: nat)
    | UnsupportedRecord(recordType: nat, line: nat)
    | RecordTooShort(line: nat)
    | MissingSignature
    | UnexpectedEnd(offset: nat)
    | BlockExceedsFile(offset: nat)
    | BlockRejected
    | FileTooSmall
    | BadSignature(signature: seq<byte>)
    | UnsupportedVersion(version: nat)
    | WrongCpu(cpuType: nat, cpu: string)
    | UnsupportedCpuType(cpuType: nat)
    | DataBlockRejected
    | VectorsFailed(vectorError: Vectors.VectorError)
    | InvalidHeader(header: byte)
    | ChunkRejected(address: u32)
    | BlockRejectedAt(address: u32)

  /** A decoded block header and its data, and the offset of the next block. */
  datatype BlockRead = BlockRead(address: u32, block: seq<byte>, next: nat)

  /** A reset-vector error, as a load error. */
  function VectorsError(e: Vectors.VectorError): LoadError {
    VectorsFailed(e)
  }

  // ---------------------------------------------------------------------
  // hexStringToBytes

  /** Two hex digits as one byte: `hi` gives its high nibble and `lo` its low one. */
  function PairValue(hi: char, lo: char): (b: byte)
    requires IsHexDigit(hi) && IsHexDigit(lo)
    ensures b / 16 == DigitValue(hi) && b % 16 == DigitValue(lo)
  {
    16 * DigitValue(hi) + DigitValue(lo)
  }

  /** A pair of digits makes the byte that the two-digit string reads as. */
  lemma PairValueReads(hi: char, lo: char)
    requires IsHexDigit(hi) && IsHexDigit(lo)
    ensures PairValue(hi, lo) == HexValue([hi, lo])
  {
    assert [hi, lo][..1] == [hi] && [hi][..0] == [];
  }

  /** `Ok(prefix + v)` for a decoded `v`; an error stays as it is. */
  function Prefixed(prefix: seq<byte>, r: Result<seq<byte>, HexError>): Result<seq<byte>, HexError> {
    if r.Ok? then Ok(prefix + r.value) else r
  }

  /** The pairs of `s` from position `i` on, up to the first pair that is not two hex digits. */
  function DecodePairs(s: string, i: nat): Result<seq<byte>, HexError>
    requires |s| % 2 == 0 && i % 2 == 0 && i <= |s|
    decreases |s| - i
  {
    if i == |s| then Ok([])
    else if !IsHexDigit(s[i]) || !IsHexDigit(s[i + 1]) then Err(InvalidHex(i))
    else Prefixed([PairValue(s[i], s[i + 1])], DecodePairs(s, i + 2))
  }

  /** What `hexStringToBytes(s)` returns: the length is checked first, then each pair in turn. */
  function DecodeHex(s: string): Result<seq<byte>, HexError> {
    if |s| % 2 != 0 then Err(OddLength) else DecodePairs(s, 0)
  }

  /** `hexStringToBytes`: fills a buffer of `|s| / 2` bytes, one pair of digits at a time. */
  method HexStringToBytes(hexStr: string) returns (r: Result<seq<byte>, HexError>)
    ensures r == DecodeHex(hexStr)
  {
    if |hexStr| % 2 != 0 {
      return Err(OddLength);
    }
    var bytes := new byte[|hexStr| / 2];
    var i := 0;
    PrefixedEmpty(DecodePairs(hexStr, 0));
    assert bytes[..0] == [];
    while i < |hexStr|
      invariant 0 <= i <= |hexStr| && i % 2 == 0
      invariant DecodeHex(hexStr) == Prefixed(bytes[..i / 2], DecodePairs(hexStr, i))
    {
      if !IsHexDigit(hexStr[i]) || !IsHexDigit(hexStr[i + 1]) {
        return Err(InvalidHex(i));
      }
      ghost var before := bytes[..i / 2];
      var b := PairValue(hexStr[i], hexStr[i + 1]);
      bytes[i / 2] := b;
      assert bytes[..i / 2 + 1] == before + [b];
      PrefixedAssoc(before, b, DecodePairs(hexStr, i + 2));
      i := i + 2;
    }
    assert bytes[..i / 2] == bytes[..] && bytes[..] + [] == bytes[..];
    return Ok(bytes[..]);
  }

  lemma PrefixedEmpty(r: Result<seq<byte>, HexError>)
    ensures Prefixed([], r) == r
  {
    if r.Ok? {
      assert [] + r.value == r.value;
    }
  }

  lemma PrefixedAssoc(prefix: seq<byte>, b: byte, r: Result<seq<byte>, HexError>)
    ensures Prefixed(prefix, Prefixed([b], r)) == Prefixed(prefix + [b], r)
  {
    if r.Ok? {
      assert prefix + ([b] + r.value) == (prefix + [b]) + r.value;
    }
  }

  /** Two upper-case hex digits per byte, most significant nibble first. */
  function EncodeHex(bs: seq<byte>): (s: string)
    ensures |s| == 2 * |bs|
  {
    seq(2 * |bs|, i requires 0 <= i < 2 * |bs| => if i % 2 == 0 then UpperDigit(bs[i / 2] / 16) else UpperDigit(bs[i / 2] % 16))
  }

  /** A successful decode yields `(|s| - i) / 2` bytes, byte `j` being the value of the `j`-th pair. */
  lemma {:induction false} DecodePairsOk(s: string, i: nat)
    requires |s| % 2 == 0 && i % 2 == 0 && i <= |s| && DecodePairs(s, i).Ok?
    ensures |DecodePairs(s, i).value| == (|s| - i) / 2
    ensures forall j :: 0 <= j < (|s| - i) / 2 ==>
      IsHexDigit(s[i + 2 * j]) && IsHexDigit(s[i + 2 * j + 1])
      && DecodePairs(s, i).value[j] == PairValue(s[i + 2 * j], s[i + 2 * j + 1])
    decreases |s| - i
  {
    if i < |s| {
      assert DecodePairs(s, i + 2).Ok?;
      DecodePairsOk(s, i + 2);
      PairsShift(s, i, DecodePairs(s, i + 2).value);
    }
  }

  /** One more pair in front: the pairs decoded from `i + 2` on move up by one place. */
  lemma PairsShift(s: string, i: nat, rest: seq<byte>)
    requires |s| % 2 == 0 && i % 2 == 0 && i + 2 <= |s|
    requires IsHexDigit(s[i]) && IsHexDigit(s[i + 1])
    requires |rest| == (|s| - (i + 2)) / 2
    requires forall k :: 0 <= k < |rest| ==>
      IsHexDigit(s[i + 2 + 2 * k]) && IsHexDigit(s[i + 2 + 2 * k + 1])
      && rest[k] == PairValue(s[i + 2 + 2 * k], s[i + 2 + 2 * k + 1])
    ensures forall j :: 0 <= j < (|s| - i) / 2 ==>
      IsHexDigit(s[i + 2 * j]) && IsHexDigit(s[i + 2 * j + 1])
      && ([PairValue(s[i], s[i + 1])] + rest)[j] == PairValue(s[i + 2 * j], s[i + 2 * j + 1])
  {
    var v := [PairValue(s[i], s[i + 1])] + rest;
    forall j | 0 < j < (|s| - i) / 2
      ensures IsHexDigit(s[i + 2 * j]) && IsHexDigit(s[i + 2 * j + 1])
        && v[j] == PairValue(s[i + 2 * j], s[i + 2 * j + 1])
    {
      var k := j - 1;
      assert i + 2 + 2 * k == i + 2 * j;
      assert v[j] == rest[k];
    }
  }

  /** A string of hex digits from position `i` on always decodes. */
  lemma {:induction false} DecodePairsAccepts(s: string, i: nat)
    requires |s| % 2 == 0 && i % 2 == 0 && i <= |s|
    requires forall k :: i <= k < |s| ==> IsHexDigit(s[k])
    ensures DecodePairs(s, i).Ok?
    decreases |s| - i
  {
    if i < |s| {
      DecodePairsAccepts(s, i + 2);
    }
  }

  /** The first pair that is not two hex digits is the one reported. */
  lemma {:induction false} DecodePairsRejects(s: string, i: nat, p: nat)
    requires |s| % 2 == 0 && i % 2 == 0 && p % 2 == 0 && i <= p < |s|
    requires forall k :: i <= k < p ==> IsHexDigit(s[k])
    requires !IsHexDigit(s[p]) || !IsHexDigit(s[p + 1])
    ensures DecodePairs(s, i) == Err(InvalidHex(p))
    decreases p - i
  {
    if i < p {
      DecodePairsRejects(s, i + 2, p);
    }
  }

  /** An odd number of digits is an error before any digit is looked at. */
  lemma DecodeHexOdd(s: string)
    requires |s| % 2 == 1
    ensures DecodeHex(s) == Err(OddLength)
  {
  }

  /** On success the result has one byte per pair, byte `j` being the value of digits `2j` and `2j+1`. */
  lemma DecodeHexOk(s: string)
    requires DecodeHex(s).Ok?
    ensures |s| % 2 == 0 && AllHex(s)
    ensures |DecodeHex(s).value| == |s| / 2
    ensures forall j :: 0 <= j < |s| / 2 ==> DecodeHex(s).value[j] == PairValue(s[2 * j], s[2 * j + 1])
  {
    DecodePairsOk(s, 0);
    forall k | 0 <= k < |s|
      ensures IsHexDigit(s[k])
    {
      var j := k / 2;
      assert 0 + 2 * j == k || 0 + 2 * j + 1 == k;
    }
  }

  /** Decoding succeeds exactly on even-length strings of hex digits, of either case. */
  lemma DecodeHexAccepts(s: string)
    ensures DecodeHex(s).Ok? <==> |s| % 2 == 0 && AllHex(s)
  {
    if |s| % 2 == 0 && AllHex(s) {
      DecodePairsAccepts(s, 0);
    }
    if DecodeHex(s).Ok? {
      DecodeHexOk(s);
    }
  }

  /** The two digits of byte `j` sit at positions `2j` and `2j+1`. */
  lemma EncodeHexAt(bs: seq<byte>, j: nat)
    requires j < |bs|
    ensures EncodeHex(bs)[2 * j] == UpperDigit(bs[j] / 16)
    ensures EncodeHex(bs)[2 * j + 1] == UpperDigit(bs[j] % 16)
  {
    assert (2 * j) / 2 == j && (2 * j) % 2 == 0;
    assert (2 * j + 1) / 2 == j && (2 * j + 1) % 2 == 1;
  }

  lemma EncodeHexDigits(bs: seq<byte>)
    ensures AllHex(EncodeHex(bs))
  {
    var s := EncodeHex(bs);
    forall k | 0 <= k < |s|
      ensures IsHexDigit(s[k])
    {
      EncodeHexAt(bs, k / 2);
      assert k == 2 * (k / 2) || k == 2 * (k / 2) + 1;
    }
  }

  /** Decoding undoes two-digit encoding. */
  lemma DecodeEncodeHex(bs: seq<byte>)
    ensures DecodeHex(EncodeHex(bs)) == Ok(bs)
  {
    var s := EncodeHex(bs);
    EncodeHexDigits(bs);
    DecodeHexAccepts(s);
    DecodeHexOk(s);
    var v := DecodeHex(s).value;
    assert |v| == |bs|;
    forall j | 0 <= j < |bs|
      ensures v[j] == bs[j]
    {
      EncodeHexAt(bs, j);
      assert v[j] == 16 * (bs[j] / 16) + bs[j] % 16;
    }
    assert v == bs;
  }

  /** The digits of bytes `j` to `k` are digits `2j` to `2k` of the encoding. */
  lemma EncodeHexSlice(bs: seq<byte>, j: nat, k: nat)
    requires j <= k <= |bs|
    ensures EncodeHex(bs)[2 * j..2 * k] == EncodeHex(bs[j..k])
  {
    var l, r := EncodeHex(bs)[2 * j..2 * k], EncodeHex(bs[j..k]);
    forall m | 0 <= m < 2 * (k - j)
      ensures l[m] == r[m]
    {
      assert (2 * j + m) / 2 == j + m / 2 && (2 * j + m) % 2 == m % 2;
      assert bs[j..k][m / 2] == bs[j + m / 2];
    }
  }

  /** Encoding distributes over concatenation. */
  lemma EncodeHexAppend(a: seq<byte>, b: seq<byte>)
    ensures EncodeHex(a + b) == EncodeHex(a) + EncodeHex(b)
  {
    var l, r := EncodeHex(a + b), EncodeHex(a) + EncodeHex(b);
    forall m | 0 <= m < 2 * (|a| + |b|)
      ensures l[m] == r[m]
    {
      if m < 2 * |a| {
        assert (a + b)[m / 2] == a[m / 2];
      } else {
        assert (m - 2 * |a|) / 2 == m / 2 - |a| && (m - 2 * |a|) % 2 == m % 2;
        assert (a + b)[m / 2] == b[m / 2 - |a|];
      }
    }
  }

  lemma EncodeHexSingle(b: byte)
    ensures EncodeHex([b]) == HexPair(b)
  {
  }

  /** The encoding read as one number is the big-endian value of the bytes. */
  lemma {:induction false} HexValueOfEncodeHex(bs: seq<byte>)
    ensures AllHex(EncodeHex(bs)) && HexValue(EncodeHex(bs)) == BE(bs)
    decreases |bs|
  {
    EncodeHexDigits(bs);
    if |bs| > 0 {
      var n := |bs|;
      var init := bs[..n - 1];
      var last := bs[n - 1];
      assert EncodeHex(bs) == EncodeHex(init) + HexPair(last) by {
        EncodeHexSlice(bs, 0, n - 1);
        EncodeHexSlice(bs, n - 1, n);
        assert bs[0..n - 1] == init && bs[n - 1..n] == [last];
        EncodeHexSingle(last);
        var e := EncodeHex(bs);
        assert e == e[..2 * (n - 1)] + e[2 * (n - 1)..2 * n];
      }
      assert HexValue(EncodeHex(init)) == BE(init) by {
        HexValueOfEncodeHex(init);
      }
      assert HexValue(EncodeHex(init) + HexPair(last)) == HexValue(EncodeHex(init)) * TWO_8 + last by {
        EncodeHexDigits(init);
        EncodeHexDigits([last]);
        EncodeHexSingle(last);
        HexValueAppend(EncodeHex(init), HexPair(last));
        HexValuePair(last);
        Pow16Values();
      }
    }
  }

  /** The digits are read in either case: `"ab"` and `"AB"` both give 0xAB. */
  lemma DecodeHexExamples()
    ensures DecodeHex("ab") == Ok([0xAB]) && DecodeHex("AB") == Ok([0xAB])
    ensures DecodeHex("0102") == Ok([0x01, 0x02])
    ensures DecodeHex("G1") == Err(InvalidHex(0)) && DecodeHex("123") == Err(OddLength)
  {
    assert DecodePairs("ab", 2) == Ok([]) && DecodePairs("AB", 2) == Ok([]);
    assert PairValue('a', 'b') == 0xAB && PairValue('A', 'B') == 0xAB;
    assert [0xAB] + [] == [0xAB];
    assert DecodePairs("0102", 4) == Ok([]);
    assert PairValue('0', '2') == 0x02 && PairValue('0', '1') == 0x01;
    assert [0x02] + [] == [0x02] && [0x01] + [0x02] == [0x01, 0x02];
    assert DecodePairs("0102", 2) == Ok([0x02]);
  }

  // ---------------------------------------------------------------------
  // BaseLoader

  /**
   * The state every loader embeds: the open text file, as the lines a line
   * scanner yields, and the write handler.
   */
  class BaseLoader {
    var file: Option<seq<string>>
    var handler: Port?

    constructor ()
      ensures file == None && handler == null
    {
      file := None;
      handler := null;
    }

    /** Replaces the handler and nothing else. */
    method SetHandler(h: Port)
      modifies this
      ensures handler == h && file == old(file)
    {
      handler := h;
    }

    /** Closing without an open file succeeds; closing an open one reports the system's answer. */
    method Close() returns (r: Result<(), LoadError>)
      ensures file.None? ==> r == Ok(())
      ensures r == Ok(()) || (file.Some? && r == Err(CloseFailed))
    {
      if file.None? {
        return Ok(());
      }
      var ok: bool :| true;
      r := if ok then Ok(()) else Err(CloseFailed);
    }
  }
}
