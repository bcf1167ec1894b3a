/**
 * The text helpers of pkg/util/display.go: `FormatHex` writes bytes as
 * upper-case hex pairs separated by single spaces; `ParseHexAddress` and
 * `ParseHexSize` strip a "0x", a "0X" and a "$" prefix, each at most once
 * and in that order, then read the value as `fmt.Sscanf` with `%x` reads
 * it into a 32-bit or a 16-bit unsigned integer.
 */
module Display {
  import opened Wrappers
  import opened Bytes
  import Labels

  // ---------------------------------------------------------------------
  // FormatHex

  /** The hex text of `data`: each byte as two upper-case digits, pairs separated by one space. */
  function HexText(data: seq<byte>): (s: string)
    ensures |s| == if |data| == 0 then 0 else 3 * |data| - 1
  {
    if |data| == 0 then ""
    else if |data| == 1 then HexPair(data[0])
    else HexText(data[..|data| - 1]) + " " + HexPair(data[|data| - 1])
  }

  /** `FormatHex`: the hex text, built pair by pair. */
  method FormatHex(data: seq<byte>) returns (s: string)
    ensures s == HexText(data)
  {
    if |data| == 0 {
      return "";
    }
    s := "";
    for i := 0 to |data|
      invariant s == HexText(data[..i])
    {
      assert data[..i + 1][..i] == data[..i];
      if i > 0 {
        s := s + " ";
      }
      s := s + HexPair(data[i]);
    }
    assert data[..|data|] == data;
  }

  /** Byte `i` is at characters `3i` and `3i + 1`, and a space follows every byte but the last. */
  lemma {:induction false} HexTextAt(data: seq<byte>, i: nat)
    requires i < |data|
    ensures HexText(data)[3 * i..3 * i + 2] == HexPair(data[i])
    ensures i + 1 < |data| ==> HexText(data)[3 * i + 2] == ' '
    decreases |data|
  {
    var s := HexText(data);
    if |data| > 1 {
      var front := data[..|data| - 1];
      var t := HexText(front);
      assert s == t + " " + HexPair(data[|data| - 1]);
      if i < |data| - 1 {
        HexTextAt(front, i);
        assert s[3 * i..3 * i + 2] == t[3 * i..3 * i + 2];
        if i + 1 < |front| {
          assert s[3 * i + 2] == t[3 * i + 2];
        }
      } else {
        assert s[3 * i..3 * i + 2] == HexPair(data[i]);
      }
    }
  }

  /** The hex text reads back as the bytes: each pair's value is its byte. */
  lemma HexTextDecodes(data: seq<byte>, i: nat)
    requires i < |data|
    ensures AllHex(HexText(data)[3 * i..3 * i + 2])
    ensures HexValue(HexText(data)[3 * i..3 * i + 2]) == data[i]
  {
    HexTextAt(data, i);
    HexValuePair(data[i]);
  }

  lemma FormatHexExample()
    ensures HexText([0x01, 0xAB, 0xFF]) == "01 AB FF"
  {
    var d: seq<byte> := [0x01, 0xAB, 0xFF];
    assert d[..1] == [0x01] && d[..2] == [0x01, 0xAB];
    assert HexPair(0x01) == "01" && HexPair(0xAB) == "AB" && HexPair(0xFF) == "FF";
  }

  // ---------------------------------------------------------------------
  // ParseHexAddress, ParseHexSize

  /** Why a hexadecimal parse failed; each carries the text left after the prefixes. */
  datatype ParseError = InvalidAddress(text: string) | InvalidSize(text: string)

  /** `strings.TrimPrefix`. */
  function TrimPrefix(s: string, prefix: string): (t: string)
    ensures prefix <= s ==> s == prefix + t
    ensures !(prefix <= s) ==> t == s
  {
    if prefix <= s then s[|prefix|..] else s
  }

  /** The three prefix strips, each at most once, in order. */
  function StripPrefixes(s: string): string {
    TrimPrefix(TrimPrefix(TrimPrefix(s, "0x"), "0X"), "$")
  }

  /** A character `%x` takes into its token: a hex digit, or '_'. */
  predicate IsTokenChar(c: char) {
    IsHexDigit(c) || c == '_'
  }

  /** Length of the token `%x` reads at the front of `s`. */
  function TokenLength(s: string): (n: nat)
    ensures n <= |s| && forall k :: 0 <= k < n ==> IsTokenChar(s[k])
    ensures n < |s| ==> !IsTokenChar(s[n])
  {
    if |s| == 0 || !IsTokenChar(s[0]) then 0 else 1 + TokenLength(s[1..])
  }

  /**
   * `fmt.Sscanf(s, "%x", &v)` reading the token itself, for an unsigned
   * `v` below `limit`: the token must be non-empty, hold no '_' (base 16
   * rejects it) and fit; whatever follows the token is left unread.
   */
  function ScanToken(s: string, limit: nat): (r: Option<nat>)
    ensures r.Some? ==> r.value < limit
  {
    var n := TokenLength(s);
    if n == 0 || !AllHex(s[..n]) then None
    else if HexValue(s[..n]) >= limit then None
    else Some(HexValue(s[..n]))
  }

  /** Length of the white space `Sscanf` skips before a number: the `unicode.IsSpace` characters but a newline. */
  function SpaceRun(s: string): (n: nat)
    ensures n <= |s| && forall k :: 0 <= k < n ==> Labels.IsSpace(s[k]) && s[k] != '\n'
    ensures n < |s| ==> !Labels.IsSpace(s[n]) || s[n] == '\n'
  {
    if |s| == 0 || !Labels.IsSpace(s[0]) || s[0] == '\n' then 0 else 1 + SpaceRun(s[1..])
  }

  /** `fmt.Sscanf(s, "%x", &v)`: leading white space skipped, a newline there an error, then the token. */
  function ScanHex(s: string, limit: nat): (r: Option<nat>)
    ensures r.Some? ==> r.value < limit
  {
    var n := SpaceRun(s);
    if n < |s| && s[n] == '\n' then None else ScanToken(s[n..], limit)
  }

  /** White space before the number is skipped. */
  lemma ScanSkipsSpace(space: string, s: string, limit: nat)
    requires forall k :: 0 <= k < |space| ==> Labels.IsSpace(space[k]) && space[k] != '\n'
    requires s == [] || !Labels.IsSpace(s[0])
    ensures ScanHex(space + s, limit) == ScanToken(s, limit)
  {
    var t := space + s;
    var n := SpaceRun(t);
    assert forall k :: 0 <= k < |space| ==> t[k] == space[k];
    assert |s| > 0 ==> t[|space|] == s[0];
    assert t[n..] == s;
  }

  /** `ParseHexAddress`. */
  function ParseHexAddress(s: string): (r: Result<u32, ParseError>)
    ensures r.Err? ==> r.error == InvalidAddress(StripPrefixes(s))
  {
    var t := StripPrefixes(s);
    var v := ScanHex(t, TWO_32);
    if v.None? then Err(InvalidAddress(t)) else Ok(v.value)
  }

  /** `ParseHexSize`. */
  function ParseHexSize(s: string): (r: Result<u16, ParseError>)
    ensures r.Err? ==> r.error == InvalidSize(StripPrefixes(s))
  {
    var t := StripPrefixes(s);
    var v := ScanHex(t, TWO_16);
    if v.None? then Err(InvalidSize(t)) else Ok(v.value)
  }

  /** Digits with nothing `%x` would take after them read as their value, a value too large as an error. */
  lemma {:induction false} ScanDigits(digits: string, rest: string, limit: nat)
    requires |digits| > 0 && AllHex(digits)
    requires rest == [] || !IsTokenChar(rest[0])
    ensures ScanHex(digits + rest, limit) == if HexValue(digits) < limit then Some(HexValue(digits)) else None
  {
    var s := digits + rest;
    assert s[0] == digits[0];
    ScanSkipsSpace([], s, limit);
    assert [] + s == s;
    var n := TokenLength(s);
    assert forall k :: 0 <= k < |digits| ==> s[k] == digits[k];
    assert |rest| > 0 ==> s[|digits|] == rest[0];
    assert s[..n] == digits;
  }

  /** No token at the front (no hex digit, or an underscore in it) is an error. */
  lemma {:induction false} ScanNoDigits(s: string, limit: nat)
    requires s == [] || !IsHexDigit(s[0]) || (exists k :: 0 <= k < TokenLength(s) && s[k] == '_')
    ensures ScanToken(s, limit) == None
  {
    var n := TokenLength(s);
    assert forall k :: 0 <= k < n ==> s[..n][k] == s[k];
  }

  /** The prefixes the parsers accept in front of the digits. */
  predicate IsHexPrefix(p: string) {
    p == "" || p == "0x" || p == "0X" || p == "$"
  }

  /**
   * Text that, after at most one accepted prefix, starts with nothing a
   * strip could remove: the prefix is stripped and nothing else.
   */
  lemma {:induction false} StripOne(p: string, body: string)
    requires IsHexPrefix(p)
    requires |body| > 0 && IsHexDigit(body[0])
    requires |body| > 1 && body[0] == '0' ==> body[1] != 'x' && body[1] != 'X'
    ensures StripPrefixes(p + body) == body
  {
    var s := p + body;
    if p == "" {
      assert s == body;
      assert !("0x" <= s) && !("0X" <= s) by {
        if |s| > 1 {
          assert "0x"[1] == 'x' && "0X"[1] == 'X';
        }
      }
      assert !("$" <= s);
    } else if p == "0x" {
      assert "0x" <= s && s[2..] == body;
      assert !("0X" <= body) && !("$" <= body);
    } else if p == "0X" {
      assert !("0x" <= s) by {
        assert s[1] == 'X';
      }
      assert "0X" <= s && s[2..] == body;
      assert !("$" <= body);
    } else {
      assert !("0x" <= s) && !("0X" <= s) by {
        assert s[0] == '$';
      }
      assert "$" <= s && s[1..] == body;
    }
  }

  /** Digits, and text after them that cannot begin a prefix, lose the prefix in front and nothing else. */
  lemma StripDigits(p: string, digits: string, rest: string)
    requires IsHexPrefix(p) && |digits| > 0 && AllHex(digits)
    requires rest == [] || (!IsTokenChar(rest[0]) && rest[0] != 'x' && rest[0] != 'X')
    ensures StripPrefixes(p + digits + rest) == digits + rest
  {
    var body := digits + rest;
    assert p + digits + rest == p + body;
    assert IsHexDigit(body[0]) && (|body| > 1 ==> body[1] != 'x' && body[1] != 'X') by {
      assert body[0] == digits[0];
      if |body| > 1 {
        if |digits| == 1 {
          assert body[1] == rest[0];
        } else {
          assert body[1] == digits[1];
        }
      }
    }
    StripOne(p, body);
  }

  /**
   * An address written as hex digits, with or without one of the accepted
   * prefixes, and followed by nothing or by text `%x` stops at, parses to
   * the digits' value when it fits in 32 bits, and is an error otherwise.
   */
  lemma ParseHexAddressDigits(p: string, digits: string, rest: string)
    requires IsHexPrefix(p) && |digits| > 0 && AllHex(digits)
    requires rest == [] || (!IsTokenChar(rest[0]) && rest[0] != 'x' && rest[0] != 'X')
    ensures ParseHexAddress(p + digits + rest) ==
      if HexValue(digits) < TWO_32 then Ok(HexValue(digits)) else Err(InvalidAddress(digits + rest))
  {
    var body := digits + rest;
    assert StripPrefixes(p + digits + rest) == body by {
      StripDigits(p, digits, rest);
    }
    assert ScanHex(body, TWO_32) == if HexValue(digits) < TWO_32 then Some(HexValue(digits)) else None by {
      ScanDigits(digits, rest, TWO_32);
    }
  }

  /** The same for sizes, which must fit in 16 bits. */
  lemma ParseHexSizeDigits(p: string, digits: string, rest: string)
    requires IsHexPrefix(p) && |digits| > 0 && AllHex(digits)
    requires rest == [] || (!IsTokenChar(rest[0]) && rest[0] != 'x' && rest[0] != 'X')
    ensures ParseHexSize(p + digits + rest) ==
      if HexValue(digits) < TWO_16 then Ok(HexValue(digits)) else Err(InvalidSize(digits + rest))
  {
    var body := digits + rest;
    assert StripPrefixes(p + digits + rest) == body by {
      StripDigits(p, digits, rest);
    }
    assert ScanHex(body, TWO_16) == if HexValue(digits) < TWO_16 then Some(HexValue(digits)) else None by {
      ScanDigits(digits, rest, TWO_16);
    }
  }

  /**
   * Text that, once the prefixes are gone, starts with neither a hex digit
   * nor white space, or holds an underscore in its token, or starts with a
   * newline, is an error for both parsers.
   */
  lemma ParseNoDigits(s: string)
    requires var t := StripPrefixes(s);
      || t == []
      || (!IsHexDigit(t[0]) && !Labels.IsSpace(t[0]))
      || (!Labels.IsSpace(t[0]) && exists k :: 0 <= k < TokenLength(t) && t[k] == '_')
      || t[0] == '\n'
    ensures ParseHexAddress(s) == Err(InvalidAddress(StripPrefixes(s)))
    ensures ParseHexSize(s) == Err(InvalidSize(StripPrefixes(s)))
  {
    var t := StripPrefixes(s);
    if t != [] && t[0] == '\n' {
      assert SpaceRun(t) == 0;
    } else {
      ScanSkipsSpace([], t, TWO_32);
      assert [] + t == t;
      ScanNoDigits(t, TWO_32);
      ScanNoDigits(t, TWO_16);
    }
  }

  /** White space before the digits is skipped by `Sscanf`, so the digits still read as their value. */
  lemma ParseSpaceDigits(space: string, digits: string, rest: string)
    requires |space| > 0 && forall k :: 0 <= k < |space| ==> Labels.IsSpace(space[k]) && space[k] != '\n'
    requires |digits| > 0 && AllHex(digits)
    requires rest == [] || !IsTokenChar(rest[0])
    ensures ParseHexAddress(space + digits + rest) ==
      if HexValue(digits) < TWO_32 then Ok(HexValue(digits)) else Err(InvalidAddress(space + digits + rest))
    ensures ParseHexSize(space + digits + rest) ==
      if HexValue(digits) < TWO_16 then Ok(HexValue(digits)) else Err(InvalidSize(space + digits + rest))
  {
    var body := digits + rest;
    var s := space + digits + rest;
    assert s == space + body;
    assert s[0] == space[0];
    assert !("0x" <= s) && !("0X" <= s) && !("$" <= s);
    assert body[0] == digits[0];
    ScanSkipsSpace(space, body, TWO_32);
    ScanSkipsSpace(space, body, TWO_16);
    ScanDigits(digits, rest, TWO_32);
    ScanDigits(digits, rest, TWO_16);
    ScanSkipsSpace([], body, TWO_32);
    ScanSkipsSpace([], body, TWO_16);
    assert [] + body == body;
  }

  // Cases of the package's tests and edge cases of the prefix strips; every
  // valid case of the tests is an instance of the two lemmas above.

  lemma AddressExample()
    ensures ParseHexAddress("1234") == Ok(0x1234)
  {
    Hex4('1', '2', '3', '4');
    ParseHexAddressDigits("", "1234", "");
    assert "" + "1234" + "" == "1234";
  }

  lemma SizeExample()
    ensures ParseHexSize("ff") == Ok(0xFF)
  {
    Hex2('f', 'f');
    ParseHexSizeDigits("", "ff", "");
    assert "" + "ff" + "" == "ff";
  }

  lemma InvalidExamples()
    ensures ParseHexAddress("GHIJ").Err? && ParseHexAddress("").Err?
    ensures ParseHexSize("XYZ").Err? && ParseHexSize("").Err?
  {
    assert "GHIJ"[0] == 'G' && "XYZ"[0] == 'X';
    assert StripPrefixes("GHIJ") == "GHIJ" && StripPrefixes("XYZ") == "XYZ";
    ParseNoDigits("GHIJ");
    ParseNoDigits("XYZ");
    ParseNoDigits("");
  }

  /** A value wider than the destination is an error, as `Sscanf` reports an overflow. */
  lemma OverflowExample()
    ensures ParseHexSize("10000").Err?
  {
    Hex4('1', '0', '0', '0');
    HexSnoc("1000", '0');
    assert "1000" + ['0'] == "10000";
    ParseHexSizeDigits("", "10000", "");
    assert "" + "10000" + "" == "10000";
  }

  /** An underscore inside the digits is an error: base 16 does not take it. */
  lemma UnderscoreExample()
    ensures ParseHexAddress("12_34").Err?
  {
    assert "12_34"[0] == '1';
    assert TokenLength("12_34") == 5;
    ParseNoDigits("12_34");
  }

  /** The prefixes are stripped once each and in this order only. */
  lemma StripOrderExample()
    ensures StripPrefixes("0x0X$12") == "12"
  {
    assert "0x" <= "0x0X$12" && "0x0X$12"[2..] == "0X$12";
    assert "0X" <= "0X$12" && "0X$12"[2..] == "$12";
    assert "$" <= "$12" && "$12"[1..] == "12";
  }

  /** "$0x12" keeps its "0x" after the "$" is stripped, and `%x` stops at the 'x': the address is 0. */
  lemma DollarThenHexMarkExample()
    ensures ParseHexAddress("$0x12") == Ok(0)
  {
    assert "$0x12"[0] == '$';
    assert "$0x12"[1..] == "0x12";
    Hex1('0');
    ScanDigits("0", "x12", TWO_32);
    assert "0" + "x12" == "0x12";
  }

  // The value of short digit strings, one digit appended at a time.

  lemma HexSnoc(s: string, c: char)
    requires AllHex(s) && IsHexDigit(c)
    ensures AllHex(s + [c]) && HexValue(s + [c]) == HexValue(s) * 16 + DigitValue(c)
  {
    assert (s + [c])[..|s|] == s;
  }

  lemma Hex1(a: char)
    requires IsHexDigit(a)
    ensures HexValue([a]) == DigitValue(a)
  {
    assert [a][..0] == [];
  }

  lemma Hex2(a: char, b: char)
    requires IsHexDigit(a) && IsHexDigit(b)
    ensures HexValue([a, b]) == DigitValue(a) * 0x10 + DigitValue(b)
  {
    Hex1(a);
    HexSnoc([a], b);
    assert [a] + [b] == [a, b];
  }

  lemma Hex4(a: char, b: char, c: char, d: char)
    requires IsHexDigit(a) && IsHexDigit(b) && IsHexDigit(c) && IsHexDigit(d)
    ensures HexValue([a, b, c, d]) == DigitValue(a) * 0x1000 + DigitValue(b) * 0x100 + DigitValue(c) * 0x10 + DigitValue(d)
  {
    Hex2(a, b);
    HexSnoc([a, b], c);
    assert [a, b] + [c] == [a, b, c];
    HexSnoc([a, b, c], d);
    assert [a, b, c] + [d] == [a, b, c, d];
  }

  lemma Hex6(a: char, b: char, c: char, d: char, e: char, f: char)
    requires IsHexDigit(a) && IsHexDigit(b) && IsHexDigit(c) && IsHexDigit(d) && IsHexDigit(e) && IsHexDigit(f)
    ensures HexValue([a, b, c, d, e, f]) ==
      (DigitValue(a) * 0x1000 + DigitValue(b) * 0x100 + DigitValue(c) * 0x10 + DigitValue(d)) * 0x100
      + DigitValue(e) * 0x10 + DigitValue(f)
  {
    Hex4(a, b, c, d);
    HexSnoc([a, b, c, d], e);
    assert [a, b, c, d] + [e] == [a, b, c, d, e];
    HexSnoc([a, b, c, d, e], f);
    assert [a, b, c, d, e] + [f] == [a, b, c, d, e, f];
  }
}
