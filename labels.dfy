/**
 * The 64TASS label file reader (pkg/util/labels.go). Each line is trimmed
 * of white space; blank lines and lines starting with ';' or '#' are
 * comments; any other line that begins `LABEL = $ADDRESS` maps the label to
 * the address text without its '$', a later line overwriting an earlier
 * one; other lines are ignored. A load that leaves no labels at all fails.
 *
 * The file arrives as its sequence of lines, or `None` when it cannot be
 * opened. The pattern `^(\S+)\s*=\s*\$(\S+)` is matched by hand, with the
 * leftmost-first, greedy semantics of Go's `regexp`.
 */
module Labels {
  import opened Wrappers

  /** Why a label operation failed. */
  datatype LabelError = OpenFailed | NoLabels | NotFound(name: string)

  /** One label line: the label and its address text, without the '$'. */
  datatype Label = Label(name: string, address: string)

  // ---------------------------------------------------------------------
  // strings.TrimSpace

  /** White space as Go's `unicode.IsSpace` defines it. */
  predicate IsSpace(c: char) {
    ('\t' <= c <= '\r') || c == ' ' || c == '\U{85}' || c == '\U{A0}' || c == '\U{1680}'
    || ('\U{2000}' <= c <= '\U{200A}') || c == '\U{2028}' || c == '\U{2029}'
    || c == '\U{202F}' || c == '\U{205F}' || c == '\U{3000}'
  }

  predicate AllSpace(s: string) {
    forall k :: 0 <= k < |s| ==> IsSpace(s[k])
  }

  /** The index of the first character of `s` that is not white space, or `|s|`. */
  function TrimStart(s: string): (i: nat)
    ensures i <= |s| && AllSpace(s[..i])
    ensures i < |s| ==> !IsSpace(s[i])
  {
    if |s| == 0 || !IsSpace(s[0]) then 0
    else
      var i := 1 + TrimStart(s[1..]);
      assert forall k :: 1 <= k < i ==> s[..i][k] == s[1..][..i - 1][k - 1];
      i
  }

  /** The index just past the last character of `s` that is not white space, or 0. */
  function TrimEnd(s: string): (j: nat)
    ensures j <= |s| && AllSpace(s[j..])
    ensures j > 0 ==> !IsSpace(s[j - 1])
  {
    if |s| == 0 || !IsSpace(s[|s| - 1]) then |s|
    else
      var j := TrimEnd(s[..|s| - 1]);
      assert forall k :: j <= k < |s| - 1 ==> s[k] == s[..|s| - 1][k];
      j
  }

  /** `strings.TrimSpace`: `s` without its leading and trailing white space. */
  function TrimSpace(s: string): (t: string)
    ensures |t| <= |s|
    ensures |t| > 0 ==> !IsSpace(t[0]) && !IsSpace(t[|t| - 1])
  {
    var j := TrimEnd(s);
    s[TrimStart(s[..j])..j]
  }

  /** Trimming removes exactly the white space around the text. */
  lemma {:induction false} TrimSpaceOf(before: string, text: string, after: string)
    requires AllSpace(before) && AllSpace(after)
    requires |text| > 0 ==> !IsSpace(text[0]) && !IsSpace(text[|text| - 1])
    ensures TrimSpace(before + text + after) == text
  {
    var s := before + text + after;
    var j := TrimEnd(s);
    if |text| > 0 {
      assert s[|before| + |text| - 1] == text[|text| - 1];
      assert forall k :: |before| + |text| <= k < |s| ==> s[k] == after[k - |before| - |text|];
      assert j == |before| + |text|;
      var p := s[..j];
      assert p == before + text;
      assert p[|before|] == text[0];
      assert forall k :: 0 <= k < |before| ==> p[k] == before[k];
      assert p[TrimStart(p)..] == text;
    } else {
      assert s == before + after;
      assert forall k :: 0 <= k < |s| ==> IsSpace(s[k]);
    }
  }

  // ---------------------------------------------------------------------
  // The pattern ^(\S+)\s*=\s*\$(\S+)

  /** White space as `\s` in Go's `regexp` means it: `[\t\n\f\r ]`. */
  predicate IsPatternSpace(c: char) {
    c == '\t' || c == '\n' || c == '\U{C}' || c == '\r' || c == ' '
  }

  predicate PatternSpaces(s: string, i: nat, j: nat)
    requires i <= j <= |s|
  {
    forall k :: i <= k < j ==> IsPatternSpace(s[k])
  }

  predicate NoPatternSpace(s: string) {
    forall k :: 0 <= k < |s| ==> !IsPatternSpace(s[k])
  }

  /** End of the run of `\s` characters starting at `i`. */
  function SpaceEnd(s: string, i: nat): (j: nat)
    requires i <= |s|
    ensures i <= j <= |s| && PatternSpaces(s, i, j)
    ensures j < |s| ==> !IsPatternSpace(s[j])
    decreases |s| - i
  {
    if i == |s| || !IsPatternSpace(s[i]) then i else SpaceEnd(s, i + 1)
  }

  /** End of the run of `\S` characters starting at `i`. */
  function WordEnd(s: string, i: nat): (j: nat)
    requires i <= |s|
    ensures i <= j <= |s| && forall k :: i <= k < j ==> !IsPatternSpace(s[k])
    ensures j < |s| ==> IsPatternSpace(s[j])
    decreases |s| - i
  {
    if i == |s| || IsPatternSpace(s[i]) then i else WordEnd(s, i + 1)
  }

  /**
   * The line matches with `label` and `address` as the two groups, the '='
   * at `eq` and the '$' at `dollar`. The address group is greedy, so it
   * runs up to white space or the end of the line.
   */
  predicate MatchesAt(s: string, l: Label, eq: nat, dollar: nat) {
    var n, a := |l.name|, |l.address|;
    0 < n <= eq < dollar && dollar + 1 + a <= |s| && a > 0
    && s[..n] == l.name && NoPatternSpace(l.name)
    && PatternSpaces(s, n, eq) && s[eq] == '='
    && PatternSpaces(s, eq + 1, dollar) && s[dollar] == '$'
    && s[dollar + 1..dollar + 1 + a] == l.address && NoPatternSpace(l.address)
    && (dollar + 1 + a < |s| ==> IsPatternSpace(s[dollar + 1 + a]))
  }

  /** The pattern can match `s` with these groups. */
  ghost predicate Matches(s: string, l: Label) {
    exists eq, dollar :: MatchesAt(s, l, eq, dollar)
  }

  /** Tries the first group with exactly `k` characters. */
  function MatchWith(s: string, k: nat): Option<Label>
    requires k <= |s|
  {
    var eq := SpaceEnd(s, k);
    if eq == |s| || s[eq] != '=' then None
    else
      var dollar := SpaceEnd(s, eq + 1);
      if dollar == |s| || s[dollar] != '$' then None
      else
        var end := WordEnd(s, dollar + 1);
        if end == dollar + 1 then None else Some(Label(s[..k], s[dollar + 1..end]))
  }

  /** Backtracking of the greedy first group: `k` characters, then fewer. */
  function Search(s: string, k: nat): Option<Label>
    requires k <= |s|
  {
    if k == 0 then None
    else
      var m := MatchWith(s, k);
      if m.Some? then m else Search(s, k - 1)
  }

  /** `pattern.FindStringSubmatch(line)`, as the label and the address. */
  function MatchLabel(s: string): Option<Label> {
    Search(s, WordEnd(s, 0))
  }

  lemma {:induction false} MatchWithMatches(s: string, k: nat)
    requires 0 < k <= WordEnd(s, 0)
    ensures MatchWith(s, k).Some? ==> Matches(s, MatchWith(s, k).value) && |MatchWith(s, k).value.name| == k
  {
    var m := MatchWith(s, k);
    if m.Some? {
      var eq := SpaceEnd(s, k);
      var dollar := SpaceEnd(s, eq + 1);
      var end := WordEnd(s, dollar + 1);
      var l := m.value;
      assert l.name == s[..k] && l.address == s[dollar + 1..end];
      assert NoPatternSpace(l.name) by {
        assert forall t :: 0 <= t < |l.name| ==> l.name[t] == s[t];
      }
      assert NoPatternSpace(l.address) by {
        assert forall t :: 0 <= t < |l.address| ==> l.address[t] == s[dollar + 1 + t];
      }
      assert MatchesAt(s, l, eq, dollar);
    }
  }

  lemma {:induction false} SpaceEndIs(s: string, i: nat, j: nat)
    requires i <= j <= |s| && PatternSpaces(s, i, j) && (j < |s| ==> !IsPatternSpace(s[j]))
    ensures SpaceEnd(s, i) == j
  {
  }

  lemma {:induction false} WordEndAtLeast(s: string, i: nat, j: nat)
    requires i <= j <= |s| && forall t :: i <= t < j ==> !IsPatternSpace(s[t])
    ensures j <= WordEnd(s, i)
  {
  }

  /** A match fixes the run ends the matcher computes. */
  lemma {:induction false} MatchesAtEnds(s: string, l: Label, eq: nat, dollar: nat)
    requires MatchesAt(s, l, eq, dollar)
    ensures |l.name| <= WordEnd(s, 0)
    ensures SpaceEnd(s, |l.name|) == eq && SpaceEnd(s, eq + 1) == dollar
    ensures WordEnd(s, dollar + 1) == dollar + 1 + |l.address|
  {
    var n, a := |l.name|, |l.address|;
    assert forall t :: 0 <= t < n ==> s[t] == l.name[t];
    WordEndAtLeast(s, 0, n);
    SpaceEndIs(s, n, eq);
    SpaceEndIs(s, eq + 1, dollar);
    assert forall t :: dollar + 1 <= t < dollar + 1 + a ==> s[t] == l.address[t - dollar - 1];
    WordEndAtLeast(s, dollar + 1, dollar + 1 + a);
  }

  lemma {:induction false} MatchesAtMatchWith(s: string, l: Label, eq: nat, dollar: nat)
    requires MatchesAt(s, l, eq, dollar)
    ensures |l.name| <= WordEnd(s, 0) && MatchWith(s, |l.name|) == Some(l)
  {
    MatchesAtEnds(s, l, eq, dollar);
    var n, a := |l.name|, |l.address|;
    assert Label(s[..n], s[dollar + 1..dollar + 1 + a]) == l;
  }

  lemma {:induction false} MatchesMatchWith(s: string, l: Label)
    requires Matches(s, l)
    ensures |l.name| <= WordEnd(s, 0) && MatchWith(s, |l.name|) == Some(l)
  {
    var eq, dollar :| MatchesAt(s, l, eq, dollar);
    MatchesAtMatchWith(s, l, eq, dollar);
  }

  /** Two matches with first groups of the same length are the same match. */
  lemma {:induction false} MatchesUnique(s: string, l: Label, l': Label)
    requires Matches(s, l) && Matches(s, l') && |l.name| == |l'.name|
    ensures l == l'
  {
    MatchesMatchWith(s, l);
    MatchesMatchWith(s, l');
  }

  lemma {:induction false} SearchMatches(s: string, k: nat)
    requires k <= WordEnd(s, 0)
    ensures Search(s, k).Some? ==> Matches(s, Search(s, k).value) && |Search(s, k).value.name| <= k
  {
    if k > 0 {
      MatchWithMatches(s, k);
      SearchMatches(s, k - 1);
    }
  }

  lemma {:induction false} SearchLongest(s: string, k: nat, l: Label)
    requires k <= WordEnd(s, 0) && Matches(s, l) && |l.name| <= k
    ensures Search(s, k).Some? && |l.name| <= |Search(s, k).value.name|
  {
    MatchesMatchWith(s, l);
    if MatchWith(s, k).None? {
      SearchLongest(s, k - 1, l);
    } else {
      MatchWithMatches(s, k);
    }
  }

  /** What the matcher returns is a way the pattern matches the line. */
  lemma {:induction false} MatchLabelSound(s: string)
    ensures MatchLabel(s).Some? ==> Matches(s, MatchLabel(s).value)
  {
    SearchMatches(s, WordEnd(s, 0));
  }

  /**
   * Whenever the pattern can match, the matcher finds a match, and its
   * label is the longest one possible: the greedy leftmost-first choice.
   */
  lemma {:induction false} MatchLabelLongest(s: string, l: Label)
    requires Matches(s, l)
    ensures MatchLabel(s).Some? && |l.name| <= |MatchLabel(s).value.name|
  {
    MatchesMatchWith(s, l);
    SearchLongest(s, WordEnd(s, 0), l);
  }

  /** A line written as 64TASS writes it, `LABEL = $ADDRESS`, gives that label and address. */
  lemma {:induction false} MatchCanonical(name: string, address: string)
    requires |name| > 0 && NoPatternSpace(name) && |address| > 0 && NoPatternSpace(address)
    ensures MatchLabel(name + " = $" + address) == Some(Label(name, address))
  {
    var s := name + " = $" + address;
    var n := |name|;
    var l := Label(name, address);
    assert s[..n] == name && s[n] == ' ' && s[n + 1] == '=' && s[n + 2] == ' ' && s[n + 3] == '$';
    assert s[n + 4..] == address;
    assert MatchesAt(s, l, n + 1, n + 3);
    MatchLabelLongest(s, l);
    var m := MatchLabel(s).value;
    MatchLabelSound(s);
    SearchMatches(s, WordEnd(s, 0));
    MatchesUnique(s, l, m);
  }

  // ---------------------------------------------------------------------
  // Lines and files

  /** A trimmed line that the scan skips: blank, or a ';' or '#' comment. */
  predicate IsComment(t: string) {
    t == "" || t[0] == ';' || t[0] == '#'
  }

  /** What one line of the file contributes: a label, or nothing. */
  function LineLabel(line: string): Option<Label> {
    var t := TrimSpace(line);
    if IsComment(t) then None else MatchLabel(t)
  }

  /** What each of `lines` contributes, in order. */
  function Found(lines: seq<string>): (found: seq<Option<Label>>)
    ensures |found| == |lines|
  {
    if |lines| == 0 then [] else Found(lines[..|lines| - 1]) + [LineLabel(lines[|lines| - 1])]
  }

  /** `labels` with the contributed labels set in order, a later one overwriting an earlier one. */
  function Apply(labels: map<string, string>, found: seq<Option<Label>>): map<string, string> {
    if |found| == 0 then labels
    else
      var before := Apply(labels, found[..|found| - 1]);
      var l := found[|found| - 1];
      if l.Some? then before[l.value.name := l.value.address] else before
  }

  /** The labels after scanning `lines`, starting from `labels`. */
  function Scan(labels: map<string, string>, lines: seq<string>): map<string, string> {
    Apply(labels, Found(lines))
  }

  class LabelFile {
    var labels: map<string, string>

    /** `NewLabelFile`: no labels. */
    constructor ()
      ensures labels == map[]
    {
      labels := map[];
    }

    /**
     * `Load`: adds the labels of the file's lines, in order, to those
     * already held; fails when the file cannot be opened, or when no
     * label is held afterwards.
     */
    method Load(contents: Option<seq<string>>) returns (r: Result<(), LabelError>)
      modifies this
      ensures contents.None? ==> r == Err(OpenFailed) && labels == old(labels)
      ensures contents.Some? ==> labels == Scan(old(labels), contents.value)
      ensures contents.Some? ==> (r == Ok(()) <==> |labels| > 0) && (r.Err? ==> r.error == NoLabels)
    {
      if contents.None? {
        return Err(OpenFailed);
      }
      var lines := contents.value;
      for i := 0 to |lines|
        invariant labels == Scan(old(labels), lines[..i])
      {
        assert lines[..i + 1][..i] == lines[..i];
        var line := TrimSpace(lines[i]);
        if line == "" || line[0] == ';' || line[0] == '#' {
          continue;
        }
        var matches := MatchLabel(line);
        if matches.Some? {
          labels := labels[matches.value.name := matches.value.address];
        }
      }
      assert lines[..|lines|] == lines;
      if |labels| == 0 {
        return Err(NoLabels);
      }
      return Ok(());
    }

    /** `Lookup`: the address text of a held label, or an error naming the label. */
    function Lookup(name: string): (r: Result<string, LabelError>)
      reads this
      ensures r.Ok? <==> name in labels
      ensures r.Ok? ==> r.value == labels[name]
      ensures r.Err? ==> r.error == NotFound(name)
    {
      if name in labels then Ok(labels[name]) else Err(NotFound(name))
    }

    /** `Count`: the number of distinct labels held. */
    function Count(): (n: nat)
      reads this
      ensures n == |labels.Keys|
    {
      |labels|
    }
  }

  // ---------------------------------------------------------------------
  // Properties of the scan

  /** Line `i` contributes exactly what the line on its own does. */
  lemma {:induction false} FoundAt(lines: seq<string>, i: nat)
    requires i < |lines|
    ensures Found(lines)[i] == LineLabel(lines[i])
  {
    if i < |lines| - 1 {
      FoundAt(lines[..|lines| - 1], i);
    }
  }

  lemma {:induction false} ScanSnoc(labels: map<string, string>, lines: seq<string>, line: string)
    ensures Scan(labels, lines + [line]) == Apply(labels, Found(lines) + [LineLabel(line)])
  {
    assert (lines + [line])[..|lines|] == lines;
  }

  lemma {:induction false} ApplySnoc(labels: map<string, string>, found: seq<Option<Label>>, l: Option<Label>)
    ensures Apply(labels, found + [l]) == if l.Some? then Apply(labels, found)[l.value.name := l.value.address] else Apply(labels, found)
  {
    assert (found + [l])[..|found|] == found;
  }

  /** Blank lines, comments and lines the pattern does not match change nothing. */
  lemma {:induction false} SkippedLine(labels: map<string, string>, lines: seq<string>, line: string)
    requires IsComment(TrimSpace(line)) || MatchLabel(TrimSpace(line)).None?
    ensures Scan(labels, lines + [line]) == Scan(labels, lines)
  {
    ScanSnoc(labels, lines, line);
    ApplySnoc(labels, Found(lines), LineLabel(line));
  }

  /** A label line sets its label to its address and leaves every other label alone. */
  lemma {:induction false} LabelLine(labels: map<string, string>, lines: seq<string>, line: string, l: Label)
    requires LineLabel(line) == Some(l)
    ensures Scan(labels, lines + [line]) == Scan(labels, lines)[l.name := l.address]
  {
    ScanSnoc(labels, lines, line);
    ApplySnoc(labels, Found(lines), LineLabel(line));
  }

  /** Contribution `i` is label `name`. */
  predicate Gives(found: seq<Option<Label>>, i: nat, name: string)
    requires i < |found|
  {
    found[i].Some? && found[i].value.name == name
  }

  /** Contribution `i` is the last to be label `name`. */
  predicate LastGiving(found: seq<Option<Label>>, i: nat, name: string) {
    i < |found| && Gives(found, i, name) && forall j :: i < j < |found| ==> !Gives(found, j, name)
  }

  /** A label is held afterwards exactly when it was held before or some line gives it. */
  lemma {:induction false} ApplyHolds(labels: map<string, string>, found: seq<Option<Label>>, name: string)
    ensures name in Apply(labels, found) <==> name in labels || exists i :: 0 <= i < |found| && Gives(found, i, name)
  {
    if |found| > 0 {
      var front := found[..|found| - 1];
      ApplyHolds(labels, front, name);
      assert forall i :: 0 <= i < |front| ==> Gives(front, i, name) == Gives(found, i, name);
      if Gives(found, |found| - 1, name) {
        assert name in Apply(labels, found);
      } else {
        assert (name in Apply(labels, found)) == (name in Apply(labels, front));
        assert (exists i :: 0 <= i < |found| && Gives(found, i, name))
          == (exists i :: 0 <= i < |front| && Gives(front, i, name));
      }
    }
  }

  /** A held label's address is the one on the last line giving it. */
  lemma {:induction false} ApplyLastWins(labels: map<string, string>, found: seq<Option<Label>>, name: string, i: nat)
    requires LastGiving(found, i, name)
    ensures name in Apply(labels, found) && Apply(labels, found)[name] == found[i].value.address
  {
    if i < |found| - 1 {
      var front := found[..|found| - 1];
      assert forall j :: 0 <= j < |front| ==> Gives(front, j, name) == Gives(found, j, name);
      assert !Gives(found, |found| - 1, name);
      ApplyLastWins(labels, front, name, i);
    }
  }

  /** A label no line gives keeps the address it had before. */
  lemma {:induction false} ApplyKeeps(labels: map<string, string>, found: seq<Option<Label>>, name: string)
    requires name in labels && forall i :: 0 <= i < |found| ==> !Gives(found, i, name)
    ensures name in Apply(labels, found) && Apply(labels, found)[name] == labels[name]
  {
    if |found| > 0 {
      var front := found[..|found| - 1];
      assert forall j :: 0 <= j < |front| ==> Gives(front, j, name) == Gives(found, j, name);
      assert !Gives(found, |found| - 1, name);
      ApplyKeeps(labels, front, name);
    }
  }

  /** The lines of the label file in the package's test. */
  const TEST_FILE: seq<string> := [
    "; Test label file",
    "; This is a comment",
    "my_var = $1234",
    "pointer = $5678",
    "vector = $ABCD",
    "",
    "; Another comment",
    "data_block = $10000"
  ]

  /** A `LABEL = $ADDRESS` line, as 64TASS writes them, gives that label and address. */
  lemma {:induction false} CanonicalLine(name: string, address: string)
    requires |name| > 0 && NoPatternSpace(name) && |address| > 0 && NoPatternSpace(address)
    requires !IsSpace(name[0]) && !IsSpace(address[|address| - 1]) && name[0] != ';' && name[0] != '#'
    ensures LineLabel(name + " = $" + address) == Some(Label(name, address))
  {
    var s := name + " = $" + address;
    Untrimmed(s);
    assert s[0] == name[0] && s[|s| - 1] == address[|address| - 1];
    MatchCanonical(name, address);
  }

  /** A line with no white space at either end is its own trimming. */
  lemma {:induction false} Untrimmed(s: string)
    ensures |s| > 0 && !IsSpace(s[0]) && !IsSpace(s[|s| - 1]) ==> TrimSpace(s) == s
  {
    if |s| > 0 && !IsSpace(s[0]) && !IsSpace(s[|s| - 1]) {
      TrimSpaceOf("", s, "");
      assert "" + s + "" == s;
    }
  }

  lemma {:induction false} CanonicalLineAt(lines: seq<string>, k: nat, name: string, address: string)
    requires k < |lines| && lines[k] == name + " = $" + address
    requires |name| > 0 && NoPatternSpace(name) && |address| > 0 && NoPatternSpace(address)
    requires !IsSpace(name[0]) && !IsSpace(address[|address| - 1]) && name[0] != ';' && name[0] != '#'
    ensures LineLabel(lines[k]) == Some(Label(name, address))
  {
    CanonicalLine(name, address);
  }

  /** A blank line or a comment line gives nothing. */
  lemma {:induction false} CommentLine(line: string)
    requires |line| == 0 || ((line[0] == ';' || line[0] == '#') && !IsSpace(line[|line| - 1]))
    ensures LineLabel(line) == None
  {
    TrimSpaceOf("", line, "");
    assert "" + line + "" == line;
  }

  lemma {:induction false} TestLine2()
    ensures LineLabel(TEST_FILE[2]) == Some(Label("my_var", "1234"))
  {
    CanonicalLineAt(TEST_FILE, 2, "my_var", "1234");
  }

  lemma {:induction false} TestLine3()
    ensures LineLabel(TEST_FILE[3]) == Some(Label("pointer", "5678"))
  {
    CanonicalLineAt(TEST_FILE, 3, "pointer", "5678");
  }

  lemma {:induction false} TestLine4()
    ensures LineLabel(TEST_FILE[4]) == Some(Label("vector", "ABCD"))
  {
    CanonicalLineAt(TEST_FILE, 4, "vector", "ABCD");
  }

  lemma {:induction false} TestLine7()
    ensures LineLabel(TEST_FILE[7]) == Some(Label("data_block", "10000"))
  {
    CanonicalLineAt(TEST_FILE, 7, "data_block", "10000");
  }

  lemma {:induction false} TestComments()
    ensures LineLabel(TEST_FILE[0]) == None && LineLabel(TEST_FILE[1]) == None
    ensures LineLabel(TEST_FILE[5]) == None && LineLabel(TEST_FILE[6]) == None
  {
    CommentLine(TEST_FILE[0]);
    CommentLine(TEST_FILE[1]);
    CommentLine(TEST_FILE[5]);
    CommentLine(TEST_FILE[6]);
  }

  /** The scan of eight lines of which lines 2, 3, 4 and 7 give labels, the shape of the test file. */
  lemma {:induction false} ScanEight(lines: seq<string>, a: Label, b: Label, c: Label, d: Label)
    requires |lines| == 8
    requires LineLabel(lines[0]) == None && LineLabel(lines[1]) == None
    requires LineLabel(lines[2]) == Some(a) && LineLabel(lines[3]) == Some(b) && LineLabel(lines[4]) == Some(c)
    requires LineLabel(lines[5]) == None && LineLabel(lines[6]) == None && LineLabel(lines[7]) == Some(d)
    ensures Scan(map[], lines) == map[a.name := a.address, b.name := b.address, c.name := c.address, d.name := d.address]
  {
    assert forall k :: 0 < k <= 8 ==> lines[..k] == lines[..k - 1] + [lines[k - 1]];
    SkippedLine(map[], lines[..0], lines[0]);
    SkippedLine(map[], lines[..1], lines[1]);
    LabelLine(map[], lines[..2], lines[2], a);
    LabelLine(map[], lines[..3], lines[3], b);
    LabelLine(map[], lines[..4], lines[4], c);
    SkippedLine(map[], lines[..5], lines[5]);
    SkippedLine(map[], lines[..6], lines[6]);
    LabelLine(map[], lines[..7], lines[7], d);
    assert lines[..8] == lines;
  }

  /** The four labels of the test file are distinct. */
  lemma {:induction false} FourLabels()
    ensures |map["my_var" := "1234", "pointer" := "5678", "vector" := "ABCD", "data_block" := "10000"]| == 4
  {
    var m0: map<string, string> := map[];
    var m1 := m0["my_var" := "1234"];
    var m2 := m1["pointer" := "5678"];
    var m3 := m2["vector" := "ABCD"];
    assert m1.Keys == {"my_var"};
    assert "pointer" !in m1 by { assert |"pointer"| != |"my_var"|; }
    assert "vector" !in m2 by { assert "vector"[0] != "my_var"[0] && |"vector"| != |"pointer"|; }
    assert "data_block" !in m3;
    assert |m3| == 3;
  }

  /** The test file holds four labels, each with the address its line gives. */
  lemma {:induction false} TestFileLabels()
    ensures Scan(map[], TEST_FILE) ==
      map["my_var" := "1234", "pointer" := "5678", "vector" := "ABCD", "data_block" := "10000"]
    ensures |Scan(map[], TEST_FILE)| == 4
  {
    TestComments();
    TestLine2();
    TestLine3();
    TestLine4();
    TestLine7();
    ScanEight(TEST_FILE, Label("my_var", "1234"), Label("pointer", "5678"), Label("vector", "ABCD"), Label("data_block", "10000"));
    FourLabels();
  }

  /** Looking labels up in the loaded test file (`TestFileLabels`): its four labels, and an error for any other. */
  lemma {:induction false} TestFileLookups(lf: LabelFile)
    requires lf.labels == map["my_var" := "1234", "pointer" := "5678", "vector" := "ABCD", "data_block" := "10000"]
    ensures lf.Count() == 4
    ensures lf.Lookup("my_var") == Ok("1234") && lf.Lookup("pointer") == Ok("5678")
    ensures lf.Lookup("vector") == Ok("ABCD") && lf.Lookup("data_block") == Ok("10000")
    ensures lf.Lookup("nonexistent") == Err(NotFound("nonexistent"))
  {
    FourLabels();
  }

  /** A file of comments only holds no label, so loading it into an empty label file fails. */
  lemma {:induction false} CommentsOnly()
    ensures Scan(map[], ["; Only comments"]) == map[]
  {
    CommentLine("; Only comments");
    SkippedLine(map[], [], "; Only comments");
    assert [] + ["; Only comments"] == ["; Only comments"];
  }
}
