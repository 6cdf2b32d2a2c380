/** The handful of Python `str` operations video_gen relies on, over `seq<char>`:
    `strip`, `split()` (word splitting), `splitlines`, `join`, `lower`,
    `replace`, `startswith` and `endswith`.
    Whitespace is the ASCII part of `str.isspace` (which is also what the `re`
    module's `\s` matches); case mapping is ASCII only. */
module Text {

  /** ASCII characters for which Python's `str.isspace` holds. */
  predicate IsSpace(c: char) {
    c == ' ' || c == '\t' || c == '\n' || c == '\r' || c == '\U{0B}' || c == '\U{0C}'
    || c == '\U{1C}' || c == '\U{1D}' || c == '\U{1E}' || c == '\U{1F}'
  }

  predicate AllSpace(s: string) {
    forall i :: 0 <= i < |s| ==> IsSpace(s[i])
  }

  predicate NoSpace(s: string) {
    forall i :: 0 <= i < |s| ==> !IsSpace(s[i])
  }

  /** Neither end of `s` is whitespace. */
  predicate Trimmed(s: string) {
    s == [] || (!IsSpace(s[0]) && !IsSpace(s[|s| - 1]))
  }

  /** `r` occurs in `s` at some offset. */
  ghost predicate IsSlice(r: string, s: string) {
    exists i, j :: 0 <= i <= j <= |s| && r == s[i..j]
  }

  predicate StartsWith(s: string, p: string) {
    |p| <= |s| && s[..|p|] == p
  }

  predicate EndsWith(s: string, p: string) {
    |p| <= |s| && s[|s| - |p|..] == p
  }

  // ---------------------------------------------------------------------------
  // strip

  /** `str.lstrip()`: drops the leading whitespace run. */
  function LStrip(s: string): (r: string)
    ensures |r| <= |s| && r == s[|s| - |r|..]
    ensures forall i :: 0 <= i < |s| - |r| ==> IsSpace(s[i])
    ensures r != [] ==> !IsSpace(r[0])
  {
    if s != [] && IsSpace(s[0]) then LStrip(s[1..]) else s
  }

  /** `str.rstrip()`: drops the trailing whitespace run. */
  function RStrip(s: string): (r: string)
    ensures |r| <= |s| && r == s[..|r|]
    ensures forall i :: |r| <= i < |s| ==> IsSpace(s[i])
    ensures r != [] ==> !IsSpace(r[|r| - 1])
  {
    if s != [] && IsSpace(s[|s| - 1]) then RStrip(s[..|s| - 1]) else s
  }

  /** `str.strip()`: the part of `s` left after removing whitespace at both ends. */
  function Strip(s: string): (r: string)
    ensures Trimmed(r)
    ensures IsSlice(r, s)
    ensures forall c :: c in r ==> c in s
  {
    var l := LStrip(s);
    var r := RStrip(l);
    SliceOfSlice(s, |s| - |l|, |r|);
    r
  }

  lemma {:induction false} SliceTrans(a: string, b: string, c: string)
    requires IsSlice(a, b) && IsSlice(b, c)
    ensures IsSlice(a, c)
  {
    var i, j :| 0 <= i <= j <= |b| && a == b[i..j];
    var i', j' :| 0 <= i' <= j' <= |c| && b == c[i'..j'];
    SliceOfSliceIndex(c, i', j', i, j);
    assert 0 <= i' + i <= i' + j <= |c| && a == c[i' + i..i' + j];
  }

  lemma {:induction false} SliceOfSliceIndex(c: string, i': nat, j': nat, i: nat, j: nat)
    requires i' <= j' <= |c| && i <= j <= j' - i'
    ensures c[i'..j'][i..j] == c[i' + i..i' + j]
  {
    forall k | 0 <= k < j - i ensures c[i'..j'][i..j][k] == c[i' + i..i' + j][k] {
      assert c[i'..j'][i..j][k] == c[i'..j'][i + k] == c[i' + i + k];
    }
  }

  lemma {:induction false} SliceOfSlice(s: string, i: nat, n: nat)
    requires i + n <= |s|
    ensures IsSlice(s[i..][..n], s)
  {
    assert s[i..][..n] == s[i..i + n];
  }

  lemma {:induction false} LStripOfSpacePrefix(a: string, t: string)
    requires AllSpace(a)
    requires t == [] || !IsSpace(t[0])
    ensures LStrip(a + t) == t
  {
    if a != [] {
      assert (a + t)[1..] == a[1..] + t;
      LStripOfSpacePrefix(a[1..], t);
    }
  }

  lemma {:induction false} RStripOfSpaceSuffix(t: string, b: string)
    requires AllSpace(b)
    requires t == [] || !IsSpace(t[|t| - 1])
    ensures RStrip(t + b) == t
  {
    if b != [] {
      assert (t + b)[..|t + b| - 1] == t + b[..|b| - 1];
      RStripOfSpaceSuffix(t, b[..|b| - 1]);
    }
  }

  /** Stripping removes exactly the whitespace padding around a trimmed text. */
  lemma {:induction false} StripOfPadded(a: string, t: string, b: string)
    requires AllSpace(a) && AllSpace(b) && Trimmed(t)
    ensures Strip(a + t + b) == t
  {
    if t == [] {
      assert a + t + b == a + b;
      assert AllSpace(a + b);
      LStripOfSpacePrefix(a + b, []);
      assert a + b + [] == a + b;
    } else {
      assert a + t + b == a + (t + b);
      LStripOfSpacePrefix(a, t + b);
      RStripOfSpaceSuffix(t, b);
    }
  }

  /** Stripping a slice ignores whitespace at its start. */
  lemma {:induction false} StripOfSliceAfterSpace(s: string, e: nat, k: nat, f: nat)
    requires e <= k <= f <= |s| && AllSpace(s[e..k])
    ensures Strip(s[e..f]) == Strip(s[k..f])
  {
    assert s[e..f] == s[e..k] + s[k..f];
    StripIgnoresLeadingSpace(s[e..k], s[k..f]);
  }

  /** Stripping the tail of a text ignores whitespace at both ends of it. */
  lemma {:induction false} StripOfPaddedTail(s: string, e: nat, k: nat, f: nat)
    requires e <= k <= f <= |s| && AllSpace(s[e..k]) && AllSpace(s[f..])
    ensures Strip(s[e..]) == Strip(s[k..f])
  {
    assert s[e..] == s[e..k] + s[k..f] + s[f..];
    StripIgnoresPadding(s[e..k], s[k..f], s[f..]);
  }

  /** A trimmed text between a space and a newline strips back to itself. */
  lemma {:induction false} StripOfSpaced(t: string)
    requires Trimmed(t)
    ensures Strip(" " + t + "\n") == t
  {
    assert AllSpace(" ") && AllSpace("\n");
    StripOfPadded(" ", t, "\n");
  }

  lemma {:induction false} LStripIgnoresLeadingSpace(a: string, s: string)
    requires AllSpace(a)
    ensures LStrip(a + s) == LStrip(s)
  {
    if a != [] {
      assert IsSpace((a + s)[0]);
      assert (a + s)[1..] == a[1..] + s;
      LStripIgnoresLeadingSpace(a[1..], s);
    } else {
      assert a + s == s;
    }
  }

  lemma {:induction false} RStripIgnoresTrailingSpace(s: string, b: string)
    requires AllSpace(b)
    ensures RStrip(s + b) == RStrip(s)
    decreases |b|
  {
    if b == [] {
      assert s + b == s;
    } else {
      assert IsSpace((s + b)[|s + b| - 1]);
      assert (s + b)[..|s + b| - 1] == s + b[..|b| - 1];
      RStripIgnoresTrailingSpace(s, b[..|b| - 1]);
    }
  }

  /** A slice of a whitespace run is whitespace. */
  lemma {:induction false} AllSpaceWithin(s: string, i: nat, j: nat, k: nat)
    requires i <= j <= k <= |s| && AllSpace(s[i..k])
    ensures AllSpace(s[i..j])
  {
    forall m | 0 <= m < j - i ensures IsSpace(s[i..j][m]) {
      assert s[i..j][m] == s[i..k][m];
    }
  }

  /** Whitespace alone strips to nothing. */
  lemma {:induction false} StripOfBlank(s: string)
    requires AllSpace(s)
    ensures Strip(s) == []
  {
    LStripOfSpacePrefix(s, []);
    assert s + [] == s;
  }

  lemma {:induction false} AllSpaceConcat(a: string, b: string)
    requires AllSpace(a) && AllSpace(b)
    ensures AllSpace(a + b)
  {
    forall i | 0 <= i < |a + b| ensures IsSpace((a + b)[i]) {
      if i < |a| { assert (a + b)[i] == a[i]; } else { assert (a + b)[i] == b[i - |a|]; }
    }
  }

  /** `lstrip` of a text with something left after its leading run keeps
      anything appended. */
  lemma {:induction false} LStripAppend(s: string, b: string)
    requires LStrip(s) != []
    ensures LStrip(s + b) == LStrip(s) + b
  {
    assert (s + b)[0] == s[0];
    if IsSpace(s[0]) {
      assert (s + b)[1..] == s[1..] + b;
      LStripAppend(s[1..], b);
    }
  }

  /** Trailing whitespace never matters to `strip`. */
  lemma {:induction false} StripIgnoresTrailingSpace(s: string, b: string)
    requires AllSpace(b)
    ensures Strip(s + b) == Strip(s)
  {
    var l := LStrip(s);
    if l == [] {
      StripOfBlank(s);
      AllSpaceConcat(s, b);
      StripOfBlank(s + b);
    } else {
      LStripAppend(s, b);
      RStripIgnoresTrailingSpace(l, b);
    }
  }

  /** Whitespace around a text never matters to `strip`. */
  lemma {:induction false} StripIgnoresPadding(a: string, s: string, b: string)
    requires AllSpace(a) && AllSpace(b)
    ensures Strip(a + s + b) == Strip(s)
  {
    assert a + s + b == a + (s + b);
    StripIgnoresLeadingSpace(a, s + b);
    StripIgnoresTrailingSpace(s, b);
  }

  /** Leading whitespace never matters to `strip`. */
  lemma {:induction false} StripIgnoresLeadingSpace(a: string, s: string)
    requires AllSpace(a)
    ensures Strip(a + s) == Strip(s)
  {
    LStripIgnoresLeadingSpace(a, s);
  }

  lemma {:induction false} StripOfTrimmed(s: string)
    requires Trimmed(s)
    ensures Strip(s) == s
  {
    StripOfPadded([], s, []);
    assert [] + s + [] == s;
  }

  // ---------------------------------------------------------------------------
  // split() with no separator: maximal runs of non-whitespace

  /** Length of the leading run of non-whitespace characters. */
  function WordLength(s: string): (n: nat)
    ensures n <= |s| && NoSpace(s[..n])
    ensures n < |s| ==> IsSpace(s[n])
  {
    if s == [] || IsSpace(s[0]) then 0 else 1 + WordLength(s[1..])
  }

  /** A non-empty run of non-whitespace. */
  predicate IsWord(w: string) {
    w != [] && NoSpace(w)
  }

  /** `str.split()`: the words of `s`, in order. */
  function Words(s: string): (ws: seq<string>)
    ensures forall k :: 0 <= k < |ws| ==> IsWord(ws[k])
    decreases |s|
  {
    var t := LStrip(s);
    if t == [] then []
    else
      var n := WordLength(t);
      var rest := Words(t[n..]);
      WordsCons(t[..n], rest);
      [t[..n]] + rest
  }

  lemma {:induction false} WordsCons(w: string, rest: seq<string>)
    requires IsWord(w)
    requires forall k :: 0 <= k < |rest| ==> IsWord(rest[k])
    ensures forall k :: 0 <= k < |[w] + rest| ==> IsWord(([w] + rest)[k])
  {
    forall k | 0 <= k < |[w] + rest| ensures IsWord(([w] + rest)[k]) {
      if k > 0 {
        assert ([w] + rest)[k] == rest[k - 1];
      }
    }
  }

  /** Number of positions that start a word: a non-whitespace character at the
      start of the text or right after whitespace. `afterSpace` says whether the
      character before `s` was whitespace (or there was none). */
  function WordStarts(s: string, afterSpace: bool): nat
  {
    if s == [] then 0
    else (if afterSpace && !IsSpace(s[0]) then 1 else 0) + WordStarts(s[1..], IsSpace(s[0]))
  }

  lemma {:induction false} WordStartsSkipSpace(a: string, t: string)
    requires AllSpace(a)
    ensures WordStarts(a + t, true) == WordStarts(t, true)
  {
    if a != [] {
      assert IsSpace((a + t)[0]);
      assert (a + t)[1..] == a[1..] + t;
      WordStartsSkipSpace(a[1..], t);
    } else {
      assert a + t == t;
    }
  }

  lemma {:induction false} WordStartsInWord(w: string, t: string, afterSpace: bool)
    requires w != [] && NoSpace(w)
    requires t == [] || IsSpace(t[0])
    ensures WordStarts(w + t, afterSpace) == (if afterSpace then 1 else 0) + WordStarts(t, true)
  {
    assert (w + t)[1..] == w[1..] + t;
    if |w| > 1 {
      WordStartsInWord(w[1..], t, false);
    } else {
      assert w[1..] + t == t;
      if t != [] {
        assert WordStarts(t, true) == WordStarts(t, false);
      }
    }
  }

  /** The word count of `split()` equals the number of word-start positions. */
  lemma {:induction false} WordCountIsWordStarts(s: string)
    ensures |Words(s)| == WordStarts(s, true)
    decreases |s|
  {
    var t := LStrip(s);
    WordStartsOfLStrip(s);
    if t != [] {
      var n := WordLength(t);
      WordsOfText(s);
      WordCountIsWordStarts(t[n..]);
      FirstWordStarts(t);
    }
  }

  /** A text is its leading whitespace followed by what `lstrip` leaves. */
  lemma {:induction false} LStripParts(s: string)
    ensures s == s[..|s| - |LStrip(s)|] + LStrip(s)
    ensures AllSpace(s[..|s| - |LStrip(s)|])
  {
  }

  lemma {:induction false} WordStartsOfLStrip(s: string)
    ensures WordStarts(s, true) == WordStarts(LStrip(s), true)
  {
    LStripParts(s);
    WordStartsSkipSpace(s[..|s| - |LStrip(s)|], LStrip(s));
  }

  /** The first word of a text that is not blank, and the rest after it. */
  lemma {:induction false} WordsOfText(s: string)
    requires LStrip(s) != []
    ensures var t := LStrip(s);
            0 < WordLength(t) && |t[WordLength(t)..]| < |s| &&
            |Words(s)| == 1 + |Words(t[WordLength(t)..])|
  {
  }

  lemma {:induction false} FirstWordStarts(t: string)
    requires t != [] && !IsSpace(t[0])
    ensures WordStarts(t, true) == 1 + WordStarts(t[WordLength(t)..], true)
  {
    var n := WordLength(t);
    var w, rest := t[..n], t[n..];
    assert t == w + rest;
    WordStartsInWord(w, rest, true);
  }

  // ---------------------------------------------------------------------------
  // splitlines and join

  /** Python's `str.splitlines` line boundaries. */
  predicate IsLineBreak(c: char) {
    c == '\n' || c == '\r' || c == '\U{0B}' || c == '\U{0C}' || c == '\U{1C}'
    || c == '\U{1D}' || c == '\U{1E}' || c == '\U{85}' || c == '\U{2028}' || c == '\U{2029}'
  }

  predicate NoLineBreak(s: string) {
    forall i :: 0 <= i < |s| ==> !IsLineBreak(s[i])
  }

  /** Length of the first line of `s` (up to its first line boundary). */
  function LineLength(s: string): (n: nat)
    ensures n <= |s| && NoLineBreak(s[..n])
    ensures n < |s| ==> IsLineBreak(s[n])
  {
    if s == [] || IsLineBreak(s[0]) then 0 else 1 + LineLength(s[1..])
  }

  /** `str.splitlines()`: the lines of `s` without their boundaries; a final
      boundary does not start an extra empty line, and `"\r\n"` is one boundary. */
  function SplitLines(s: string): (ls: seq<string>)
    ensures forall k :: 0 <= k < |ls| ==> NoLineBreak(ls[k])
    ensures s == [] <==> ls == []
    decreases |s|
  {
    if s == [] then []
    else
      var i := LineLength(s);
      if i == |s| then [s]
      else
        var next := if s[i] == '\r' && i + 1 < |s| && s[i + 1] == '\n' then i + 2 else i + 1;
        [s[..i]] + SplitLines(s[next..])
  }

  /** `sep.join(ls)`. */
  function Join(ls: seq<string>, sep: string): string
  {
    if ls == [] then []
    else if |ls| == 1 then ls[0]
    else ls[0] + sep + Join(ls[1..], sep)
  }

  lemma {:induction false} SplitLinesOfLine(l: string, rest: string)
    requires NoLineBreak(l)
    ensures SplitLines(l + "\n" + rest) == [l] + SplitLines(rest)
  {
    var s := l + "\n" + rest;
    LineLengthOfLine(l, "\n" + rest);
    assert s == l + ("\n" + rest);
    assert s[..|l|] == l;
    assert s[|l| + 1..] == rest;
  }

  lemma {:induction false} LineLengthOfLine(l: string, rest: string)
    requires NoLineBreak(l)
    requires rest == [] || IsLineBreak(rest[0])
    ensures LineLength(l + rest) == |l|
  {
    if l != [] {
      assert (l + rest)[1..] == l[1..] + rest;
      LineLengthOfLine(l[1..], rest);
    }
  }

  /** Splitting undoes joining with `"\n"` once a final newline is added. */
  lemma {:induction false} SplitLinesOfJoin(ls: seq<string>)
    requires ls != []
    requires forall k :: 0 <= k < |ls| ==> NoLineBreak(ls[k])
    ensures SplitLines(Join(ls, "\n") + "\n") == ls
  {
    if |ls| == 1 {
      SplitLinesOfLine(ls[0], []);
      assert ls[0] + "\n" + [] == Join(ls, "\n") + "\n";
    } else {
      SplitLinesOfJoin(ls[1..]);
      assert Join(ls, "\n") + "\n" == ls[0] + "\n" + (Join(ls[1..], "\n") + "\n");
      SplitLinesOfLine(ls[0], Join(ls[1..], "\n") + "\n");
      assert ls == [ls[0]] + ls[1..];
    }
  }

  /** Every line boundary in `s` is a `'\n'`. */
  predicate OnlyNewlines(s: string) {
    forall i :: 0 <= i < |s| && IsLineBreak(s[i]) ==> s[i] == '\n'
  }

  /** `"\n"` if `s` ends in one, else nothing. */
  function FinalNewline(s: string): string {
    if s != [] && s[|s| - 1] == '\n' then "\n" else ""
  }

  /** Joining the lines of a text whose only boundaries are `'\n'` gives the text
      back, except for a final `'\n'`, which `splitlines` drops. */
  lemma {:induction false} JoinOfSplitLines(s: string)
    requires OnlyNewlines(s)
    ensures Join(SplitLines(s), "\n") + FinalNewline(s) == s
    decreases |s|
  {
    if s != [] {
      var i := LineLength(s);
      if i < |s| {
        var rest := s[i + 1..];
        SplitLinesAtNewline(s);
        OnlyNewlinesTail(s, i + 1);
        JoinOfSplitLines(rest);
        JoinOfLineThenRest(s, i);
      } else {
        SplitLinesOfOneLine(s);
      }
    }
  }

  lemma {:induction false} OnlyNewlinesTail(s: string, j: nat)
    requires OnlyNewlines(s) && j <= |s|
    ensures OnlyNewlines(s[j..])
  {
    forall k | 0 <= k < |s[j..]| && IsLineBreak(s[j..][k]) ensures s[j..][k] == '\n' {
      assert s[j..][k] == s[j + k];
    }
  }

  /** A text without line boundaries is one line. */
  lemma {:induction false} SplitLinesOfOneLine(s: string)
    requires s != [] && LineLength(s) == |s|
    ensures SplitLines(s) == [s] && Join(SplitLines(s), "\n") == s && FinalNewline(s) == ""
  {
    assert s[..|s|] == s;
    assert !IsLineBreak(s[|s| - 1]);
  }

  /** At a `'\n'` boundary the first line is split off. */
  lemma {:induction false} SplitLinesAtNewline(s: string)
    requires LineLength(s) < |s| && s[LineLength(s)] == '\n'
    ensures SplitLines(s) == [s[..LineLength(s)]] + SplitLines(s[LineLength(s) + 1..])
  {
  }

  /** The join of the first line and the lines after a `'\n'` boundary. */
  lemma {:induction false} JoinOfLineThenRest(s: string, i: nat)
    requires i < |s| && s[i] == '\n'
    requires SplitLines(s) == [s[..i]] + SplitLines(s[i + 1..])
    requires Join(SplitLines(s[i + 1..]), "\n") + FinalNewline(s[i + 1..]) == s[i + 1..]
    ensures Join(SplitLines(s), "\n") + FinalNewline(s) == s
  {
    var rest := s[i + 1..];
    SplitAround(s, i);
    if rest == [] {
      JoinOfLastLine(s, i);
    } else {
      var ls := SplitLines(rest);
      JoinCons(s[..i], ls, "\n");
      FinalNewlineOfTail(s, i + 1);
      AppendAssoc(s[..i] + "\n", Join(ls, "\n"), FinalNewline(rest));
    }
  }

  lemma {:induction false} JoinOfLastLine(s: string, i: nat)
    requires i < |s| && s[i] == '\n' && s[i + 1..] == []
    requires SplitLines(s) == [s[..i]] + SplitLines(s[i + 1..])
    requires s == s[..i] + "\n" + s[i + 1..]
    ensures Join(SplitLines(s), "\n") + FinalNewline(s) == s
  {
    assert SplitLines(s) == [s[..i]];
    assert s == s[..i] + "\n";
  }

  lemma {:induction false} SplitAround(s: string, i: nat)
    requires i < |s|
    ensures s == s[..i] + [s[i]] + s[i + 1..]
  {
  }

  lemma {:induction false} JoinCons(x: string, ls: seq<string>, sep: string)
    requires ls != []
    ensures Join([x] + ls, sep) == x + sep + Join(ls, sep)
  {
    assert ([x] + ls)[1..] == ls;
  }

  lemma {:induction false} FinalNewlineOfTail(s: string, j: nat)
    requires j < |s|
    ensures FinalNewline(s) == FinalNewline(s[j..])
  {
    assert s[j..][|s[j..]| - 1] == s[|s| - 1];
  }

  lemma {:induction false} AppendAssoc(a: string, b: string, c: string)
    ensures a + b + c == a + (b + c)
  {
  }

  /** Joining two non-empty runs of lines puts one separator between them. */
  lemma {:induction false} JoinAppend(a: seq<string>, b: seq<string>, sep: string)
    requires a != [] && b != []
    ensures Join(a + b, sep) == Join(a, sep) + sep + Join(b, sep)
  {
    if |a| == 1 {
      assert (a + b)[1..] == b;
    } else {
      assert (a + b)[1..] == a[1..] + b;
      JoinAppend(a[1..], b, sep);
    }
  }

  /** The first line of `a + b` is the first line of `a` unless `a` has no
      boundary, in which case it runs on into `b`. */
  lemma {:induction false} LineLengthAppend(a: string, b: string)
    ensures LineLength(a + b) == if LineLength(a) < |a| then LineLength(a) else |a| + LineLength(b)
  {
    if a == [] {
      assert a + b == b;
    } else if !IsLineBreak(a[0]) {
      assert (a + b)[1..] == a[1..] + b;
      LineLengthAppend(a[1..], b);
    }
  }

  /** A final `'\n'` after a last line that has no boundary of its own adds no
      line. */
  lemma {:induction false} SplitLinesDropsFinalNewline(s: string)
    requires s != [] && !IsLineBreak(s[|s| - 1])
    ensures SplitLines(s + "\n") == SplitLines(s)
    decreases |s|
  {
    var i := LineLength(s);
    LineLengthAppend(s, "\n");
    if i == |s| {
      SplitLinesOfLastLine(s);
    } else {
      var next := if s[i] == '\r' && s[i + 1] == '\n' then i + 2 else i + 1;
      SplitLinesBeforeFinalNewline(s);
      SplitLinesDropsFinalNewline(s[next..]);
    }
  }

  lemma {:induction false} SplitLinesOfLastLine(s: string)
    requires s != [] && LineLength(s) == |s| && LineLength(s + "\n") == |s|
    ensures SplitLines(s + "\n") == [s] == SplitLines(s)
  {
    var t := s + "\n";
    assert t[..|s|] == s;
    assert t[|s|] == '\n';
    assert t[|s| + 1..] == [];
  }

  /** Before the last line, `s` and `s + "\n"` split off the same first line
      and continue at the same place. */
  lemma {:induction false} SplitLinesBeforeFinalNewline(s: string)
    requires s != [] && !IsLineBreak(s[|s| - 1])
    requires LineLength(s) < |s| && LineLength(s + "\n") == LineLength(s)
    ensures var i := LineLength(s);
            var next := if s[i] == '\r' && s[i + 1] == '\n' then i + 2 else i + 1;
            next < |s| && !IsLineBreak(s[next..][|s[next..]| - 1]) &&
            SplitLines(s) == [s[..i]] + SplitLines(s[next..]) &&
            SplitLines(s + "\n") == [s[..i]] + SplitLines(s[next..] + "\n")
  {
    var t := s + "\n";
    var i := LineLength(s);
    assert i < |s| - 1;
    assert t[i] == s[i] && t[i + 1] == s[i + 1];
    var next := if s[i] == '\r' && s[i + 1] == '\n' then i + 2 else i + 1;
    assert t[..i] == s[..i];
    assert t[next..] == s[next..] + "\n";
  }

  // ---------------------------------------------------------------------------
  // lower, replace

  /** ASCII `lower` of one character. */
  function LowerChar(c: char): char {
    if 'A' <= c <= 'Z' then (c as int + 32) as char else c
  }

  /** `str.lower()` (ASCII letters only). */
  function Lower(s: string): (r: string)
    ensures |r| == |s|
    ensures forall i :: 0 <= i < |s| ==> r[i] == LowerChar(s[i])
  {
    if s == [] then [] else [LowerChar(s[0])] + Lower(s[1..])
  }

  /** `s.replace(a, b)` for single characters `a` and `b`. */
  function ReplaceChar(s: string, a: char, b: char): (r: string)
    ensures |r| == |s|
    ensures forall i :: 0 <= i < |s| ==> r[i] == (if s[i] == a then b else s[i])
  {
    if s == [] then [] else [if s[0] == a then b else s[0]] + ReplaceChar(s[1..], a, b)
  }

  /** `s.replace(p, "")`: every occurrence of `p` found scanning left to right,
      without overlaps, is removed. */
  function RemoveAll(s: string, p: string): (r: string)
    requires p != []
    ensures |r| <= |s|
    decreases |s|
  {
    if s == [] then []
    else if StartsWith(s, p) then RemoveAll(s[|p|..], p)
    else [s[0]] + RemoveAll(s[1..], p)
  }

  /** Removing a pattern from text that cannot contain it changes nothing. */
  lemma {:induction false} RemoveAllAbsent(s: string, p: string)
    requires p != [] && p[0] !in s
    ensures RemoveAll(s, p) == s
  {
    if s != [] {
      assert !StartsWith(s, p);
      RemoveAllAbsent(s[1..], p);
    }
  }

  /** Removing a pattern from text ending in it, where the pattern's first
      character occurs nowhere else, leaves the text before it. */
  lemma {:induction false} RemoveAllSuffix(s: string, p: string)
    requires p != [] && p[0] !in s
    ensures RemoveAll(s + p, p) == s
  {
    if s == [] {
      assert s + p == p;
      assert p[|p|..] == [];
    } else {
      assert (s + p)[1..] == s[1..] + p;
      assert !StartsWith(s + p, p);
      RemoveAllSuffix(s[1..], p);
    }
  }

  /** Text before the first occurrence of the pattern's first character is
      kept as it is. */
  lemma {:induction false} RemoveAllKeepsPrefix(a: string, s: string, p: string)
    requires p != [] && p[0] !in a
    ensures RemoveAll(a + s, p) == a + RemoveAll(s, p)
  {
    if a == [] {
      assert a + s == s;
    } else {
      assert !StartsWith(a + s, p);
      assert (a + s)[1..] == a[1..] + s;
      RemoveAllKeepsPrefix(a[1..], s, p);
    }
  }

  /** Removal only drops characters: one absent before is absent after. */
  lemma {:induction false} RemoveAllLacks(s: string, p: string, c: char)
    requires p != [] && c !in s
    ensures c !in RemoveAll(s, p)
    decreases |s|
  {
    if s != [] {
      if StartsWith(s, p) {
        RemoveAllLacks(s[|p|..], p, c);
      } else {
        RemoveAllLacks(s[1..], p, c);
      }
    }
  }
}
