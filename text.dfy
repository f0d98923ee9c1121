/**
 * The Python string operations the pipeline relies on, stated on `string`
 * (`seq<char>`): `str.strip()`, `str.split()`, `str.split(sep)`, `sep.join`,
 * `p in s`, `str.startswith`, and iteration over the lines of a text file.
 * Character classes are those of the ASCII range.
 */
module Text {
  import opened Wrappers

  /** `c.isspace()` for ASCII characters. */
  predicate IsSpace(c: char) {
    c == ' ' || c == '\t' || c == '\n' || c == '\r' || c == '\U{0B}' || c == '\U{0C}'
    || c == '\U{1C}' || c == '\U{1D}' || c == '\U{1E}' || c == '\U{1F}'
  }

  /** A character matched by the regular-expression class `\w` (ASCII). */
  predicate IsWordChar(c: char) {
    ('a' <= c <= 'z') || ('A' <= c <= 'Z') || ('0' <= c <= '9') || c == '_'
  }

  /** A character matched by the regular-expression class `[\d.]` (ASCII). */
  predicate IsNumberChar(c: char) {
    ('0' <= c <= '9') || c == '.'
  }

  /** The character classes whose maximal runs the parsers below take. */
  datatype CharClass = NonSpace | Word | Number

  predicate InClass(cls: CharClass, c: char) {
    match cls
    case NonSpace => !IsSpace(c)
    case Word => IsWordChar(c)
    case Number => IsNumberChar(c)
  }

  predicate AllIn(cls: CharClass, s: string) {
    forall i :: 0 <= i < |s| ==> InClass(cls, s[i])
  }

  /** Length of the longest prefix of `s` made of characters of `cls`. */
  function Span(cls: CharClass, s: string): (n: nat)
    ensures n <= |s| && AllIn(cls, s[..n])
    ensures n == |s| || !InClass(cls, s[n])
  {
    if s == [] || !InClass(cls, s[0]) then 0
    else
      var m := Span(cls, s[1..]);
      assert s[..m + 1] == [s[0]] + s[1..][..m];
      m + 1
  }

  /** A run of `cls` that is followed by a character outside `cls` is the whole span. */
  lemma SpanOfPrefix(cls: CharClass, a: string, b: string)
    requires AllIn(cls, a)
    requires b == [] || !InClass(cls, b[0])
    ensures Span(cls, a + b) == |a|
  {
    var s := a + b;
    assert forall i :: 0 <= i < |a| ==> s[i] == a[i];
    assert b != [] ==> s[|a|] == b[0];
    var n := Span(cls, s);
    assert forall i :: 0 <= i < n ==> s[..n][i] == s[i];
  }

  // ---------------------------------------------------------------------
  // str.strip()

  /** `s.lstrip()`: `s` without its leading whitespace. */
  function LStrip(s: string): (r: string)
    ensures |r| <= |s| && r == s[|s| - |r|..]
    ensures r == [] || !IsSpace(r[0])
    ensures forall i :: 0 <= i < |s| - |r| ==> IsSpace(s[i])
  {
    if s != [] && IsSpace(s[0]) then LStrip(s[1..]) else s
  }

  /** `s.rstrip()`: `s` without its trailing whitespace. */
  function RStrip(s: string): (r: string)
    ensures |r| <= |s| && r == s[..|r|]
    ensures r == [] || !IsSpace(r[|r| - 1])
    ensures forall i :: |r| <= i < |s| ==> IsSpace(s[i])
  {
    if s != [] && IsSpace(s[|s| - 1]) then RStrip(s[..|s| - 1]) else s
  }

  /** `s.strip()`. */
  function Strip(s: string): string {
    RStrip(LStrip(s))
  }

  predicate NoEdgeSpace(s: string) {
    s == [] || (!IsSpace(s[0]) && !IsSpace(s[|s| - 1]))
  }

  predicate AllSpace(w: string) {
    forall i :: 0 <= i < |w| ==> IsSpace(w[i])
  }

  /** Stripping removes trailing whitespace `w` and leaves a text without edge whitespace intact. */
  lemma StripTrailing(x: string, w: string)
    requires NoEdgeSpace(x) && AllSpace(w)
    ensures Strip(x + w) == x
  {
    if x == [] {
      assert x + w == w;
      AllSpaceStrips(w);
    } else {
      assert (x + w)[0] == x[0];
      assert LStrip(x + w) == x + w;
      RStripTrailing(x, w);
    }
  }

  lemma {:induction false} AllSpaceStrips(w: string)
    requires AllSpace(w)
    ensures LStrip(w) == []
  {
    if w != [] {
      assert forall i :: 0 <= i < |w[1..]| ==> w[1..][i] == w[i + 1];
      AllSpaceStrips(w[1..]);
    }
  }

  lemma {:induction false} RStripTrailing(x: string, w: string)
    requires x != [] && !IsSpace(x[|x| - 1]) && AllSpace(w)
    ensures RStrip(x + w) == x
    decreases |w|
  {
    if w == [] {
      assert x + w == x;
    } else {
      var s := x + w;
      var w' := w[..|w| - 1];
      assert s[..|s| - 1] == x + w';
      assert s[|s| - 1] == w[|w| - 1];
      assert forall i :: 0 <= i < |w'| ==> w'[i] == w[i];
      RStripTrailing(x, w');
    }
  }

  // ---------------------------------------------------------------------
  // str.split() and " ".join

  /** `s.split()`: the maximal runs of non-whitespace characters of `s`, in order. */
  function Tokens(s: string): (ts: seq<string>)
    ensures forall i :: 0 <= i < |ts| ==> ts[i] != [] && AllIn(NonSpace, ts[i])
    ensures ts == [] <==> AllSpace(s)
    decreases |s|
  {
    if s == [] then []
    else if IsSpace(s[0]) then
      var ts := Tokens(s[1..]);
      assert AllSpace(s[1..]) ==> AllSpace(s) by {
        if AllSpace(s[1..]) {
          forall i | 1 <= i < |s| ensures IsSpace(s[i]) {
            assert s[i] == s[1..][i - 1];
          }
        }
      }
      ts
    else
      var n := Span(NonSpace, s);
      [s[..n]] + Tokens(s[n..])
  }

  /** `sep.join(parts)`. */
  function Join(parts: seq<string>, sep: string): string {
    if parts == [] then ""
    else if |parts| == 1 then parts[0]
    else parts[0] + sep + Join(parts[1..], sep)
  }

  /** Whitespace splitting undoes joining with single spaces, for non-empty tokens without whitespace. */
  lemma {:induction false} TokensOfJoin(ts: seq<string>)
    requires forall i :: 0 <= i < |ts| ==> ts[i] != [] && AllIn(NonSpace, ts[i])
    ensures Tokens(Join(ts, " ")) == ts
  {
    if |ts| == 1 {
      var t := ts[0];
      SpanOfPrefix(NonSpace, t, []);
      assert t + [] == t;
      assert Tokens(t) == [t[..|t|]] + Tokens(t[|t|..]);
    } else if |ts| > 1 {
      var t := ts[0];
      var rest := Join(ts[1..], " ");
      var s := t + (" " + rest);
      assert Join(ts, " ") == s;
      SpanOfPrefix(NonSpace, t, " " + rest);
      assert s[..|t|] == t;
      assert s[|t|..] == " " + rest;
      assert (" " + rest)[1..] == rest;
      assert Tokens(" " + rest) == Tokens(rest);
      TokensOfJoin(ts[1..]);
      assert Tokens(s) == [t] + ts[1..];
    }
  }

  // ---------------------------------------------------------------------
  // Substrings: startswith, find and `in`

  /** `s.startswith(p)`. */
  predicate StartsWith(s: string, p: string) {
    |p| <= |s| && s[..|p|] == p
  }

  /** `s.find(p)`: the index of the first occurrence of `p` in `s`, or None. */
  function Find(s: string, p: string): (r: Option<nat>)
    ensures r.Some? ==> r.value <= |s| && StartsWith(s[r.value..], p)
    ensures r.Some? ==> forall j :: 0 <= j < r.value ==> !StartsWith(s[j..], p)
    ensures r.None? ==> forall j :: 0 <= j <= |s| ==> !StartsWith(s[j..], p)
    decreases |s|
  {
    if StartsWith(s, p) then Some(0)
    else if s == [] then None
    else
      var r := Find(s[1..], p);
      FindShift(s, p, r);
      match r
      case None => None
      case Some(i) => Some(i + 1)
  }

  /** What `Find` reports on the tail of `s`, moved one place to the right. */
  lemma FindShift(s: string, p: string, r: Option<nat>)
    requires s != [] && !StartsWith(s, p)
    requires r.Some? ==> r.value <= |s[1..]| && StartsWith(s[1..][r.value..], p)
    requires r.Some? ==> forall j :: 0 <= j < r.value ==> !StartsWith(s[1..][j..], p)
    requires r.None? ==> forall j :: 0 <= j <= |s[1..]| ==> !StartsWith(s[1..][j..], p)
    ensures r.Some? ==> r.value + 1 <= |s| && StartsWith(s[r.value + 1..], p)
    ensures r.Some? ==> forall j :: 0 <= j < r.value + 1 ==> !StartsWith(s[j..], p)
    ensures r.None? ==> forall j :: 0 <= j <= |s| ==> !StartsWith(s[j..], p)
  {
    forall j | 1 <= j <= |s|
      ensures s[1..][j - 1..] == s[j..]
    {
    }
    if r.Some? {
      forall j | 0 <= j < r.value + 1
        ensures !StartsWith(s[j..], p)
      {
        if j > 0 {
          assert s[1..][j - 1..] == s[j..];
        }
      }
    } else {
      forall j | 0 <= j <= |s|
        ensures !StartsWith(s[j..], p)
      {
        if j > 0 {
          assert s[1..][j - 1..] == s[j..];
        }
      }
    }
  }

  /** `p in s`. */
  predicate Contains(s: string, p: string) {
    Find(s, p).Some?
  }

  /** An occurrence at `k` with none before it is what `Find` reports. */
  lemma FindAt(s: string, p: string, k: nat)
    requires k <= |s| && StartsWith(s[k..], p)
    requires forall j :: 0 <= j < k ==> !StartsWith(s[j..], p)
    ensures Find(s, p) == Some(k)
  {
  }

  lemma FindNone(s: string, p: string)
    requires forall j :: 0 <= j <= |s| ==> !StartsWith(s[j..], p)
    ensures !Contains(s, p)
  {
  }

  /** A text without the first character of `p` does not contain `p`. */
  lemma NotContainsFirstChar(s: string, p: string)
    requires p != [] && p[0] !in s
    ensures !Contains(s, p)
  {
    forall j | 0 <= j <= |s| ensures !StartsWith(s[j..], p) {
      if j + |p| <= |s| {
        assert s[j..][..|p|][0] == s[j];
      }
    }
    FindNone(s, p);
  }

  /**
   * Two texts free of a two-character pattern stay free of it when
   * concatenated unless the pattern straddles the seam.
   */
  lemma ConcatFree(a: string, b: string, p: string)
    requires |p| == 2 && !Contains(a, p) && !Contains(b, p)
    requires a == [] || b == [] || !(a[|a| - 1] == p[0] && b[0] == p[1])
    ensures !Contains(a + b, p)
  {
    var s := a + b;
    forall j | 0 <= j <= |s| ensures !StartsWith(s[j..], p) {
      if j + 2 <= |a| {
        assert s[j..][..2] == a[j..][..2];
        assert !StartsWith(a[j..], p);
      } else if j < |a| && j + 2 <= |s| {
        assert s[j..][..2] == [a[|a| - 1], b[0]];
      } else if j >= |a| {
        assert s[j..] == b[j - |a|..];
        assert !StartsWith(b[j - |a|..], p);
      }
    }
    FindNone(s, p);
  }

  /** The first occurrence of `p` in `a + b` is at the seam when `b` starts with `p` and `a` cannot hold one. */
  lemma FindAfter(a: string, b: string, p: string)
    requires |p| == 2 && !Contains(a, p) && StartsWith(b, p)
    requires a == [] || a[|a| - 1] != p[0] || p[0] != p[1]
    ensures Find(a + b, p) == Some(|a|)
  {
    var s := a + b;
    assert s[|a|..] == b;
    forall j | 0 <= j < |a| ensures !StartsWith(s[j..], p) {
      if j + 2 <= |a| {
        assert s[j..][..2] == a[j..][..2];
        assert !StartsWith(a[j..], p);
      } else {
        assert s[j..][..2] == [a[|a| - 1], b[0]];
      }
    }
    FindAt(s, p, |a|);
  }

  /** A join of texts free of `p` is free of `p` when no seam with the separator can form `p`. */
  lemma {:induction false} JoinFree(parts: seq<string>, sep: string, p: string)
    requires |p| == 2 && sep != [] && !Contains(sep, p)
    requires sep[0] != p[1] && sep[|sep| - 1] != p[0]
    requires forall i :: 0 <= i < |parts| ==> !Contains(parts[i], p)
    ensures !Contains(Join(parts, sep), p)
  {
    if parts == [] {
      FindNone("", p);
    } else if |parts| > 1 {
      var rest := Join(parts[1..], sep);
      forall i | 0 <= i < |parts| - 1 ensures !Contains(parts[1..][i], p) {
        assert parts[1..][i] == parts[i + 1];
      }
      JoinFree(parts[1..], sep, p);
      JoinFreeStep(parts[0], sep, rest, p);
      AppendAssoc(parts[0], sep, rest);
    }
  }

  lemma JoinFreeStep(first: string, sep: string, rest: string, p: string)
    requires |p| == 2 && sep != [] && !Contains(sep, p)
    requires sep[0] != p[1] && sep[|sep| - 1] != p[0]
    requires !Contains(first, p) && !Contains(rest, p)
    ensures !Contains(first + (sep + rest), p)
  {
    ConcatFree(sep, rest, p);
    assert (sep + rest)[0] == sep[0];
    ConcatFree(first, sep + rest, p);
  }

  // ---------------------------------------------------------------------
  // str.split(sep)

  /** `s.split(sep)` for a non-empty separator: the pieces between non-overlapping occurrences, left to right. */
  function Split(s: string, sep: string): (parts: seq<string>)
    requires sep != []
    ensures |parts| >= 1
    decreases |s|
  {
    match Find(s, sep)
    case None => [s]
    case Some(i) => [s[..i]] + Split(s[i + |sep|..], sep)
  }

  /**
   * Splitting on a two-character separator whose characters differ undoes
   * joining with it, for pieces that do not contain the separator.
   */
  lemma {:induction false} SplitOfJoin(parts: seq<string>, sep: string)
    requires |sep| == 2 && sep[0] != sep[1] && |parts| >= 1
    requires forall i :: 0 <= i < |parts| ==> !Contains(parts[i], sep)
    ensures Split(Join(parts, sep), sep) == parts
  {
    if |parts| > 1 {
      var p0 := parts[0];
      var rest := Join(parts[1..], sep);
      var s := p0 + (sep + rest);
      assert Join(parts, sep) == s;
      FindAfter(p0, sep + rest, sep);
      assert s[..|p0|] == p0;
      assert s[|p0| + 2..] == rest;
      SplitOfJoin(parts[1..], sep);
    }
  }

  lemma AppendAssoc<T>(a: seq<T>, b: seq<T>, c: seq<T>)
    ensures (a + b) + c == a + (b + c)
  {
  }

  lemma AppendNothing<T>(s: seq<T>)
    ensures s + [] == s
  {
  }

  lemma TakeAll<T>(s: seq<T>)
    ensures s[..|s|] == s
  {
  }

  /** A non-empty sequence is its prefix and its last element. */
  lemma SnocSlice<T>(s: seq<T>)
    requires s != []
    ensures s[..|s| - 1] + [s[|s| - 1]] == s
  {
  }

  // ---------------------------------------------------------------------
  // Text files as strings: writes concatenate, iteration yields lines.

  /** The text produced by writing each of `ss` in turn. */
  function Concat(ss: seq<string>): string {
    if ss == [] then "" else ss[0] + Concat(ss[1..])
  }

  lemma {:induction false} ConcatAppend(a: seq<string>, b: seq<string>)
    ensures Concat(a + b) == Concat(a) + Concat(b)
  {
    if a != [] {
      assert (a + b)[1..] == a[1..] + b;
      ConcatAppend(a[1..], b);
    } else {
      assert a + b == b;
    }
  }

  /** `for line in file`: each line keeps its newline; a last line without one is kept as it is. */
  function Lines(text: string): (ls: seq<string>)
    ensures Concat(ls) == text
    decreases |text|
  {
    if text == [] then []
    else match Find(text, "\n")
      case None => [text]
      case Some(i) =>
        var rest := Lines(text[i + 1..]);
        assert Concat([text[..i + 1]] + rest) == text[..i + 1] + Concat(rest);
        [text[..i + 1]] + rest
  }

  /** A line as written by `file.write(... + "\n")`: one newline, at its end. */
  predicate IsLine(l: string) {
    |l| > 0 && l[|l| - 1] == '\n' && '\n' !in l[..|l| - 1]
  }

  /** Reading back a text written line by line yields those lines. */
  lemma {:induction false} LinesOfConcat(ls: seq<string>)
    requires forall i :: 0 <= i < |ls| ==> IsLine(ls[i])
    ensures Lines(Concat(ls)) == ls
  {
    if ls != [] {
      var l := ls[0];
      var text := l + Concat(ls[1..]);
      forall j | 0 <= j < |l| - 1 ensures !StartsWith(text[j..], "\n") {
        assert text[j] == l[..|l| - 1][j];
        assert text[j..][..1][0] == text[j];
      }
      assert text[|l| - 1..][..1] == "\n";
      FindAt(text, "\n", |l| - 1);
      assert text[..|l|] == l;
      assert text[|l|..] == Concat(ls[1..]);
      LinesOfConcat(ls[1..]);
    }
  }
}
