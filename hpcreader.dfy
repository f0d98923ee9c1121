/**
 * cal/hpc-cal.py: reading back the combination header lines and the
 * concentration lines of the file the concentration generator writes, and
 * the count checks on what was read. A file is given as its text and read
 * line by line; concentration values are kept as the text they are written
 * as, and converting one with float() is modelled as a validity check.
 */
module HpcReader {
  import opened Wrappers
  import opened Text
  import opened AlloyCombinations
  import opened Concentrations

  // ---------------------------------------------------------------------
  // read_combinations

  /** In a header line the first ": " is the one right after "Combination". */
  lemma HeaderSplit(line: string)
    requires StartsWith(line, HeaderPrefix)
    ensures Find(line, ": ") == Some(11)
    ensures Split(line, ": ") == [line[..11]] + Split(line[13..], ": ")
  {
    var a := line[..11];
    assert a == "Combination";
    NotContainsFirstChar(a, ": ");
    assert line == a + line[11..];
    assert line[11..][..2] == ": ";
    FindAfter(a, line[11..], ": ");
  }

  /**
   * `line.split(": ")[1].strip().split(", ")`; None stands for the
   * IndexError of a line with no ": ", which a header line never is.
   */
  function ParseHeader(line: string): (combo: Option<seq<string>>)
    ensures combo.Some? ==> |combo.value| >= 1
  {
    var parts := Split(line, ": ");
    if |parts| < 2 then None else Some(Split(Strip(parts[1]), ", "))
  }

  lemma HeaderParses(line: string)
    requires StartsWith(line, HeaderPrefix)
    ensures ParseHeader(line).Some?
  {
    HeaderSplit(line);
  }

  /** What one line contributes: its combination when it is a header line, nothing otherwise. */
  function HeaderEntry(line: string): (entry: seq<seq<string>>)
    ensures |entry| == (if StartsWith(line, HeaderPrefix) then 1 else 0)
  {
    if !StartsWith(line, HeaderPrefix) then []
    else
      HeaderParses(line);
      [ParseHeader(line).value]
  }

  /** What read_combinations collects from a sequence of lines: one combination per header line, in order. */
  function CombinationsRead(lines: seq<string>): seq<seq<string>> {
    if lines == [] then []
    else CombinationsRead(lines[..|lines| - 1]) + HeaderEntry(lines[|lines| - 1])
  }

  lemma {:induction false} CombinationsReadAppend(a: seq<string>, b: seq<string>)
    ensures CombinationsRead(a + b) == CombinationsRead(a) + CombinationsRead(b)
    decreases |b|
  {
    if b == [] {
      assert a + b == a;
    } else {
      var init := b[..|b| - 1];
      var last := b[|b| - 1];
      SnocSlice(b);
      AppendAssoc(a, init, [last]);
      CombinationsReadSnoc(a + init, last);
      CombinationsReadSnoc(init, last);
      CombinationsReadAppend(a, init);
      AppendAssoc(CombinationsRead(a), CombinationsRead(init), HeaderEntry(last));
    }
  }

  /** Reading one more line. */
  lemma CombinationsReadSnoc(lines: seq<string>, line: string)
    ensures CombinationsRead(lines + [line]) == CombinationsRead(lines) + HeaderEntry(line)
  {
    var all := lines + [line];
    assert all[..|all| - 1] == lines;
    assert all[|all| - 1] == line;
  }

  /** read_combinations over the lines of a text file. */
  method ReadCombinations(text: string) returns (combinations: seq<seq<string>>)
    ensures combinations == CombinationsRead(Lines(text))
  {
    var lines := Lines(text);
    combinations := [];
    var i := 0;
    while i < |lines|
      invariant 0 <= i <= |lines|
      invariant combinations == CombinationsRead(lines[..i])
    {
      assert lines[..i + 1][..i] == lines[..i];
      var line := lines[i];
      assert CombinationsRead(lines[..i + 1]) == combinations + HeaderEntry(line);
      if StartsWith(line, HeaderPrefix) {
        HeaderParses(line);
        var combo := ParseHeader(line).value;
        combinations := combinations + [combo];
      }
      i := i + 1;
    }
    TakeAll(lines);
  }

  /** Symbols that survive a header line: non-empty, without the two separators, without edge whitespace. */
  predicate PlainName(name: string) {
    name != [] && NoEdgeSpace(name) && !Contains(name, ", ") && !Contains(name, ": ")
  }

  lemma {:induction false} JoinEdges(parts: seq<string>, sep: string)
    requires |parts| >= 1 && forall i :: 0 <= i < |parts| ==> parts[i] != [] && NoEdgeSpace(parts[i])
    ensures var j := Join(parts, sep); j != [] && j[0] == parts[0][0] && j[|j| - 1] == parts[|parts| - 1][|parts[|parts| - 1]| - 1]
  {
    if |parts| > 1 {
      JoinEdges(parts[1..], sep);
    }
  }

  /** Reading a header line back gives the combination it was written from. */
  lemma HeaderRoundTrip(combo: seq<string>)
    requires combo != [] && forall i :: 0 <= i < |combo| ==> PlainName(combo[i])
    ensures StartsWith(HeaderLine(combo), HeaderPrefix)
    ensures HeaderEntry(HeaderLine(combo)) == [combo]
  {
    var j := Join(combo, ", ");
    var line := HeaderLine(combo);
    AppendAssoc(HeaderPrefix, j, "\n");
    assert line[..13] == HeaderPrefix;
    HeaderSplit(line);
    assert line[13..] == j + "\n";
    assert ", "[0] == ',' && ", "[1] == ' ';
    NotContainsFirstChar(", ", ": ");
    JoinFree(combo, ", ", ": ");
    NotContainsFirstChar("\n", ": ");
    ConcatFree(j, "\n", ": ");
    assert Split(j + "\n", ": ") == [j + "\n"];
    JoinEdges(combo, ", ");
    StripTrailing(j, "\n");
    SplitOfJoin(combo, ", ");
  }

  // ---------------------------------------------------------------------
  // re.findall(r'(\w+): ([\d.]+)%', line)

  /**
   * The pattern matches at the start of `t` with a word run of length `w`
   * and a number run of length `d`.
   */
  ghost predicate MatchesAt(t: string, w: nat, d: nat) {
    1 <= w && 1 <= d && w + 2 + d < |t|
    && AllIn(Word, t[..w]) && t[w] == ':' && t[w + 1] == ' '
    && AllIn(Number, t[w + 2..w + 2 + d]) && t[w + 2 + d] == '%'
  }

  /**
   * The match at the start of `t`, if any: its length and the text of the
   * second group. Neither run can end early, because ':' is not a word
   * character and '%' is not a number character, so backtracking never
   * finds a shorter match and the runs are the maximal ones.
   */
  function MatchHere(t: string): (m: Option<(nat, string)>)
    ensures m.Some? ==> 0 < m.value.0 <= |t|
  {
    var w := Span(Word, t);
    if w == 0 || !StartsWith(t[w..], ": ") then None
    else
      var num := t[w + 2..];
      var d := Span(Number, num);
      if d == 0 || d == |num| || num[d] != '%' then None
      else Some((w + 2 + d + 1, num[..d]))
  }

  /** MatchHere finds a match exactly when the pattern matches, and then the only one. */
  lemma MatchHereIsMatch(t: string)
    ensures MatchHere(t).Some? ==> exists w, d :: MatchesAt(t, w, d)
    ensures forall w: nat, d: nat :: MatchesAt(t, w, d) ==> MatchHere(t) == Some((w + 2 + d + 1, t[w + 2..w + 2 + d]))
  {
    if MatchHere(t).Some? {
      MatchHereSound(t);
    }
    forall w: nat, d: nat | MatchesAt(t, w, d)
      ensures MatchHere(t) == Some((w + 2 + d + 1, t[w + 2..w + 2 + d]))
    {
      MatchHereComplete(t, w, d);
    }
  }

  lemma MatchHereSound(t: string)
    requires MatchHere(t).Some?
    ensures MatchesAt(t, Span(Word, t), Span(Number, t[Span(Word, t) + 2..]))
  {
    var w := Span(Word, t);
    var num := t[w + 2..];
    var d := Span(Number, num);
    assert t[w + 2..w + 2 + d] == num[..d];
    assert t[w..][..2] == ": ";
    assert t[w] == t[w..][..2][0];
    assert t[w + 1] == t[w..][..2][1];
  }

  lemma MatchHereComplete(t: string, w: nat, d: nat)
    requires MatchesAt(t, w, d)
    ensures MatchHere(t) == Some((w + 2 + d + 1, t[w + 2..w + 2 + d]))
  {
    assert t == t[..w] + t[w..];
    SpanOfPrefix(Word, t[..w], t[w..]);
    assert t[w..][..2] == ": ";
    var num := t[w + 2..];
    assert num == num[..d] + num[d..];
    assert num[..d] == t[w + 2..w + 2 + d];
    SpanOfPrefix(Number, num[..d], num[d..]);
    assert Span(Word, t) == w && StartsWith(t[w..], ": ");
    assert Span(Number, num) == d && d < |num| && num[d] == '%';
  }

  /** The second groups of the non-overlapping matches, scanning left to right. */
  function FindAllValues(t: string): (vs: seq<string>)
    ensures forall i :: 0 <= i < |vs| ==> vs[i] != [] && AllIn(Number, vs[i])
    decreases |t|
  {
    if t == [] then []
    else
      match MatchHere(t)
      case Some((n, v)) => [v] + FindAllValues(t[n..])
      case None => FindAllValues(t[1..])
  }

  /** A piece `elem: conc%` yields its concentration and the scan goes on after it. */
  lemma FindAllPiece(name: string, conc: string, rest: string)
    requires name != [] && AllIn(Word, name) && conc != [] && AllIn(Number, conc)
    ensures FindAllValues(Piece(name, conc) + rest) == [conc] + FindAllValues(rest)
  {
    var t := Piece(name, conc) + rest;
    var n := |name| + 2 + |conc| + 1;
    MatchPiece(name, conc, rest);
    assert t[n..] == rest;
  }

  lemma MatchPiece(name: string, conc: string, rest: string)
    requires name != [] && AllIn(Word, name) && conc != [] && AllIn(Number, conc)
    ensures MatchHere(Piece(name, conc) + rest) == Some((|name| + 2 + |conc| + 1, conc))
  {
    var t := Piece(name, conc) + rest;
    var w := |name|;
    var d := |conc|;
    assert t[..w] == name && t[w + 2..w + 2 + d] == conc;
    assert t[w] == ':' && t[w + 1] == ' ' && t[w + 2 + d] == '%';
    assert MatchesAt(t, w, d);
    MatchHereIsMatch(t);
  }

  /** The separator ", " holds no match. */
  lemma FindAllSeparator(rest: string)
    ensures FindAllValues(", " + rest) == FindAllValues(rest)
  {
    var t := ", " + rest;
    assert Span(Word, t) == 0;
    assert t[1..] == " " + rest;
    assert Span(Word, t[1..]) == 0;
    assert t[1..][1..] == rest;
  }

  /** Symbols the pattern reads back: non-empty runs of word characters. */
  predicate WordName(name: string) {
    name != [] && AllIn(Word, name)
  }

  /** A concentration text the pattern reads back: a non-empty run of digits and dots. */
  predicate NumberText(conc: string) {
    conc != [] && AllIn(Number, conc)
  }

  lemma FindAllNewline()
    ensures FindAllValues("\n") == []
  {
    assert Span(Word, "\n") == 0;
    assert "\n"[1..] == [];
  }

  lemma SetLineShape(combo: seq<string>, concs: seq<string>)
    ensures Min(|combo|, |concs|) == 0 ==> SetLine(combo, concs) == "\n"
    ensures Min(|combo|, |concs|) == 1 ==> SetLine(combo, concs) == Piece(combo[0], concs[0]) + "\n"
    ensures Min(|combo|, |concs|) >= 2 ==>
      SetLine(combo, concs) == Piece(combo[0], concs[0]) + (", " + SetLine(combo[1..], concs[1..]))
  {
    var ps := Pieces(combo, concs);
    if Min(|combo|, |concs|) >= 2 {
      assert ps[1..] == Pieces(combo[1..], concs[1..]);
    }
  }

  /** A line written for a set gives back the concentrations paired with symbols, in order. */
  lemma {:induction false} FindAllSetLine(combo: seq<string>, concs: seq<string>)
    requires forall i :: 0 <= i < |combo| ==> WordName(combo[i])
    requires forall i :: 0 <= i < |concs| ==> NumberText(concs[i])
    ensures FindAllValues(SetLine(combo, concs)) == concs[..Min(|combo|, |concs|)]
    decreases |combo|
  {
    var m := Min(|combo|, |concs|);
    if m == 0 {
      SetLineShape(combo, concs);
      FindAllNewline();
    } else if m == 1 {
      SetLineShape(combo, concs);
      FindAllNewline();
      FindAllPiece(combo[0], concs[0], "\n");
    } else {
      FindAllSetLine(combo[1..], concs[1..]);
      FindAllSetLineStep(combo, concs);
    }
  }

  lemma FindAllSetLineStep(combo: seq<string>, concs: seq<string>)
    requires Min(|combo|, |concs|) >= 2 && WordName(combo[0]) && NumberText(concs[0])
    requires FindAllValues(SetLine(combo[1..], concs[1..])) == concs[1..][..Min(|combo| - 1, |concs| - 1)]
    ensures FindAllValues(SetLine(combo, concs)) == concs[..Min(|combo|, |concs|)]
  {
    var tail := SetLine(combo[1..], concs[1..]);
    SetLineShape(combo, concs);
    FindAllPieceThenSeparator(combo[0], concs[0], tail);
    SliceCons(concs, Min(|combo|, |concs|));
  }

  lemma SliceCons(s: seq<string>, m: nat)
    requires 1 <= m <= |s|
    ensures s[..m] == [s[0]] + s[1..][..m - 1]
  {
  }

  lemma FindAllPieceThenSeparator(name: string, conc: string, tail: string)
    requires WordName(name) && NumberText(conc)
    ensures FindAllValues(Piece(name, conc) + (", " + tail)) == [conc] + FindAllValues(tail)
  {
    FindAllPiece(name, conc, ", " + tail);
    FindAllSeparator(tail);
  }

  // ---------------------------------------------------------------------
  // read_concentrations

  /** float() rejecting a matched text. */
  datatype ReadError = NotAFloat(text: string)

  function Dots(s: string): nat {
    if s == [] then 0 else (if s[0] == '.' then 1 else 0) + Dots(s[1..])
  }

  predicate HasDigit(s: string) {
    exists i :: 0 <= i < |s| && '0' <= s[i] <= '9'
  }

  /** A run of digits and dots that float() accepts: at least one digit and at most one dot. */
  predicate FloatText(v: string) {
    NumberText(v) && HasDigit(v) && Dots(v) <= 1
  }

  /** `[float(conc) for elem, conc in ...]`: the first text float() rejects raises. */
  function CheckFloats(vs: seq<string>): (r: Result<seq<string>, ReadError>)
    ensures r.Ok? <==> forall i :: 0 <= i < |vs| ==> FloatText(vs[i])
    ensures r.Ok? ==> r.value == vs
    ensures r.Err? ==> exists i :: 0 <= i < |vs| && r.error == NotAFloat(vs[i]) && !FloatText(vs[i])
  {
    if vs == [] then Ok([])
    else if !FloatText(vs[0]) then Err(NotAFloat(vs[0]))
    else
      match CheckFloats(vs[1..])
      case Err(e) =>
        ghost var i :| 0 <= i < |vs[1..]| && e == NotAFloat(vs[1..][i]) && !FloatText(vs[1..][i]);
        assert vs[1..][i] == vs[i + 1];
        Err(e)
      case Ok(rest) =>
        assert vs == [vs[0]] + vs[1..];
        Ok([vs[0]] + rest)
  }

  /** Lines that hold no concentrations: header lines and blank lines. */
  predicate Skipped(line: string) {
    StartsWith(line, HeaderPrefix) || Strip(line) == []
  }

  /**
   * What one line adds: nothing when it is skipped, otherwise one list of
   * the values of all matches in it, even when there are none.
   */
  function ConcentrationEntry(line: string): Result<seq<seq<string>>, ReadError> {
    if Skipped(line) then Ok([])
    else
      match CheckFloats(FindAllValues(line))
      case Err(e) => Err(e)
      case Ok(row) => Ok([row])
  }

  /** What read_concentrations returns for a sequence of lines: one list per line that is not skipped. */
  function ConcentrationsRead(lines: seq<string>): Result<seq<seq<string>>, ReadError> {
    if lines == [] then Ok([])
    else Extend(ConcentrationsRead(lines[..|lines| - 1]), ConcentrationEntry(lines[|lines| - 1]))
  }

  /** The lists so far followed by one line's entry; the first error wins. */
  function Extend(prev: Result<seq<seq<string>>, ReadError>, entry: Result<seq<seq<string>>, ReadError>)
    : Result<seq<seq<string>>, ReadError>
  {
    if prev.Err? then prev
    else if entry.Err? then entry
    else Ok(prev.value + entry.value)
  }

  lemma {:induction false} ConcentrationsErrPersists(lines: seq<string>, k: nat)
    requires k <= |lines| && ConcentrationsRead(lines[..k]).Err?
    ensures ConcentrationsRead(lines) == ConcentrationsRead(lines[..k])
    decreases |lines| - k
  {
    if k < |lines| {
      assert lines[..k + 1][..k] == lines[..k];
      ConcentrationsErrPersists(lines, k + 1);
    } else {
      assert lines[..k] == lines;
    }
  }

  /** The number of lines that are not skipped. */
  function DataLines(lines: seq<string>): nat {
    if lines == [] then 0
    else DataLines(lines[..|lines| - 1]) + (if Skipped(lines[|lines| - 1]) then 0 else 1)
  }

  /** One list per line that is not skipped; the per-combination grouping is never made. */
  lemma {:induction false} ConcentrationsCount(lines: seq<string>)
    requires ConcentrationsRead(lines).Ok?
    ensures |ConcentrationsRead(lines).value| == DataLines(lines)
  {
    if lines != [] {
      ConcentrationsCount(lines[..|lines| - 1]);
    }
  }

  lemma ConcentrationsReadStep(lines: seq<string>, i: nat)
    requires i < |lines|
    ensures ConcentrationsRead(lines[..i + 1]) == Extend(ConcentrationsRead(lines[..i]), ConcentrationEntry(lines[i]))
  {
    assert lines[..i + 1][..i] == lines[..i];
  }

  /** A header or blank line leaves what has been read unchanged. */
  lemma SkippedStep(lines: seq<string>, i: nat, acc: seq<seq<string>>)
    requires i < |lines| && Skipped(lines[i])
    requires ConcentrationsRead(lines[..i]) == Ok(acc)
    ensures ConcentrationsRead(lines[..i + 1]) == Ok(acc)
  {
    ConcentrationsReadStep(lines, i);
    assert ConcentrationEntry(lines[i]) == Ok([]);
    AppendNothing(acc);
  }

  /** A data line adds its one row, or its error ends the reading. */
  lemma DataStep(lines: seq<string>, i: nat, acc: seq<seq<string>>, values: Result<seq<string>, ReadError>)
    requires i < |lines| && !Skipped(lines[i])
    requires values == CheckFloats(FindAllValues(lines[i]))
    requires ConcentrationsRead(lines[..i]) == Ok(acc)
    ensures values.Err? ==> ConcentrationsRead(lines[..i + 1]) == Err(values.error)
    ensures values.Ok? ==> ConcentrationsRead(lines[..i + 1]) == Ok(acc + [values.value])
  {
    ConcentrationsReadStep(lines, i);
  }

  /**
   * read_concentrations over the lines of a text file. The set meant to
   * collect one combination's sets is never added to, so both places that
   * would save it see it empty and the lists come out one per line.
   */
  method ReadConcentrations(text: string) returns (r: Result<seq<seq<string>>, ReadError>)
    ensures r == ConcentrationsRead(Lines(text))
  {
    var lines := Lines(text);
    var concentrations: seq<seq<string>> := [];
    var currentSet: seq<string> := [];
    var i := 0;
    while i < |lines|
      invariant 0 <= i <= |lines|
      invariant currentSet == []
      invariant ConcentrationsRead(lines[..i]) == Ok(concentrations)
    {
      var line := lines[i];
      if StartsWith(line, HeaderPrefix) {
        SkippedStep(lines, i, concentrations);
        if currentSet != [] {
          concentrations := concentrations + [currentSet];
          currentSet := [];
        }
      } else if Strip(line) != [] {
        var values := CheckFloats(FindAllValues(line));
        DataStep(lines, i, concentrations, values);
        if values.Err? {
          ConcentrationsErrPersists(lines, i + 1);
          return Err(values.error);
        }
        concentrations := concentrations + [values.value];
      } else {
        SkippedStep(lines, i, concentrations);
      }
      i := i + 1;
    }
    TakeAll(lines);
    if currentSet != [] {
      concentrations := concentrations + [currentSet];
    }
    return Ok(concentrations);
  }

  /** Two runs of lines read one after the other; the first error wins. */
  function Combine(x: Result<seq<seq<string>>, ReadError>, y: Result<seq<seq<string>>, ReadError>)
    : Result<seq<seq<string>>, ReadError>
  {
    if x.Err? then x else if y.Err? then y else Ok(x.value + y.value)
  }

  lemma ExtendCombine(x: Result<seq<seq<string>>, ReadError>, y: Result<seq<seq<string>>, ReadError>,
                      e: Result<seq<seq<string>>, ReadError>)
    ensures Extend(Combine(x, y), e) == Combine(x, Extend(y, e))
  {
    if x.Ok? && y.Ok? && e.Ok? {
      assert (x.value + y.value) + e.value == x.value + (y.value + e.value);
    }
  }

  lemma {:induction false} ConcentrationsReadAppend(a: seq<string>, b: seq<string>)
    ensures ConcentrationsRead(a + b) == Combine(ConcentrationsRead(a), ConcentrationsRead(b))
    decreases |b|
  {
    if b == [] {
      assert a + b == a;
      assert ConcentrationsRead(a).Ok? ==> ConcentrationsRead(a).value + [] == ConcentrationsRead(a).value;
    } else {
      var init := b[..|b| - 1];
      var last := b[|b| - 1];
      SnocSlice(b);
      AppendAssoc(a, init, [last]);
      ConcentrationsReadSnoc(a + init, last);
      ConcentrationsReadSnoc(init, last);
      ConcentrationsReadAppend(a, init);
      ExtendCombine(ConcentrationsRead(a), ConcentrationsRead(init), ConcentrationEntry(last));
    }
  }

  /** Reading one more line. */
  lemma ConcentrationsReadSnoc(lines: seq<string>, line: string)
    ensures ConcentrationsRead(lines + [line]) == Extend(ConcentrationsRead(lines), ConcentrationEntry(line))
  {
    var all := lines + [line];
    assert all[..|all| - 1] == lines;
    assert all[|all| - 1] == line;
  }

  // ---------------------------------------------------------------------
  // main

  const ExpectedCombinations: nat := 126
  const ExpectedConcentrations: nat := 126 * 36

  /** The two count warnings main prints. */
  datatype Warning = CombinationCount(found: nat) | ConcentrationCount(found: nat)

  function Warnings(combinations: nat, concentrations: nat): (ws: seq<Warning>)
    ensures CombinationCount(combinations) in ws <==> combinations != ExpectedCombinations
    ensures ConcentrationCount(concentrations) in ws <==> concentrations != ExpectedConcentrations
    ensures |ws| <= 2 && (ws == [] <==> combinations == ExpectedCombinations && concentrations == ExpectedConcentrations)
  {
    (if combinations != ExpectedCombinations then [CombinationCount(combinations)] else [])
    + (if concentrations != ExpectedConcentrations then [ConcentrationCount(concentrations)] else [])
  }

  /**
   * main: read both files and check the counts. Handing the values on to
   * the solver only prints them and is not part of this model.
   */
  method CheckInputs(combinationsText: string, concentrationsText: string)
    returns (species: seq<seq<string>>, concs: Result<seq<seq<string>>, ReadError>, warnings: seq<Warning>)
    ensures species == CombinationsRead(Lines(combinationsText))
    ensures concs == ConcentrationsRead(Lines(concentrationsText))
    ensures concs.Ok? ==> warnings == Warnings(|species|, |concs.value|)
    ensures concs.Err? ==> warnings == []
  {
    species := ReadCombinations(combinationsText);
    concs := ReadConcentrations(concentrationsText);
    warnings := [];
    if concs.Ok? {
      warnings := Warnings(|species|, |concs.value|);
    }
  }
}
