/**
 * The two text files between the scripts, end to end: the concentration
 * file that generate_alloy_concentrations.py writes, read back by
 * cal/hpc-cal.py, and the combinations file that
 * refractory_alloy_combinations.py writes, given to read_combinations.
 */
module FileRoundTrip {
  import opened Wrappers
  import opened Text
  import opened AlloyCombinations
  import opened Concentrations
  import opened HpcReader

  /**
   * A combination and its sets as the reader gets them back: ASCII word
   * symbols, the first one not the word "Combination" (a set line would
   * then look like a header), and every set one decimal text per symbol.
   */
  predicate Readable(combo: seq<string>, sets: seq<seq<string>>) {
    |combo| >= 1 && combo[0] != "Combination"
    && (forall i :: 0 <= i < |combo| ==> WordName(combo[i]))
    && forall k :: 0 <= k < |sets| ==> |sets[k]| == |combo| && forall j :: 0 <= j < |sets[k]| ==> FloatText(sets[k][j])
  }

  /** All sets of the file, block after block: the one list read_concentrations returns. */
  function AllSets(setsPer: seq<seq<seq<string>>>): seq<seq<string>> {
    if setsPer == [] then [] else AllSets(setsPer[..|setsPer| - 1]) + setsPer[|setsPer| - 1]
  }

  // ---------------------------------------------------------------------
  // Lines

  lemma WordNameChars(name: string)
    requires WordName(name)
    ensures '\n' !in name && ':' !in name && ',' !in name && ' ' !in name
  {
  }

  lemma HeaderLineIsLine(combo: seq<string>)
    requires forall i :: 0 <= i < |combo| ==> WordName(combo[i])
    ensures IsLine(HeaderLine(combo))
  {
    forall i | 0 <= i < |combo| ensures '\n' !in combo[i] {
      WordNameChars(combo[i]);
    }
    JoinExcludes(combo, ", ", '\n');
    var l := HeaderLine(combo);
    assert l[..|l| - 1] == HeaderPrefix + Join(combo, ", ");
  }

  lemma SetLineIsLine(combo: seq<string>, concs: seq<string>)
    requires forall i :: 0 <= i < |combo| ==> WordName(combo[i])
    requires forall i :: 0 <= i < |concs| ==> NumberText(concs[i])
    ensures IsLine(SetLine(combo, concs))
  {
    var ps := Pieces(combo, concs);
    forall i | 0 <= i < |ps| ensures '\n' !in ps[i] {
      WordNameChars(combo[i]);
      assert '\n' !in concs[i];
    }
    JoinExcludes(ps, ", ", '\n');
    var l := SetLine(combo, concs);
    assert l[..|l| - 1] == Join(ps, ", ");
  }

  lemma {:induction false} SetLinesAreLines(combo: seq<string>, sets: seq<seq<string>>)
    requires Readable(combo, sets)
    ensures forall i :: 0 <= i < |sets| ==> IsLine(SetLines(combo, sets)[i])
  {
    forall i | 0 <= i < |sets| ensures IsLine(SetLines(combo, sets)[i]) {
      forall j | 0 <= j < |sets[i]| ensures NumberText(sets[i][j]) {
        assert FloatText(sets[i][j]);
      }
      SetLineIsLine(combo, sets[i]);
    }
  }

  lemma BlockLinesAreLines(combo: seq<string>, sets: seq<seq<string>>)
    requires Readable(combo, sets)
    ensures forall i :: 0 <= i < |BlockLines(combo, sets)| ==> IsLine(BlockLines(combo, sets)[i])
  {
    var ls := BlockLines(combo, sets);
    HeaderLineIsLine(combo);
    SetLinesAreLines(combo, sets);
    forall i | 0 <= i < |ls| ensures IsLine(ls[i]) {
      if 0 < i < |ls| - 1 {
        assert ls[i] == SetLines(combo, sets)[i - 1];
      }
    }
  }

  lemma {:induction false} FileLinesAreLines(combos: seq<seq<string>>, setsPer: seq<seq<seq<string>>>)
    requires |setsPer| == |combos| && forall c :: 0 <= c < |combos| ==> Readable(combos[c], setsPer[c])
    ensures forall i :: 0 <= i < |FileLines(combos, setsPer)| ==> IsLine(FileLines(combos, setsPer)[i])
  {
    if combos != [] {
      var n := |combos| - 1;
      var init := FileLines(combos[..n], setsPer[..n]);
      var block := BlockLines(combos[n], setsPer[n]);
      FileLinesAreLines(combos[..n], setsPer[..n]);
      BlockLinesAreLines(combos[n], setsPer[n]);
      assert FileLines(combos, setsPer) == init + block;
      forall i | 0 <= i < |init + block| ensures IsLine((init + block)[i]) {
        if i >= |init| {
          assert (init + block)[i] == block[i - |init|];
        }
      }
    }
  }

  // ---------------------------------------------------------------------
  // Which lines are headers, which are blank

  /**
   * A line that opens with a word symbol is a header line only when the
   * symbol is "Combination" followed by ':'.
   */
  lemma NameLineNotHeader(name: string, rest: string)
    requires WordName(name) && (rest == [] || !IsWordChar(rest[0]))
    requires name != "Combination" || rest == [] || rest[0] != ':'
    ensures !StartsWith(name + rest, HeaderPrefix)
  {
    var t := name + rest;
    var p := HeaderPrefix;
    if |t| >= 13 {
      var k: nat;
      if |name| < 11 {
        k := |name|;
        assert t[k] == rest[0];
        assert IsWordChar(p[k]) by { assert p[..11] == "Combination"; }
      } else if |name| > 11 || rest[0] != ':' {
        k := 11;
        assert t[k] != ':';
      } else {
        assert t[..11] == name && p[..11] == "Combination";
        k :| 0 <= k < 11 && t[..11][k] != p[..11][k];
      }
      assert t[..13][k] != p[k];
    }
  }

  /** A line whose first character is not whitespace does not strip to nothing. */
  lemma NotBlank(s: string)
    requires s != [] && !IsSpace(s[0])
    ensures Strip(s) != []
  {
    assert LStrip(s) == s;
  }

  lemma JoinHead(parts: seq<string>, sep: string)
    requires |parts| >= 1
    ensures Join(parts, sep) == parts[0] + Join(parts, sep)[|parts[0]|..]
  {
  }

  /** A set line opens with the first symbol and ": ". */
  lemma SetLineHead(combo: seq<string>, concs: seq<string>)
    requires |combo| >= 1 && |concs| >= 1
    ensures var l := SetLine(combo, concs); var n := |combo[0]|;
      |l| > n + 1 && l == combo[0] + l[n..] && l[n] == ':'
  {
    var ps := Pieces(combo, concs);
    JoinHead(ps, ", ");
    var j := Join(ps, ", ");
    var n := |combo[0]|;
    assert ps[0] == combo[0] + (": " + concs[0] + "%");
    assert j[..n] == combo[0] && j[n] == ':';
    var l := SetLine(combo, concs);
    assert l == j + "\n";
    assert l[..n] == combo[0] && l[n] == ':';
    assert l == l[..n] + l[n..];
  }

  /** One set line: no combination, and exactly its set of concentrations. */
  lemma SetLineEntries(combo: seq<string>, concs: seq<string>)
    requires |combo| >= 1 && combo[0] != "Combination" && |concs| == |combo|
    requires forall i :: 0 <= i < |combo| ==> WordName(combo[i])
    requires forall i :: 0 <= i < |concs| ==> FloatText(concs[i])
    ensures HeaderEntry(SetLine(combo, concs)) == []
    ensures ConcentrationEntry(SetLine(combo, concs)) == Ok([concs])
  {
    var l := SetLine(combo, concs);
    var n := |combo[0]|;
    SetLineHead(combo, concs);
    NameLineNotHeader(combo[0], l[n..]);
    NotBlank(l);
    FindAllSetLine(combo, concs);
    assert concs[..|concs|] == concs;
  }

  /** The empty line that ends a block: nothing for either reader. */
  lemma BlankLineEntries()
    ensures HeaderEntry("\n") == []
    ensures ConcentrationEntry("\n") == Ok([])
  {
    assert LStrip("\n") == LStrip("\n"[1..]);
    assert Strip("\n") == [];
  }

  /** The header line: its combination for read_combinations, nothing for read_concentrations. */
  lemma HeaderLineEntries(combo: seq<string>)
    requires |combo| >= 1 && forall i :: 0 <= i < |combo| ==> WordName(combo[i])
    ensures HeaderEntry(HeaderLine(combo)) == [combo]
    ensures ConcentrationEntry(HeaderLine(combo)) == Ok([])
  {
    forall i | 0 <= i < |combo| ensures PlainName(combo[i]) {
      WordNameChars(combo[i]);
      NotContainsFirstChar(combo[i], ", ");
      NotContainsFirstChar(combo[i], ": ");
    }
    HeaderRoundTrip(combo);
  }

  // ---------------------------------------------------------------------
  // Reading whole blocks and files

  lemma OneLine(l: string)
    ensures CombinationsRead([l]) == HeaderEntry(l)
    ensures ConcentrationsRead([l]) == Extend(Ok([]), ConcentrationEntry(l))
  {
    assert [l][..0] == [];
  }

  /** Reading one more line. */
  lemma SnocRead(x: seq<string>, l: string)
    ensures CombinationsRead(x + [l]) == CombinationsRead(x) + HeaderEntry(l)
    ensures ConcentrationsRead(x + [l]) == Extend(ConcentrationsRead(x), ConcentrationEntry(l))
  {
    CombinationsReadSnoc(x, l);
    ConcentrationsReadSnoc(x, l);
  }

  lemma {:induction false} SetLinesRead(combo: seq<string>, sets: seq<seq<string>>)
    requires Readable(combo, sets)
    ensures CombinationsRead(SetLines(combo, sets)) == []
    ensures ConcentrationsRead(SetLines(combo, sets)) == Ok(sets)
  {
    if sets != [] {
      var n := |sets| - 1;
      var init := SetLines(combo, sets[..n]);
      var l := SetLine(combo, sets[n]);
      assert Readable(combo, sets[..n]);
      SetLinesRead(combo, sets[..n]);
      SetLineEntries(combo, sets[n]);
      SetLinesStep(combo, sets);
    }
  }

  lemma SetLinesStep(combo: seq<string>, sets: seq<seq<string>>)
    requires sets != []
    requires var n := |sets| - 1;
      CombinationsRead(SetLines(combo, sets[..n])) == [] && ConcentrationsRead(SetLines(combo, sets[..n])) == Ok(sets[..n])
      && HeaderEntry(SetLine(combo, sets[n])) == [] && ConcentrationEntry(SetLine(combo, sets[n])) == Ok([sets[n]])
    ensures CombinationsRead(SetLines(combo, sets)) == []
    ensures ConcentrationsRead(SetLines(combo, sets)) == Ok(sets)
  {
    var n := |sets| - 1;
    SnocRead(SetLines(combo, sets[..n]), SetLine(combo, sets[n]));
    SnocSlice(sets);
  }


  lemma BlockCombinationsRead(h: string, body: seq<string>)
    ensures CombinationsRead([h] + body + ["\n"]) == HeaderEntry(h) + CombinationsRead(body) + HeaderEntry("\n")
  {
    OneLine(h);
    CombinationsReadAppend([h], body);
    SnocRead([h] + body, "\n");
  }

  lemma BlockConcentrationsRead(h: string, body: seq<string>)
    requires ConcentrationEntry(h) == Ok([]) && ConcentrationEntry("\n") == Ok([]) && ConcentrationsRead(body).Ok?
    ensures ConcentrationsRead([h] + body + ["\n"]) == ConcentrationsRead(body)
  {
    var v := ConcentrationsRead(body).value;
    var none: seq<seq<string>> := [];
    OneLine(h);
    assert ConcentrationsRead([h]) == Ok(none) by { assert none + none == none; }
    ConcentrationsReadAppend([h], body);
    assert ConcentrationsRead([h] + body) == Ok(v) by { assert none + v == v; }
    SnocRead([h] + body, "\n");
    assert v + none == v;
  }

  /** A block reads back as its combination and its sets. */
  lemma BlockRead(combo: seq<string>, sets: seq<seq<string>>)
    requires Readable(combo, sets)
    ensures CombinationsRead(BlockLines(combo, sets)) == [combo]
    ensures ConcentrationsRead(BlockLines(combo, sets)) == Ok(sets)
  {
    var h := HeaderLine(combo);
    var body := SetLines(combo, sets);
    HeaderLineEntries(combo);
    BlankLineEntries();
    SetLinesRead(combo, sets);
    BlockCombinationsRead(h, body);
    BlockConcentrationsRead(h, body);
  }

  lemma {:induction false} FileLinesRead(combos: seq<seq<string>>, setsPer: seq<seq<seq<string>>>)
    requires |setsPer| == |combos| && forall c :: 0 <= c < |combos| ==> Readable(combos[c], setsPer[c])
    ensures CombinationsRead(FileLines(combos, setsPer)) == combos
    ensures ConcentrationsRead(FileLines(combos, setsPer)) == Ok(AllSets(setsPer))
  {
    if combos != [] {
      var n := |combos| - 1;
      var init := FileLines(combos[..n], setsPer[..n]);
      var block := BlockLines(combos[n], setsPer[n]);
      FileLinesRead(combos[..n], setsPer[..n]);
      BlockRead(combos[n], setsPer[n]);
      assert FileLines(combos, setsPer) == init + block;
      CombinationsReadAppend(init, block);
      ConcentrationsReadAppend(init, block);
      SnocSlice(combos);
    }
  }

  /**
   * Reading the concentration file back: read_combinations returns the
   * combinations in the order they were written and read_concentrations
   * all their sets, one list per set, block after block.
   */
  lemma ConcentrationFileReadsBack(combos: seq<seq<string>>, setsPer: seq<seq<seq<string>>>)
    requires |setsPer| == |combos| && forall c :: 0 <= c < |combos| ==> Readable(combos[c], setsPer[c])
    ensures var lines := Lines(Concat(FileLines(combos, setsPer)));
      CombinationsRead(lines) == combos && ConcentrationsRead(lines) == Ok(AllSets(setsPer))
  {
    FileLinesAreLines(combos, setsPer);
    LinesOfConcat(FileLines(combos, setsPer));
    FileLinesRead(combos, setsPer);
  }

  lemma {:induction false} AllSetsCount(setsPer: seq<seq<seq<string>>>, m: nat)
    requires forall c :: 0 <= c < |setsPer| ==> |setsPer[c]| == m
    ensures |AllSets(setsPer)| == |setsPer| * m
  {
    if setsPer != [] {
      var n := |setsPer| - 1;
      AllSetsCount(setsPer[..n], m);
      MulSucc(n, m);
    }
  }

  /**
   * With 126 combinations of 36 sets each, the counts main of
   * cal/hpc-cal.py checks are met when both of its readers are given the
   * concentration file: neither warning is printed. main itself reads the
   * combinations from another file (see MainOnCombinationsFile).
   */
  lemma FullFileHasNoWarnings(combos: seq<seq<string>>, setsPer: seq<seq<seq<string>>>)
    requires |setsPer| == |combos| == ExpectedCombinations
    requires forall c :: 0 <= c < |combos| ==> Readable(combos[c], setsPer[c]) && |setsPer[c]| == DefaultSets
    ensures var lines := Lines(Concat(FileLines(combos, setsPer)));
      ConcentrationsRead(lines).Ok?
      && Warnings(|CombinationsRead(lines)|, |ConcentrationsRead(lines).value|) == []
  {
    ConcentrationFileReadsBack(combos, setsPer);
    AllSetsCount(setsPer, DefaultSets);
  }

  // ---------------------------------------------------------------------
  // The nine refractory elements

  lemma RefractoryKeysReadable(name: string)
    requires name in Keys(Refractory)
    ensures WordName(name) && name != "Combination"
  {
    RefractoryCombinations();
  }

  /** Every generated combination of the nine elements is readable with any sets of four decimal texts. */
  lemma GeneratedReadable(i: nat, sets: seq<seq<string>>)
    requires i < |GenerateCombinations(Refractory, ComboSize)|
    requires forall k :: 0 <= k < |sets| ==> |sets[k]| == ComboSize && forall j :: 0 <= j < |sets[k]| ==> FloatText(sets[k][j])
    ensures Readable(GenerateCombinations(Refractory, ComboSize)[i], sets)
  {
    var combo := GenerateCombinations(Refractory, ComboSize)[i];
    GeneratedAt(Refractory, ComboSize, i);
    var keys := Keys(Refractory);
    forall t | 0 <= t < |combo| ensures WordName(combo[t]) && combo[t] != "Combination" {
      var idx := Choose(0, |Refractory|, ComboSize)[i];
      assert combo[t] == keys[idx[t]];
      RefractoryKeysReadable(combo[t]);
    }
  }

  /**
   * The concentration file the generator writes for the 126 combinations of
   * four of the nine elements, 36 sets of four concentrations each, read
   * back by both readers: the combinations, the sets, and no warning. This
   * holds if main's combinations file were the concentration file; on the
   * file it names, see MainOnCombinationsFile.
   */
  lemma PipelineHasNoWarnings(setsPer: seq<seq<seq<string>>>)
    requires |setsPer| == 126
    requires forall c, k :: 0 <= c < |setsPer| && 0 <= k < |setsPer[c]| ==> |setsPer[c][k]| == ComboSize
    requires forall c, k, j :: 0 <= c < |setsPer| && 0 <= k < |setsPer[c]| && 0 <= j < |setsPer[c][k]| ==> FloatText(setsPer[c][k][j])
    requires forall c :: 0 <= c < |setsPer| ==> |setsPer[c]| == DefaultSets
    ensures var combos := GenerateCombinations(Refractory, ComboSize);
      |combos| == |setsPer| &&
      var lines := Lines(Concat(FileLines(combos, setsPer)));
      CombinationsRead(lines) == combos
      && ConcentrationsRead(lines) == Ok(AllSets(setsPer))
      && Warnings(|CombinationsRead(lines)|, |ConcentrationsRead(lines).value|) == []
  {
    var combos := GenerateCombinations(Refractory, ComboSize);
    RefractoryCombinations();
    forall c | 0 <= c < |combos| ensures Readable(combos[c], setsPer[c]) {
      GeneratedReadable(c, setsPer[c]);
    }
    ConcentrationFileReadsBack(combos, setsPer);
    FullFileHasNoWarnings(combos, setsPer);
  }

  // ---------------------------------------------------------------------
  // read_combinations on the combinations file

  lemma CombinationLineNotHeader(combo: seq<string>)
    requires forall i :: 0 <= i < |combo| ==> WordName(combo[i])
    ensures !StartsWith(CombinationLine(combo), HeaderPrefix)
  {
    var l := CombinationLine(combo);
    if combo != [] {
      var n := |combo[0]|;
      JoinHead(combo, ", ");
      assert l == combo[0] + l[n..];
      assert l[n..] != [] && (l[n] == ',' || l[n] == '\n');
      NameLineNotHeader(combo[0], l[n..]);
    }
  }

  /**
   * The file save_combinations_to_file writes has no "Combination: " line,
   * so read_combinations finds no combination in it at all.
   */
  lemma {:induction false} CombinationsFileReadsEmpty(list: seq<seq<string>>)
    requires forall c, i :: 0 <= c < |list| && 0 <= i < |list[c]| ==> WordName(list[c][i])
    ensures CombinationsRead(Lines(Concat(CombinationLines(list)))) == []
  {
    forall c, j | 0 <= c < |list| && 0 <= j < |list[c]| ensures '\n' !in list[c][j] {
      WordNameChars(list[c][j]);
    }
    CombinationLinesReadBack(list);
    CombinationLinesNoHeader(list);
  }

  /**
   * main of cal/hpc-cal.py given, as its combinations file, the file of all
   * combinations that refractory_alloy_combinations.py writes: that file has
   * no "Combination: " line, so no species are read and the combination
   * warning reports 0, whatever the concentration file holds.
   */
  lemma MainOnCombinationsFile(concentrationsText: string)
    ensures var combosText := Concat(CombinationLines(GenerateCombinations(Refractory, ComboSize)));
      var species := CombinationsRead(Lines(combosText));
      var concs := ConcentrationsRead(Lines(concentrationsText));
      species == [] && (concs.Ok? ==> CombinationCount(0) in Warnings(|species|, |concs.value|))
  {
    var list := GenerateCombinations(Refractory, ComboSize);
    forall c, i | 0 <= c < |list| && 0 <= i < |list[c]| ensures WordName(list[c][i]) {
      GeneratedReadable(c, []);
    }
    CombinationsFileReadsEmpty(list);
  }

  lemma {:induction false} CombinationLinesNoHeader(list: seq<seq<string>>)
    requires forall c, i :: 0 <= c < |list| && 0 <= i < |list[c]| ==> WordName(list[c][i])
    ensures CombinationsRead(CombinationLines(list)) == []
  {
    if list != [] {
      var n := |list| - 1;
      var init := CombinationLines(list[..n]);
      var l := CombinationLine(list[n]);
      CombinationLinesNoHeader(list[..n]);
      assert CombinationLines(list) == init + [l];
      CombinationLineNotHeader(list[n]);
      OneLine(l);
      CombinationsReadAppend(init, [l]);
    }
  }
}
