/**
 * alloy_input_generation/generate_alloy_concentrations.py: random
 * concentration sets per combination, normalised to percentages, and the
 * text blocks that record them. The random draws are an input; the values
 * are idealised as reals, and the file records each value as the text the
 * float prints as, which is an input too.
 */
module Concentrations {
  import opened Wrappers
  import opened Text
  import opened TextFiles
  import opened AlloyCombinations

  /** Concentration sets drawn per combination by default. */
  const DefaultSets: nat := 36

  /** The start of the header line of a block. */
  const HeaderPrefix: string := "Combination: "

  // ---------------------------------------------------------------------
  // generate_random_concentrations

  /** A set of draws whose total is zero cannot be normalised (ZeroDivisionError). */
  datatype DrawError = ZeroTotal(index: nat)

  /** Each draw as a percentage of the set's total. */
  function Normalise(vals: seq<real>, total: real): (r: seq<real>)
    requires total != 0.0
    ensures |r| == |vals| && forall j :: 0 <= j < |vals| ==> r[j] == vals[j] / total * 100.0
  {
    if vals == [] then [] else [vals[0] / total * 100.0] + Normalise(vals[1..], total)
  }

  lemma {:induction false} SumNormalise(vals: seq<real>, total: real)
    requires total != 0.0
    ensures Sum(Normalise(vals, total)) == Sum(vals) / total * 100.0
  {
    if vals != [] {
      SumNormalise(vals[1..], total);
      assert Normalise(vals, total)[1..] == Normalise(vals[1..], total);
      assert vals[0] / total * 100.0 + Sum(vals[1..]) / total * 100.0 == (vals[0] + Sum(vals[1..])) / total * 100.0;
    }
  }

  /** Draws from random.random(): one per member of the combination, each in [0, 1). */
  predicate ValidDraws(combo: seq<string>, draws: seq<seq<real>>) {
    forall i :: 0 <= i < |draws| ==> |draws[i]| == |combo| && forall j :: 0 <= j < |combo| ==> 0.0 <= draws[i][j] < 1.0
  }

  /** One normalised set; an empty combination divides nothing. */
  function NormalisedSet(vals: seq<real>): Option<seq<real>> {
    if vals == [] then Some([])
    else if Sum(vals) == 0.0 then None
    else Some(Normalise(vals, Sum(vals)))
  }

  /**
   * `num_sets` sets, one per group of draws: each draw divided by its set's
   * total and scaled to 100. The rounding to two decimals is not part of
   * this model. The first set whose draws sum to zero stops the loop.
   */
  method GenerateRandomConcentrations(combo: seq<string>, numSets: nat, draws: seq<seq<real>>)
    returns (r: Result<seq<seq<real>>, DrawError>)
    requires |draws| == numSets && ValidDraws(combo, draws)
    ensures r.Err? <==> combo != [] && exists i :: 0 <= i < numSets && Sum(draws[i]) == 0.0
    ensures r.Err? ==> var k := r.error.index;
      k < numSets && Sum(draws[k]) == 0.0 && forall i :: 0 <= i < k ==> Sum(draws[i]) != 0.0
    ensures r.Ok? ==> |r.value| == numSets
    ensures r.Ok? ==> forall i :: 0 <= i < numSets ==> Some(r.value[i]) == NormalisedSet(draws[i]) && |r.value[i]| == |combo|
  {
    var sets: seq<seq<real>> := [];
    var i := 0;
    while i < numSets
      invariant 0 <= i <= numSets && |sets| == i
      invariant combo != [] ==> forall j :: 0 <= j < i ==> Sum(draws[j]) != 0.0
      invariant forall j :: 0 <= j < i ==> Some(sets[j]) == NormalisedSet(draws[j]) && |sets[j]| == |combo|
    {
      var vals := draws[i];
      var total := Sum(vals);
      if vals != [] && total == 0.0 {
        return Err(ZeroTotal(i));
      }
      var concentrations := if vals == [] then [] else Normalise(vals, total);
      sets := sets + [concentrations];
      i := i + 1;
    }
    return Ok(sets);
  }

  /** A normalised set of a non-empty combination adds up to 100, each value within [0, 100]. */
  lemma NormalisedSetSums(vals: seq<real>)
    requires vals != [] && forall j :: 0 <= j < |vals| ==> 0.0 <= vals[j]
    requires NormalisedSet(vals).Some?
    ensures Sum(NormalisedSet(vals).value) == 100.0
    ensures forall j :: 0 <= j < |vals| ==> 0.0 <= NormalisedSet(vals).value[j] <= 100.0
  {
    var total := Sum(vals);
    assert total != 0.0;
    SumNormalise(vals, total);
    SumNonNegative(vals);
    FractionBounds(total, total);
    forall j | 0 <= j < |vals|
      ensures 0.0 <= vals[j] / total * 100.0 <= 100.0
    {
      PartBelowSum(vals, j);
      FractionBounds(vals[j], total);
    }
  }

  lemma FractionBounds(x: real, t: real)
    requires 0.0 <= x <= t && t > 0.0
    ensures 0.0 <= x / t <= 1.0 && (x == t ==> x / t == 1.0)
  {
    var q := x / t;
    assert q * t == x;
  }

  lemma {:induction false} SumNonNegative(vals: seq<real>)
    requires forall i :: 0 <= i < |vals| ==> 0.0 <= vals[i]
    ensures 0.0 <= Sum(vals)
  {
    if vals != [] {
      SumNonNegative(vals[1..]);
    }
  }

  lemma {:induction false} PartBelowSum(vals: seq<real>, j: nat)
    requires j < |vals| && forall i :: 0 <= i < |vals| ==> 0.0 <= vals[i]
    ensures vals[j] <= Sum(vals)
  {
    if j == 0 {
      SumNonNegative(vals[1..]);
    } else {
      PartBelowSum(vals[1..], j - 1);
    }
  }

  // ---------------------------------------------------------------------
  // save_concentration_sets_to_file

  function Min(a: nat, b: nat): nat {
    if a <= b then a else b
  }

  /** The line that opens a block: the prefix and the symbols joined by a comma and a space. */
  function HeaderLine(combo: seq<string>): string {
    HeaderPrefix + Join(combo, ", ") + "\n"
  }

  /** One symbol with its concentration text, as `elem: conc%`. */
  function Piece(elem: string, conc: string): string {
    elem + ": " + conc + "%"
  }

  /** `zip(combo, concentrations)`: pairs by position, as many as the shorter list has. */
  function Pieces(combo: seq<string>, concs: seq<string>): (ps: seq<string>)
    ensures |ps| == Min(|combo|, |concs|)
    ensures forall i :: 0 <= i < |ps| ==> ps[i] == Piece(combo[i], concs[i])
  {
    seq(Min(|combo|, |concs|), i requires 0 <= i < Min(|combo|, |concs|) => Piece(combo[i], concs[i]))
  }

  function SetLine(combo: seq<string>, concs: seq<string>): string {
    Join(Pieces(combo, concs), ", ") + "\n"
  }

  function SetLines(combo: seq<string>, sets: seq<seq<string>>): (ls: seq<string>)
    ensures |ls| == |sets| && forall i :: 0 <= i < |sets| ==> ls[i] == SetLine(combo, sets[i])
  {
    if sets == [] then [] else SetLines(combo, sets[..|sets| - 1]) + [SetLine(combo, sets[|sets| - 1])]
  }

  /** A block: the header line, one line per set, and an empty line. */
  function BlockLines(combo: seq<string>, sets: seq<seq<string>>): (ls: seq<string>)
    ensures |ls| == |sets| + 2
    ensures ls[0] == HeaderLine(combo) && ls[|ls| - 1] == "\n"
    ensures forall i :: 0 <= i < |sets| ==> ls[i + 1] == SetLine(combo, sets[i])
  {
    [HeaderLine(combo)] + SetLines(combo, sets) + ["\n"]
  }

  /**
   * Appending one block (mode 'a'): what the file held stays in front, and
   * the block's lines follow.
   */
  method SaveConcentrationSetsToFile(combo: seq<string>, sets: seq<seq<string>>, file: TextFile)
    modifies file
    ensures file.content == old(file.content) + Concat(BlockLines(combo, sets))
  {
    ghost var start := file.content;
    file.Write(HeaderPrefix + Join(combo, ", ") + "\n");
    var i := 0;
    while i < |sets|
      invariant 0 <= i <= |sets|
      invariant file.content == start + HeaderLine(combo) + Concat(SetLines(combo, sets[..i]))
    {
      SetLinesTextSnoc(combo, sets, i);
      AppendAssoc(start + HeaderLine(combo), Concat(SetLines(combo, sets[..i])), SetLine(combo, sets[i]));
      file.Write(Join(Pieces(combo, sets[i]), ", ") + "\n");
      i := i + 1;
    }
    TakeAll(sets);
    file.Write("\n");
    BlockText(combo, sets);
    AppendAssoc(start + HeaderLine(combo), Concat(SetLines(combo, sets)), "\n");
    AppendAssoc(start, HeaderLine(combo), Concat(SetLines(combo, sets)) + "\n");
  }

  lemma SetLinesTextSnoc(combo: seq<string>, sets: seq<seq<string>>, i: nat)
    requires i < |sets|
    ensures Concat(SetLines(combo, sets[..i + 1])) == Concat(SetLines(combo, sets[..i])) + SetLine(combo, sets[i])
  {
    assert sets[..i + 1][..i] == sets[..i];
    ConcatAppend(SetLines(combo, sets[..i]), [SetLine(combo, sets[i])]);
  }

  lemma BlockText(combo: seq<string>, sets: seq<seq<string>>)
    ensures Concat(BlockLines(combo, sets)) == HeaderLine(combo) + (Concat(SetLines(combo, sets)) + "\n")
  {
    ConcatAppend([HeaderLine(combo)] + SetLines(combo, sets), ["\n"]);
    ConcatAppend([HeaderLine(combo)], SetLines(combo, sets));
  }

  /** The lines of a whole file: one block per combination, in order. */
  function FileLines(combos: seq<seq<string>>, setsPer: seq<seq<seq<string>>>): (ls: seq<string>)
    requires |setsPer| == |combos|
  {
    if combos == [] then []
    else
      var n := |combos| - 1;
      FileLines(combos[..n], setsPer[..n]) + BlockLines(combos[n], setsPer[n])
  }

  lemma FileLinesSnoc(combos: seq<seq<string>>, setsPer: seq<seq<seq<string>>>, i: nat)
    requires |setsPer| == |combos| && i < |combos|
    ensures FileLines(combos[..i + 1], setsPer[..i + 1])
      == FileLines(combos[..i], setsPer[..i]) + BlockLines(combos[i], setsPer[i])
  {
    assert combos[..i + 1][..i] == combos[..i] && setsPer[..i + 1][..i] == setsPer[..i];
  }

  lemma FileTextSnoc(combos: seq<seq<string>>, setsPer: seq<seq<seq<string>>>, i: nat)
    requires |setsPer| == |combos| && i < |combos|
    ensures Concat(FileLines(combos[..i + 1], setsPer[..i + 1]))
      == Concat(FileLines(combos[..i], setsPer[..i])) + Concat(BlockLines(combos[i], setsPer[i]))
  {
    FileLinesSnoc(combos, setsPer, i);
    ConcatAppend(FileLines(combos[..i], setsPer[..i]), BlockLines(combos[i], setsPer[i]));
  }

  /** With `m` sets per combination the file has m + 2 lines per combination. */
  lemma {:induction false} FileLinesCount(combos: seq<seq<string>>, setsPer: seq<seq<seq<string>>>, m: nat)
    requires |setsPer| == |combos| && forall c :: 0 <= c < |combos| ==> |setsPer[c]| == m
    ensures |FileLines(combos, setsPer)| == |combos| * (m + 2)
  {
    if combos != [] {
      var n := |combos| - 1;
      FileLinesCount(combos[..n], setsPer[..n], m);
      var k := m + 2;
      assert |BlockLines(combos[n], setsPer[n])| == k;
      assert |FileLines(combos, setsPer)| == n * k + k;
      MulSucc(n, k);
    }
  }

  lemma MulSucc(n: nat, k: nat)
    ensures n * k + k == (n + 1) * k
  {
  }

  /**
   * The loop of main: one block per combination, appended in the order of
   * the combinations, each with the sets drawn for it.
   */
  method SaveAllConcentrations(combos: seq<seq<string>>, setsPer: seq<seq<seq<string>>>, file: TextFile)
    requires |setsPer| == |combos|
    modifies file
    ensures file.content == old(file.content) + Concat(FileLines(combos, setsPer))
  {
    var i := 0;
    while i < |combos|
      invariant 0 <= i <= |combos|
      invariant file.content == old(file.content) + Concat(FileLines(combos[..i], setsPer[..i]))
    {
      FileTextSnoc(combos, setsPer, i);
      AppendAssoc(old(file.content), Concat(FileLines(combos[..i], setsPer[..i])), Concat(BlockLines(combos[i], setsPer[i])));
      SaveConcentrationSetsToFile(combos[i], setsPer[i], file);
      i := i + 1;
    }
    TakeAll(combos);
    TakeAll(setsPer);
  }

}
