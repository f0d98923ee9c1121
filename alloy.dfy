/**
 * alloy_input_generation/refractory_alloy_combinations.py: the table of
 * nine refractory elements, the k-element combinations of its symbols in
 * table order (itertools.combinations), the average of a property over a
 * combination, filtering combinations by a threshold on that average, and
 * writing combinations one per line. Property values are idealised as reals.
 */
module AlloyCombinations {
  import opened Wrappers
  import opened Text
  import opened TextFiles

  datatype Properties = Properties(atomicNumber: real, density: real, meltingPoint: real)

  /** A dictionary of elements, in insertion order: symbol and properties. */
  type ElementTable = seq<(string, Properties)>

  /** The nine refractory elements with atomic number, density (g/cm3) and melting point (K). */
  const Refractory: ElementTable := [
    ("Ti", Properties(22.0, 4.5, 1668.0)),
    ("V", Properties(23.0, 6.0, 1910.0)),
    ("Nb", Properties(41.0, 8.57, 2477.0)),
    ("Ta", Properties(73.0, 16.65, 3017.0)),
    ("Cr", Properties(24.0, 7.19, 1907.0)),
    ("Zr", Properties(40.0, 6.52, 1855.0)),
    ("Hf", Properties(72.0, 13.31, 2233.0)),
    ("Mo", Properties(42.0, 10.28, 2623.0)),
    ("W", Properties(74.0, 19.25, 3422.0))
  ]

  /** The combination size and the melting-point threshold the script uses. */
  const ComboSize: nat := 4
  const MeltingThreshold: real := 2000.0

  /** The symbols in insertion order (`list(elements.keys())`). */
  function Keys(elements: ElementTable): (ks: seq<string>)
    ensures |ks| == |elements|
    ensures forall i :: 0 <= i < |ks| ==> ks[i] == elements[i].0
  {
    seq(|elements|, i requires 0 <= i < |elements| => elements[i].0)
  }

  /** Dictionary keys are unique. */
  predicate DistinctKeys(ks: seq<string>) {
    forall i, j :: 0 <= i < j < |ks| ==> ks[i] != ks[j]
  }

  // ---------------------------------------------------------------------
  // Combinations of indices

  /** Pascal's rule: the number of k-element subsets of an n-element set. */
  function Binomial(n: nat, k: nat): nat {
    if k == 0 then 1
    else if n == 0 then 0
    else Binomial(n - 1, k - 1) + Binomial(n - 1, k)
  }

  function Prepend(x: nat, ss: seq<seq<nat>>): (r: seq<seq<nat>>)
    ensures |r| == |ss| && forall i :: 0 <= i < |ss| ==> r[i] == [x] + ss[i]
  {
    seq(|ss|, i requires 0 <= i < |ss| => [x] + ss[i])
  }

  /**
   * The k-element combinations of the indices lo .. n-1, as
   * itertools.combinations emits them: those starting with lo first.
   */
  function Choose(lo: nat, n: nat, k: nat): seq<seq<nat>>
    decreases n - lo
  {
    if k == 0 then [[]]
    else if lo >= n then []
    else Prepend(lo, Choose(lo + 1, n, k - 1)) + Choose(lo + 1, n, k)
  }

  /** Strictly increasing indices within lo .. n-1. */
  predicate Increasing(c: seq<nat>, lo: nat, n: nat) {
    (forall i :: 0 <= i < |c| ==> lo <= c[i] < n)
    && (forall i, j :: 0 <= i < j < |c| ==> c[i] < c[j])
  }

  /** There are Binomial(n - lo, k) combinations. */
  lemma {:induction false} ChooseCount(lo: nat, n: nat, k: nat)
    requires lo <= n
    ensures |Choose(lo, n, k)| == Binomial(n - lo, k)
    decreases n - lo
  {
    if k != 0 && lo < n {
      ChooseCount(lo + 1, n, k - 1);
      ChooseCount(lo + 1, n, k);
    }
  }

  lemma IncreasingCons(lo: nat, n: nat, d: seq<nat>)
    requires lo < n && Increasing(d, lo + 1, n)
    ensures Increasing([lo] + d, lo, n)
  {
    var c := [lo] + d;
    forall i, j | 0 <= i < j < |c| ensures c[i] < c[j] {
      assert c[j] == d[j - 1];
      if i > 0 {
        assert c[i] == d[i - 1];
      }
    }
  }

  /** Each tuple of `cs` has k strictly increasing indices within lo .. n-1. */
  predicate AllShaped(cs: seq<seq<nat>>, k: nat, lo: nat, n: nat) {
    forall i :: 0 <= i < |cs| ==> |cs[i]| == k && Increasing(cs[i], lo, n)
  }

  /** Every combination has k strictly increasing indices in range. */
  lemma {:induction false} ChooseShape(lo: nat, n: nat, k: nat)
    ensures AllShaped(Choose(lo, n, k), k, lo, n)
    decreases n - lo
  {
    if k != 0 && lo < n {
      var first := Choose(lo + 1, n, k - 1);
      var rest := Choose(lo + 1, n, k);
      ChooseShape(lo + 1, n, k - 1);
      ChooseShape(lo + 1, n, k);
      PrependShaped(lo, n, k, first);
      WidenShaped(rest, k, lo, n);
      ConcatShaped(Prepend(lo, first), rest, k, lo, n);
      assert Choose(lo, n, k) == Prepend(lo, first) + rest;
    }
  }

  lemma PrependShaped(lo: nat, n: nat, k: nat, first: seq<seq<nat>>)
    requires lo < n && k >= 1 && AllShaped(first, k - 1, lo + 1, n)
    ensures AllShaped(Prepend(lo, first), k, lo, n)
  {
    var a := Prepend(lo, first);
    forall i | 0 <= i < |a| ensures |a[i]| == k && Increasing(a[i], lo, n) {
      IncreasingCons(lo, n, first[i]);
    }
  }

  lemma WidenShaped(cs: seq<seq<nat>>, k: nat, lo: nat, n: nat)
    requires AllShaped(cs, k, lo + 1, n)
    ensures AllShaped(cs, k, lo, n)
  {
    forall i | 0 <= i < |cs| ensures |cs[i]| == k && Increasing(cs[i], lo, n) {
      IncreasingWiden(cs[i], lo, n);
    }
  }

  lemma IncreasingWiden(c: seq<nat>, lo: nat, n: nat)
    requires Increasing(c, lo + 1, n)
    ensures Increasing(c, lo, n)
  {
  }

  lemma ConcatShaped(a: seq<seq<nat>>, b: seq<seq<nat>>, k: nat, lo: nat, n: nat)
    requires AllShaped(a, k, lo, n) && AllShaped(b, k, lo, n)
    ensures AllShaped(a + b, k, lo, n)
  {
    forall i | 0 <= i < |a + b| ensures |(a + b)[i]| == k && Increasing((a + b)[i], lo, n) {
      if i >= |a| {
        assert (a + b)[i] == b[i - |a|];
      }
    }
  }

  /** Every strictly increasing k-tuple of indices in range is a combination. */
  lemma {:induction false} ChooseComplete(lo: nat, n: nat, k: nat, c: seq<nat>)
    requires |c| == k && Increasing(c, lo, n)
    ensures c in Choose(lo, n, k)
    decreases n - lo
  {
    if k != 0 {
      assert lo <= c[0] < n;
      if c[0] == lo {
        var tail := c[1..];
        assert Increasing(tail, lo + 1, n) by {
          forall i | 0 <= i < |tail| ensures lo + 1 <= tail[i] < n {
            assert tail[i] == c[i + 1] && c[0] < c[i + 1];
          }
        }
        ChooseComplete(lo + 1, n, k - 1, tail);
        var first := Choose(lo + 1, n, k - 1);
        var i :| 0 <= i < |first| && first[i] == tail;
        assert Prepend(lo, first)[i] == c;
      } else {
        ChooseComplete(lo + 1, n, k, c);
      }
    }
  }

  /** Lexicographic order on index tuples. */
  predicate LexLess(a: seq<nat>, b: seq<nat>) {
    a != [] && b != [] && (a[0] < b[0] || (a[0] == b[0] && LexLess(a[1..], b[1..])))
  }

  lemma {:induction false} LexLessIrreflexive(a: seq<nat>)
    ensures !LexLess(a, a)
  {
    if a != [] {
      LexLessIrreflexive(a[1..]);
    }
  }

  predicate LexSorted(cs: seq<seq<nat>>) {
    forall i, j :: 0 <= i < j < |cs| ==> LexLess(cs[i], cs[j])
  }

  /** The combinations come in strictly increasing lexicographic order, so none repeats. */
  lemma {:induction false} ChooseSorted(lo: nat, n: nat, k: nat)
    ensures LexSorted(Choose(lo, n, k))
    decreases n - lo
  {
    if k != 0 && lo < n {
      var first := Choose(lo + 1, n, k - 1);
      var rest := Choose(lo + 1, n, k);
      ChooseSorted(lo + 1, n, k - 1);
      ChooseSorted(lo + 1, n, k);
      ChooseShape(lo + 1, n, k);
      PrependSorted(lo, first);
      ConcatSorted(lo, n, k, Prepend(lo, first), rest);
    }
  }

  lemma PrependSorted(lo: nat, first: seq<seq<nat>>)
    requires LexSorted(first)
    ensures LexSorted(Prepend(lo, first))
  {
    var a := Prepend(lo, first);
    forall i, j | 0 <= i < j < |a| ensures LexLess(a[i], a[j]) {
      assert a[i][1..] == first[i] && a[j][1..] == first[j];
    }
  }

  /** Tuples starting with lo all come before the tuples that start above lo. */
  lemma ConcatSorted(lo: nat, n: nat, k: nat, a: seq<seq<nat>>, rest: seq<seq<nat>>)
    requires k >= 1 && LexSorted(a) && LexSorted(rest) && AllShaped(rest, k, lo + 1, n)
    requires forall i :: 0 <= i < |a| ==> a[i] != [] && a[i][0] == lo
    ensures LexSorted(a + rest)
  {
    var all := a + rest;
    forall i, j | 0 <= i < j < |all| ensures LexLess(all[i], all[j]) {
      if j < |a| {
        assert all[i] == a[i] && all[j] == a[j];
      } else if i < |a| {
        assert all[j] == rest[j - |a|];
      } else {
        assert all[i] == rest[i - |a|] && all[j] == rest[j - |a|];
      }
    }
  }

  // ---------------------------------------------------------------------
  // generate_combinations

  /** The symbols at the given indices. */
  function Pick(keys: seq<string>, idx: seq<nat>): (r: seq<string>)
    requires forall i :: 0 <= i < |idx| ==> idx[i] < |keys|
    ensures |r| == |idx| && forall i :: 0 <= i < |idx| ==> r[i] == keys[idx[i]]
  {
    seq(|idx|, i requires 0 <= i < |idx| => keys[idx[i]])
  }

  /** `list(combinations(list(elements.keys()), combo_size))`. */
  function GenerateCombinations(elements: ElementTable, comboSize: nat): (r: seq<seq<string>>)
    ensures |r| == Binomial(|elements|, comboSize)
    ensures forall i :: 0 <= i < |r| ==> |r[i]| == comboSize
  {
    var keys := Keys(elements);
    var idx := Choose(0, |elements|, comboSize);
    ChooseShape(0, |elements|, comboSize);
    ChooseCount(0, |elements|, comboSize);
    seq(|idx|, i requires 0 <= i < |idx| => assert idx[i] in idx; Pick(keys, idx[i]))
  }

  /** A tuple of symbols taken from the table in table order, none twice. */
  ghost predicate InKeyOrder(keys: seq<string>, combo: seq<string>) {
    exists idx :: |idx| == |combo| && Increasing(idx, 0, |keys|) && combo == Pick(keys, idx)
  }

  lemma GeneratedAt(elements: ElementTable, comboSize: nat, i: nat)
    requires i < |GenerateCombinations(elements, comboSize)|
    ensures var idx := Choose(0, |elements|, comboSize);
      i < |idx| && |idx[i]| == comboSize && Increasing(idx[i], 0, |elements|)
      && GenerateCombinations(elements, comboSize)[i] == Pick(Keys(elements), idx[i])
  {
    var idx := Choose(0, |elements|, comboSize);
    ChooseShape(0, |elements|, comboSize);
    ChooseCount(0, |elements|, comboSize);
    assert idx[i] in idx;
  }

  /**
   * The generated tuples are exactly the comboSize-element selections of the
   * symbols in table order: each one is such a selection, and every such
   * selection is generated.
   */
  lemma GeneratedAreSelections(elements: ElementTable, comboSize: nat, combo: seq<string>)
    ensures combo in GenerateCombinations(elements, comboSize)
      <==> |combo| == comboSize && InKeyOrder(Keys(elements), combo)
  {
    var r := GenerateCombinations(elements, comboSize);
    var keys := Keys(elements);
    if combo in r {
      var i :| 0 <= i < |r| && r[i] == combo;
      GeneratedAt(elements, comboSize, i);
    }
    if |combo| == comboSize && InKeyOrder(keys, combo) {
      var idx :| |idx| == |combo| && Increasing(idx, 0, |keys|) && combo == Pick(keys, idx);
      ChooseComplete(0, |elements|, comboSize, idx);
      var all := Choose(0, |elements|, comboSize);
      var i :| 0 <= i < |all| && all[i] == idx;
      ChooseCount(0, |elements|, comboSize);
      GeneratedAt(elements, comboSize, i);
      assert r[i] == combo;
    }
  }

  lemma PickInjective(keys: seq<string>, a: seq<nat>, b: seq<nat>)
    requires DistinctKeys(keys) && |a| == |b|
    requires forall i :: 0 <= i < |a| ==> a[i] < |keys| && b[i] < |keys|
    requires Pick(keys, a) == Pick(keys, b)
    ensures a == b
  {
    forall i | 0 <= i < |a| ensures a[i] == b[i] {
      assert keys[a[i]] == Pick(keys, a)[i] == Pick(keys, b)[i] == keys[b[i]];
    }
  }

  /** With distinct symbols, no tuple is generated twice and no tuple repeats a symbol. */
  lemma GeneratedDistinct(elements: ElementTable, comboSize: nat)
    requires DistinctKeys(Keys(elements))
    ensures var r := GenerateCombinations(elements, comboSize);
      (forall i, j :: 0 <= i < j < |r| ==> r[i] != r[j])
      && (forall i :: 0 <= i < |r| ==> DistinctKeys(r[i]))
  {
    var r := GenerateCombinations(elements, comboSize);
    var idx := Choose(0, |elements|, comboSize);
    var keys := Keys(elements);
    ChooseSorted(0, |elements|, comboSize);
    forall i, j | 0 <= i < j < |r|
      ensures r[i] != r[j]
    {
      GeneratedAt(elements, comboSize, i);
      GeneratedAt(elements, comboSize, j);
      LexLessIrreflexive(idx[i]);
      if r[i] == r[j] {
        PickInjective(keys, idx[i], idx[j]);
      }
    }
    forall i | 0 <= i < |r|
      ensures DistinctKeys(r[i])
    {
      GeneratedAt(elements, comboSize, i);
    }
  }

  /** There is no way to choose more elements than there are. */
  lemma {:induction false} BinomialAbove(n: nat, k: nat)
    requires n < k
    ensures Binomial(n, k) == 0
  {
    if n > 0 {
      BinomialAbove(n - 1, k - 1);
      BinomialAbove(n - 1, k);
    }
  }

  /** One step of Pascal's rule, with the two values above already known. */
  lemma Pascal(n: nat, k: nat, above: nat, aboveLeft: nat)
    requires 0 < n && 0 < k
    requires Binomial(n - 1, k - 1) == aboveLeft && Binomial(n - 1, k) == above
    ensures Binomial(n, k) == aboveLeft + above
  {
  }

  /** There are n ways to choose one element of n. */
  lemma {:induction false} BinomialOne(n: nat)
    ensures Binomial(n, 1) == n
  {
    if n > 0 {
      BinomialOne(n - 1);
    }
  }

  /** Pascal's triangle up to the fourth column of its ninth row. */
  lemma BinomialNineFour()
    ensures Binomial(9, 4) == 126
  {
    BinomialOne(1); BinomialOne(2); BinomialOne(3); BinomialOne(4);
    BinomialOne(5); BinomialOne(6); BinomialOne(7); BinomialOne(8);
    BinomialAbove(1, 2); BinomialAbove(2, 3); BinomialAbove(3, 4);
    Pascal(2, 2, 0, 1);
    Pascal(3, 2, 1, 2); Pascal(3, 3, 0, 1);
    Pascal(4, 2, 3, 3); Pascal(4, 3, 1, 3); Pascal(4, 4, 0, 1);
    Pascal(5, 2, 6, 4); Pascal(5, 3, 4, 6); Pascal(5, 4, 1, 4);
    Pascal(6, 2, 10, 5); Pascal(6, 3, 10, 10); Pascal(6, 4, 5, 10);
    Pascal(7, 2, 15, 6); Pascal(7, 3, 20, 15); Pascal(7, 4, 15, 20);
    Pascal(8, 3, 35, 21); Pascal(8, 4, 35, 35);
    Pascal(9, 4, 70, 56);
  }

  /** The script's nine symbols, in the order of its dictionary. */
  lemma RefractoryKeys()
    ensures Keys(Refractory) == RefractorySymbols
  {
  }

  const RefractorySymbols: seq<string> := ["Ti", "V", "Nb", "Ta", "Cr", "Zr", "Hf", "Mo", "W"]

  /** No symbol is listed twice. */
  lemma RefractoryDistinct()
    ensures DistinctKeys(RefractorySymbols)
  {
  }

  /** The script's nine elements in fours: 126 tuples of distinct symbols. */
  lemma RefractoryCombinations()
    ensures Keys(Refractory) == RefractorySymbols
    ensures DistinctKeys(Keys(Refractory))
    ensures |GenerateCombinations(Refractory, ComboSize)| == 126
  {
    RefractoryKeys();
    RefractoryDistinct();
    BinomialNineFour();
  }

  // ---------------------------------------------------------------------
  // calculate_average_property

  /** The KeyError or ZeroDivisionError an average can raise. */
  datatype AverageError = UnknownElement(symbol: string) | UnknownProperty(name: string) | ZeroDivision

  /** `elements[symbol]`: the properties stored under a symbol, if any. */
  function Lookup(elements: ElementTable, symbol: string): (r: Option<Properties>)
    ensures r.Some? <==> symbol in Keys(elements)
    ensures r.Some? ==> (symbol, r.value) in elements
  {
    if elements == [] then None
    else if elements[0].0 == symbol then Some(elements[0].1)
    else
      assert Keys(elements) == [elements[0].0] + Keys(elements[1..]);
      Lookup(elements[1..], symbol)
  }

  /** `properties[name]` for the three property names of the table. */
  function PropertyOf(p: Properties, name: string): (r: Option<real>)
    ensures r.Some? <==> name == "atomic_number" || name == "density" || name == "melting_point"
  {
    if name == "atomic_number" then Some(p.atomicNumber)
    else if name == "density" then Some(p.density)
    else if name == "melting_point" then Some(p.meltingPoint)
    else None
  }

  /** The property of one member, or the KeyError its lookup raises. */
  function MemberValue(elements: ElementTable, symbol: string, name: string): Result<real, AverageError> {
    match Lookup(elements, symbol)
    case None => Err(UnknownElement(symbol))
    case Some(p) =>
      match PropertyOf(p, name)
      case None => Err(UnknownProperty(name))
      case Some(v) => Ok(v)
  }

  /**
   * The values the generator expression of the sum yields, member by member;
   * the first member whose lookup fails decides the error.
   */
  function PropertyValues(combo: seq<string>, elements: ElementTable, name: string): (r: Result<seq<real>, AverageError>)
    ensures r.Ok? <==> forall i :: 0 <= i < |combo| ==> MemberValue(elements, combo[i], name).Ok?
    ensures r.Ok? ==> |r.value| == |combo|
    ensures r.Ok? ==> forall i :: 0 <= i < |combo| ==> r.value[i] == MemberValue(elements, combo[i], name).value
    ensures r.Err? ==> exists i :: (0 <= i < |combo| && MemberValue(elements, combo[i], name) == Err(r.error)
      && forall j :: 0 <= j < i ==> MemberValue(elements, combo[j], name).Ok?)
  {
    if combo == [] then Ok([])
    else
      match MemberValue(elements, combo[0], name)
      case Err(e) => Err(e)
      case Ok(v) =>
        match PropertyValues(combo[1..], elements, name)
        case Err(e) =>
          ghost var i :| 0 <= i < |combo[1..]| && MemberValue(elements, combo[1..][i], name) == Err(e)
            && forall j :: 0 <= j < i ==> MemberValue(elements, combo[1..][j], name).Ok?;
          assert MemberValue(elements, combo[i + 1], name) == Err(e);
          Err(e)
        case Ok(vs) => Ok([v] + vs)
  }

  function Sum(vs: seq<real>): real {
    if vs == [] then 0.0 else vs[0] + Sum(vs[1..])
  }

  function MinOf(vs: seq<real>): (m: real)
    requires vs != []
    ensures m in vs && forall i :: 0 <= i < |vs| ==> m <= vs[i]
  {
    if |vs| == 1 then vs[0]
    else
      var rest := MinOf(vs[1..]);
      assert forall i :: 1 <= i < |vs| ==> vs[i] == vs[1..][i - 1];
      if vs[0] <= rest then vs[0] else rest
  }

  function MaxOf(vs: seq<real>): (m: real)
    requires vs != []
    ensures m in vs && forall i :: 0 <= i < |vs| ==> vs[i] <= m
  {
    if |vs| == 1 then vs[0]
    else
      var rest := MaxOf(vs[1..]);
      assert forall i :: 1 <= i < |vs| ==> vs[i] == vs[1..][i - 1];
      if vs[0] >= rest then vs[0] else rest
  }

  /**
   * `sum(...) / len(combo)`. A lookup failure is raised first; an empty
   * combination then divides zero by zero.
   */
  function AverageProperty(combo: seq<string>, elements: ElementTable, name: string): (r: Result<real, AverageError>)
    ensures PropertyValues(combo, elements, name).Err? ==> r == Err(PropertyValues(combo, elements, name).error)
    ensures r == Err(ZeroDivision) <==> PropertyValues(combo, elements, name).Ok? && combo == []
    ensures r.Ok? ==> combo != [] && r.value * |combo| as real == Sum(PropertyValues(combo, elements, name).value)
  {
    match PropertyValues(combo, elements, name)
    case Err(e) => Err(e)
    case Ok(vs) =>
      if |vs| == 0 then Err(ZeroDivision)
      else Ok(Sum(vs) / |vs| as real)
  }

  lemma {:induction false} SumBounds(vs: seq<real>, lo: real, hi: real)
    requires forall i :: 0 <= i < |vs| ==> lo <= vs[i] <= hi
    ensures |vs| as real * lo <= Sum(vs) <= |vs| as real * hi
  {
    if vs != [] {
      SumBounds(vs[1..], lo, hi);
      assert (|vs| - 1) as real * lo + lo == |vs| as real * lo;
      assert (|vs| - 1) as real * hi + hi == |vs| as real * hi;
    }
  }

  /** A mean of values within [lo, hi] lies within [lo, hi]. */
  lemma MeanBetween(vs: seq<real>, mean: real, lo: real, hi: real)
    requires vs != [] && mean * |vs| as real == Sum(vs)
    requires forall i :: 0 <= i < |vs| ==> lo <= vs[i] <= hi
    ensures lo <= mean <= hi
  {
    SumBounds(vs, lo, hi);
    QuotientBounds(mean, |vs| as real, Sum(vs), lo, hi);
  }

  lemma QuotientBounds(q: real, n: real, s: real, lo: real, hi: real)
    requires n > 0.0 && q * n == s && n * lo <= s <= n * hi
    ensures lo <= q <= hi
  {
  }

  /** An average lies between the smallest and the largest member value. */
  lemma AverageWithinBounds(combo: seq<string>, elements: ElementTable, name: string)
    requires AverageProperty(combo, elements, name).Ok?
    ensures var vs := PropertyValues(combo, elements, name).value;
      vs != [] && MinOf(vs) <= AverageProperty(combo, elements, name).value <= MaxOf(vs)
  {
    var pv := PropertyValues(combo, elements, name);
    var avg := AverageProperty(combo, elements, name).value;
    assert pv.Ok? && |pv.value| == |combo|;
    MeanWithinExtremes(pv.value, avg);
  }

  /** A mean lies between the smallest and the largest of the values. */
  lemma MeanWithinExtremes(vs: seq<real>, mean: real)
    requires vs != [] && mean * |vs| as real == Sum(vs)
    ensures MinOf(vs) <= mean <= MaxOf(vs)
  {
    MeanBetween(vs, mean, MinOf(vs), MaxOf(vs));
  }

  /** Known members and a known property give an average for every non-empty combination. */
  lemma AverageDefined(combo: seq<string>, elements: ElementTable, name: string)
    requires combo != [] && forall i :: 0 <= i < |combo| ==> combo[i] in Keys(elements)
    requires name == "atomic_number" || name == "density" || name == "melting_point"
    ensures AverageProperty(combo, elements, name).Ok?
  {
    forall i | 0 <= i < |combo| ensures MemberValue(elements, combo[i], name).Ok? {
      var p := Lookup(elements, combo[i]);
    }
  }

  /** Every generated combination of every non-zero size has an average for each property. */
  lemma GeneratedAveragesDefined(elements: ElementTable, comboSize: nat, name: string)
    requires comboSize > 0
    requires name == "atomic_number" || name == "density" || name == "melting_point"
    ensures forall c :: c in GenerateCombinations(elements, comboSize) ==> AverageProperty(c, elements, name).Ok?
  {
    var r := GenerateCombinations(elements, comboSize);
    forall c | c in r ensures AverageProperty(c, elements, name).Ok? {
      var i :| 0 <= i < |r| && r[i] == c;
      GeneratedAt(elements, comboSize, i);
      var keys := Keys(elements);
      assert forall t :: 0 <= t < |c| ==> c[t] in keys by {
        forall t | 0 <= t < |c| ensures c[t] in keys {
          var idx := Choose(0, |elements|, comboSize)[i];
          assert c[t] == keys[idx[t]];
        }
      }
      AverageDefined(c, elements, name);
    }
  }

  // ---------------------------------------------------------------------
  // filter_combinations

  /**
   * The combinations whose average reaches the threshold, in their order;
   * the first combination whose average raises stops the filter with that
   * error.
   */
  function Filtered(list: seq<seq<string>>, elements: ElementTable, name: string, threshold: real): Result<seq<seq<string>>, AverageError>
    decreases |list|
  {
    if list == [] then Ok([])
    else
      match Filtered(list[..|list| - 1], elements, name, threshold)
      case Err(e) => Err(e)
      case Ok(kept) =>
        var combo := list[|list| - 1];
        match AverageProperty(combo, elements, name)
        case Err(e) => Err(e)
        case Ok(avg) => Ok(if avg >= threshold then kept + [combo] else kept)
  }

  lemma {:induction false} FilteredErrPersists(list: seq<seq<string>>, elements: ElementTable, name: string, threshold: real, k: nat)
    requires k <= |list| && Filtered(list[..k], elements, name, threshold).Err?
    ensures Filtered(list, elements, name, threshold) == Filtered(list[..k], elements, name, threshold)
    decreases |list| - k
  {
    if k < |list| {
      assert list[..k + 1][..k] == list[..k];
      FilteredErrPersists(list, elements, name, threshold, k + 1);
    } else {
      assert list[..k] == list;
    }
  }

  /** The loop of filter_combinations: the kept combinations grow in the order of the input. */
  method FilterCombinations(list: seq<seq<string>>, elements: ElementTable, name: string, threshold: real)
    returns (r: Result<seq<seq<string>>, AverageError>)
    ensures r == Filtered(list, elements, name, threshold)
  {
    var filtered: seq<seq<string>> := [];
    var i := 0;
    while i < |list|
      invariant 0 <= i <= |list|
      invariant Filtered(list[..i], elements, name, threshold) == Ok(filtered)
    {
      assert list[..i + 1][..i] == list[..i];
      var avg := AverageProperty(list[i], elements, name);
      if avg.Err? {
        FilteredErrPersists(list, elements, name, threshold, i + 1);
        return Err(avg.error);
      }
      if avg.value >= threshold {
        filtered := filtered + [list[i]];
      }
      i := i + 1;
    }
    TakeAll(list);
    return Ok(filtered);
  }

  /** The filter over a non-empty list: the one before it, then its last combination. */
  lemma FilteredLast(list: seq<seq<string>>, elements: ElementTable, name: string, threshold: real)
    requires list != []
    ensures var init := Filtered(list[..|list| - 1], elements, name, threshold);
      var avg := AverageProperty(list[|list| - 1], elements, name);
      && (Filtered(list, elements, name, threshold).Ok? <==> init.Ok? && avg.Ok?)
      && (Filtered(list, elements, name, threshold).Ok? ==>
        Filtered(list, elements, name, threshold).value
          == if avg.value >= threshold then init.value + [list[|list| - 1]] else init.value)
  {
  }

  /** The filter succeeds exactly when every combination has an average. */
  lemma {:induction false} FilteredOkIff(list: seq<seq<string>>, elements: ElementTable, name: string, threshold: real)
    ensures Filtered(list, elements, name, threshold).Ok?
      <==> forall i :: 0 <= i < |list| ==> AverageProperty(list[i], elements, name).Ok?
    decreases |list|
  {
    if list != [] {
      var init := list[..|list| - 1];
      FilteredOkIff(init, elements, name, threshold);
      FilteredLast(list, elements, name, threshold);
      if forall i :: 0 <= i < |list| ==> AverageProperty(list[i], elements, name).Ok? {
        forall i | 0 <= i < |init|
          ensures AverageProperty(init[i], elements, name).Ok?
        {
          assert init[i] == list[i];
        }
      }
      if Filtered(list, elements, name, threshold).Ok? {
        assert Filtered(init, elements, name, threshold).Ok?;
        assert AverageProperty(list[|list| - 1], elements, name).Ok?;
        forall i | 0 <= i < |list|
          ensures AverageProperty(list[i], elements, name).Ok?
        {
          if i < |init| {
            assert init[i] == list[i];
            assert AverageProperty(init[i], elements, name).Ok?;
          } else {
            assert i == |list| - 1;
          }
        }
      }
    }
  }

  /** A combination is kept exactly when it is in the input and its average reaches the threshold. */
  lemma {:induction false} FilteredMembers(list: seq<seq<string>>, elements: ElementTable, name: string, threshold: real)
    requires Filtered(list, elements, name, threshold).Ok?
    ensures forall c :: (c in Filtered(list, elements, name, threshold).value
      <==> c in list && AverageProperty(c, elements, name).Ok? && AverageProperty(c, elements, name).value >= threshold)
    decreases |list|
  {
    if list != [] {
      var init := list[..|list| - 1];
      FilteredLast(list, elements, name, threshold);
      FilteredMembers(init, elements, name, threshold);
      assert list == init + [list[|list| - 1]];
      FilteredOkIff(list, elements, name, threshold);
    }
  }

  /** Order-preserving subsequence. */
  predicate IsSubsequence<T(==)>(a: seq<T>, b: seq<T>)
    decreases |b|
  {
    if a == [] then true
    else if b == [] then false
    else if a[|a| - 1] == b[|b| - 1] then IsSubsequence(a[..|a| - 1], b[..|b| - 1])
    else IsSubsequence(a, b[..|b| - 1])
  }

  lemma {:induction false} SubsequenceSnoc<T>(a: seq<T>, b: seq<T>, x: T)
    requires IsSubsequence(a, b)
    ensures IsSubsequence(a, b + [x])
    decreases |b|, 1
  {
    var bx := b + [x];
    assert bx[..|bx| - 1] == b;
    if a != [] && a[|a| - 1] == x {
      SubsequenceDropLast(a, b);
    }
  }

  lemma {:induction false} SubsequenceDropLast<T>(a: seq<T>, b: seq<T>)
    requires a != [] && IsSubsequence(a, b)
    ensures IsSubsequence(a[..|a| - 1], b)
    decreases |b|, 0
  {
    var a' := a[..|a| - 1];
    if b != [] {
      var b' := b[..|b| - 1];
      if a[|a| - 1] == b[|b| - 1] {
        SubsequenceSnoc(a', b', b[|b| - 1]);
        assert b' + [b[|b| - 1]] == b;
      } else {
        SubsequenceDropLast(a, b');
        SubsequenceSnoc(a', b', b[|b| - 1]);
        assert b' + [b[|b| - 1]] == b;
      }
    }
  }

  /** The kept combinations appear in the input in the same order. */
  lemma {:induction false} FilteredIsSubsequence(list: seq<seq<string>>, elements: ElementTable, name: string, threshold: real)
    requires Filtered(list, elements, name, threshold).Ok?
    ensures IsSubsequence(Filtered(list, elements, name, threshold).value, list)
    decreases |list|
  {
    if list != [] {
      var init := list[..|list| - 1];
      var last := list[|list| - 1];
      FilteredLast(list, elements, name, threshold);
      FilteredIsSubsequence(init, elements, name, threshold);
      var kept := Filtered(init, elements, name, threshold).value;
      if AverageProperty(last, elements, name).value >= threshold {
        var out := kept + [last];
        assert out[..|out| - 1] == kept;
        assert IsSubsequence(out, list);
      } else {
        SubsequenceSnoc(kept, init, last);
        SnocSlice(list);
      }
    }
  }

  /** Filtering the kept combinations again with the same threshold keeps them all. */
  lemma {:induction false} FilterIdempotent(list: seq<seq<string>>, elements: ElementTable, name: string, threshold: real)
    requires Filtered(list, elements, name, threshold).Ok?
    ensures Filtered(Filtered(list, elements, name, threshold).value, elements, name, threshold)
      == Filtered(list, elements, name, threshold)
    decreases |list|
  {
    if list != [] {
      var init := list[..|list| - 1];
      var last := list[|list| - 1];
      FilterIdempotent(init, elements, name, threshold);
      var kept := Filtered(init, elements, name, threshold).value;
      var out := Filtered(list, elements, name, threshold).value;
      if out == kept + [last] && out != kept {
        assert (kept + [last])[..|kept|] == kept;
      }
    }
  }

  // ---------------------------------------------------------------------
  // save_combinations_to_file

  /** One combination per line: the symbols joined by a comma and a space. */
  function CombinationLine(combo: seq<string>): string {
    Join(combo, ", ") + "\n"
  }

  function CombinationLines(list: seq<seq<string>>): (ls: seq<string>)
    ensures |ls| == |list| && forall i :: 0 <= i < |list| ==> ls[i] == CombinationLine(list[i])
  {
    if list == [] then []
    else CombinationLines(list[..|list| - 1]) + [CombinationLine(list[|list| - 1])]
  }

  /** Writing the combinations with mode 'w': the file ends up holding their lines and nothing else. */
  method SaveCombinationsToFile(list: seq<seq<string>>, file: TextFile)
    modifies file
    ensures file.content == Concat(CombinationLines(list))
  {
    file.Truncate();
    var i := 0;
    while i < |list|
      invariant 0 <= i <= |list|
      invariant file.content == Concat(CombinationLines(list[..i]))
    {
      assert list[..i + 1][..i] == list[..i];
      ConcatAppend(CombinationLines(list[..i]), [CombinationLine(list[i])]);
      file.Write(Join(list[i], ", ") + "\n");
      i := i + 1;
    }
    TakeAll(list);
  }

  lemma {:induction false} JoinExcludes(parts: seq<string>, sep: string, ch: char)
    requires ch !in sep && forall i :: 0 <= i < |parts| ==> ch !in parts[i]
    ensures ch !in Join(parts, sep)
  {
    if |parts| > 1 {
      JoinExcludes(parts[1..], sep, ch);
    }
  }

  /** For symbols without newlines, reading the file back line by line gives one line per combination. */
  lemma CombinationLinesReadBack(list: seq<seq<string>>)
    requires forall i, j :: 0 <= i < |list| && 0 <= j < |list[i]| ==> '\n' !in list[i][j]
    ensures Lines(Concat(CombinationLines(list))) == CombinationLines(list)
  {
    var ls := CombinationLines(list);
    forall i | 0 <= i < |ls| ensures IsLine(ls[i]) {
      JoinExcludes(list[i], ", ", '\n');
      assert ls[i][..|ls[i]| - 1] == Join(list[i], ", ");
    }
    LinesOfConcat(ls);
  }

  // ---------------------------------------------------------------------
  // main

  /** Every combination of four of the nine elements has a melting-point average, so the filter of main cannot fail. */
  lemma MainFilterDefined()
    ensures Filtered(GenerateCombinations(Refractory, ComboSize), Refractory, "melting_point", MeltingThreshold).Ok?
  {
    var combos := GenerateCombinations(Refractory, ComboSize);
    GeneratedAveragesDefined(Refractory, ComboSize, "melting_point");
    assert forall i :: 0 <= i < |combos| ==> combos[i] in combos;
    FilteredOkIff(combos, Refractory, "melting_point", MeltingThreshold);
  }

  /**
   * main: all 126 combinations go to one file and those with an average
   * melting point of at least 2000 K to another, each file overwritten.
   * The per-combination averages it prints are not part of this model.
   */
  method GenerateAndSave(allFile: TextFile, filteredFile: TextFile)
    requires allFile != filteredFile
    modifies allFile, filteredFile
    ensures Filtered(GenerateCombinations(Refractory, ComboSize), Refractory, "melting_point", MeltingThreshold).Ok?
    ensures allFile.content == Concat(CombinationLines(GenerateCombinations(Refractory, ComboSize)))
    ensures filteredFile.content == Concat(CombinationLines(
      Filtered(GenerateCombinations(Refractory, ComboSize), Refractory, "melting_point", MeltingThreshold).value))
  {
    var combos := GenerateCombinations(Refractory, ComboSize);
    var filtered := FilterCombinations(combos, Refractory, "melting_point", MeltingThreshold);
    MainFilterDefined();
    SaveCombinationsToFile(combos, allFile);
    SaveCombinationsToFile(filtered.value, filteredFile);
  }
}
