/**
 * The result table of cal/emto-cpa.py: the job name built from the species
 * symbols, the header and data rows of one alloy's results, and write_to_csv,
 * which appends to the shared data file and writes the header only into an
 * empty file. The file is modelled by its rows; the csv module's quoting and
 * line terminators are not part of this model.
 */
module ResultTable {
  import opened Text

  /** All symbols of all sites, site after site. */
  function Flatten(sites: seq<seq<string>>): seq<string> {
    if sites == [] then [] else sites[0] + Flatten(sites[1..])
  }

  lemma {:induction false} FlattenSnoc(sites: seq<seq<string>>, site: seq<string>)
    ensures Flatten(sites + [site]) == Flatten(sites) + site
  {
    if sites == [] {
      assert sites + [site] == [site];
    } else {
      assert (sites + [site])[1..] == sites[1..] + [site];
      FlattenSnoc(sites[1..], site);
    }
  }

  /** Appending one more symbol of the current site to the name. */
  lemma NameStep(done: seq<string>, site: seq<string>, j: nat)
    requires j < |site|
    ensures Concat(done + site[..j + 1]) == Concat(done + site[..j]) + site[j]
  {
    assert site[..j + 1] == site[..j] + [site[j]];
    AppendAssoc(done, site[..j], [site[j]]);
    ConcatAppend(done + site[..j], [site[j]]);
    assert Concat([site[j]]) == site[j] + Concat([]);
    AppendNothing(site[j]);
  }

  /** A finished site joins the sites before it. */
  lemma SiteDone(species: seq<seq<string>>, i: nat)
    requires i < |species|
    ensures Flatten(species[..i]) + species[i][..|species[i]|] == Flatten(species[..i + 1])
  {
    TakeAll(species[i]);
    assert species[..i + 1] == species[..i] + [species[i]];
    FlattenSnoc(species[..i], species[i]);
  }

  /**
   * The job name: every species symbol of every site, concatenated in order
   * (the nested loop over `species` before the lattice-constant stage).
   */
  method JobName(species: seq<seq<string>>) returns (name: string)
    ensures name == Concat(Flatten(species))
  {
    name := "";
    var i := 0;
    while i < |species|
      invariant 0 <= i <= |species|
      invariant name == Concat(Flatten(species[..i]))
    {
      var j := 0;
      assert species[i][..0] == [];
      AppendNothing(Flatten(species[..i]));
      while j < |species[i]|
        invariant 0 <= j <= |species[i]|
        invariant name == Concat(Flatten(species[..i]) + species[i][..j])
      {
        NameStep(Flatten(species[..i]), species[i], j);
        name := name + species[i][j];
        j := j + 1;
      }
      SiteDone(species, i);
      i := i + 1;
    }
    TakeAll(species);
  }

  /** A single-site equiatomic alloy of Nb, Mo, Ta, W is named NbMoTaW. */
  lemma JobNameExample()
    ensures Concat(Flatten([["Nb", "Mo", "Ta", "W"]])) == "NbMoTaW"
  {
    assert Flatten([["Nb", "Mo", "Ta", "W"]]) == ["Nb", "Mo", "Ta", "W"];
  }

  /** The twelve result columns after the element columns. */
  const ResultColumns: seq<string> :=
    ["r_squared", "sws0", "lattice_constants", "E0", "C11", "C12", "C44", "B", "G", "E", "v", "AVR"]

  /** The header row: "System", one "Element X" column per symbol of the first site, the result columns. */
  function Headers(symbols: seq<string>): (h: seq<string>)
    ensures |h| == 1 + |symbols| + |ResultColumns|
    ensures h[0] == "System"
    ensures forall i :: 0 <= i < |symbols| ==> h[1 + i] == "Element " + symbols[i]
    ensures h[1 + |symbols|..] == ResultColumns
  {
    ["System"] + seq(|symbols|, i requires 0 <= i < |symbols| => "Element " + symbols[i]) + ResultColumns
  }

  /** One alloy's results, each already formatted as its column's text. */
  datatype Results = Results(
    rSquared: string, sws0: string, latticeConstant: string, e0: string,
    c11: string, c12: string, c44: string,
    bulk: string, shear: string, young: string, poisson: string, anisotropy: string)

  function ResultFields(r: Results): (fs: seq<string>)
    ensures |fs| == |ResultColumns|
  {
    [r.rSquared, r.sws0, r.latticeConstant, r.e0, r.c11, r.c12, r.c44,
     r.bulk, r.shear, r.young, r.poisson, r.anisotropy]
  }

  /** The data row: the job name, the concentrations of the first site, the results. */
  function DataRow(jobName: string, concs: seq<string>, r: Results): (row: seq<string>)
    ensures |row| == 1 + |concs| + |ResultColumns|
    ensures row[0] == jobName && row[1..1 + |concs|] == concs
    ensures row[1 + |concs|..] == ResultFields(r)
  {
    [jobName] + concs + ResultFields(r)
  }

  /**
   * Each value sits under its own column: with as many concentrations as
   * symbols, the data row and the header row have the same width, the
   * concentration of symbol i is under "Element X_i" and the result column
   * c holds the c-th result.
   */
  lemma {:induction false} RowMatchesHeader(symbols: seq<string>, jobName: string, concs: seq<string>, r: Results)
    requires |concs| == |symbols|
    ensures |DataRow(jobName, concs, r)| == |Headers(symbols)|
    ensures forall i :: 0 <= i < |symbols| ==>
      Headers(symbols)[1 + i] == "Element " + symbols[i] && DataRow(jobName, concs, r)[1 + i] == concs[i]
    ensures forall c :: 0 <= c < |ResultColumns| ==>
      Headers(symbols)[1 + |symbols| + c] == ResultColumns[c]
      && DataRow(jobName, concs, r)[1 + |symbols| + c] == ResultFields(r)[c]
  {
    var h := Headers(symbols);
    var row := DataRow(jobName, concs, r);
    forall i | 0 <= i < |symbols|
      ensures row[1 + i] == concs[i]
    {
      assert row[1..1 + |concs|][i] == row[1 + i];
    }
    forall c | 0 <= c < |ResultColumns|
      ensures h[1 + |symbols| + c] == ResultColumns[c]
      ensures row[1 + |symbols| + c] == ResultFields(r)[c]
    {
      assert h[1 + |symbols|..][c] == h[1 + |symbols| + c];
      assert row[1 + |concs|..][c] == row[1 + |symbols| + c];
    }
  }

  /** The rows of a CSV file after one write_to_csv: the header is written first only into an empty file. */
  function CsvAppend(rows: seq<seq<string>>, headers: seq<string>, data: seq<string>): seq<seq<string>> {
    (if rows == [] then [headers] else rows) + [data]
  }

  /** A CSV file opened for appending, seen as its rows. Every row ends in a line terminator, so the file is empty exactly when it has no rows. */
  class CsvFile {
    var rows: seq<seq<string>>

    constructor (initial: seq<seq<string>>)
      ensures rows == initial
    {
      rows := initial;
    }

    method WriteToCsv(data: seq<string>, headers: seq<string>)
      modifies this
      ensures rows == CsvAppend(old(rows), headers, data)
    {
      if rows == [] {
        rows := rows + [headers];
      }
      rows := rows + [data];
    }
  }

  /** The rows after appending each of `datas` in turn. */
  function AppendAll(rows: seq<seq<string>>, headers: seq<string>, datas: seq<seq<string>>): seq<seq<string>>
    decreases |datas|
  {
    if datas == [] then rows
    else AppendAll(CsvAppend(rows, headers, datas[0]), headers, datas[1..])
  }

  /** Appending to a file that already has rows adds only the data rows, in order. */
  lemma {:induction false} AppendAllToNonEmpty(rows: seq<seq<string>>, headers: seq<string>, datas: seq<seq<string>>)
    requires rows != []
    ensures AppendAll(rows, headers, datas) == rows + datas
    decreases |datas|
  {
    if datas != [] {
      AppendAllToNonEmpty(rows + [datas[0]], headers, datas[1..]);
      assert rows + [datas[0]] + datas[1..] == rows + datas;
    }
  }

  /**
   * Starting from an empty (new) file, any number of alloys appending their
   * rows leave exactly one header row, at the top, followed by the data rows
   * in order.
   */
  lemma {:induction false} AppendAllFromEmpty(headers: seq<string>, datas: seq<seq<string>>)
    requires datas != []
    ensures AppendAll([], headers, datas) == [headers] + datas
  {
    assert CsvAppend([], headers, datas[0]) == [headers, datas[0]];
    AppendAllToNonEmpty([headers, datas[0]], headers, datas[1..]);
    assert [headers, datas[0]] + datas[1..] == [headers] + datas;
  }
}
