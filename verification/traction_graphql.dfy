/**
 * The variable builders of the GraphQL client: the `wells` argument of the
 * ONT plate mutation and the `flowcells` argument of the ONT run mutation.
 */
module TractionGraphQL {
  import opened Wrappers
  import opened Sequences
  import opened Text

  const RowLetters := "ABCDEFGH"
  const ColumnCount := 12

  /** Ruby's `Array#product`: every pair, the first component varying slowest. */
  function Product<A, B>(xs: seq<A>, ys: seq<B>): (ps: seq<(A, B)>)
    ensures |ps| == |xs| * |ys|
  {
    if |xs| == 0 then []
    else
      var rest := Product(xs[1..], ys);
      assert |ys| + (|xs| - 1) * |ys| == |xs| * |ys|;
      seq(|ys|, j requires 0 <= j < |ys| => (xs[0], ys[j])) + rest
  }

  /** Entry `q * |ys| + r` of a product pairs `xs[q]` with `ys[r]`. */
  lemma {:induction false} ProductIndex<A, B>(xs: seq<A>, ys: seq<B>, q: nat, r: nat)
    requires q < |xs| && r < |ys|
    ensures q * |ys| + r < |Product(xs, ys)|
    ensures Product(xs, ys)[q * |ys| + r] == (xs[q], ys[r])
  {
    var n := |ys|;
    if q > 0 {
      ProductIndex(xs[1..], ys, q - 1, r);
      assert q * n + r - n == (q - 1) * n + r;
    }
  }

  /** `(1..12).to_a`. */
  function Columns(): (cs: seq<nat>)
    ensures |cs| == ColumnCount
    ensures forall k :: 0 <= k < ColumnCount ==> cs[k] == k + 1
  {
    seq(ColumnCount, k requires 0 <= k < ColumnCount => k + 1)
  }

  /** The position string `"#{row}#{column}"`. */
  function PositionName(row: char, column: nat): string {
    [row] + NatToString(column)
  }

  function PairNames(pairs: seq<(nat, char)>): (names: seq<string>)
    ensures |names| == |pairs|
    ensures forall i :: 0 <= i < |pairs| ==> names[i] == PositionName(pairs[i].1, pairs[i].0)
  {
    seq(|pairs|, i requires 0 <= i < |pairs| => PositionName(pairs[i].1, pairs[i].0))
  }

  /**
   * The 96 positions of a plate in column order: A1, B1, ..., H1, A2, ..., H12.
   */
  function WellPositions(): (ps: seq<string>)
    ensures |ps| == 96
    ensures forall i :: 0 <= i < 96 ==> ps[i] == PositionName(RowLetters[i % 8], i / 8 + 1)
  {
    var ps := PairNames(Product(Columns(), RowLetters));
    forall i | 0 <= i < 96
      ensures ps[i] == PositionName(RowLetters[i % 8], i / 8 + 1)
    {
      PairNameAt(i);
    }
    ps
  }

  /** Entry `i` of the column-major product names row `i % 8` of column `i / 8 + 1`. */
  lemma PairNameAt(i: nat)
    requires i < 96
    ensures PairNames(Product(Columns(), RowLetters))[i] == PositionName(RowLetters[i % 8], i / 8 + 1)
  {
    var pairs := Product(Columns(), RowLetters);
    var column, row := i / 8, i % 8;
    SplitIndex(i);
    ProductIndex(Columns(), RowLetters, column, row);
    assert pairs[i] == (column + 1, RowLetters[row]);
  }

  /** Index `i` of the 96 is column `i / 8`, row `i % 8`. */
  lemma SplitIndex(i: nat)
    requires i < 96
    ensures i / 8 < ColumnCount && i % 8 < |RowLetters|
    ensures (i / 8) * |RowLetters| + i % 8 == i
  {
  }

  /** Positions in different rows or different columns have different names. */
  lemma PositionNamesDiffer(r1: char, c1: nat, r2: char, c2: nat)
    requires r1 != r2 || c1 != c2
    ensures PositionName(r1, c1) != PositionName(r2, c2)
  {
    var p1, p2 := PositionName(r1, c1), PositionName(r2, c2);
    if r1 == r2 {
      NatToStringInjective(c1, c2);
      assert p1[1..] == NatToString(c1) && p2[1..] == NatToString(c2);
    } else {
      assert p1[0] == r1 && p2[0] == r2;
    }
  }

  /** Two different indices differ in row or in column. */
  lemma RowOrColumnDiffers(i: nat, j: nat)
    requires i != j
    ensures i % 8 != j % 8 || i / 8 != j / 8
  {
  }

  lemma RowLettersDistinct()
    ensures Distinct(RowLetters)
  {
  }

  /** No position occurs twice. */
  lemma WellPositionsDistinct()
    ensures Distinct(WellPositions())
  {
    var ps := WellPositions();
    RowLettersDistinct();
    forall i, j | 0 <= i < j < 96
      ensures ps[i] != ps[j]
    {
      RowOrColumnDiffers(i, j);
      PositionNamesDiffer(RowLetters[i % 8], i / 8 + 1, RowLetters[j % 8], j / 8 + 1);
    }
  }

  /** One sample of a well, as sent to `createPlateWithSamples`. */
  datatype SampleVariables = SampleVariables(name: string, externalId: string, tagOligo: string)

  /** One well, as sent to `createPlateWithSamples`. */
  datatype WellVariables = WellVariables(position: string, samples: seq<SampleVariables>)

  const SampleNamePrefix := "Sample "
  const SampleNameInfix := " in "
  const ExternalIdSuffix := "-ExtId"

  /**
   * `OntPlates::Variables#well`: a well holding a single sample whose name
   * mentions both the requested sample name and the position, and whose
   * external id is the position with a fixed suffix.
   */
  function WellAt(position: string, sampleName: string, tagOligo: string): (w: WellVariables)
    ensures w.position == position && |w.samples| == 1
    ensures w.samples[0].tagOligo == tagOligo
    ensures var name := w.samples[0].name;
            && |name| == |SampleNamePrefix| + |sampleName| + |SampleNameInfix| + |position|
            && name[..|SampleNamePrefix|] == SampleNamePrefix
            && name[|SampleNamePrefix|..|SampleNamePrefix| + |sampleName|] == sampleName
            && name[|name| - |position| - |SampleNameInfix|..|name| - |position|] == SampleNameInfix
            && name[|name| - |position|..] == position
    ensures var externalId := w.samples[0].externalId;
            && |externalId| == |position| + |ExternalIdSuffix|
            && externalId[..|position|] == position
            && externalId[|position|..] == ExternalIdSuffix
  {
    WellVariables(position, [SampleVariables(
      SampleNamePrefix + sampleName + SampleNameInfix + position,
      position + ExternalIdSuffix,
      tagOligo)])
  }

  /** Recover a position from a sample's external id. */
  function PositionOfExternalId(externalId: string): Option<string> {
    if |externalId| >= |ExternalIdSuffix| && externalId[|externalId| - |ExternalIdSuffix|..] == ExternalIdSuffix
    then Some(externalId[..|externalId| - |ExternalIdSuffix|])
    else None
  }

  /** The external id names the well it was made for. */
  lemma ExternalIdRoundTrip(position: string, sampleName: string, tagOligo: string)
    ensures PositionOfExternalId(WellAt(position, sampleName, tagOligo).samples[0].externalId) == Some(position)
  {
  }

  /**
   * `OntPlates::Variables#wells`: one well per position, well `i` tagged with
   * the oligo of the tag set's `i`-th tag. The source raises when the tag
   * set does not exist, or has fewer tags than positions.
   */
  function Wells(sampleName: string, tagSetName: string, tagSets: map<string, seq<string>>): (r: Result<seq<WellVariables>>)
    ensures r.Failure? <==> tagSetName !in tagSets || |tagSets[tagSetName]| < 96
    ensures r.Success? ==>
              && |r.value| == 96
              && forall i :: 0 <= i < 96 ==>
                   r.value[i] == WellAt(WellPositions()[i], sampleName, tagSets[tagSetName][i])
  {
    var positions := WellPositions();
    if tagSetName !in tagSets then Failure(NoMethodError)
    else
      var oligos := tagSets[tagSetName];
      if |oligos| < |positions| then Failure(NoMethodError)
      else Success(seq(|positions|, i requires 0 <= i < |positions| => WellAt(positions[i], sampleName, oligos[i])))
  }

  /** The generated wells have pairwise different positions and external ids. */
  lemma {:induction false} WellsAreDistinct(sampleName: string, tagSetName: string, tagSets: map<string, seq<string>>)
    ensures var r := Wells(sampleName, tagSetName, tagSets);
            r.Success? ==>
              forall i, j :: 0 <= i < j < |r.value| ==>
                && r.value[i].position != r.value[j].position
                && r.value[i].samples[0].externalId != r.value[j].samples[0].externalId
  {
    var r := Wells(sampleName, tagSetName, tagSets);
    if r.Success? {
      var ws := r.value;
      WellPositionsDistinct();
      forall i, j | 0 <= i < j < |ws|
        ensures ws[i].samples[0].externalId != ws[j].samples[0].externalId
      {
        ExternalIdRoundTrip(ws[i].position, sampleName, tagSets[tagSetName][i]);
        ExternalIdRoundTrip(ws[j].position, sampleName, tagSets[tagSetName][j]);
      }
    }
  }

  /** One flow cell, as sent to `createOntRun`. */
  datatype FlowcellVariables = FlowcellVariables(libraryName: string, position: int)

  /** Number the names consecutively from `first`. */
  function NumberFrom(names: seq<string>, first: int): (fs: seq<FlowcellVariables>)
    ensures |fs| == |names|
    ensures forall i :: 0 <= i < |names| ==> fs[i].libraryName == names[i] && fs[i].position == first + i
  {
    if |names| == 0 then [] else [FlowcellVariables(names[0], first)] + NumberFrom(names[1..], first + 1)
  }

  /** `OntRuns::Variables#flowcells`: one flow cell per library, in order, at positions 1..n. */
  function Flowcells(libraryNames: seq<string>): (fs: seq<FlowcellVariables>)
    ensures |fs| == |libraryNames|
    ensures forall i :: 0 <= i < |fs| ==> fs[i].libraryName == libraryNames[i] && fs[i].position == i + 1
  {
    NumberFrom(libraryNames, 1)
  }

  /** The integers `lo`, `lo + 1`, ..., `hi - 1`. */
  function Range(lo: int, hi: int): (r: seq<int>)
    decreases hi - lo
  {
    if lo >= hi then [] else [lo] + Range(lo + 1, hi)
  }

  function Positions(fs: seq<FlowcellVariables>): (ps: seq<int>)
    ensures |ps| == |fs|
  {
    seq(|fs|, i requires 0 <= i < |fs| => fs[i].position)
  }

  lemma {:induction false} NumberFromPositions(names: seq<string>, first: int)
    ensures Positions(NumberFrom(names, first)) == Range(first, first + |names|)
  {
    if |names| > 0 {
      NumberFromPositions(names[1..], first + 1);
      assert Positions(NumberFrom(names, first)) == [first] + Positions(NumberFrom(names[1..], first + 1));
    }
  }

  /** The flow cell positions are exactly 1, 2, ..., n, in order. */
  lemma {:induction false} FlowcellPositionsAreOneToN(libraryNames: seq<string>)
    ensures Positions(Flowcells(libraryNames)) == Range(1, |libraryNames| + 1)
  {
    NumberFromPositions(libraryNames, 1);
  }
}
