/**
 * The four charts of the dashboard, computed from the cleaned table.
 *
 * Chart 1 counts the leads of the filtered table per source; charts 2 to 4
 * are cross tables of the whole cleaned table (the sidebar choice does not
 * reach them). The dashboard shows the charts only when chart 1 has a row.
 */
module Charts {
  import opened Wrappers
  import opened Seqs
  import opened Text
  import opened Leads
  import opened Bands
  import opened Selection
  import opened Tally
  import Clean

  /** Chart 1 keeps the sources with more than this many leads. */
  const OrigemMinimum: nat := 2

  /** Charts 2 and 3 keep the groups, respectively cells, above this count. */
  const CellMinimum: nat := 5

  function Origens(leads: seq<Lead>): seq<string> {
    seq(|leads|, i requires 0 <= i < |leads| => leads[i].origem)
  }

  function OrigemEtapa(leads: seq<Lead>): seq<(string, string)> {
    seq(|leads|, i requires 0 <= i < |leads| => (leads[i].origem, leads[i].etapa))
  }

  function ConvenioOrigem(leads: seq<Lead>): seq<(string, string)> {
    seq(|leads|, i requires 0 <= i < |leads| => (leads[i].convenio, leads[i].origem))
  }

  function Seconds(pairs: seq<(string, string)>): seq<string> {
    seq(|pairs|, i requires 0 <= i < |pairs| => pairs[i].1)
  }

  // ---------------------------------------------------------------- chart 1

  /**
   * Leads per source among the filtered rows, largest first, keeping the
   * sources with more than two leads.
   */
  function LeadsPorOrigem(filtered: seq<Lead>): (r: seq<Tally>)
    ensures forall t :: t in r ==> t.count == multiset(Origens(filtered))[t.key]
    ensures forall o :: o in KeySet(r) <==> multiset(Origens(filtered))[o] > OrigemMinimum
    ensures forall i, j :: 0 <= i < j < |r| ==> r[i].count >= r[j].count
    ensures DistinctKeys(r)
  {
    var counts := CountKeys(Origens(filtered));
    var sorted := SortByTotal(counts);
    SameElements(counts, sorted);
    DistinctKeysPermutation(counts, sorted);
    var r := AboveThreshold(sorted, OrigemMinimum);
    forall o
      ensures o in KeySet(r) <==> multiset(Origens(filtered))[o] > OrigemMinimum
    {
      if multiset(Origens(filtered))[o] > OrigemMinimum {
        assert o in KeySet(counts);
        var t :| t in counts && t.key == o;
        assert t in r;
      }
    }
    r
  }

  // ---------------------------------------------------------------- cross tables

  /**
   * `groupby([first, second]).size()` over two text columns: one cell per
   * combination that occurs, counting its rows.
   */
  function PairCells(pairs: seq<(string, string)>): (r: seq<Bar<string>>)
    ensures forall b :: b in r ==> b.quantidade == multiset(pairs)[(b.group, b.sub)] && b.quantidade > 0
    ensures forall p :: p in pairs ==> Bar(p.0, p.1, multiset(pairs)[p]) in r
    ensures forall i, j :: 0 <= i < j < |r| ==> r[i].group != r[j].group || r[i].sub != r[j].sub
    ensures forall g :: GroupSum(r, g) == multiset(Primaries(pairs))[g]
    ensures CellOrder(r, SortedDistinct(Seconds(pairs)))
  {
    var subs := SortedDistinct(Seconds(pairs));
    AscendingIsDistinct(subs);
    forall p | p in pairs
      ensures p.1 in subs
    {
      var i :| 0 <= i < |pairs| && pairs[i] == p;
      assert Seconds(pairs)[i] == p.1;
    }
    var r := CrossTally(pairs, subs);
    forall g
      ensures GroupSum(r, g) == multiset(Primaries(pairs))[g]
    {
      CrossTallyGroupSum(pairs, subs, g);
    }
    r
  }

  // ---------------------------------------------------------------- chart 2

  function FunilCells(base: seq<Lead>): seq<Bar<string>> {
    PairCells(OrigemEtapa(base))
  }

  /** A source's total over the stage cells is its number of leads. */
  lemma FunilTotals(base: seq<Lead>, o: string)
    ensures GroupSum(FunilCells(base), o) == multiset(Origens(base))[o]
  {
    assert Primaries(OrigemEtapa(base)) == Origens(base);
  }

  /**
   * Stage cells of the sources with more than five leads in the cleaned
   * table; every cell of such a source, none of any other.
   */
  function FunilPorOrigem(base: seq<Lead>): (r: seq<Bar<string>>)
    ensures forall b :: b in r <==> b in FunilCells(base) && multiset(Origens(base))[b.group] > CellMinimum
    ensures IsSubseq(r, FunilCells(base))
  {
    var cells := FunilCells(base);
    var r := LargeGroups(cells, CellMinimum);
    forall o
      ensures GroupSum(cells, o) == multiset(Origens(base))[o]
    {
      FunilTotals(base, o);
    }
    r
  }

  // ---------------------------------------------------------------- chart 3

  function ConvenioCells(base: seq<Lead>): seq<Bar<string>> {
    PairCells(ConvenioOrigem(base))
  }

  /** The (agreement, source) cells with more than five leads, in table order. */
  function ConvenioKept(base: seq<Lead>): (r: seq<Bar<string>>)
    ensures forall b :: b in r <==> b in ConvenioCells(base) && b.quantidade > CellMinimum
    ensures forall b :: b in r ==> b.quantidade == multiset(ConvenioOrigem(base))[(b.group, b.sub)]
    ensures IsSubseq(r, ConvenioCells(base))
  {
    var cells := ConvenioCells(base);
    var r := Filter(cells, (b: Bar<string>) => b.quantidade > CellMinimum);
    forall b
      ensures b in r <==> b in cells && b.quantidade > CellMinimum
    {
      assert b in r <==> multiset(r)[b] > 0;
      assert b in cells <==> multiset(cells)[b] > 0;
    }
    r
  }

  /** The kept cells regrouped agreement by agreement, largest total first. */
  function ConvenioReordered(base: seq<Lead>): seq<Bar<string>> {
    RegroupByTotal(ConvenioKept(base))
  }

  /**
   * Chart 3: the regrouped cells of the `n` agreements with the largest
   * totals. Exactly `min(n, #agreements)` agreements stay, with all their
   * kept cells; none left out has a larger total than one that stays.
   */
  function ConvenioPorOrigem(base: seq<Lead>, n: nat): (r: seq<Bar<string>>)
    ensures GroupSet(r) <= GroupSet(ConvenioKept(base))
    ensures |GroupSet(r)| == Min(n, |GroupSet(ConvenioKept(base))|)
    ensures forall b :: multiset(r)[b] == if b.group in GroupSet(r) then multiset(ConvenioKept(base))[b] else 0
    ensures IsSubseq(r, ConvenioReordered(base))
    ensures Separates(ConvenioKept(base), GroupSet(r))
  {
    TopGroups(ConvenioKept(base), n)
  }

  // ---------------------------------------------------------------- chart 4

  function ConvenioBands(leads: seq<Lead>): seq<(string, Option<Band>)> {
    seq(|leads|, i requires 0 <= i < |leads| => (leads[i].convenio, BandOf(leads[i].comissaoTotal)))
  }

  /** Number of leads of agreement `c` whose commission falls in some band. */
  function BandedCount(leads: seq<Lead>, c: string): nat {
    if |leads| == 0 then 0
    else (if leads[0].convenio == c && BandOf(leads[0].comissaoTotal).Some? then 1 else 0) + BandedCount(leads[1..], c)
  }

  /**
   * The (agreement, band) pair of every lead that has a band; a lead with a
   * missing or negative commission has none and counts in no cell.
   */
  function BandPairs(leads: seq<Lead>): (r: seq<(string, Band)>)
    ensures forall p :: multiset(r)[p] == multiset(ConvenioBands(leads))[(p.0, Some(p.1))]
  {
    if |leads| == 0 then []
    else
      var rest := BandPairs(leads[1..]);
      var x := (leads[0].convenio, BandOf(leads[0].comissaoTotal));
      assert ConvenioBands(leads) == [x] + ConvenioBands(leads[1..]);
      if x.1.Some? then
        [(x.0, x.1.value)] + rest
      else
        rest
  }

  /** An agreement's pairs are exactly its banded leads. */
  lemma BandPairsStep(leads: seq<Lead>)
    requires |leads| > 0
    ensures var band := BandOf(leads[0].comissaoTotal);
            BandPairs(leads) ==
              (if band.Some? then [(leads[0].convenio, band.value)] else []) + BandPairs(leads[1..])
  {
  }

  lemma BandPairsHead(leads: seq<Lead>, c: string)
    requires |leads| > 0
    ensures multiset(Primaries(BandPairs(leads)))[c] ==
              (if leads[0].convenio == c && BandOf(leads[0].comissaoTotal).Some? then 1 else 0) +
              multiset(Primaries(BandPairs(leads[1..])))[c]
  {
    var band := BandOf(leads[0].comissaoTotal);
    var head := if band.Some? then [(leads[0].convenio, band.value)] else [];
    var rest := BandPairs(leads[1..]);
    BandPairsStep(leads);
    PrimariesConcat(head, rest);
    var firsts := if band.Some? then [leads[0].convenio] else [];
    assert Primaries(head) == firsts;
    assert multiset(Primaries(head) + Primaries(rest)) == multiset(firsts) + multiset(Primaries(rest));
  }

  lemma {:induction false} BandPairsCount(leads: seq<Lead>, c: string)
    ensures multiset(Primaries(BandPairs(leads)))[c] == BandedCount(leads, c)
  {
    if |leads| == 0 {
      assert Primaries(BandPairs(leads)) == [];
    } else {
      BandPairsHead(leads, c);
      BandPairsCount(leads[1..], c);
    }
  }

  lemma AllBandsDistinct()
    ensures Distinct(AllBands)
  {
    AllBandsOrdered();
  }

  /**
   * (agreement, band) cells in band order: each counts the leads of the
   * agreement whose commission lies in the band, and an agreement's cells
   * sum to its number of banded leads.
   */
  function ComissaoCells(leads: seq<Lead>): (r: seq<Bar<Band>>)
    ensures forall b :: b in r ==>
              b.quantidade == multiset(ConvenioBands(leads))[(b.group, Some(b.sub))] && b.quantidade > 0
    ensures forall i :: 0 <= i < |leads| && BandOf(leads[i].comissaoTotal).Some? ==>
              var b := BandOf(leads[i].comissaoTotal).value;
              Bar(leads[i].convenio, b, multiset(ConvenioBands(leads))[(leads[i].convenio, Some(b))]) in r
    ensures forall c :: GroupSum(r, c) == BandedCount(leads, c)
    ensures CellOrder(r, AllBands)
  {
    var pairs := BandPairs(leads);
    AllBandsDistinct();
    AllBandsOrdered();
    var r := CrossTally(pairs, AllBands);
    forall i | 0 <= i < |leads| && BandOf(leads[i].comissaoTotal).Some?
      ensures var b := BandOf(leads[i].comissaoTotal).value;
              Bar(leads[i].convenio, b, multiset(ConvenioBands(leads))[(leads[i].convenio, Some(b))]) in r
    {
      var b := BandOf(leads[i].comissaoTotal).value;
      assert ConvenioBands(leads)[i] == (leads[i].convenio, Some(b));
      assert multiset(pairs)[(leads[i].convenio, b)] > 0;
    }
    forall c
      ensures GroupSum(r, c) == BandedCount(leads, c)
    {
      CrossTallyGroupSum(pairs, AllBands, c);
      BandPairsCount(leads, c);
    }
    r
  }

  /**
   * Chart 4: the band cells of the `n` agreements with the most banded
   * leads, every cell of a chosen agreement and none of another.
   */
  function ConvenioPorComissao(base: seq<Lead>, n: nat): (r: seq<Bar<Band>>)
    ensures GroupSet(r) <= GroupSet(ComissaoCells(base))
    ensures |GroupSet(r)| == Min(n, |GroupSet(ComissaoCells(base))|)
    ensures forall b :: multiset(r)[b] == if b.group in GroupSet(r) then multiset(ComissaoCells(base))[b] else 0
    ensures Separates(ComissaoCells(base), GroupSet(r))
  {
    KeepTopN(ComissaoCells(base), n)
  }

  // ---------------------------------------------------------------- dashboard

  datatype Dashboard =
    | NoData
    | Charts(leadsPorOrigem: seq<Tally>,
             funilPorOrigem: seq<Bar<string>>,
             convenioPorOrigem: seq<Bar<string>>,
             convenioPorComissao: seq<Bar<Band>>)

  /**
   * The dashboard for the cleaned table `base`, the sidebar choice `c` and
   * the two agreement limits. Without a source of more than two filtered
   * leads there is nothing to show.
   */
  function Compute(base: seq<Lead>, c: Choice, n3: nat, n4: nat): (d: Dashboard)
    ensures d.NoData? <==> forall o :: multiset(Origens(FilterLeads(base, c)))[o] <= OrigemMinimum
    ensures d.Charts? ==> d.leadsPorOrigem == LeadsPorOrigem(FilterLeads(base, c))
    ensures d.Charts? ==> d.funilPorOrigem == FunilPorOrigem(base)
    ensures d.Charts? ==> d.convenioPorOrigem == ConvenioPorOrigem(base, n3)
    ensures d.Charts? ==> d.convenioPorComissao == ConvenioPorComissao(base, n4)
  {
    var filtered := FilterLeads(base, c);
    var chart1 := LeadsPorOrigem(filtered);
    if |chart1| == 0 then
      assert KeySet(chart1) == {};
      NoData
    else
      assert chart1[0].key in KeySet(chart1);
      Charts(chart1, FunilPorOrigem(base), ConvenioPorOrigem(base, n3), ConvenioPorComissao(base, n4))
  }

  /** Only chart 1 depends on the sidebar choice. */
  lemma ChoiceOnlyFiltersChartOne(base: seq<Lead>, c: Choice, e: Choice, n3: nat, n4: nat)
    requires Compute(base, c, n3, n4).Charts? && Compute(base, e, n3, n4).Charts?
    ensures Compute(base, c, n3, n4).funilPorOrigem == Compute(base, e, n3, n4).funilPorOrigem
    ensures Compute(base, c, n3, n4).convenioPorOrigem == Compute(base, e, n3, n4).convenioPorOrigem
    ensures Compute(base, c, n3, n4).convenioPorComissao == Compute(base, e, n3, n4).convenioPorComissao
  {
  }

  /** Deselecting every option of one filter leaves nothing to show. */
  lemma EmptyChoiceShowsNothing(base: seq<Lead>, c: Choice, n3: nat, n4: nat)
    requires c.etapas == {} || c.tiposCampanha == {} || c.vendedores == {}
    ensures Compute(base, c, n3, n4) == NoData
  {
    EmptyChoiceEmptiesTable(base, c);
    assert Origens([]) == [];
  }

  /** With the default choice (every observed option) chart 1 counts the whole table. */
  lemma DefaultChoiceCountsAll(base: seq<Lead>, n3: nat, n4: nat)
    ensures var d := Compute(base, Observed(base), n3, n4);
            d.Charts? ==> d.leadsPorOrigem == LeadsPorOrigem(base)
  {
    ObservedKeepsAll(base);
  }

  /**
   * The whole pipeline on a parsed table: bind the columns, clean, and draw.
   * A table of the wrong width is rejected before anything is computed.
   */
  function Run(t: RawTable, c: Choice, n3: nat, n4: nat): (r: Result<Dashboard, Error>)
    requires Rectangular(t)
    ensures r.Err? <==> t.width != ColumnCount
    ensures r.Err? ==> r.error == SchemaMismatch(t.width)
    ensures r.Ok? ==> r.value == Compute(Clean.Normalise(BindColumns(t).value), c, n3, n4)
  {
    match BindColumns(t)
    case Err(e) => Err(e)
    case Ok(leads) => Ok(Compute(Clean.Normalise(leads), c, n3, n4))
  }
}
