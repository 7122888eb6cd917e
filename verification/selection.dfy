/** The sidebar filter: three multi-select dimensions combined conjunctively. */
module Selection {
  import opened Seqs
  import opened Leads

  /** The values chosen in the three multi-selects: stages, campaign types, owners. */
  datatype Choice = Choice(etapas: set<string>, tiposCampanha: set<string>, vendedores: set<string>)

  predicate Passes(l: Lead, c: Choice) {
    l.etapa in c.etapas && l.tipoCampanha in c.tiposCampanha && l.vendedorProprietario in c.vendedores
  }

  /** The default choice: every value observed in the table, on each dimension. */
  function Observed(base: seq<Lead>): (c: Choice)
    ensures forall l :: l in base ==> Passes(l, c)
    ensures forall e :: e in c.etapas ==> exists l :: l in base && l.etapa == e
    ensures forall t :: t in c.tiposCampanha ==> exists l :: l in base && l.tipoCampanha == t
    ensures forall v :: v in c.vendedores ==> exists l :: l in base && l.vendedorProprietario == v
  {
    Choice(Values(base, (l: Lead) => l.etapa),
           Values(base, (l: Lead) => l.tipoCampanha),
           Values(base, (l: Lead) => l.vendedorProprietario))
  }

  /** The values one column takes in the table: `unique()` as a set. */
  function Values(base: seq<Lead>, column: Lead -> string): (r: set<string>)
    ensures forall l :: l in base ==> column(l) in r
    ensures forall v :: v in r ==> exists l :: l in base && column(l) == v
  {
    set l | l in base :: column(l)
  }

  /**
   * The filtered table: a row stays exactly when all three of its values are
   * selected, and the rows that stay keep their order.
   */
  function FilterLeads(base: seq<Lead>, c: Choice): (r: seq<Lead>)
    ensures forall l :: l in r ==> Passes(l, c)
    ensures forall l :: multiset(r)[l] == if Passes(l, c) then multiset(base)[l] else 0
    ensures IsSubseq(r, base)
  {
    Filter(base, (l: Lead) => Passes(l, c))
  }

  /** Deselecting everything on any one dimension empties the table. */
  lemma EmptyChoiceEmptiesTable(base: seq<Lead>, c: Choice)
    requires c.etapas == {} || c.tiposCampanha == {} || c.vendedores == {}
    ensures FilterLeads(base, c) == []
  {
    FilterKeepsNone(base, (l: Lead) => Passes(l, c));
  }

  /** The default choice keeps the table as it is. */
  lemma ObservedKeepsAll(base: seq<Lead>)
    ensures FilterLeads(base, Observed(base)) == base
  {
    var c := Observed(base);
    FilterKeepsAll(base, (l: Lead) => Passes(l, c));
  }

  /** Selecting more values never removes a row. */
  lemma FilterMonotone(base: seq<Lead>, c: Choice, d: Choice, l: Lead)
    requires c.etapas <= d.etapas && c.tiposCampanha <= d.tiposCampanha && c.vendedores <= d.vendedores
    ensures multiset(FilterLeads(base, c))[l] <= multiset(FilterLeads(base, d))[l]
  {
  }
}
