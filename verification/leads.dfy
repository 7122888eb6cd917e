/**
 * The lead record of a CRM export and the binding of its twelve positional
 * columns to named fields.
 */
module Leads {
  import opened Wrappers

  /**
   * One value of the parsed export. A numeric value carries the text Python
   * shows for it (`str` of the float), which is what `astype(str)` produces.
   */
  datatype Cell = Text(text: string) | Number(value: real, shown: string) | Missing

  /**
   * A lead. The fields the dashboard groups, filters or cleans are typed; the
   * ones it never reads (`id` is only counted) stay raw cells.
   */
  datatype Lead = Lead(
    id: Cell,
    cliente: Cell,
    etapa: string,
    origem: string,
    convenio: string,
    comissaoTotal: Option<real>,
    valorPago: Cell,
    tipoCampanha: string,
    tagCampanha: Cell,
    telefone: Cell,
    cpf: string,
    vendedorProprietario: string)

  datatype Error = SchemaMismatch(columns: nat)

  /** The export must have exactly this many columns. */
  const ColumnCount: nat := 12

  /** The text of a cell as `astype(str)` renders it; a missing value becomes "nan". */
  function AsText(c: Cell): string {
    match c
    case Text(s) => s
    case Number(_, shown) => shown
    case Missing => "nan"
  }

  /** The commission is a number when the cell holds one and absent otherwise. */
  function AsCommission(c: Cell): Option<real> {
    match c
    case Number(x, _) => Some(x)
    case _ => None
  }

  /** Names the twelve positional values, in the export's fixed column order. */
  function BindRow(cells: seq<Cell>): Lead
    requires |cells| == ColumnCount
  {
    Lead(cells[0], cells[1], AsText(cells[2]), AsText(cells[3]), AsText(cells[4]),
         AsCommission(cells[5]), cells[6], AsText(cells[7]), cells[8], cells[9],
         AsText(cells[10]), AsText(cells[11]))
  }

  /** Writes a lead back as a row of the export. */
  function Render(l: Lead): (cells: seq<Cell>)
    ensures |cells| == ColumnCount
  {
    [l.id, l.cliente, Text(l.etapa), Text(l.origem), Text(l.convenio),
     match l.comissaoTotal case Some(x) => Number(x, "") case None => Missing,
     l.valorPago, Text(l.tipoCampanha), l.tagCampanha, l.telefone,
     Text(l.cpf), Text(l.vendedorProprietario)]
  }

  /** Binding recovers every field of a rendered lead: the positions and names agree. */
  lemma BindRender(l: Lead)
    ensures BindRow(Render(l)) == l
  {
  }

  /** The parsed export: its column count and its rows. */
  datatype RawTable = RawTable(width: nat, rows: seq<seq<Cell>>)

  /** Every row of a parsed table has the table's column count. */
  predicate Rectangular(t: RawTable) {
    forall i :: 0 <= i < |t.rows| ==> |t.rows[i]| == t.width
  }

  /**
   * Renames the columns of the whole table. A table whose column count is not
   * twelve is rejected as a whole; no partial table is produced.
   */
  function BindColumns(t: RawTable): (r: Result<seq<Lead>, Error>)
    requires Rectangular(t)
    ensures r.Err? <==> t.width != ColumnCount
    ensures r.Err? ==> r.error == SchemaMismatch(t.width)
    ensures r.Ok? ==> |r.value| == |t.rows|
    ensures r.Ok? ==> forall i :: 0 <= i < |t.rows| ==> r.value[i] == BindRow(t.rows[i])
  {
    if t.width != ColumnCount then Err(SchemaMismatch(t.width))
    else Ok(seq(|t.rows|, i requires 0 <= i < |t.rows| => BindRow(t.rows[i])))
  }

  /** Rendering a list of leads and binding it again gives back the same leads. */
  lemma BindColumnsRender(leads: seq<Lead>)
    ensures var t := RawTable(ColumnCount, seq(|leads|, i requires 0 <= i < |leads| => Render(leads[i])));
            Rectangular(t) && BindColumns(t) == Ok(leads)
  {
    var t := RawTable(ColumnCount, seq(|leads|, i requires 0 <= i < |leads| => Render(leads[i])));
    forall i | 0 <= i < |leads|
      ensures BindRow(t.rows[i]) == leads[i]
    {
      BindRender(leads[i]);
    }
    assert BindColumns(t).value == leads;
  }
}
