/**
 * The output stage of `processData`: every group becomes one row whose
 * cells are, in `columnOrder`, the group's date, income, expense, net
 * amount, expense share, orders received and average per order. Currency
 * formatting (`formatReal`) and `toFixed(2)` are parameters.
 */
module Output {
  import opened Text
  import opened Calendar
  import opened Grouper

  /** A cell of an output row: formatted text, or the plain order count. */
  datatype OutValue = Shown(text: string) | Number(n: nat)

  type OutputRow = seq<(string, OutValue)>

  /** The number-to-text conversions the rows use: `formatReal` (Brazilian
      currency) and `toFixed(2)`. */
  datatype Formatting = Formatting(currency: real -> string, fixed2: real -> string)

  const ColumnOrder: seq<string> := [
    "Grouped Date",
    "Renda",
    "Despesa",
    "Montante Fixo",
    "Percentual Despesa",
    "Pedidos recebidos",
    "Recebimento médio por pedido"
  ]

  /** `Montante Fixo`: income less expense. */
  function FixedAmount(t: Totals): real {
    t.income - t.expense
  }

  /** `Percentual Despesa` before formatting: expense as a percentage of
      income, or 0 for a group without income. */
  function ExpensePercent(t: Totals): (p: real)
    ensures t.income != 0.0 ==> p * t.income == 100.0 * t.expense
    ensures t.income == 0.0 ==> p == 0.0
  {
    if t.income != 0.0 then (t.expense / t.income) * 100.0 else 0.0
  }

  /** `Recebimento médio por pedido` before formatting: the net amount per
      order received, or 0 for a group without orders. */
  function AveragePerOrder(t: Totals): (v: real)
    ensures t.count != 0 ==> v * (t.count as real) == FixedAmount(t)
    ensures t.count == 0 ==> v == 0.0
  {
    if t.count != 0 then FixedAmount(t) / (t.count as real) else 0.0
  }

  function Columns(row: OutputRow): (cs: seq<string>)
    ensures |cs| == |row| && forall i :: 0 <= i < |row| ==> cs[i] == row[i].0
  {
    seq(|row|, i requires 0 <= i < |row| => row[i].0)
  }

  /** One output row for the group named `anchor` with sums `t`. */
  function GroupRow(anchor: CalendarDate, t: Totals, f: Formatting): OutputRow {
    [
      ("Grouped Date", Shown(FormatDayFirst(anchor, '-'))),
      ("Renda", Shown(f.currency(t.income))),
      ("Despesa", Shown(f.currency(t.expense))),
      ("Montante Fixo", Shown(f.currency(FixedAmount(t)))),
      ("Percentual Despesa", Shown(f.fixed2(ExpensePercent(t)) + "%")),
      ("Pedidos recebidos", Number(t.count)),
      ("Recebimento médio por pedido", Shown(f.currency(AveragePerOrder(t))))
    ]
  }

  /** Every group row has the columns of `columnOrder`, in that order. */
  lemma GroupRowColumns(anchor: CalendarDate, t: Totals, f: Formatting)
    ensures Columns(GroupRow(anchor, t, f)) == ColumnOrder
  {
  }

  lemma ReportColumns(g: GroupState, f: Formatting)
    requires Covered(g)
    ensures forall i :: 0 <= i < |g.keys| ==> Columns(GroupRow(g.keys[i], g.sums[g.keys[i]], f)) == ColumnOrder
  {
    forall i | 0 <= i < |g.keys| ensures Columns(GroupRow(g.keys[i], g.sums[g.keys[i]], f)) == ColumnOrder {
      GroupRowColumns(g.keys[i], g.sums[g.keys[i]], f);
    }
  }

  /** The cells of a group's row, by position: the date and the three
      amounts. */
  lemma RowAmounts(anchor: CalendarDate, t: Totals, f: Formatting)
    ensures var row := GroupRow(anchor, t, f);
            |row| == 7 &&
            row[0] == ("Grouped Date", Shown(FormatDayFirst(anchor, '-'))) &&
            row[1] == ("Renda", Shown(f.currency(t.income))) &&
            row[2] == ("Despesa", Shown(f.currency(t.expense))) &&
            row[3] == ("Montante Fixo", Shown(f.currency(t.income - t.expense)))
  {
  }

  /** The percentage cell is a text ending in `%`; the order count is the
      plain number of orders. */
  lemma RowShares(anchor: CalendarDate, t: Totals, f: Formatting)
    ensures var row := GroupRow(anchor, t, f);
            |row| == 7 &&
            row[4].1.Shown? && |row[4].1.text| > 0 && row[4].1.text[|row[4].1.text| - 1] == '%' &&
            row[5] == ("Pedidos recebidos", Number(t.count))
  {
  }

  /** The table's entries in key order, one row each. */
  predicate Covered(g: GroupState) {
    forall i :: 0 <= i < |g.keys| ==> g.keys[i] in g.sums
  }

  function Report(g: GroupState, f: Formatting): (out: seq<OutputRow>)
    requires Covered(g)
    ensures |out| == |g.keys|
    ensures forall i :: 0 <= i < |out| ==> Columns(out[i]) == ColumnOrder
  {
    ReportColumns(g, f);
    seq(|g.keys|, i requires 0 <= i < |g.keys| => GroupRow(g.keys[i], g.sums[g.keys[i]], f))
  }
}
