/**
 * `processData` end to end: clean the rows, sort the dated records, apply
 * the optional start date, group, and render one row per group.
 */
module Pipeline {
  import opened Text
  import opened Calendar
  import opened Cleaner
  import opened Sequencer
  import opened Grouper
  import opened Output

  /** The records that reach the grouping fold (`filteredData`). */
  function Prepared(rows: seq<RawRow>, start: Option<CalendarDate>, loose: string -> Option<Date>): seq<Record>
    requires AllWellFormed(rows)
  {
    FilterFrom(SortByDate(CleanAll(rows, loose)), start)
  }

  lemma AccumulateCovered(rs: seq<Record>)
    ensures Covered(Accumulate(rs))
  {
    AccumulateSpec(rs);
  }

  /** `processData(data, startDate)`, with the loose date fallback and the
      number formatting as parameters. */
  function ProcessData(rows: seq<RawRow>, start: Option<CalendarDate>, loose: string -> Option<Date>,
                       f: Formatting): (out: seq<OutputRow>)
    requires AllWellFormed(rows)
    ensures forall i :: 0 <= i < |out| ==> Columns(out[i]) == ColumnOrder
  {
    var rs := Prepared(rows, start, loose);
    AccumulateCovered(rs);
    Report(Accumulate(rs), f)
  }

  /** The records reaching the fold are in date order, and are exactly the
      dated records on or after the start date; without a start date they
      are all the dated records, each as often as it was cleaned. Day by
      day they are the cleaned records of that day in cleaning order, for
      every day the start date admits, and nothing of an earlier day. */
  lemma PreparedSpec(rows: seq<RawRow>, start: Option<CalendarDate>, loose: string -> Option<Date>)
    requires AllWellFormed(rows)
    ensures Sorted(Prepared(rows, start, loose))
    ensures forall r :: r in Prepared(rows, start, loose) <==>
              r in CleanAll(rows, loose) && (start.None? || OnOrAfter(r, start.value))
    ensures start.None? ==> multiset(Prepared(rows, start, loose)) == multiset(CleanAll(rows, loose))
    ensures forall d :: OnDay(Prepared(rows, start, loose), d) ==
                        if start.None? || d >= DayNumber(start.value) then OnDay(CleanAll(rows, loose), d) else []
  {
    var cs := CleanAll(rows, loose);
    SortByDateSpec(cs);
    FilterFromSpec(SortByDate(cs), start);
    forall r ensures r in SortByDate(cs) <==> r in cs {
      assert r in SortByDate(cs) <==> r in multiset(SortByDate(cs));
    }
  }

  /** The output holds one row per group, in group order, each rendering
      its group's anchor and sums. */
  lemma ProcessDataRows(rows: seq<RawRow>, start: Option<CalendarDate>, loose: string -> Option<Date>,
                        f: Formatting)
    requires AllWellFormed(rows)
    ensures var gs := Runs(Prepared(rows, start, loose));
            var out := ProcessData(rows, start, loose, f);
            |out| == |gs| &&
            forall i :: 0 <= i < |gs| ==> out[i] == GroupRow(gs[i].anchor, Sum(gs[i].members), f)
  {
    var rs := Prepared(rows, start, loose);
    AccumulateRuns(rs);
    AccumulateSpec(rs);
  }

  /** A row shows group `g`: its anchor date and, computed from the group's
      records, the income (the sum of the positive amounts), the expense
      (the magnitude of the sum of the others), the fixed amount (the sum
      of all) and the order count (the number of positive amounts). */
  predicate ShowsGroup(row: OutputRow, g: Group, f: Formatting) {
    |row| == 7 &&
    row[0] == ("Grouped Date", Shown(FormatDayFirst(g.anchor, '-'))) &&
    row[1] == ("Renda", Shown(f.currency(AmountSum(Positive(g.members))))) &&
    row[2] == ("Despesa", Shown(f.currency(-AmountSum(NonPositive(g.members))))) &&
    row[3] == ("Montante Fixo", Shown(f.currency(AmountSum(g.members)))) &&
    row[5] == ("Pedidos recebidos", Number(|Positive(g.members)|))
  }

  lemma GroupCells(g: Group, f: Formatting)
    ensures ShowsGroup(GroupRow(g.anchor, Sum(g.members), f), g, f)
  {
    var t := Sum(g.members);
    SumSpec(g.members);
    TotalsCells(g.anchor, t, f, AmountSum(Positive(g.members)), -AmountSum(NonPositive(g.members)),
                AmountSum(g.members), |Positive(g.members)|);
  }

  lemma TotalsCells(anchor: CalendarDate, t: Totals, f: Formatting, income: real, expense: real, net: real, n: nat)
    requires t.income == income && t.expense == expense && t.income - t.expense == net && t.count == n
    ensures var row := GroupRow(anchor, t, f);
            |row| == 7 &&
            row[1] == ("Renda", Shown(f.currency(income))) &&
            row[2] == ("Despesa", Shown(f.currency(expense))) &&
            row[3] == ("Montante Fixo", Shown(f.currency(net))) &&
            row[5] == ("Pedidos recebidos", Number(n))
  {
    RowAmounts(anchor, t, f);
    RowShares(anchor, t, f);
  }

  /** Each output row, read against the records of its group: the anchor
      date, income, expense, net and order count of exactly the records
      the fold put in that group. */
  lemma ProcessDataCells(rows: seq<RawRow>, start: Option<CalendarDate>, loose: string -> Option<Date>,
                         f: Formatting)
    requires AllWellFormed(rows)
    ensures var gs := Runs(Prepared(rows, start, loose));
            var out := ProcessData(rows, start, loose, f);
            |out| == |gs| && forall i :: 0 <= i < |gs| ==> ShowsGroup(out[i], gs[i], f)
  {
    var gs := Runs(Prepared(rows, start, loose));
    var out := ProcessData(rows, start, loose, f);
    ProcessDataRows(rows, start, loose, f);
    forall i | 0 <= i < |gs| ensures ShowsGroup(out[i], gs[i], f) {
      GroupCells(gs[i], f);
    }
  }

  lemma {:induction false} MembersInFlatten(gs: seq<Group>, i: nat, k: nat)
    requires i < |gs| && k < |gs[i].members|
    ensures gs[i].members[k] in Flatten(gs)
    decreases |gs|
  {
    if i < |gs| - 1 {
      MembersInFlatten(gs[..|gs| - 1], i, k);
    }
  }

  /** The groups of a run: they cover the prepared records exactly and
      their sums add up to the records' sums; anchors ascend more than a
      day apart and none precedes the start date; and every record lies on
      its anchor's day or the next. */
  lemma ProcessDataGroups(rows: seq<RawRow>, start: Option<CalendarDate>, loose: string -> Option<Date>)
    requires AllWellFormed(rows)
    ensures var rs := Prepared(rows, start, loose);
            var gs := Runs(rs);
            Flatten(gs) == rs && TotalOf(gs) == Sum(rs) &&
            (forall i, j :: 0 <= i < j < |gs| ==> DayNumber(gs[i].anchor) + 1 < DayNumber(gs[j].anchor)) &&
            (start.Some? ==> forall i :: 0 <= i < |gs| ==> DayNumber(start.value) <= DayNumber(gs[i].anchor)) &&
            (forall i, k :: 0 <= i < |gs| && 0 <= k < |gs[i].members| ==>
               DayNumber(gs[i].anchor) <= Day(gs[i].members[k]) <= DayNumber(gs[i].anchor) + 1)
  {
    var rs := Prepared(rows, start, loose);
    var gs := Runs(rs);
    PreparedSpec(rows, start, loose);
    RunsConserve(rs);
    RunsAnchorsAscend(rs);
    SortedRunsSpan(rs);
    if start.Some? {
      RunsAreRuns(rs);
      forall i | 0 <= i < |gs| ensures DayNumber(start.value) <= DayNumber(gs[i].anchor) {
        assert AllAnchored(gs) && WellAnchored(gs[i]);
        MembersInFlatten(gs, i, 0);
      }
    }
  }
}
