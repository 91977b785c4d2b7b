/**
 * The grouping fold of `processData`: records are visited in order, each
 * joins the group of the previous record when it lies at most one day
 * after that group's anchor date, and otherwise opens a group of its own.
 * Every group keeps the running sums `Renda` (income), `Despesa` (expense)
 * and `Renda Count` (orders received).
 *
 * The fold (`Accumulate`) is modelled as the source writes it, with a
 * keyed table and a `previousDate` variable. Its partner is `Runs`, which
 * partitions the records into groups directly; `IsRuns` characterises that
 * partition without reference to either, and `AccumulateRuns` shows the
 * fold computes exactly it.
 */
module Grouper {
  import opened Text
  import opened Calendar
  import opened Cleaner
  import opened Sequencer
  import opened DateNormalizer
  import opened DateProperties

  // ---------------------------------------------------------------------
  // Running sums

  /** The sums of one group: `Renda`, `Despesa` and `Renda Count`. */
  datatype Totals = Totals(income: real, expense: real, count: nat)

  const Zero: Totals := Totals(0.0, 0.0, 0)

  /** `Math.abs`. */
  function Abs(x: real): (r: real)
    ensures r >= 0.0 && (r == x || r == -x)
  {
    if x < 0.0 then -x else x
  }

  /** One record's contribution: a positive amount is income and counts
      as an order received; anything else is expense, by magnitude. */
  function Add(t: Totals, amount: real): (u: Totals)
    ensures u.income - u.expense == t.income - t.expense + amount
    ensures u.income >= t.income && u.expense >= t.expense
    ensures u.count == t.count || u.count == t.count + 1
    ensures amount > 0.0 ==> u.income == t.income + amount && u.expense == t.expense && u.count == t.count + 1
    ensures amount <= 0.0 ==> u.income == t.income && u.expense == t.expense - amount && u.count == t.count
  {
    if amount > 0.0 then Totals(t.income + amount, t.expense, t.count + 1)
    else Totals(t.income, t.expense + Abs(amount), t.count)
  }

  /** The sums of a sequence of records, added in order. */
  function Sum(ms: seq<Record>): Totals {
    if |ms| == 0 then Zero else Add(Sum(ms[..|ms| - 1]), ms[|ms| - 1].amount)
  }

  /** The records with a positive amount, in order. */
  function Positive(ms: seq<Record>): seq<Record> {
    if |ms| == 0 then []
    else Positive(ms[..|ms| - 1]) + (if ms[|ms| - 1].amount > 0.0 then [ms[|ms| - 1]] else [])
  }

  /** The records with a zero or negative amount, in order. */
  function NonPositive(ms: seq<Record>): seq<Record> {
    if |ms| == 0 then []
    else NonPositive(ms[..|ms| - 1]) + (if ms[|ms| - 1].amount > 0.0 then [] else [ms[|ms| - 1]])
  }

  /** The plain sum of the amounts. */
  function AmountSum(ms: seq<Record>): real {
    if |ms| == 0 then 0.0 else AmountSum(ms[..|ms| - 1]) + ms[|ms| - 1].amount
  }

  lemma {:induction false} AmountSumAppend(a: seq<Record>, b: seq<Record>)
    ensures AmountSum(a + b) == AmountSum(a) + AmountSum(b)
    decreases |b|
  {
    if |b| > 0 {
      assert (a + b)[..|a + b| - 1] == a + b[..|b| - 1];
      AmountSumAppend(a, b[..|b| - 1]);
    } else {
      assert a + b == a;
    }
  }

  lemma AmountSumSingle(r: Record)
    ensures AmountSum([r]) == r.amount
  {
    assert [r][..0] == [];
  }

  lemma {:induction false} SumIncome(ms: seq<Record>)
    ensures Sum(ms).income == AmountSum(Positive(ms))
    ensures Sum(ms).count == |Positive(ms)|
    decreases |ms|
  {
    if |ms| > 0 {
      var front := ms[..|ms| - 1];
      var x := ms[|ms| - 1];
      SumIncome(front);
      if x.amount > 0.0 {
        AmountSumAppend(Positive(front), [x]);
        AmountSumSingle(x);
      } else {
        assert Positive(ms) == Positive(front) + [] == Positive(front);
      }
    }
  }

  lemma {:induction false} SumExpense(ms: seq<Record>)
    ensures Sum(ms).expense == -AmountSum(NonPositive(ms))
    decreases |ms|
  {
    if |ms| > 0 {
      var front := ms[..|ms| - 1];
      var x := ms[|ms| - 1];
      SumExpense(front);
      if x.amount > 0.0 {
        assert NonPositive(ms) == NonPositive(front) + [] == NonPositive(front);
      } else {
        AmountSumAppend(NonPositive(front), [x]);
        AmountSumSingle(x);
      }
    }
  }

  lemma {:induction false} SumNet(ms: seq<Record>)
    ensures Sum(ms).income - Sum(ms).expense == AmountSum(ms)
    decreases |ms|
  {
    if |ms| > 0 {
      SumNet(ms[..|ms| - 1]);
    }
  }

  /** Income is the sum of the positive amounts, expense the negated sum of
      the others, the count is the number of positive amounts, and the net
      (`Montante Fixo`) is the sum of all amounts. */
  lemma SumSpec(ms: seq<Record>)
    ensures Sum(ms).income == AmountSum(Positive(ms))
    ensures Sum(ms).expense == -AmountSum(NonPositive(ms))
    ensures Sum(ms).count == |Positive(ms)|
    ensures Sum(ms).income - Sum(ms).expense == AmountSum(ms)
  {
    SumIncome(ms);
    SumExpense(ms);
    SumNet(ms);
  }

  /** Income and expense never go negative, and a group has income exactly
      when it has received an order, so `Renda !== 0` and
      `Renda Count !== 0` agree. */
  lemma {:induction false} SumSigns(ms: seq<Record>)
    ensures Sum(ms).income >= 0.0 && Sum(ms).expense >= 0.0
    ensures Sum(ms).income > 0.0 <==> Sum(ms).count > 0
    decreases |ms|
  {
    if |ms| > 0 {
      SumSigns(ms[..|ms| - 1]);
    }
  }

  /** Adding sums componentwise. */
  function Combine(t: Totals, u: Totals): Totals {
    Totals(t.income + u.income, t.expense + u.expense, t.count + u.count)
  }

  lemma AddCombine(t: Totals, u: Totals, x: real)
    ensures Add(Combine(t, u), x) == Combine(t, Add(u, x))
  {
  }

  /** Summing is a homomorphism: the sums of a concatenation combine the
      sums of its parts. */
  lemma {:induction false} SumAppend(a: seq<Record>, b: seq<Record>)
    ensures Sum(a + b) == Combine(Sum(a), Sum(b))
    decreases |b|
  {
    if |b| > 0 {
      var front := b[..|b| - 1];
      var x := b[|b| - 1];
      assert a + b == (a + front) + [x];
      SumAppend(a, front);
      SumSnoc(a + front, x);
      SumSnoc(front, x);
      LastSplit(b);
      AddCombine(Sum(a), Sum(front), x.amount);
    } else {
      assert a + b == a;
    }
  }

  lemma SumSnoc(ms: seq<Record>, r: Record)
    ensures Sum(ms + [r]) == Add(Sum(ms), r.amount)
  {
    assert (ms + [r])[..|ms|] == ms;
  }

  // ---------------------------------------------------------------------
  // The partition into groups

  /** A group: its anchor date (the date of the record that opened it,
      which also names it) and its records in order. */
  datatype Group = Group(anchor: CalendarDate, members: seq<Record>)

  /** `differenceInDays(currentDate, previousDate) <= 1`, with the previous
      group's anchor as `previousDate`. */
  predicate Joins(anchor: CalendarDate, r: Record) {
    Day(r) - DayNumber(anchor) <= 1
  }

  function Flatten(gs: seq<Group>): seq<Record> {
    if |gs| == 0 then [] else Flatten(gs[..|gs| - 1]) + gs[|gs| - 1].members
  }

  function Anchors(gs: seq<Group>): (a: seq<CalendarDate>)
    ensures |a| == |gs| && forall i :: 0 <= i < |gs| ==> a[i] == gs[i].anchor
  {
    seq(|gs|, i requires 0 <= i < |gs| => gs[i].anchor)
  }

  /** A group opened by its first record, all of whose records join it. */
  predicate WellAnchored(g: Group) {
    |g.members| > 0 && g.members[0].date == g.anchor &&
    forall k :: 0 <= k < |g.members| ==> Joins(g.anchor, g.members[k])
  }

  predicate AllAnchored(gs: seq<Group>) {
    forall i :: 0 <= i < |gs| ==> WellAnchored(gs[i])
  }

  /** Whether `g` may follow the groups `hs`: it is opened by a record that
      does not join the group before it. */
  predicate Follows(hs: seq<Group>, g: Group) {
    |hs| == 0 || (|g.members| > 0 && !Joins(hs[|hs| - 1].anchor, g.members[0]))
  }

  predicate Opened(gs: seq<Group>) {
    forall i :: 0 < i < |gs| ==> Follows(gs[..i], gs[i])
  }

  /** `gs` splits `rs` into consecutive well-anchored groups, each opened
      by a record that does not join the group before it. */
  predicate IsRuns(gs: seq<Group>, rs: seq<Record>) {
    Flatten(gs) == rs && AllAnchored(gs) && Opened(gs)
  }

  /** The groups, built record by record. */
  function Runs(rs: seq<Record>): seq<Group> {
    if |rs| == 0 then []
    else
      var gs := Runs(rs[..|rs| - 1]);
      var r := rs[|rs| - 1];
      if |gs| > 0 && Joins(gs[|gs| - 1].anchor, r) then
        gs[..|gs| - 1] + [Group(gs[|gs| - 1].anchor, gs[|gs| - 1].members + [r])]
      else gs + [Group(r.date, [r])]
  }

  lemma FlattenSnoc(gs: seq<Group>, g: Group)
    ensures Flatten(gs + [g]) == Flatten(gs) + g.members
  {
    assert (gs + [g])[..|gs|] == gs;
  }

  lemma AnchoredSnoc(hs: seq<Group>, g: Group)
    ensures AllAnchored(hs + [g]) <==> AllAnchored(hs) && WellAnchored(g)
  {
    if AllAnchored(hs + [g]) {
      forall i | 0 <= i < |hs| ensures WellAnchored(hs[i]) {
        assert (hs + [g])[i] == hs[i];
      }
      assert (hs + [g])[|hs|] == g;
    }
  }

  lemma OpenedSnoc(hs: seq<Group>, g: Group)
    ensures Opened(hs + [g]) <==> Opened(hs) && Follows(hs, g)
  {
    var gs := hs + [g];
    assert gs[..|hs|] == hs;
    forall i | 0 < i < |hs| ensures gs[..i] == hs[..i] && gs[i] == hs[i] { }
  }

  lemma GroupsSplit(gs: seq<Group>)
    requires |gs| > 0
    ensures gs == gs[..|gs| - 1] + [gs[|gs| - 1]]
  {
  }

  lemma ExtendAnchored(g: Group, r: Record)
    requires WellAnchored(g) && Joins(g.anchor, r)
    ensures WellAnchored(Group(g.anchor, g.members + [r]))
  {
    var h := Group(g.anchor, g.members + [r]);
    forall k | 0 <= k < |h.members| ensures Joins(h.anchor, h.members[k]) {
      if k < |g.members| {
        assert h.members[k] == g.members[k];
      }
    }
  }

  lemma DropAnchored(g: Group)
    requires WellAnchored(g) && |g.members| > 1
    ensures WellAnchored(Group(g.anchor, g.members[..|g.members| - 1]))
    ensures Joins(g.anchor, g.members[|g.members| - 1])
  {
    var h := Group(g.anchor, g.members[..|g.members| - 1]);
    forall k | 0 <= k < |h.members| ensures Joins(h.anchor, h.members[k]) {
      assert h.members[k] == g.members[k];
    }
  }

  /** Replacing the last group by one with the same anchor and first
      record keeps the groups well formed. */
  lemma ReplaceLast(gs: seq<Group>, g: Group)
    requires |gs| > 0 && AllAnchored(gs) && Opened(gs) && WellAnchored(g)
    requires g.anchor == gs[|gs| - 1].anchor && g.members[0] == gs[|gs| - 1].members[0]
    ensures AllAnchored(gs[..|gs| - 1] + [g]) && Opened(gs[..|gs| - 1] + [g])
  {
    var hs := gs[..|gs| - 1];
    GroupsSplit(gs);
    AnchoredSnoc(hs, gs[|gs| - 1]);
    OpenedSnoc(hs, gs[|gs| - 1]);
    AnchoredSnoc(hs, g);
    OpenedSnoc(hs, g);
  }

  /** `Runs` meets the characterisation. */
  lemma {:induction false} RunsAreRuns(rs: seq<Record>)
    ensures IsRuns(Runs(rs), rs)
    decreases |rs|
  {
    if |rs| > 0 {
      var front := rs[..|rs| - 1];
      var r := rs[|rs| - 1];
      RunsAreRuns(front);
      LastSplit(rs);
      var gs := Runs(front);
      if |gs| > 0 && Joins(gs[|gs| - 1].anchor, r) {
        ExtendValid(gs, front, r);
      } else {
        OpenValid(gs, front, r);
      }
    }
  }

  lemma ExtendValid(gs: seq<Group>, rs: seq<Record>, r: Record)
    requires IsRuns(gs, rs) && |gs| > 0 && Joins(gs[|gs| - 1].anchor, r)
    ensures var n := |gs|;
            IsRuns(gs[..n - 1] + [Group(gs[n - 1].anchor, gs[n - 1].members + [r])], rs + [r])
  {
    var n := |gs|;
    var last := gs[n - 1];
    var g := Group(last.anchor, last.members + [r]);
    assert AllAnchored(gs);
    assert WellAnchored(last);
    ExtendAnchored(last, r);
    ReplaceLast(gs, g);
    GroupsSplit(gs);
    FlattenSnoc(gs[..n - 1], last);
    FlattenSnoc(gs[..n - 1], g);
    JoinRecords(Flatten(gs[..n - 1]), last.members, [r]);
  }

  lemma OpenValid(gs: seq<Group>, rs: seq<Record>, r: Record)
    requires IsRuns(gs, rs) && (|gs| == 0 || !Joins(gs[|gs| - 1].anchor, r))
    ensures IsRuns(gs + [Group(r.date, [r])], rs + [r])
  {
    var g := Group(r.date, [r]);
    FlattenSnoc(gs, g);
    AnchoredSnoc(gs, g);
    OpenedSnoc(gs, g);
  }

  lemma JoinRecords(a: seq<Record>, b: seq<Record>, c: seq<Record>)
    ensures a + (b + c) == (a + b) + c
  {
  }

  /** A partition is empty exactly when the records are. */
  lemma FlattenEmpty(gs: seq<Group>, rs: seq<Record>)
    requires IsRuns(gs, rs)
    ensures |gs| > 0 <==> |rs| > 0
  {
    if |gs| > 0 {
      assert WellAnchored(gs[|gs| - 1]);
      assert |Flatten(gs)| >= |gs[|gs| - 1].members|;
    }
  }

  /** Dropping the last record of a partition whose last group holds only
      that record. */
  lemma DropSingleton(gs: seq<Group>, rs: seq<Record>)
    requires IsRuns(gs, rs) && |gs| > 0 && |gs[|gs| - 1].members| == 1
    ensures |rs| > 0
    ensures IsRuns(gs[..|gs| - 1], rs[..|rs| - 1])
    ensures gs[|gs| - 1] == Group(rs[|rs| - 1].date, [rs[|rs| - 1]])
    ensures |gs| > 1 ==> !Joins(gs[|gs| - 2].anchor, rs[|rs| - 1])
  {
    var n := |gs|;
    var hs := gs[..n - 1];
    var last := gs[n - 1];
    GroupsSplit(gs);
    AnchoredSnoc(hs, last);
    OpenedSnoc(hs, last);
    FlattenSnoc(hs, last);
    assert last.members == [last.members[0]];
    assert rs[..|rs| - 1] == Flatten(hs);
  }

  /** Dropping the last record of a partition whose last group holds more
      than that record. */
  lemma DropMember(gs: seq<Group>, rs: seq<Record>)
    requires IsRuns(gs, rs) && |gs| > 0 && |gs[|gs| - 1].members| > 1
    ensures |rs| > 0
    ensures var last := gs[|gs| - 1];
            var k := |last.members|;
            IsRuns(gs[..|gs| - 1] + [Group(last.anchor, last.members[..k - 1])], rs[..|rs| - 1]) &&
            rs[|rs| - 1] == last.members[k - 1] &&
            Joins(last.anchor, last.members[k - 1])
  {
    var n := |gs|;
    var last := gs[n - 1];
    var k := |last.members|;
    var g := Group(last.anchor, last.members[..k - 1]);
    var hs := gs[..n - 1];
    assert WellAnchored(last);
    DropAnchored(last);
    ReplaceLast(gs, g);
    GroupsSplit(gs);
    FlattenSnoc(hs, last);
    FlattenSnoc(hs, g);
    assert last.members == last.members[..k - 1] + [last.members[k - 1]];
    JoinRecords(Flatten(hs), last.members[..k - 1], [last.members[k - 1]]);
    assert rs[..|rs| - 1] == Flatten(hs + [g]);
  }

  /** Only `Runs` meets the characterisation: the grouping of a sequence of
      records is determined by it. */
  lemma {:induction false} RunsUnique(gs: seq<Group>, rs: seq<Record>)
    requires IsRuns(gs, rs)
    ensures gs == Runs(rs)
    decreases |rs|
  {
    FlattenEmpty(gs, rs);
    if |rs| > 0 {
      var n := |gs|;
      var last := gs[n - 1];
      var k := |last.members|;
      assert AllAnchored(gs);
      assert WellAnchored(last);
      GroupsSplit(gs);
      LastSplit(rs);
      if k == 1 {
        DropSingleton(gs, rs);
        RunsUnique(gs[..n - 1], rs[..|rs| - 1]);
        UniqueOpen(gs, rs[..|rs| - 1], rs[|rs| - 1]);
      } else {
        DropMember(gs, rs);
        var g := Group(last.anchor, last.members[..k - 1]);
        var hs := gs[..n - 1] + [g];
        RunsUnique(hs, rs[..|rs| - 1]);
        UniqueExtend(gs, g, rs[..|rs| - 1], rs[|rs| - 1]);
      }
    }
  }

  /** The last group of `gs` was opened by `r` behind the runs of `front`. */
  lemma UniqueOpen(gs: seq<Group>, front: seq<Record>, r: Record)
    requires |gs| > 0 && gs[..|gs| - 1] == Runs(front)
    requires gs[|gs| - 1] == Group(r.date, [r])
    requires |gs| > 1 ==> !Joins(gs[|gs| - 2].anchor, r)
    ensures gs == Runs(front + [r])
  {
    RunsSnoc(front, r);
    GroupsSplit(gs);
  }

  /** The last group of `gs` is `g`, the last run of `front`, grown by `r`. */
  lemma UniqueExtend(gs: seq<Group>, g: Group, front: seq<Record>, r: Record)
    requires |gs| > 0 && gs[..|gs| - 1] + [g] == Runs(front)
    requires |gs[|gs| - 1].members| > 1 && g == Group(gs[|gs| - 1].anchor, gs[|gs| - 1].members[..|gs[|gs| - 1].members| - 1])
    requires r == gs[|gs| - 1].members[|gs[|gs| - 1].members| - 1] && Joins(g.anchor, r)
    ensures gs == Runs(front + [r])
  {
    var hs := gs[..|gs| - 1];
    var last := gs[|gs| - 1];
    RunsSnoc(front, r);
    assert (hs + [g])[..|hs|] == hs;
    assert g.members + [r] == last.members;
    GroupsSplit(gs);
  }

  /** The grouping, characterised: a partition is `Runs(rs)` exactly when
      it meets `IsRuns`. */
  lemma RunsCharacterised(gs: seq<Group>, rs: seq<Record>)
    ensures IsRuns(gs, rs) <==> gs == Runs(rs)
  {
    if IsRuns(gs, rs) {
      RunsUnique(gs, rs);
    }
    if gs == Runs(rs) {
      RunsAreRuns(rs);
    }
  }

  // ---------------------------------------------------------------------
  // Anchors

  /** Consecutive anchors are more than one day apart. */
  predicate Apart(gs: seq<Group>) {
    forall i :: 0 < i < |gs| ==> DayNumber(gs[i - 1].anchor) + 1 < DayNumber(gs[i].anchor)
  }

  lemma IsRunsApart(gs: seq<Group>, rs: seq<Record>)
    requires IsRuns(gs, rs)
    ensures Apart(gs)
  {
    forall i | 0 < i < |gs| ensures DayNumber(gs[i - 1].anchor) + 1 < DayNumber(gs[i].anchor) {
      assert WellAnchored(gs[i]) && Follows(gs[..i], gs[i]);
      assert gs[..i][i - 1] == gs[i - 1];
    }
  }

  lemma {:induction false} ApartPairs(gs: seq<Group>, i: nat, j: nat)
    requires Apart(gs) && i < j < |gs|
    ensures DayNumber(gs[i].anchor) + 1 < DayNumber(gs[j].anchor)
    decreases j - i
  {
    if i + 1 < j {
      ApartPairs(gs, i, j - 1);
    }
  }

  /** Whatever the order of the records, later groups have later anchors,
      each more than a day after every earlier one; in particular no two
      groups share an anchor, so the keyed table never meets a key twice. */
  lemma RunsAnchorsAscend(rs: seq<Record>)
    ensures forall i, j :: 0 <= i < j < |Runs(rs)| ==>
              DayNumber(Runs(rs)[i].anchor) + 1 < DayNumber(Runs(rs)[j].anchor)
    ensures forall i, j :: 0 <= i < j < |Runs(rs)| ==> Runs(rs)[i].anchor != Runs(rs)[j].anchor
  {
    var gs := Runs(rs);
    RunsAreRuns(rs);
    IsRunsApart(gs, rs);
    forall i, j | 0 <= i < j < |gs| ensures DayNumber(gs[i].anchor) + 1 < DayNumber(gs[j].anchor) {
      ApartPairs(gs, i, j);
    }
  }

  /** In sorted input every record lies on its group's anchor day or the
      day after. */
  lemma SortedRunsSpan(rs: seq<Record>)
    requires Sorted(rs)
    ensures forall i, k :: 0 <= i < |Runs(rs)| && 0 <= k < |Runs(rs)[i].members| ==>
              DayNumber(Runs(rs)[i].anchor) <= Day(Runs(rs)[i].members[k]) <= DayNumber(Runs(rs)[i].anchor) + 1
  {
    RunsSpanned(rs);
  }

  lemma {:induction false} RunsSpanned(rs: seq<Record>)
    requires Sorted(rs)
    ensures Spanned(Runs(rs))
    decreases |rs|
  {
    if |rs| > 0 {
      var front := rs[..|rs| - 1];
      var r := rs[|rs| - 1];
      SortedFrontBelowLast(rs, front);
      RunsSpanned(front);
      var gs := Runs(front);
      if |gs| > 0 && Joins(gs[|gs| - 1].anchor, r) {
        RunsAreRuns(front);
        AnchorNotAfter(gs, front, r);
        SpanExtend(gs, r);
      } else {
        SpanOpen(gs, r);
      }
    }
  }

  /** The last anchor is the date of one of the records. */
  lemma AnchorNotAfter(gs: seq<Group>, rs: seq<Record>, r: Record)
    requires IsRuns(gs, rs) && |gs| > 0
    requires forall k :: 0 <= k < |rs| ==> Day(rs[k]) <= Day(r)
    ensures DayNumber(gs[|gs| - 1].anchor) <= Day(r)
  {
    var n := |gs|;
    var last := gs[n - 1];
    assert AllAnchored(gs);
    assert WellAnchored(last);
    GroupsSplit(gs);
    FlattenSnoc(gs[..n - 1], last);
    assert rs[|Flatten(gs[..n - 1])|] == last.members[0];
  }

  predicate Spanned(gs: seq<Group>) {
    forall i, k :: 0 <= i < |gs| && 0 <= k < |gs[i].members| ==>
      DayNumber(gs[i].anchor) <= Day(gs[i].members[k]) <= DayNumber(gs[i].anchor) + 1
  }

  lemma SpanExtend(gs: seq<Group>, r: Record)
    requires Spanned(gs) && |gs| > 0 && Joins(gs[|gs| - 1].anchor, r)
    requires DayNumber(gs[|gs| - 1].anchor) <= Day(r)
    ensures var n := |gs|;
            Spanned(gs[..n - 1] + [Group(gs[n - 1].anchor, gs[n - 1].members + [r])])
  {
    var n := |gs|;
    var g := Group(gs[n - 1].anchor, gs[n - 1].members + [r]);
    var hs := gs[..n - 1] + [g];
    forall i, k | 0 <= i < |hs| && 0 <= k < |hs[i].members|
      ensures DayNumber(hs[i].anchor) <= Day(hs[i].members[k]) <= DayNumber(hs[i].anchor) + 1
    {
      if i < n - 1 {
        assert hs[i] == gs[i];
      } else if k < |gs[n - 1].members| {
        assert hs[i].members[k] == gs[n - 1].members[k];
      }
    }
  }

  lemma SpanOpen(gs: seq<Group>, r: Record)
    requires Spanned(gs)
    ensures Spanned(gs + [Group(r.date, [r])])
  {
    var hs := gs + [Group(r.date, [r])];
    forall i, k | 0 <= i < |hs| && 0 <= k < |hs[i].members|
      ensures DayNumber(hs[i].anchor) <= Day(hs[i].members[k]) <= DayNumber(hs[i].anchor) + 1
    {
      if i < |gs| {
        assert hs[i] == gs[i];
      }
    }
  }

  /** In sorted input the groups are separated in time: every record of an
      earlier group is strictly before every record of a later one. So
      records of the same day always share a group, and records two or
      more days apart never do. */
  lemma SortedGroupsSeparated(rs: seq<Record>)
    requires Sorted(rs)
    ensures forall i, j, k, l ::
              (0 <= i < j < |Runs(rs)| && 0 <= k < |Runs(rs)[i].members| && 0 <= l < |Runs(rs)[j].members|) ==>
              Day(Runs(rs)[i].members[k]) < Day(Runs(rs)[j].members[l])
    ensures forall i, k, l ::
              (0 <= i < |Runs(rs)| && 0 <= k < |Runs(rs)[i].members| && 0 <= l < |Runs(rs)[i].members|) ==>
              -1 <= Day(Runs(rs)[i].members[k]) - Day(Runs(rs)[i].members[l]) <= 1
  {
    SortedRunsSpan(rs);
    RunsAnchorsAscend(rs);
  }

  /** The anchor never moves: of three records on consecutive days, the
      third is two days after the anchor and opens a new group, although
      it is only one day after the record before it. */
  lemma AnchorDoesNotChain(r1: Record, r2: Record, r3: Record)
    requires Day(r2) == Day(r1) + 1 && Day(r3) == Day(r2) + 1
    ensures Runs([r1, r2, r3]) == [Group(r1.date, [r1, r2]), Group(r3.date, [r3])]
  {
    RunsFirst(r1);
    assert [r1] + [r2] == [r1, r2];
    RunsJoin([r1], r2, [], Group(r1.date, [r1]));
    assert [r1, r2] + [r3] == [r1, r2, r3];
    RunsOpen([r1, r2], r3, Group(r1.date, [r1, r2]));
  }

  /** One record forms one group. */
  lemma RunsFirst(r: Record)
    ensures Runs([r]) == [Group(r.date, [r])]
  {
    RunsSnoc([], r);
    assert [] + [r] == [r];
  }

  /** A record that joins the last group grows it. */
  lemma RunsJoin(rs: seq<Record>, r: Record, hs: seq<Group>, g: Group)
    requires Runs(rs) == hs + [g] && Joins(g.anchor, r)
    ensures Runs(rs + [r]) == hs + [Group(g.anchor, g.members + [r])]
  {
    RunsSnoc(rs, r);
    assert (hs + [g])[..|hs|] == hs;
  }

  /** A record that does not join the last group opens a new one. */
  lemma RunsOpen(rs: seq<Record>, r: Record, g: Group)
    requires |Runs(rs)| > 0 && Runs(rs)[|Runs(rs)| - 1] == g && !Joins(g.anchor, r)
    ensures Runs(rs + [r]) == Runs(rs) + [Group(r.date, [r])]
  {
    RunsSnoc(rs, r);
  }

  lemma RunsSnoc(rs: seq<Record>, r: Record)
    ensures var gs := Runs(rs);
            Runs(rs + [r]) ==
              if |gs| > 0 && Joins(gs[|gs| - 1].anchor, r) then
                gs[..|gs| - 1] + [Group(gs[|gs| - 1].anchor, gs[|gs| - 1].members + [r])]
              else gs + [Group(r.date, [r])]
  {
    assert (rs + [r])[..|rs|] == rs;
  }

  // ---------------------------------------------------------------------
  // The fold as written

  /** `groupedResultsWithCount` (its keys in insertion order, which is the
      order `Object.keys` returns for these non-numeric keys, and its
      entries) together with `previousDate`. The key `format(groupDate,
      'yyyy-MM-dd')` is represented by the date it names; `GroupKeyNames`
      shows that this loses nothing. */
  datatype GroupState = GroupState(keys: seq<CalendarDate>, sums: map<CalendarDate, Totals>,
                                   previous: Option<CalendarDate>)

  const Empty: GroupState := GroupState([], map[], None)

  /** `groupDate` for `currentDate`. */
  function GroupOf(previous: Option<CalendarDate>, current: CalendarDate): (a: CalendarDate)
    ensures a == current || Some(a) == previous
  {
    if previous.Some? && DayNumber(current) - DayNumber(previous.value) <= 1 then previous.value
    else current
  }

  /** One iteration of the `forEach`. */
  function Step(g: GroupState, r: Record): (h: GroupState)
    ensures h.previous.Some? && h.previous.value in h.sums
    ensures forall a :: a in g.sums ==> a in h.sums
  {
    var a := GroupOf(g.previous, r.date);
    var before := if a in g.sums then g.sums[a] else Zero;
    GroupState(if a in g.sums then g.keys else g.keys + [a],
               g.sums[a := Add(before, r.amount)],
               Some(a))
  }

  function Accumulate(rs: seq<Record>): GroupState {
    if |rs| == 0 then Empty else Step(Accumulate(rs[..|rs| - 1]), rs[|rs| - 1])
  }

  /** The table the groups should produce: each anchor mapped to the sums
      of its group's records. */
  function TableOf(gs: seq<Group>): map<CalendarDate, Totals> {
    if |gs| == 0 then map[] else TableOf(gs[..|gs| - 1])[gs[|gs| - 1].anchor := Sum(gs[|gs| - 1].members)]
  }

  function RunsState(gs: seq<Group>): GroupState {
    GroupState(Anchors(gs), TableOf(gs), if |gs| == 0 then None else Some(gs[|gs| - 1].anchor))
  }

  lemma {:induction false} TableKeys(gs: seq<Group>)
    ensures forall a :: a in TableOf(gs) <==> a in Anchors(gs)
    decreases |gs|
  {
    if |gs| > 0 {
      var front := gs[..|gs| - 1];
      TableKeys(front);
      assert Anchors(gs) == Anchors(front) + [gs[|gs| - 1].anchor];
    }
  }

  lemma {:induction false} TableValues(gs: seq<Group>)
    requires forall i, j :: 0 <= i < j < |gs| ==> gs[i].anchor != gs[j].anchor
    ensures forall i :: 0 <= i < |gs| ==> gs[i].anchor in TableOf(gs) && TableOf(gs)[gs[i].anchor] == Sum(gs[i].members)
    decreases |gs|
  {
    if |gs| > 0 {
      var front := gs[..|gs| - 1];
      TableValues(front);
      forall i | 0 <= i < |gs| ensures gs[i].anchor in TableOf(gs) && TableOf(gs)[gs[i].anchor] == Sum(gs[i].members) {
        if i < |gs| - 1 {
          assert front[i] == gs[i];
        }
      }
    }
  }

  /** The record joins the last group. */
  lemma AccumulateExtend(gs: seq<Group>, r: Record)
    requires |gs| > 0 && Joins(gs[|gs| - 1].anchor, r)
    ensures var n := |gs|;
            Step(RunsState(gs), r) == RunsState(gs[..n - 1] + [Group(gs[n - 1].anchor, gs[n - 1].members + [r])])
  {
    var n := |gs|;
    var last := gs[n - 1];
    var g := Group(last.anchor, last.members + [r]);
    var hs := gs[..n - 1] + [g];
    TableKeys(gs);
    assert last.anchor == Anchors(gs)[n - 1];
    assert hs[..n - 1] == gs[..n - 1];
    SumSnoc(last.members, r);
    assert Anchors(hs) == Anchors(gs);
  }

  /** The record opens a group of its own. */
  lemma AccumulateOpen(gs: seq<Group>, r: Record)
    requires Apart(gs)
    requires |gs| == 0 || !Joins(gs[|gs| - 1].anchor, r)
    ensures Step(RunsState(gs), r) == RunsState(gs + [Group(r.date, [r])])
  {
    NewAnchor(gs, r);
    OpenState(gs, r);
  }

  /** A record that does not join the last group is after every anchor. */
  lemma NewAnchor(gs: seq<Group>, r: Record)
    requires Apart(gs)
    requires |gs| == 0 || !Joins(gs[|gs| - 1].anchor, r)
    ensures r.date !in TableOf(gs)
  {
    TableKeys(gs);
    if |gs| > 0 {
      LaterThanAnchors(gs, r);
    }
  }

  lemma LaterThanAnchors(gs: seq<Group>, r: Record)
    requires Apart(gs) && |gs| > 0 && !Joins(gs[|gs| - 1].anchor, r)
    ensures forall i :: 0 <= i < |gs| ==> DayNumber(Anchors(gs)[i]) + 1 < Day(r)
  {
    forall i | 0 <= i < |gs| ensures DayNumber(Anchors(gs)[i]) + 1 < Day(r) {
      if i < |gs| - 1 {
        ApartPairs(gs, i, |gs| - 1);
      }
    }
  }

  lemma OpenState(gs: seq<Group>, r: Record)
    requires r.date !in TableOf(gs)
    requires |gs| == 0 || !Joins(gs[|gs| - 1].anchor, r)
    ensures Step(RunsState(gs), r) == RunsState(gs + [Group(r.date, [r])])
  {
    var g := Group(r.date, [r]);
    AnchorsSnoc(gs, g);
    TableSnoc(gs, g);
    SumSingle(r);
    assert GroupOf(RunsState(gs).previous, r.date) == r.date;
  }

  lemma AnchorsSnoc(gs: seq<Group>, g: Group)
    ensures Anchors(gs + [g]) == Anchors(gs) + [g.anchor]
  {
  }

  lemma TableSnoc(gs: seq<Group>, g: Group)
    ensures TableOf(gs + [g]) == TableOf(gs)[g.anchor := Sum(g.members)]
  {
    assert (gs + [g])[..|gs|] == gs;
  }

  lemma SumSingle(r: Record)
    ensures Sum([r]) == Add(Zero, r.amount)
  {
    assert [r][..0] == [];
  }

  /** The fold as written computes the grouping: its keys are the groups'
      anchors in order, each key holds the sums of its group, and
      `previousDate` ends as the last anchor. */
  lemma {:induction false} AccumulateRuns(rs: seq<Record>)
    ensures Accumulate(rs) == RunsState(Runs(rs))
    decreases |rs|
  {
    if |rs| > 0 {
      var front := rs[..|rs| - 1];
      var r := rs[|rs| - 1];
      AccumulateRuns(front);
      var gs := Runs(front);
      if |gs| > 0 && Joins(gs[|gs| - 1].anchor, r) {
        AccumulateExtend(gs, r);
      } else {
        RunsAreRuns(front);
        IsRunsApart(gs, front);
        AccumulateOpen(gs, r);
      }
    }
  }

  /** What the table holds after the fold: one key per group, in order,
      without repeats; every key has its sums; the sums over all groups
      add up to the sums over all records. */
  lemma AccumulateSpec(rs: seq<Record>)
    ensures var g := Accumulate(rs);
            |g.keys| == |Runs(rs)| &&
            (forall i, j :: 0 <= i < j < |g.keys| ==> DayNumber(g.keys[i]) + 1 < DayNumber(g.keys[j])) &&
            (forall a :: a in g.sums <==> a in g.keys) &&
            (forall i :: 0 <= i < |g.keys| ==> g.sums[g.keys[i]] == Sum(Runs(rs)[i].members))
  {
    AccumulateRuns(rs);
    RunsAnchorsAscend(rs);
    TableKeys(Runs(rs));
    TableValues(Runs(rs));
  }

  /** The sums of a list of groups, combined. */
  function TotalOf(gs: seq<Group>): Totals {
    if |gs| == 0 then Zero else Combine(TotalOf(gs[..|gs| - 1]), Sum(gs[|gs| - 1].members))
  }

  lemma {:induction false} TotalOfFlatten(gs: seq<Group>)
    ensures TotalOf(gs) == Sum(Flatten(gs))
    decreases |gs|
  {
    if |gs| > 0 {
      TotalOfFlatten(gs[..|gs| - 1]);
      SumAppend(Flatten(gs[..|gs| - 1]), gs[|gs| - 1].members);
    }
  }

  /** Grouping neither loses nor duplicates money: the groups' income,
      expense and order counts add up to those of all the records. */
  lemma RunsConserve(rs: seq<Record>)
    ensures TotalOf(Runs(rs)) == Sum(rs)
    ensures Flatten(Runs(rs)) == rs
  {
    RunsAreRuns(rs);
    TotalOfFlatten(Runs(rs));
  }

  /** `format(groupDate, 'yyyy-MM-dd')` names dates of four-digit years
      one-to-one, so keying the table by the date is faithful. */
  lemma GroupKeyNames(a: CalendarDate, b: CalendarDate)
    requires 1 <= a.year <= 9999 && 1 <= b.year <= 9999
    ensures FormatIso(a) == FormatIso(b) <==> a == b
  {
    var loose := (s: string) => None;
    IsoRoundTrip(a, loose);
    IsoRoundTrip(b, loose);
  }
}
