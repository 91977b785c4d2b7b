/**
 * Ordering the cleaned records: `validData.sort((a, b) => dateA - dateB)`
 * and the optional inclusive start-date filter. Dates carry no time of
 * day, so the comparator compares day numbers; `Array.prototype.sort` is
 * stable, so records of one day keep their order.
 */
module Sequencer {
  import opened Text
  import opened Calendar
  import opened Cleaner

  function Day(r: Record): int {
    DayNumber(r.date)
  }

  predicate Sorted(rs: seq<Record>) {
    forall i, j :: 0 <= i < j < |rs| ==> Day(rs[i]) <= Day(rs[j])
  }

  /** The records of day `d`, in their order. */
  function OnDay(rs: seq<Record>, d: int): seq<Record> {
    if |rs| == 0 then []
    else OnDay(rs[..|rs| - 1], d) + (if Day(rs[|rs| - 1]) == d then [rs[|rs| - 1]] else [])
  }

  lemma {:induction false} OnDayAppend(a: seq<Record>, b: seq<Record>, d: int)
    ensures OnDay(a + b, d) == OnDay(a, d) + OnDay(b, d)
    decreases |b|
  {
    if |b| == 0 {
      assert a + b == a;
    } else {
      var n := |b|;
      assert (a + b)[..|a + b| - 1] == a + b[..n - 1];
      OnDayAppend(a, b[..n - 1], d);
    }
  }

  lemma OnDaySingle(r: Record, d: int)
    ensures OnDay([r], d) == if Day(r) == d then [r] else []
  {
    assert [r][..0] == [];
  }

  // ---------------------------------------------------------------------
  // Sorting

  /** Inserting `r` behind every record of the same day or earlier. */
  function Insert(s: seq<Record>, r: Record): (t: seq<Record>)
    ensures |t| == |s| + 1
  {
    if |s| == 0 || Day(s[|s| - 1]) <= Day(r) then s + [r]
    else Insert(s[..|s| - 1], r) + [s[|s| - 1]]
  }

  lemma {:induction false} InsertCounts(s: seq<Record>, r: Record)
    ensures multiset(Insert(s, r)) == multiset(s) + multiset{r}
    decreases |s|
  {
    if |s| > 0 && Day(s[|s| - 1]) > Day(r) {
      InsertCounts(s[..|s| - 1], r);
      assert s == s[..|s| - 1] + [s[|s| - 1]];
    }
  }

  /** Insertion keeps a sorted sequence sorted. */
  lemma {:induction false} InsertSorted(s: seq<Record>, r: Record)
    requires Sorted(s)
    ensures Sorted(Insert(s, r))
    decreases |s|
  {
    if |s| == 0 {
      assert Insert(s, r) == [r];
    } else if Day(s[|s| - 1]) <= Day(r) {
      SortedBelowLast(s, Day(r));
      SortedSnoc(s, r);
    } else {
      var n := |s|;
      var front := s[..n - 1];
      var last := s[n - 1];
      SortedFront(s, front);
      InsertSorted(front, r);
      SortedFrontBelowLast(s, front);
      InsertBounded(front, r, Day(last));
      LastSplit(s);
      SortedSnoc(Insert(front, r), last);
    }
  }

  lemma SortedFront(s: seq<Record>, front: seq<Record>)
    requires Sorted(s) && |s| > 0 && front == s[..|s| - 1]
    ensures Sorted(front)
  {
    forall i, j | 0 <= i < j < |front| ensures Day(front[i]) <= Day(front[j]) {
      assert front[i] == s[i] && front[j] == s[j];
    }
  }

  lemma SortedBelowLast(s: seq<Record>, b: int)
    requires Sorted(s) && |s| > 0 && Day(s[|s| - 1]) <= b
    ensures forall k :: 0 <= k < |s| ==> Day(s[k]) <= b
  {
  }

  lemma SortedFrontBelowLast(s: seq<Record>, front: seq<Record>)
    requires Sorted(s) && |s| > 0 && front == s[..|s| - 1]
    ensures forall k :: 0 <= k < |front| ==> Day(front[k]) <= Day(s[|s| - 1])
  {
  }

  /** A bound on every day, and on the inserted record's, bounds the result. */
  lemma {:induction false} InsertBounded(s: seq<Record>, r: Record, b: int)
    requires forall k :: 0 <= k < |s| ==> Day(s[k]) <= b
    requires Day(r) <= b
    ensures forall k :: 0 <= k < |Insert(s, r)| ==> Day(Insert(s, r)[k]) <= b
    decreases |s|
  {
    if |s| > 0 && Day(s[|s| - 1]) > Day(r) {
      InsertBounded(s[..|s| - 1], r, b);
    }
  }

  lemma SortedSnoc(u: seq<Record>, last: Record)
    requires Sorted(u) && forall k :: 0 <= k < |u| ==> Day(u[k]) <= Day(last)
    ensures Sorted(u + [last])
  {
  }

  /** Insertion of a record of day `Day(r)` adds it last among that day's
      records and leaves every other day alone. */
  lemma {:induction false} InsertOnDay(s: seq<Record>, r: Record, d: int)
    ensures OnDay(Insert(s, r), d) == OnDay(s, d) + (if Day(r) == d then [r] else [])
    decreases |s|
  {
    OnDaySingle(r, d);
    if |s| == 0 || Day(s[|s| - 1]) <= Day(r) {
      OnDayAppend(s, [r], d);
    } else {
      var n := |s|;
      var front := s[..n - 1];
      var last := s[n - 1];
      var u := Insert(front, r);
      InsertOnDay(front, r, d);
      assert Insert(s, r) == u + [last];
      OnDayAppend(u, [last], d);
      OnDaySingle(last, d);
      LastSplit(s);
      OnDayAppend(front, [last], d);
      if Day(r) == d {
        assert OnDay(Insert(s, r), d) == OnDay(front, d) + [r];
        assert OnDay(s, d) == OnDay(front, d);
      } else {
        assert OnDay(Insert(s, r), d) == OnDay(u, d) + OnDay([last], d);
        assert OnDay(u, d) == OnDay(front, d);
      }
    }
  }

  lemma LastSplit(s: seq<Record>)
    requires |s| > 0
    ensures s == s[..|s| - 1] + [s[|s| - 1]]
  {
  }

  /** `validData.sort(...)`, as a stable insertion sort. */
  function SortByDate(rs: seq<Record>): (s: seq<Record>)
    ensures |s| == |rs|
  {
    if |rs| == 0 then []
    else Insert(SortByDate(rs[..|rs| - 1]), rs[|rs| - 1])
  }

  /** The sort orders by day, is a permutation, and is stable: the records
      of each day come out in their input order. These three facts pin
      the result down. */
  lemma SortByDateSpec(rs: seq<Record>)
    ensures Sorted(SortByDate(rs))
    ensures multiset(SortByDate(rs)) == multiset(rs)
    ensures forall d :: OnDay(SortByDate(rs), d) == OnDay(rs, d)
  {
    SortByDateSorted(rs);
    SortByDateCounts(rs);
    forall d | true ensures OnDay(SortByDate(rs), d) == OnDay(rs, d) {
      SortByDateStable(rs, d);
    }
  }

  lemma {:induction false} SortByDateSorted(rs: seq<Record>)
    ensures Sorted(SortByDate(rs))
    decreases |rs|
  {
    if |rs| > 0 {
      var front := rs[..|rs| - 1];
      SortByDateSorted(front);
      InsertSorted(SortByDate(front), rs[|rs| - 1]);
    }
  }

  lemma {:induction false} SortByDateCounts(rs: seq<Record>)
    ensures multiset(SortByDate(rs)) == multiset(rs)
    decreases |rs|
  {
    if |rs| > 0 {
      var front := rs[..|rs| - 1];
      SortByDateCounts(front);
      InsertCounts(SortByDate(front), rs[|rs| - 1]);
      LastSplit(rs);
    }
  }

  lemma {:induction false} SortByDateStable(rs: seq<Record>, d: int)
    ensures OnDay(SortByDate(rs), d) == OnDay(rs, d)
    decreases |rs|
  {
    if |rs| > 0 {
      var front := rs[..|rs| - 1];
      SortByDateStable(front, d);
      InsertOnDay(SortByDate(front), rs[|rs| - 1], d);
    }
  }

  // ---------------------------------------------------------------------
  // The start-date filter

  /** `row => date && date >= startDate`. */
  predicate OnOrAfter(r: Record, start: CalendarDate) {
    Day(r) >= DayNumber(start)
  }

  /** `if (startDate) filteredData = validData.filter(...)`. */
  function FilterFrom(rs: seq<Record>, start: Option<CalendarDate>): seq<Record> {
    match start
    case None => rs
    case Some(s) => KeepFrom(rs, s)
  }

  function KeepFrom(rs: seq<Record>, s: CalendarDate): seq<Record> {
    if |rs| == 0 then []
    else KeepFrom(rs[..|rs| - 1], s) + (if OnOrAfter(rs[|rs| - 1], s) then [rs[|rs| - 1]] else [])
  }

  /** The filter keeps exactly the records on or after the start day (the
      boundary is inclusive), in order, so a sorted input stays sorted. Day
      by day, it keeps every record of a day from the start on, each as
      often and in the same order, and none of an earlier day. */
  lemma KeepFromSpec(rs: seq<Record>, s: CalendarDate)
    ensures forall r :: r in KeepFrom(rs, s) <==> r in rs && OnOrAfter(r, s)
    ensures Sorted(rs) ==> Sorted(KeepFrom(rs, s))
    ensures |KeepFrom(rs, s)| <= |rs|
    ensures forall d :: OnDay(KeepFrom(rs, s), d) == if d >= DayNumber(s) then OnDay(rs, d) else []
  {
    KeepFromMembers(rs, s);
    if Sorted(rs) {
      KeepFromSorted(rs, s);
    }
    forall d | true
      ensures OnDay(KeepFrom(rs, s), d) == if d >= DayNumber(s) then OnDay(rs, d) else []
    {
      KeepFromOnDay(rs, s, d);
    }
  }

  lemma {:induction false} KeepFromOnDay(rs: seq<Record>, s: CalendarDate, d: int)
    ensures OnDay(KeepFrom(rs, s), d) == if d >= DayNumber(s) then OnDay(rs, d) else []
    decreases |rs|
  {
    if |rs| > 0 {
      var front, r := rs[..|rs| - 1], rs[|rs| - 1];
      var tail := if OnOrAfter(r, s) then [r] else [];
      KeepFromOnDay(front, s, d);
      OnDayAppend(KeepFrom(front, s), tail, d);
      if OnOrAfter(r, s) {
        OnDaySingle(r, d);
      }
    }
  }

  lemma {:induction false} KeepFromMembers(rs: seq<Record>, s: CalendarDate)
    ensures forall r :: r in KeepFrom(rs, s) <==> r in rs && OnOrAfter(r, s)
    ensures |KeepFrom(rs, s)| <= |rs|
    decreases |rs|
  {
    if |rs| > 0 {
      KeepFromMembers(rs[..|rs| - 1], s);
      LastSplit(rs);
    }
  }

  lemma {:induction false} KeepFromSorted(rs: seq<Record>, s: CalendarDate)
    requires Sorted(rs)
    ensures Sorted(KeepFrom(rs, s))
    decreases |rs|
  {
    if |rs| > 0 {
      var n := |rs|;
      var front := rs[..n - 1];
      KeepFromSorted(front, s);
      KeepFromMembers(front, s);
      SortedFrontBelowLast(rs, front);
      var kf := KeepFrom(front, s);
      forall k | 0 <= k < |kf| ensures Day(kf[k]) <= Day(rs[n - 1]) {
        assert kf[k] in front;
      }
      if OnOrAfter(rs[n - 1], s) {
        SortedSnoc(kf, rs[n - 1]);
      }
    }
  }

  /** Without a start date nothing is removed; with one, exactly the
      records before it are. */
  lemma FilterFromSpec(rs: seq<Record>, start: Option<CalendarDate>)
    ensures start.None? ==> FilterFrom(rs, start) == rs
    ensures start.Some? ==>
              forall r :: r in FilterFrom(rs, start) <==> r in rs && OnOrAfter(r, start.value)
    ensures Sorted(rs) ==> Sorted(FilterFrom(rs, start))
    ensures start.Some? ==>
              forall d :: OnDay(FilterFrom(rs, start), d) ==
                          if d >= DayNumber(start.value) then OnDay(rs, d) else []
  {
    if start.Some? {
      KeepFromSpec(rs, start.value);
    }
  }
}
