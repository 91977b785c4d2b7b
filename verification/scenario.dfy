/**
 * A worked run of `processData`: two rows, "15 março 2024" with
 * "BRL 10.000,00" and "16 março 2024" with "BRL -500,00". Without a start
 * date they form one group dated 15-03-2024 with income 100, expense 5 and
 * one order; from 16 March on (the boundary is inclusive) only the second
 * row remains and opens its own group.
 */
module Scenario {
  import opened Text
  import opened Cells
  import opened Calendar
  import opened DateNormalizer
  import opened DateProperties
  import opened Amount
  import opened Cleaner
  import opened Sequencer
  import opened Grouper
  import opened Output
  import opened Pipeline

  /** A row with just the date and amount columns. */
  function PlainRow(date: string, amount: string): RawRow {
    [Field(DateKey, Str(date)), Field(AmountKey, Str(amount))]
  }

  /** Neither end is white space. */
  predicate Tight(s: string) {
    |s| > 0 && !IsSpace(s[0]) && !IsSpace(s[|s| - 1])
  }

  lemma NotSpace(c: char)
    requires '0' <= c <= 'z'
    ensures !IsSpace(c)
  {
  }

  lemma TightText(s: string)
    requires |s| > 0 && '0' <= s[0] <= 'z' && '0' <= s[|s| - 1] <= 'z'
    ensures Tight(s)
  {
    NotSpace(s[0]);
    NotSpace(s[|s| - 1]);
  }

  lemma HeadersTrimmed()
    ensures Trim(DateKey) == DateKey && Trim(AmountKey) == AmountKey
  {
    DateKeyTrimmed();
    AmountKeyTrimmed();
  }

  lemma DateKeyTrimmed()
    ensures Trim(DateKey) == DateKey
  {
    var k := DateKey;
    assert k[0] == 'D' && k[|k| - 1] == 'o';
    TightText(k);
    TrimOfTrimmed(k);
  }

  lemma AmountKeyTrimmed()
    ensures Trim(AmountKey) == AmountKey
  {
    var k := AmountKey;
    assert k[0] == 'C' && k[|k| - 1] == 'r';
    TightText(k);
    TrimOfTrimmed(k);
  }

  lemma HeadersDiffer()
    ensures DateKey != AmountKey
  {
    assert DateKey[0] == 'D' && AmountKey[0] == 'C';
  }

  lemma PlainRowShape(date: string, amount: string)
    ensures WellFormed(PlainRow(date, amount))
    ensures Keys(PlainRow(date, amount)) == [DateKey, AmountKey]
    ensures Trims(Keys(PlainRow(date, amount))) == {DateKey, AmountKey}
    ensures SourceKey(PlainRow(date, amount), DateKey) == DateKey
    ensures SourceKey(PlainRow(date, amount), AmountKey) == AmountKey
  {
    var keys := Keys(PlainRow(date, amount));
    assert keys == [DateKey, AmountKey];
    assert WellFormed(PlainRow(date, amount)) by {
      HeadersDiffer();
    }
    HeaderPairTrims();
  }

  lemma HeaderPairTrims()
    ensures Trims([DateKey, AmountKey]) == {DateKey, AmountKey}
    ensures LastPadded([DateKey, AmountKey], DateKey).None?
    ensures LastPadded([DateKey, AmountKey], AmountKey).None?
  {
    HeadersTrimmed();
    TrimsPair(DateKey, AmountKey);
    NonePadded(DateKey, AmountKey, DateKey);
    NonePadded(DateKey, AmountKey, AmountKey);
  }

  /** The trimmed headers of a two-column row. */
  lemma TrimsPair(a: string, b: string)
    ensures Trims([a, b]) == {Trim(a), Trim(b)}
  {
    TrimsSingle(b);
    var s := [b];
    HeaderSetsCons(a, s);
    assert [a] + s == [a, b];
  }

  lemma TrimsSingle(b: string)
    ensures Trims([b]) == {Trim(b)}
  {
    HeaderSetsCons(b, []);
    assert [b] + [] == [b];
  }

  /** Two headers that need no trimming have no padded spelling. */
  lemma NonePadded(a: string, b: string, x: string)
    requires !(Trim(a) == x && a != x) && !(Trim(b) == x && b != x)
    ensures LastPadded([a, b], x).None?
  {
    var ks := [a, b];
    PaddedSkip(ks, x);
    assert ks[..1] == [a];
    PaddedSkip([a], x);
    assert [a][..0] == [];
  }

  lemma PaddedSkip(keys: seq<string>, x: string)
    requires |keys| > 0 && !(Trim(keys[|keys| - 1]) == x && keys[|keys| - 1] != x)
    ensures LastPadded(keys, x) == LastPadded(keys[..|keys| - 1], x)
  {
  }

  /** Cleaning a plain row whose cells need no trimming converts its two
      cells and keeps nothing else. */
  lemma PlainRowCleaned(date: string, amount: string, loose: string -> Option<Date>)
    requires Tight(date) && Tight(amount)
    ensures WellFormed(PlainRow(date, amount))
    ensures CleanRow(PlainRow(date, amount), loose) ==
            CleanedRow(ConvertDate(Str(date), loose), NormalizeAmount(Str(amount)), map[])
  {
    var row := PlainRow(date, amount);
    PlainRowShape(date, amount);
    CleanRowSpec(row, loose);
    TrimOfTrimmed(date);
    TrimOfTrimmed(amount);
    assert Lookup(row, DateKey) == Str(date);
    assert Lookup(row, AmountKey) == Str(amount);
    assert CleanedCell(row, DateKey) == Str(date);
    assert CleanedCell(row, AmountKey) == Str(amount);
    assert CleanRow(row, loose).others.Keys == {};
  }

  const March15: CalendarDate := Date(2024, 3, 15)
  const March16: CalendarDate := Date(2024, 3, 16)

  lemma DigitsOf2024()
    ensures NatToDigits(15) == "15" && NatToDigits(16) == "16" && YearText(2024) == "2024"
  {
    assert NatToDigits(2) == "2" && NatToDigits(20) == "20";
    assert NatToDigits(202) == "202";
    assert NatToDigits(2024) == "2024";
  }

  lemma DatesRead(loose: string -> Option<Date>)
    ensures ConvertDate(Str("15 março 2024"), loose) == Some(March15)
    ensures ConvertDate(Str("16 março 2024"), loose) == Some(March16)
  {
    DigitsOf2024();
    assert "15 março 2024" == NatToDigits(15) + " " + PortugueseMonths[2] + " " + YearText(2024);
    assert "16 março 2024" == NatToDigits(16) + " " + PortugueseMonths[2] + " " + YearText(2024);
    PortugueseDateConverts(March15, loose);
    PortugueseDateConverts(March16, loose);
  }

  function Rows(): seq<RawRow> {
    [PlainRow("15 março 2024", "BRL 10.000,00"), PlainRow("16 março 2024", "BRL -500,00")]
  }

  function First(): Record {
    Record(March15, 100.0, map[])
  }

  function Second(): Record {
    Record(March16, -5.0, map[])
  }

  lemma FirstCleaned(loose: string -> Option<Date>)
    ensures WellFormed(Rows()[0])
    ensures CleanRow(Rows()[0], loose) == CleanedRow(Some(March15), 100.0, map[])
  {
    var d, a := "15 março 2024", "BRL 10.000,00";
    DatesRead(loose);
    LargeAmountExample();
    TightPair(d, a);
    ExampleCleaned(d, a, loose, March15, 100.0);
  }

  lemma SecondCleaned(loose: string -> Option<Date>)
    ensures WellFormed(Rows()[1])
    ensures CleanRow(Rows()[1], loose) == CleanedRow(Some(March16), -5.0, map[])
  {
    var d, a := "16 março 2024", "BRL -500,00";
    DatesRead(loose);
    NegativeAmountExample();
    TightPair(d, a);
    ExampleCleaned(d, a, loose, March16, -5.0);
  }

  lemma TightPair(d: string, a: string)
    requires |d| > 0 && '0' <= d[0] <= 'z' && '0' <= d[|d| - 1] <= 'z'
    requires |a| > 0 && '0' <= a[0] <= 'z' && '0' <= a[|a| - 1] <= 'z'
    ensures Tight(d) && Tight(a)
  {
    TightText(d);
    TightText(a);
  }

  /** A plain row whose date and amount convert to `day` and `amount`. */
  lemma ExampleCleaned(d: string, a: string, loose: string -> Option<Date>, day: CalendarDate, amount: real)
    requires Tight(d) && Tight(a)
    requires ConvertDate(Str(d), loose) == Some(day) && NormalizeAmount(Str(a)) == amount
    ensures WellFormed(PlainRow(d, a))
    ensures CleanRow(PlainRow(d, a), loose) == CleanedRow(Some(day), amount, map[])
  {
    PlainRowCleaned(d, a, loose);
  }

  lemma RowsCleaned(loose: string -> Option<Date>)
    ensures AllWellFormed(Rows())
    ensures CleanAll(Rows(), loose) == [First(), Second()]
  {
    FirstCleaned(loose);
    SecondCleaned(loose);
    CleanPair(Rows(), CleanedRow(Some(March15), 100.0, map[]), CleanedRow(Some(March16), -5.0, map[]), loose);
  }

  lemma PairWellFormed(rows: seq<RawRow>)
    requires |rows| == 2 && WellFormed(rows[0]) && WellFormed(rows[1])
    ensures AllWellFormed(rows)
  {
  }

  lemma PairEq(cs: seq<CleanedRow>, c1: CleanedRow, c2: CleanedRow)
    requires |cs| == 2 && cs[0] == c1 && cs[1] == c2
    ensures cs == [c1, c2]
  {
  }

  lemma CleanPair(rows: seq<RawRow>, c1: CleanedRow, c2: CleanedRow, loose: string -> Option<Date>)
    requires |rows| == 2 && WellFormed(rows[0]) && WellFormed(rows[1])
    requires CleanRow(rows[0], loose) == c1 && CleanRow(rows[1], loose) == c2
    requires c1.date.Some? && c2.date.Some?
    ensures AllWellFormed(rows)
    ensures CleanAll(rows, loose) == [ToRecord(c1), ToRecord(c2)]
  {
    PairWellFormed(rows);
    PairEq(CleanEach(rows, loose), c1, c2);
    SelectPair(c1, c2);
  }

  lemma SelectPair(c1: CleanedRow, c2: CleanedRow)
    requires c1.date.Some? && c2.date.Some?
    ensures SelectDated([c1, c2]) == [ToRecord(c1), ToRecord(c2)]
  {
    assert [c1, c2][..1] == [c1] && [c1][..0] == [];
    assert SelectDated([c1]) == [ToRecord(c1)];
  }

  lemma RecordsSorted()
    ensures Day(Second()) == Day(First()) + 1
    ensures SortByDate([First(), Second()]) == [First(), Second()]
  {
    assert [First(), Second()][..1] == [First()] && [First()][..0] == [];
    assert SortByDate([First()]) == [First()];
  }

  lemma RecordsGrouped()
    ensures Runs([First(), Second()]) == [Group(March15, [First(), Second()])]
    ensures Sum([First(), Second()]) == Totals(100.0, 5.0, 1)
  {
    RecordsSorted();
    RunsSnoc([], First());
    assert [] + [First()] == [First()];
    RunsSnoc([First()], Second());
    assert [First()] + [Second()] == [First(), Second()];
    SumSnoc([], First());
    SumSnoc([First()], Second());
  }

  /** Without a start date: one group, dated 15 March 2024, with income
      100, expense 5 and one order. */
  lemma WholeRun(loose: string -> Option<Date>, f: Formatting)
    ensures AllWellFormed(Rows())
    ensures ProcessData(Rows(), None, loose, f) == [GroupRow(March15, Totals(100.0, 5.0, 1), f)]
  {
    var rs := [First(), Second()];
    RowsCleaned(loose);
    RecordsSorted();
    PreparedOf(Rows(), None, loose, rs, rs);
    RecordsGrouped();
    SingleGroupRun(Rows(), None, loose, f, Group(March15, rs));
  }

  /** From 16 March on: the first row is filtered out and the second,
      on the boundary day, forms a group of expense only. */
  lemma RunFromSixteenth(loose: string -> Option<Date>, f: Formatting)
    ensures AllWellFormed(Rows())
    ensures ProcessData(Rows(), Some(March16), loose, f) == [GroupRow(March16, Totals(0.0, 5.0, 0), f)]
  {
    RowsCleaned(loose);
    RecordsSorted();
    FromSixteenth();
    PreparedOf(Rows(), Some(March16), loose, [First(), Second()], [Second()]);
    SecondGrouped();
    SingleGroupRun(Rows(), Some(March16), loose, f, Group(March16, [Second()]));
  }

  lemma PreparedOf(rows: seq<RawRow>, start: Option<CalendarDate>, loose: string -> Option<Date>,
                   cs: seq<Record>, rs: seq<Record>)
    requires AllWellFormed(rows) && CleanAll(rows, loose) == cs && FilterFrom(SortByDate(cs), start) == rs
    ensures Prepared(rows, start, loose) == rs
  {
  }

  /** A run that forms a single group yields that group's row alone. */
  lemma SingleGroupRun(rows: seq<RawRow>, start: Option<CalendarDate>, loose: string -> Option<Date>,
                       f: Formatting, g: Group)
    requires AllWellFormed(rows) && Runs(Prepared(rows, start, loose)) == [g]
    ensures ProcessData(rows, start, loose, f) == [GroupRow(g.anchor, Sum(g.members), f)]
  {
    ProcessDataRows(rows, start, loose, f);
  }

  lemma SecondGrouped()
    ensures Runs([Second()]) == [Group(March16, [Second()])]
    ensures Sum([Second()]) == Totals(0.0, 5.0, 0)
  {
    RunsSnoc([], Second());
    assert [] + [Second()] == [Second()];
    SumSnoc([], Second());
  }

  lemma FromSixteenth()
    ensures KeepFrom([First(), Second()], March16) == [Second()]
  {
    var rs := [First(), Second()];
    assert rs[..1] == [First()] && [First()][..0] == [];
    assert !OnOrAfter(First(), March16) && OnOrAfter(Second(), March16);
  }

  /** The group's date as shown. */
  lemma ShownDate()
    ensures FormatDayFirst(March15, '-') == "15-03-2024"
  {
    FieldsShown();
    Joined("15", "03", "2024", '-');
  }

  lemma FieldsShown()
    ensures TwoDigits(15) == "15" && TwoDigits(3) == "03" && YearText(2024) == "2024"
  {
    DigitsOf2024();
    MonthThree();
  }

  lemma MonthThree()
    ensures TwoDigits(3) == "03"
  {
    assert NatToDigits(3) == "3";
    assert Zeros(1) == "0";
  }

  lemma Joined(d: string, m: string, y: string, sep: char)
    requires |d| == 2 && |m| == 2 && |y| == 4
    ensures d + [sep] + m + [sep] + y == [d[0], d[1], sep, m[0], m[1], sep, y[0], y[1], y[2], y[3]]
  {
  }
}
