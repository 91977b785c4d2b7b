/**
 * The record cleaner: every header of a row is trimmed (a padded header
 * moves its cell to the trimmed header and disappears), every text cell
 * is trimmed, the settlement date goes through `convertDate`, the amount
 * through the amount normaliser, and rows without a date are dropped.
 */
module Cleaner {
  import opened Text
  import opened Cells
  import opened Calendar
  import opened DateNormalizer
  import opened Amount

  const DateKey: string := "Data de início da liquidação"
  const AmountKey: string := "Contas a receber"

  /** One column of a spreadsheet row: its header text and its cell. */
  datatype Field = Field(key: string, value: Cell)

  /** A row as the spreadsheet reader produces it: one object whose keys,
      in enumeration order, are the headers of the sheet. */
  type RawRow = seq<Field>

  predicate Distinct(keys: seq<string>) {
    forall i, j :: 0 <= i < j < |keys| ==> keys[i] != keys[j]
  }

  function Keys(row: RawRow): (r: seq<string>)
    ensures |r| == |row| && forall i :: 0 <= i < |row| ==> r[i] == row[i].key
  {
    seq(|row|, i requires 0 <= i < |row| => row[i].key)
  }

  /** An object never holds a key twice. */
  predicate WellFormed(row: RawRow) {
    Distinct(Keys(row))
  }

  /** `row[key]`: the cell of the column named `key`, `Null` when there is
      none (an `undefined` property). */
  function Lookup(row: RawRow, key: string): (c: Cell)
    ensures (forall i :: 0 <= i < |row| ==> row[i].key != key) ==> c == Null
  {
    if |row| == 0 then Null
    else if row[0].key == key then row[0].value
    else Lookup(row[1..], key)
  }

  /** Reading a property of a cleaned object. */
  function Get(obj: map<string, Cell>, key: string): Cell {
    if key in obj then obj[key] else Null
  }

  /** The row as a mutable object would hold it. */
  function AsObject(row: RawRow): (obj: map<string, Cell>)
    ensures obj.Keys == set k | k in Keys(row)
    ensures forall k :: Get(obj, k) == Lookup(row, k)
  {
    map k | k in Keys(row) :: Lookup(row, k)
  }

  // ---------------------------------------------------------------------
  // Trimming the headers, one `forEach` step per original key

  /** The headers that differ from their trimmed form. */
  function Padded(keys: seq<string>): set<string> {
    set k | k in keys && Trim(k) != k
  }

  /** The trimmed form of every header. */
  function Trims(keys: seq<string>): set<string> {
    set k | k in keys :: Trim(k)
  }

  /** One iteration of the header loop for `key`: a padded header moves its
      cell to the trimmed header, which overwrites what was there, and is
      deleted; then a text cell under the trimmed header is trimmed. */
  function TrimKey(obj: map<string, Cell>, key: string): (r: map<string, Cell>)
    requires key in obj
    ensures r.Keys == (obj.Keys - (if Trim(key) != key then {key} else {})) + {Trim(key)}
    ensures r[Trim(key)] == TrimCell(obj[key])
    ensures forall k :: k != key && k != Trim(key) ==> Get(r, k) == Get(obj, k)
  {
    MoveKey(obj, key, Trim(key))
  }

  /** Moving the cell of `key` to `t` (when they differ) and trimming it. */
  function MoveKey(obj: map<string, Cell>, key: string, t: string): (r: map<string, Cell>)
    requires key in obj
    ensures r.Keys == (obj.Keys - (if t != key then {key} else {})) + {t}
    ensures r[t] == TrimCell(obj[key])
    ensures forall k :: k != key && k != t ==> Get(r, k) == Get(obj, k)
  {
    var moved := if t != key then obj[t := obj[key]] - {key} else obj;
    if moved[t].Str? then moved[t := TrimCell(moved[t])] else moved
  }

  /** `Object.keys(newRow).forEach(...)`: the keys were read once, before
      the loop, and are visited in that order. */
  function TrimKeysFrom(obj: map<string, Cell>, keys: seq<string>): map<string, Cell>
    requires Distinct(keys) && forall k :: k in keys ==> k in obj
    decreases |keys|
  {
    if |keys| == 0 then obj
    else
      var next := TrimKey(obj, keys[0]);
      assert forall k :: k in keys[1..] ==> k in next by {
        forall k | k in keys[1..] ensures k in next {
          var i :| 0 <= i < |keys[1..]| && keys[1..][i] == k;
          assert keys[i + 1] == k;
        }
      }
      TrimKeysFrom(next, keys[1..])
  }

  /** The cleaned headers and cells of a row. */
  function TrimRow(row: RawRow): map<string, Cell>
    requires WellFormed(row)
  {
    TrimKeysFrom(AsObject(row), Keys(row))
  }

  // ---------------------------------------------------------------------
  // Which cell ends up under a header

  /** The last padded header among `keys` whose trimmed form is `t`. */
  function LastPadded(keys: seq<string>, t: string): (r: Option<string>)
    ensures r.Some? ==> r.value in keys && Trim(r.value) == t && r.value != t
    decreases |keys|
  {
    if |keys| == 0 then None
    else if Trim(keys[|keys| - 1]) == t && keys[|keys| - 1] != t then Some(keys[|keys| - 1])
    else LastPadded(keys[..|keys| - 1], t)
  }

  /** What the header loop leaves under `x`: the trimmed cell of the last
      padded spelling of `x`, else `x`'s own cell, trimmed when `x` was one
      of the visited keys. */
  function Expected(obj: map<string, Cell>, keys: seq<string>, x: string): Cell {
    match LastPadded(keys, x)
    case Some(p) => TrimCell(Get(obj, p))
    case None => if x in keys then TrimCell(Get(obj, x)) else Get(obj, x)
  }

  /** The header whose cell the cleaned row shows under the trimmed
      header `t`: its last padded spelling, or `t` itself. */
  function SourceKey(row: RawRow, t: string): string {
    match LastPadded(Keys(row), t)
    case Some(p) => p
    case None => t
  }

  /** Putting a key in front of the list: a later padded spelling still
      wins; otherwise the new key wins if it is one. */
  lemma {:induction false} LastPaddedCons(k: string, rest: seq<string>, x: string)
    ensures LastPadded(rest, x).Some? ==> LastPadded([k] + rest, x) == LastPadded(rest, x)
    ensures LastPadded(rest, x).None? ==>
              LastPadded([k] + rest, x) == (if Trim(k) == x && k != x then Some(k) else None)
    decreases |rest|
  {
    var keys := [k] + rest;
    if |rest| > 0 {
      var n := |rest|;
      assert keys[..n] == [k] + rest[..n - 1];
      assert keys[n] == rest[n - 1];
      LastPaddedCons(k, rest[..n - 1], x);
    } else {
      assert keys[..0] == [];
    }
  }

  /** A trimmed header is never padded. */
  lemma TrimmedNotPadded(k: string)
    ensures Trim(Trim(k)) == Trim(k)
  {
    TrimIdempotent(k);
  }

  lemma StepLaterWinner(obj: map<string, Cell>, k: string, rest: seq<string>, x: string, p: string)
    requires k in obj && k !in rest && LastPadded(rest, x) == Some(p)
    ensures Expected(TrimKey(obj, k), rest, x) == Expected(obj, [k] + rest, x)
  {
    TrimmedNotPadded(k);
    LastPaddedCons(k, rest, x);
    assert p != k && p != Trim(k);
  }

  lemma StepMoves(obj: map<string, Cell>, k: string, rest: seq<string>, x: string)
    requires k in obj && LastPadded(rest, x) == None && Trim(k) == x && k != x
    ensures Expected(TrimKey(obj, k), rest, x) == Expected(obj, [k] + rest, x)
  {
    LastPaddedCons(k, rest, x);
    TrimCellIdempotent(obj[k]);
  }

  lemma StepSelf(obj: map<string, Cell>, k: string, rest: seq<string>)
    requires k in obj && k !in rest && LastPadded(rest, k) == None && Trim(k) == k
    ensures Expected(TrimKey(obj, k), rest, k) == Expected(obj, [k] + rest, k)
  {
    LastPaddedCons(k, rest, k);
    assert k in [k] + rest;
  }

  lemma StepOther(obj: map<string, Cell>, k: string, rest: seq<string>, x: string)
    requires k in obj && LastPadded(rest, x) == None && x != k && x != Trim(k)
    ensures Expected(TrimKey(obj, k), rest, x) == Expected(obj, [k] + rest, x)
  {
    LastPaddedCons(k, rest, x);
    assert x in [k] + rest <==> x in rest;
  }

  /** One step of the loop keeps the `Expected` description of every
      surviving header. */
  lemma ExpectedStep(obj: map<string, Cell>, k: string, rest: seq<string>, x: string)
    requires k in obj && k !in rest
    requires x != k || Trim(k) == k
    ensures Expected(TrimKey(obj, k), rest, x) == Expected(obj, [k] + rest, x)
  {
    match LastPadded(rest, x)
    case Some(p) => StepLaterWinner(obj, k, rest, x, p);
    case None =>
      if Trim(k) == x && k != x {
        StepMoves(obj, k, rest, x);
      } else if x == k {
        StepSelf(obj, k, rest);
      } else {
        StepOther(obj, k, rest, x);
      }
  }

  lemma DistinctTail(keys: seq<string>)
    requires Distinct(keys) && |keys| > 0
    ensures keys == [keys[0]] + keys[1..]
    ensures Distinct(keys[1..]) && keys[0] !in keys[1..]
  {
    var rest := keys[1..];
    forall i, j | 0 <= i < j < |rest| ensures rest[i] != rest[j] {
      assert rest[i] == keys[i + 1] && rest[j] == keys[j + 1];
    }
    forall i | 0 <= i < |rest| ensures rest[i] != keys[0] {
      assert rest[i] == keys[i + 1];
    }
  }

  lemma HeaderSetsCons(k: string, rest: seq<string>)
    ensures Padded([k] + rest) == (if Trim(k) != k then {k} else {}) + Padded(rest)
    ensures Trims([k] + rest) == {Trim(k)} + Trims(rest)
  {
    assert forall y :: y in [k] + rest <==> y == k || y in rest;
  }

  lemma DomainStep(o: set<string>, p0: set<string>, t: string, pr: set<string>, tr: set<string>)
    requires t !in pr
    ensures ((o - p0) + {t}) - pr + tr == (o - (p0 + pr)) + ({t} + tr)
  {
  }

  /** The header loop, described without its order: the surviving headers
      are the unvisited ones, the visited trimmed ones and the trimmed
      forms of the padded ones, and each holds its `Expected` cell. */
  lemma {:induction false} TrimKeysFromSpec(obj: map<string, Cell>, keys: seq<string>)
    requires Distinct(keys) && forall k :: k in keys ==> k in obj
    ensures TrimKeysFrom(obj, keys).Keys == (obj.Keys - Padded(keys)) + Trims(keys)
    ensures forall x :: x in TrimKeysFrom(obj, keys) ==> TrimKeysFrom(obj, keys)[x] == Expected(obj, keys, x)
    decreases |keys|
  {
    if |keys| == 0 {
      assert Padded(keys) == {} && Trims(keys) == {};
    } else {
      var k := keys[0];
      var rest := keys[1..];
      var obj1 := TrimKey(obj, k);
      DistinctTail(keys);
      TrimKeysFromSpec(obj1, rest);
      var r := TrimKeysFrom(obj1, rest);
      assert TrimKeysFrom(obj, keys) == r;
      KeysStep(obj, k, rest, r.Keys);
      ValuesStep(obj, k, rest, r);
    }
  }

  lemma KeysStep(obj: map<string, Cell>, k: string, rest: seq<string>, ks: set<string>)
    requires k in obj
    requires ks == (TrimKey(obj, k).Keys - Padded(rest)) + Trims(rest)
    ensures ks == (obj.Keys - Padded([k] + rest)) + Trims([k] + rest)
  {
    TrimmedNotPadded(k);
    HeaderSetsCons(k, rest);
    DomainStep(obj.Keys, if Trim(k) != k then {k} else {}, Trim(k), Padded(rest), Trims(rest));
  }

  lemma ValuesStep(obj: map<string, Cell>, k: string, rest: seq<string>, r: map<string, Cell>)
    requires k in obj && k !in rest
    requires r.Keys == (TrimKey(obj, k).Keys - Padded(rest)) + Trims(rest)
    requires forall x :: x in r ==> r[x] == Expected(TrimKey(obj, k), rest, x)
    ensures forall x :: x in r ==> r[x] == Expected(obj, [k] + rest, x)
  {
    forall x | x in r ensures r[x] == Expected(obj, [k] + rest, x) {
      assert x != k || Trim(k) == k;
      ExpectedStep(obj, k, rest, x);
    }
  }

  /** The cleaned headers of a row are exactly the trimmed original
      headers; under each sits the trimmed cell of its source header, so
      among padded spellings of one header the later column wins. */
  lemma TrimRowSpec(row: RawRow)
    requires WellFormed(row)
    ensures TrimRow(row).Keys == Trims(Keys(row))
    ensures forall t :: t in TrimRow(row) ==> TrimRow(row)[t] == TrimCell(Lookup(row, SourceKey(row, t)))
  {
    var obj := AsObject(row);
    var keys := Keys(row);
    TrimKeysFromSpec(obj, keys);
    UnpaddedAreTrims(obj.Keys, keys);
    forall t | t in TrimRow(row) ensures TrimRow(row)[t] == TrimCell(Lookup(row, SourceKey(row, t))) {
      ExpectedInRow(row, t);
    }
  }

  lemma UnpaddedAreTrims(o: set<string>, keys: seq<string>)
    requires o == set k | k in keys
    ensures (o - Padded(keys)) + Trims(keys) == Trims(keys)
  {
    forall k | k in o - Padded(keys) ensures k in Trims(keys) {
      assert Trim(k) == k;
    }
  }

  lemma ExpectedInRow(row: RawRow, t: string)
    requires t in Trims(Keys(row))
    ensures Expected(AsObject(row), Keys(row), t) == TrimCell(Lookup(row, SourceKey(row, t)))
  {
    var keys := Keys(row);
    if LastPadded(keys, t).None? {
      var k :| k in keys && Trim(k) == t;
      LastPaddedNone(keys, t, k);
      assert t in keys;
    }
  }

  /** Without a padded spelling of `t`, every header trimming to `t` is
      `t` itself. */
  lemma {:induction false} LastPaddedNone(keys: seq<string>, t: string, k: string)
    requires LastPadded(keys, t).None? && k in keys && Trim(k) == t
    ensures k == t
    decreases |keys|
  {
    var n := |keys|;
    if keys[n - 1] != k {
      assert k in keys[..n - 1] by {
        var i :| 0 <= i < n && keys[i] == k;
        assert keys[..n - 1][i] == k;
      }
      LastPaddedNone(keys[..n - 1], t, k);
    }
  }

  /** Every cleaned header and every cleaned text cell is trimmed. */
  lemma TrimRowTrimmed(row: RawRow)
    requires WellFormed(row)
    ensures forall t :: t in TrimRow(row) ==> Trim(t) == t
    ensures forall t :: t in TrimRow(row) && TrimRow(row)[t].Str? ==> Trim(TrimRow(row)[t].text) == TrimRow(row)[t].text
  {
    TrimRowSpec(row);
    forall t | t in TrimRow(row) ensures Trim(t) == t {
      var k :| k in Keys(row) && Trim(k) == t;
      TrimIdempotent(k);
    }
    forall t | t in TrimRow(row) && TrimRow(row)[t].Str?
      ensures Trim(TrimRow(row)[t].text) == TrimRow(row)[t].text
    {
      TrimIdempotent(Lookup(row, SourceKey(row, t)).text);
    }
  }

  // ---------------------------------------------------------------------
  // Cleaning a row, dropping undated rows

  /** A row after cleaning: its settlement date (`None` where the source
      holds `null`), its amount, and its other columns. */
  datatype CleanedRow = CleanedRow(date: Option<CalendarDate>, amount: real, others: map<string, Cell>)

  /** A row that survived the date filter. */
  datatype Record = Record(date: CalendarDate, amount: real, others: map<string, Cell>)

  /** The keys of the cleaned object: the date and amount columns are
      assigned whether or not the row had them. */
  function ObjectKeys(c: CleanedRow): set<string> {
    c.others.Keys + {DateKey, AmountKey}
  }

  /** The body of the `jsonData.map` callback. */
  function CleanRow(row: RawRow, loose: string -> Option<Date>): CleanedRow
    requires WellFormed(row)
  {
    var obj := TrimRow(row);
    CleanedRow(ConvertDate(Get(obj, DateKey), loose),
               NormalizeAmount(Get(obj, AmountKey)),
               obj - {DateKey, AmountKey})
  }

  /** The cell a cleaned row reads under the trimmed header `t`. */
  function CleanedCell(row: RawRow, t: string): Cell {
    if t in Trims(Keys(row)) then TrimCell(Lookup(row, SourceKey(row, t))) else Null
  }

  /** What cleaning does to a row: its keys become the trimmed headers
      plus the date and amount columns; every other column holds the
      trimmed cell of its source header; the date and amount are those of
      the trimmed date and amount cells. */
  lemma CleanRowSpec(row: RawRow, loose: string -> Option<Date>)
    requires WellFormed(row)
    ensures ObjectKeys(CleanRow(row, loose)) == Trims(Keys(row)) + {DateKey, AmountKey}
    ensures forall t :: t in CleanRow(row, loose).others ==> CleanRow(row, loose).others[t] == CleanedCell(row, t)
    ensures CleanRow(row, loose).date == ConvertDate(CleanedCell(row, DateKey), loose)
    ensures CleanRow(row, loose).amount == NormalizeAmount(CleanedCell(row, AmountKey))
  {
    TrimRowSpec(row);
    var obj := TrimRow(row);
    assert Get(obj, DateKey) == CleanedCell(row, DateKey);
    assert Get(obj, AmountKey) == CleanedCell(row, AmountKey);
  }

  /** A kept row had a date column, so its keys are the trimmed headers
      plus the amount column. */
  lemma KeptRowKeys(row: RawRow, loose: string -> Option<Date>)
    requires WellFormed(row) && CleanRow(row, loose).date.Some?
    ensures ObjectKeys(CleanRow(row, loose)) == Trims(Keys(row)) + {AmountKey}
  {
    CleanRowSpec(row, loose);
    assert Truthy(CleanedCell(row, DateKey));
    assert DateKey in Trims(Keys(row));
  }

  /** The headers and text cells of a cleaned row are trimmed. */
  lemma CleanedRowTrimmed(row: RawRow, loose: string -> Option<Date>)
    requires WellFormed(row)
    ensures forall t :: t in CleanRow(row, loose).others ==> Trim(t) == t
    ensures forall t :: t in CleanRow(row, loose).others && CleanRow(row, loose).others[t].Str? ==>
                        Trim(CleanRow(row, loose).others[t].text) == CleanRow(row, loose).others[t].text
  {
    TrimRowTrimmed(row);
    var obj := TrimRow(row);
    assert CleanRow(row, loose).others == obj - {DateKey, AmountKey};
  }

  /** A row whose date cells are all empty once trimmed never survives:
      `convertDate` of a falsy value is `null`. */
  lemma EmptyDateDropped(row: RawRow, loose: string -> Option<Date>)
    requires WellFormed(row)
    requires forall i :: 0 <= i < |row| && Trim(row[i].key) == DateKey ==>
                         row[i].value == Null || Trim(row[i].value.text) == ""
    ensures CleanRow(row, loose).date.None?
  {
    CleanRowSpec(row, loose);
    EmptyCellFalsy(row, DateKey);
  }

  lemma EmptyCellFalsy(row: RawRow, t: string)
    requires WellFormed(row)
    requires forall i :: 0 <= i < |row| && Trim(row[i].key) == t ==>
                         row[i].value == Null || Trim(row[i].value.text) == ""
    ensures !Truthy(CleanedCell(row, t))
  {
    if t in Trims(Keys(row)) {
      var keys := Keys(row);
      var src := SourceKey(row, t);
      SourceKeyFound(keys, t);
      var i :| 0 <= i < |keys| && keys[i] == src;
      LookupDistinct(row, i);
    }
  }

  /** The source header of a cleaned header is one of the row's headers
      and trims to it. */
  lemma SourceKeyFound(keys: seq<string>, t: string)
    requires t in Trims(keys)
    ensures var src := match LastPadded(keys, t) case Some(p) => p case None => t;
            src in keys && Trim(src) == t
  {
    var k :| k in keys && Trim(k) == t;
    if LastPadded(keys, t).None? {
      LastPaddedNone(keys, t, k);
    }
  }

  /** In a well-formed row a header names exactly one column. */
  lemma {:induction false} LookupDistinct(row: RawRow, i: nat)
    requires WellFormed(row) && i < |row|
    ensures Lookup(row, row[i].key) == row[i].value
    decreases i
  {
    if i > 0 {
      assert row[0].key != row[i].key by {
        assert Keys(row)[0] == row[0].key && Keys(row)[i] == row[i].key;
      }
      assert WellFormed(row[1..]) by {
        forall a, b | 0 <= a < b < |row| - 1 ensures Keys(row[1..])[a] != Keys(row[1..])[b] {
          assert Keys(row)[a + 1] == Keys(row[1..])[a] && Keys(row)[b + 1] == Keys(row[1..])[b];
        }
      }
      assert row[1..][i - 1] == row[i];
      LookupDistinct(row[1..], i - 1);
    }
  }

  /** A cleaned row with a date, as the later stages see it. */
  function ToRecord(c: CleanedRow): Record
    requires c.date.Some?
  {
    Record(c.date.value, c.amount, c.others)
  }

  predicate AllWellFormed(rows: seq<RawRow>) {
    forall i :: 0 <= i < |rows| ==> WellFormed(rows[i])
  }

  /** `jsonData.map(clean)`. */
  function CleanEach(rows: seq<RawRow>, loose: string -> Option<Date>): (r: seq<CleanedRow>)
    requires AllWellFormed(rows)
    ensures |r| == |rows| && forall i :: 0 <= i < |rows| ==> r[i] == CleanRow(rows[i], loose)
  {
    seq(|rows|, i requires 0 <= i < |rows| => CleanRow(rows[i], loose))
  }

  /** `cleanedData.filter(row => row[DateKey] !== null)`. */
  function SelectDated(cs: seq<CleanedRow>): seq<Record> {
    if |cs| == 0 then []
    else SelectDated(cs[..|cs| - 1]) + (if cs[|cs| - 1].date.Some? then [ToRecord(cs[|cs| - 1])] else [])
  }

  /** The positions of the dated rows, in order. */
  function DatedIndices(cs: seq<CleanedRow>): seq<nat> {
    if |cs| == 0 then []
    else DatedIndices(cs[..|cs| - 1]) + (if cs[|cs| - 1].date.Some? then [|cs| - 1] else [])
  }

  /** The cleaned records of a batch of rows. */
  function CleanAll(rows: seq<RawRow>, loose: string -> Option<Date>): seq<Record>
    requires AllWellFormed(rows)
  {
    SelectDated(CleanEach(rows, loose))
  }

  /** The date filter keeps exactly the dated rows, each once, in their
      original order. */
  lemma {:induction false} SelectDatedSpec(cs: seq<CleanedRow>)
    ensures |SelectDated(cs)| == |DatedIndices(cs)|
    ensures forall j, k :: 0 <= j < k < |DatedIndices(cs)| ==> DatedIndices(cs)[j] < DatedIndices(cs)[k]
    ensures forall j :: 0 <= j < |DatedIndices(cs)| ==>
              DatedIndices(cs)[j] < |cs| && cs[DatedIndices(cs)[j]].date.Some? &&
              SelectDated(cs)[j] == ToRecord(cs[DatedIndices(cs)[j]])
    ensures forall i :: 0 <= i < |cs| && cs[i].date.Some? ==> i in DatedIndices(cs)
    decreases |cs|
  {
    if |cs| > 0 {
      var n := |cs|;
      var front := cs[..n - 1];
      SelectDatedSpec(front);
      forall i | 0 <= i < n - 1 ensures front[i] == cs[i] { }
    }
  }

  /** Cleaning keeps exactly the rows whose date converts, each once, in
      their original order. */
  lemma CleanAllSpec(rows: seq<RawRow>, loose: string -> Option<Date>)
    requires AllWellFormed(rows)
    ensures var kept := DatedIndices(CleanEach(rows, loose));
            |CleanAll(rows, loose)| == |kept| &&
            (forall j, k :: 0 <= j < k < |kept| ==> kept[j] < kept[k]) &&
            (forall j :: 0 <= j < |kept| ==>
               kept[j] < |rows| && CleanRow(rows[kept[j]], loose).date.Some? &&
               CleanAll(rows, loose)[j] == ToRecord(CleanRow(rows[kept[j]], loose))) &&
            (forall i :: 0 <= i < |rows| && CleanRow(rows[i], loose).date.Some? ==> i in kept)
  {
    SelectDatedSpec(CleanEach(rows, loose));
  }
}
