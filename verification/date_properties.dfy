/**
 * What the date normaliser does with the layouts it is meant for: it reads
 * back every date the pipeline itself writes, resolves an ambiguous
 * `03/04/2024` day first, and only falls back to month first when the
 * day-first reading is not a date.
 */
module DateProperties {
  import opened Text
  import opened Calendar
  import opened Cells
  import opened DateNormalizer

  /** A numeric token reads a whole field that is followed by a non-digit. */
  lemma ReadNumberField(a: string, b: string, w: nat)
    requires AllDigits(a) && 1 <= |a| <= w && (|b| > 0 ==> !IsDigit(b[0]))
    ensures ReadNumber(a + b, w) == Some(Scan(DigitsValue(a), b))
  {
    DigitRunAppend(a, b);
    assert (a + b)[..|a|] == a;
    assert (a + b)[|a|..] == b;
  }

  /** A numeric token stops at its width inside a longer run of digits. */
  lemma ReadNumberStops(a: string, b: string, w: nat)
    requires AllDigits(a) && 1 <= w < |a|
    ensures ReadNumber(a + b, w).Some?
    ensures ReadNumber(a + b, w).value.rest == a[w..] + b
  {
    DigitRunCovers(a, b);
    assert (a + b)[w..] == a[w..] + b;
  }

  lemma JoinAssoc(a: string, b: string, c: string, d: string, e: string)
    ensures a + b + c + d + e == a + (b + (c + d + e))
    ensures a + b + c + d + e == a + (b + c + d + e)
  {
  }

  /** `ReadThree` is the three numeric reads chained by the separator. */
  lemma ReadThreeSteps(s: string, u: string, v: string, rest: string, x: nat, y: nat, z: nat,
                       w1: nat, w2: nat, w3: nat, sep: char)
    requires ReadNumber(s, w1) == Some(Scan(x, [sep] + u))
    requires ReadNumber(u, w2) == Some(Scan(y, [sep] + v))
    requires ReadNumber(v, w3) == Some(Scan(z, rest))
    ensures ReadThree(s, w1, w2, w3, sep) == Some((x, y, z, rest))
  {
    assert ([sep] + u)[1..] == u;
    assert ([sep] + v)[1..] == v;
  }

  /** Three numeric fields of the expected widths, joined by `sep`. */
  lemma ReadThreeFields(a: string, b: string, c: string, sep: char, w1: nat, w2: nat, w3: nat)
    requires AllDigits(a) && AllDigits(b) && AllDigits(c) && !IsDigit(sep)
    requires 1 <= |a| <= w1 && 1 <= |b| <= w2 && 1 <= |c| <= w3
    ensures ReadThree(a + [sep] + b + [sep] + c, w1, w2, w3, sep) ==
            Some((DigitsValue(a), DigitsValue(b), DigitsValue(c), ""))
  {
    var s := a + [sep] + b + [sep] + c;
    var u := b + [sep] + c;
    assert ReadNumber(s, w1) == Some(Scan(DigitsValue(a), [sep] + u)) by {
      JoinAssoc(a, [sep], b, [sep], c);
      ReadNumberField(a, [sep] + u, w1);
    }
    assert ReadNumber(u, w2) == Some(Scan(DigitsValue(b), [sep] + c)) by {
      assert u == b + ([sep] + c);
      ReadNumberField(b, [sep] + c, w2);
    }
    assert ReadNumber(c, w3) == Some(Scan(DigitsValue(c), "")) by {
      assert c == c + "";
      ReadNumberField(c, "", w3);
    }
    ReadThreeSteps(s, u, c, "", DigitsValue(a), DigitsValue(b), DigitsValue(c), w1, w2, w3, sep);
  }

  /** Text without capitals is left alone by `toLowerCase`. */
  lemma LowerFixed(s: string)
    requires forall i :: 0 <= i < |s| ==> LowerChar(s[i]) == s[i]
    ensures Lower(s) == s
  {
  }

  lemma MonthNamesStartWithLetter()
    ensures forall j :: 0 <= j < 12 ==> |PortugueseMonths[j]| > 0 && 'a' <= PortugueseMonths[j][0] <= 'z'
  {
  }

  /** No month name occurs in a text without lower-case letters, so the
      substitution leaves it alone. */
  lemma SubstituteNoLetters(s: string)
    requires forall i :: 0 <= i < |s| ==> !('a' <= s[i] <= 'z')
    ensures SubstituteMonth(s) == s
  {
    MonthNamesStartWithLetter();
    forall j, q | 0 <= j < 12 && 0 <= q <= |s| ensures !OccursAt(s, PortugueseMonths[j], q) {
      var p := PortugueseMonths[j];
      if q + |p| <= |s| {
        assert s[q..q + |p|][0] == s[q];
      }
    }
  }

  /** A text of digits and punctuation normalises to itself. */
  lemma NormalizeNumeric(s: string)
    requires |s| > 0 && IsDigit(s[0]) && IsDigit(s[|s| - 1])
    requires forall i :: 0 <= i < |s| ==> IsDigit(s[i]) || s[i] == '/' || s[i] == '-'
    ensures Normalize(s) == s
  {
    forall i | 0 <= i < |s| ensures LowerChar(s[i]) == s[i] && !('a' <= s[i] <= 'z') {
      NumericChar(s[i]);
    }
    NumericChar(s[0]);
    NumericChar(s[|s| - 1]);
    LowerFixed(s);
    TrimOfTrimmed(s);
    SubstituteNoLetters(s);
  }

  lemma NumericChar(c: char)
    requires IsDigit(c) || c == '/' || c == '-'
    ensures LowerChar(c) == c && !IsSpace(c) && !('a' <= c <= 'z')
  {
  }

  /** Three digit fields joined by `/` or `-` normalise to themselves. */
  lemma NormalizeFields(a: string, b: string, c: string, sep: char)
    requires AllDigits(a) && AllDigits(b) && AllDigits(c) && |a| > 0 && |c| > 0
    requires sep == '/' || sep == '-'
    ensures Normalize(a + [sep] + b + [sep] + c) == a + [sep] + b + [sep] + c
  {
    var s := a + [sep] + b + [sep] + c;
    forall i | 0 <= i < |s| ensures IsDigit(s[i]) || s[i] == '/' || s[i] == '-' {
      if i < |a| {
        assert s[i] == a[i];
      } else if i == |a| {
      } else if i < |a| + 1 + |b| {
        assert s[i] == b[i - |a| - 1];
      } else if i == |a| + 1 + |b| {
      } else {
        assert s[i] == c[i - |a| - |b| - 2];
      }
    }
    assert s[0] == a[0];
    assert s[|s| - 1] == c[|c| - 1];
    NormalizeNumeric(s);
  }

  /** When the first two-digit token is followed by another digit, the
      patterns that start with a two-digit token fail. */
  lemma TwoDigitStartFails(a: string, rest: string)
    requires AllDigits(a) && |a| > 2
    ensures ParseDayMonthNameYear(a + rest).None?
    ensures ParseDayMonthYear(a + rest).None?
    ensures ParseMonthDayYear(a + rest).None?
  {
    ReadNumberStops(a, rest, 2);
    assert (a[2..] + rest)[0] == a[2];
  }

  /** When the first token is followed by `sep`, the named-month pattern
      fails, since it wants a space there. */
  lemma NamedPatternNeedsSpace(a: string, sep: char, rest: string)
    requires AllDigits(a) && 1 <= |a| <= 2 && sep != ' ' && !IsDigit(sep)
    ensures ParseDayMonthNameYear(a + ([sep] + rest)).None?
  {
    ReadNumberField(a, [sep] + rest, 2);
  }

  /** `convertDate` of a truthy text, given what each pattern makes of its
      normal form. */
  lemma ConvertByPatterns(t: string, s: string, loose: string -> Option<Date>,
                          r1: Option<CalendarDate>, r2: Option<CalendarDate>,
                          r3: Option<CalendarDate>, r4: Option<CalendarDate>)
    requires t != "" && Normalize(t) == s
    requires ParseDayMonthNameYear(s) == r1 && ParseDayMonthYear(s) == r2
    requires ParseYearMonthDay(s) == r3 && ParseMonthDayYear(s) == r4
    ensures ConvertDate(Str(t), loose) ==
            if r1.Some? then r1 else if r2.Some? then r2 else if r3.Some? then r3
            else if r4.Some? then r4 else Fallback(t, loose)
  {
  }

  /** Reading back the day-first layout: every date from year 1 to 9999
      written as `dd/MM/yyyy` converts to itself. With the separator
      turned into `-` this is the `Grouped Date` column, so the normaliser
      recovers the group dates the pipeline prints. */
  lemma DayFirstRoundTrip(d: CalendarDate, loose: string -> Option<Date>)
    requires 1 <= d.year <= 9999
    ensures ConvertDate(Str(FormatDayFirst(d, '/')), loose) == Some(d)
  {
    var s := FormatDayFirst(d, '/');
    var a, b, c := TwoDigits(d.day), TwoDigits(d.month), YearText(d.year);
    SlashLayout(a, b, c);
    ConvertByPatterns(s, s, loose, None, Some(d), None, ParseMonthDayYear(s));
  }

  /** Reading back the group key: every date from year 1 to 9999 written as
      `yyyy-MM-dd` converts to itself (the day-first patterns fail on the
      four-digit year, and the ISO pattern reads it). */
  lemma IsoRoundTrip(d: CalendarDate, loose: string -> Option<Date>)
    requires 1 <= d.year <= 9999
    ensures ConvertDate(Str(FormatIso(d)), loose) == Some(d)
  {
    var s := FormatIso(d);
    var a, b, c := YearText(d.year), TwoDigits(d.month), TwoDigits(d.day);
    assert Normalize(s) == s by {
      NormalizeFields(a, b, c, '-');
    }
    assert ParseDayMonthNameYear(s).None? && ParseDayMonthYear(s).None? by {
      JoinAssoc(a, ['-'], b, ['-'], c);
      TwoDigitStartFails(a, ['-'] + b + ['-'] + c);
    }
    assert ParseYearMonthDay(s) == Some(d) by {
      ReadThreeFields(a, b, c, '-', 4, 2, 2);
    }
    ConvertByPatterns(s, s, loose, None, None, Some(d), ParseMonthDayYear(s));
  }

  /** What the patterns make of two two-digit fields and a year joined by
      `/`: the named-month and ISO patterns fail, and the two slash
      patterns read the fields in their orders. */
  lemma SlashLayout(a: string, b: string, c: string)
    requires AllDigits(a) && AllDigits(b) && AllDigits(c) && |a| == 2 && |b| == 2 && |c| == 4
    ensures var s := a + ['/'] + b + ['/'] + c;
      && Normalize(s) == s
      && ParseDayMonthNameYear(s).None?
      && ParseYearMonthDay(s).None?
      && ParseDayMonthYear(s) == Finish("", DigitsValue(c), DigitsValue(b), DigitsValue(a))
      && ParseMonthDayYear(s) == Finish("", DigitsValue(c), DigitsValue(a), DigitsValue(b))
  {
    var s := a + ['/'] + b + ['/'] + c;
    NormalizeFields(a, b, c, '/');
    assert ParseDayMonthNameYear(s).None? && ParseYearMonthDay(s).None? by {
      JoinAssoc(a, ['/'], b, ['/'], c);
      NamedPatternNeedsSpace(a, '/', b + ['/'] + c);
      ReadNumberField(a, ['/'] + b + ['/'] + c, 4);
    }
    ReadThreeFields(a, b, c, '/', 2, 2, 4);
  }

  /** `MM/dd/yyyy` is reached only when the day-first reading is not a
      date: a date whose day is 13 or more, written month first, converts
      to itself. */
  lemma MonthFirstWhenDayFirstInvalid(d: CalendarDate, loose: string -> Option<Date>)
    requires 1 <= d.year <= 9999 && d.day >= 13
    ensures ConvertDate(Str(FormatMonthFirst(d)), loose) == Some(d)
  {
    var s := FormatMonthFirst(d);
    var a, b, c := TwoDigits(d.month), TwoDigits(d.day), YearText(d.year);
    SlashLayout(a, b, c);
    ConvertByPatterns(s, s, loose, None, None, None, Some(d));
  }

  /** An ambiguous slash date is read day first: a date whose day is at
      most 12, written month first, converts to the date with day and month
      swapped. */
  lemma AmbiguousSlashDateIsDayFirst(d: CalendarDate, loose: string -> Option<Date>)
    requires 1 <= d.year <= 9999 && d.day <= 12
    ensures ConvertDate(Str(FormatMonthFirst(d)), loose) == Some(Date(d.year, d.day, d.month))
  {
    var s := FormatMonthFirst(d);
    var a, b, c := TwoDigits(d.month), TwoDigits(d.day), YearText(d.year);
    var swapped: CalendarDate := Date(d.year, d.day, d.month);
    SlashLayout(a, b, c);
    ConvertByPatterns(s, s, loose, None, Some(swapped), None, ParseMonthDayYear(s));
  }

  // ---------------------------------------------------------------------
  // Dates written with a Portuguese month name

  predicate IsNameChar(c: char) {
    'a' <= c <= 'z' || c == 'ç'
  }

  predicate AllNameChars(s: string) {
    forall i :: 0 <= i < |s| ==> IsNameChar(s[i])
  }

  lemma MonthTablesFacts()
    ensures forall j :: 0 <= j < 12 ==> AllNameChars(PortugueseMonths[j]) && |PortugueseMonths[j]| >= 4
    ensures forall j :: 0 <= j < 12 ==> AllNameChars(EnglishMonths[j]) && |EnglishMonths[j]| >= 3
  {
  }

  /** No Portuguese month name occurs inside another one, or elsewhere
      than at the start of itself. */
  lemma PortugueseNamesApart()
    ensures forall k, j, o :: 0 <= k < 12 && 0 <= j < 12 && OccursAt(PortugueseMonths[k], PortugueseMonths[j], o) ==>
                              j == k && o == 0
  {
    FirstHalfApart();
    SecondHalfApart();
  }

  /** `PortugueseNamesApart` for the names of January to June. */
  lemma FirstHalfApart()
    ensures forall k, j, o :: 0 <= k < 12 && 0 <= j < 6 && OccursAt(PortugueseMonths[k], PortugueseMonths[j], o) ==>
                              j == k && o == 0
  {
    MonthTablesFacts();
    forall k, j, o | 0 <= k < 12 && 0 <= j < 6 && OccursAt(PortugueseMonths[k], PortugueseMonths[j], o)
      ensures j == k && o == 0
    {
      var n, p := PortugueseMonths[k], PortugueseMonths[j];
      assert n[o..o + |p|][0] == p[0] && n[o..o + |p|][1] == p[1] && n[o..o + |p|][2] == p[2];
      assert n[o..o + |p|][|p| - 1] == p[|p| - 1];
    }
  }

  /** `PortugueseNamesApart` for the names of July to December. */
  lemma SecondHalfApart()
    ensures forall k, j, o :: 0 <= k < 12 && 6 <= j < 12 && OccursAt(PortugueseMonths[k], PortugueseMonths[j], o) ==>
                              j == k && o == 0
  {
    MonthTablesFacts();
    forall k, j, o | 0 <= k < 12 && 6 <= j < 12 && OccursAt(PortugueseMonths[k], PortugueseMonths[j], o)
      ensures j == k && o == 0
    {
      var n, p := PortugueseMonths[k], PortugueseMonths[j];
      assert n[o..o + |p|][0] == p[0] && n[o..o + |p|][1] == p[1] && n[o..o + |p|][2] == p[2];
      assert n[o..o + |p|][|p| - 1] == p[|p| - 1];
    }
  }

  /** No English month name is a prefix of a later one. */
  lemma EnglishNamesApart()
    ensures forall i, k :: 0 <= i < k < 12 && |EnglishMonths[i]| <= |EnglishMonths[k]| ==>
                           EnglishMonths[k][..|EnglishMonths[i]|] != EnglishMonths[i]
  {
    MonthTablesFacts();
    forall i, k | 0 <= i < k < 12 && |EnglishMonths[i]| <= |EnglishMonths[k]|
      ensures EnglishMonths[k][..|EnglishMonths[i]|] != EnglishMonths[i]
    {
      var a, b := EnglishMonths[i], EnglishMonths[k];
      assert b[..|a|][0] == b[0] && b[..|a|][1] == b[1] && b[..|a|][2] == b[2];
    }
  }

  /** In `D name Y` a word of name characters can only occur inside the name. */
  lemma OccurrenceInName(dd: string, name: string, yy: string, p: string, q: int)
    requires AllDigits(dd) && AllDigits(yy) && AllNameChars(name) && AllNameChars(p) && |p| >= 1
    ensures OccursAt(dd + " " + name + " " + yy, p, q) ==> OccursAt(name, p, q - |dd| - 1)
  {
    var t := dd + " " + name + " " + yy;
    if OccursAt(t, p, q) {
      var p0 := |dd| + 1;
      TextLayout(dd, name, yy);
      OccurrenceInside(t, p, q, p0, |name|);
      ShiftOccurrence(t, name, p0, p, q);
    }
  }

  /** An occurrence of a word of name characters lies within the only
      stretch of name characters. */
  lemma OccurrenceInside(t: string, p: string, q: int, lo: int, n: int)
    requires OccursAt(t, p, q) && |p| >= 1 && AllNameChars(p)
    requires forall i :: 0 <= i < |t| && !(lo <= i < lo + n) ==> !IsNameChar(t[i])
    ensures lo <= q && q + |p| <= lo + n
  {
    OccurrenceChars(t, p, q);
    assert t[q] == p[0] && t[q + |p| - 1] == p[|p| - 1];
  }

  lemma ShiftOccurrence(t: string, name: string, p0: int, p: string, q: int)
    requires 0 <= p0 && p0 + |name| <= |t| && forall i :: 0 <= i < |name| ==> t[p0 + i] == name[i]
    requires OccursAt(t, p, q) && p0 <= q && q + |p| <= p0 + |name|
    ensures OccursAt(name, p, q - p0)
  {
    var o := q - p0;
    OccurrenceChars(t, p, q);
    forall i | 0 <= i < |p| ensures name[o + i] == p[i] {
      assert t[p0 + (o + i)] == t[q + i];
    }
    OccursFromChars(name, p, o);
  }

  /** In `D name Y` the name characters are exactly those of the name. */
  lemma TextLayout(dd: string, name: string, yy: string)
    requires AllDigits(dd) && AllDigits(yy)
    ensures var t := dd + " " + name + " " + yy;
            var p0 := |dd| + 1;
            |t| == p0 + |name| + 1 + |yy| &&
            (forall i :: 0 <= i < |name| ==> t[p0 + i] == name[i]) &&
            (forall i :: 0 <= i < |t| && !(p0 <= i < p0 + |name|) ==> !IsNameChar(t[i]))
  {
    var t := dd + " " + name + " " + yy;
    var p0 := |dd| + 1;
    forall i | 0 <= i < |t| && !(p0 <= i < p0 + |name|) ensures !IsNameChar(t[i]) {
      if i < |dd| {
        assert t[i] == dd[i];
      } else if i >= p0 + |name| + 1 {
        assert t[i] == yy[i - p0 - |name| - 1];
      }
    }
  }

  lemma OccurrenceChars(t: string, p: string, q: int)
    requires OccursAt(t, p, q)
    ensures forall i :: 0 <= i < |p| ==> t[q + i] == p[i]
  {
    forall i | 0 <= i < |p| ensures t[q + i] == p[i] {
      assert t[q..q + |p|][i] == t[q + i];
    }
  }

  lemma OccursFromChars(s: string, p: string, o: int)
    requires 0 <= o && o + |p| <= |s| && forall i :: 0 <= i < |p| ==> s[o + i] == p[i]
    ensures OccursAt(s, p, o)
  {
    assert s[o..o + |p|] == p;
  }

  /** The substitution turns `D name Y` with a Portuguese name into the
      same text with the English name. */
  lemma SubstitutePortugueseName(dd: string, m: int, yy: string)
    requires AllDigits(dd) && AllDigits(yy) && 1 <= m <= 12
    ensures SubstituteMonth(dd + " " + PortugueseMonths[m - 1] + " " + yy) ==
            dd + " " + EnglishMonths[m - 1] + " " + yy
  {
    var name := PortugueseMonths[m - 1];
    var t := dd + " " + name + " " + yy;
    var p0 := |dd| + 1;
    MonthTablesFacts();
    PortugueseNamesApart();
    forall j, q | 0 <= j < 12 ensures OccursAt(t, PortugueseMonths[j], q) ==> j == m - 1 && q == p0 {
      OccurrenceInName(dd, name, yy, PortugueseMonths[j], q);
    }
    assert t == (dd + " ") + name + (" " + yy);
    assert OccursAt(t, name, p0) by {
      assert t[p0..p0 + |name|] == name;
    }
    assert Contains(t, name);
    assert t[..p0] == dd + " ";
    assert t[p0 + |name|..] == " " + yy;
  }

  /** The first table entry `u` starts with, when the earlier ones do not. */
  lemma {:induction false} FirstPrefixFinds(names: seq<string>, u: string, from: nat, k: nat)
    requires from <= k < |names| && IsPrefix(names[k], u)
    requires forall i :: from <= i < k ==> !IsPrefix(names[i], u)
    ensures FirstPrefix(names, u, from) == Some(k)
    decreases k - from
  {
    if from < k {
      FirstPrefixFinds(names, u, from + 1, k);
    }
  }

  /** No English month name before the m-th one starts `name_m yyyy`. */
  lemma EarlierNamesMiss(m: int, yy: string)
    requires AllDigits(yy) && 1 <= m <= 12
    ensures forall i :: 0 <= i < m - 1 ==> !IsPrefix(EnglishMonths[i], EnglishMonths[m - 1] + " " + yy)
  {
    var e := EnglishMonths[m - 1];
    var u := e + " " + yy;
    MonthTablesFacts();
    EnglishNamesApart();
    forall i | 0 <= i < m - 1 ensures !IsPrefix(EnglishMonths[i], u) {
      var a := EnglishMonths[i];
      if |a| > |e| {
        assert a[|e|] != ' ';
        if |a| <= |u| {
          assert u[..|a|][|e|] == ' ';
        }
      } else {
        assert u[..|a|] == e[..|a|];
      }
    }
  }

  /** The month-name reader takes the m-th English name off `name_m yyyy`. */
  lemma MonthNameRead(m: int, yy: string)
    requires AllDigits(yy) && 1 <= m <= 12
    ensures ReadMonthName(EnglishMonths[m - 1] + " " + yy) == Some(Scan(m, " " + yy))
  {
    var e := EnglishMonths[m - 1];
    var u := e + " " + yy;
    assert IsPrefix(e, u) by {
      assert u[..|e|] == e;
    }
    EarlierNamesMiss(m, yy);
    FirstPrefixFinds(EnglishMonths, u, 0, m - 1);
    assert u[|e|..] == " " + yy;
  }

  /** `d MMMM yyyy` reads a day, an English month name and a year. */
  lemma NamedLayout(dd: string, m: int, yy: string)
    requires AllDigits(dd) && 1 <= |dd| <= 2 && AllDigits(yy) && 1 <= |yy| <= 4 && 1 <= m <= 12
    ensures ParseDayMonthNameYear(dd + " " + EnglishMonths[m - 1] + " " + yy) ==
            Finish("", DigitsValue(yy), m, DigitsValue(dd))
  {
    var e := EnglishMonths[m - 1];
    var u := e + " " + yy;
    JoinAssoc(dd, " ", e, " ", yy);
    ReadNumberField(dd, " " + u, 2);
    MonthNameRead(m, yy);
    assert yy + "" == yy;
    ReadNumberField(yy, "", 4);
    NamedSteps(dd + (" " + u), u, yy, "", DigitsValue(dd), m, DigitsValue(yy));
  }

  /** `d MMMM yyyy` is its three reads chained by single spaces. */
  lemma NamedSteps(s: string, u: string, v: string, rest: string, d: nat, m: nat, y: nat)
    requires ReadNumber(s, 2) == Some(Scan(d, " " + u))
    requires ReadMonthName(u) == Some(Scan(m, " " + v))
    requires ReadNumber(v, 4) == Some(Scan(y, rest))
    ensures ParseDayMonthNameYear(s) == Finish(rest, y, m, d)
  {
    assert (" " + u)[1..] == u;
    assert (" " + v)[1..] == v;
  }

  /** `D name Y` with a Portuguese name normalises to `D name' Y` with the
      English one. */
  lemma NormalizeNamed(dd: string, m: int, yy: string)
    requires AllDigits(dd) && |dd| >= 1 && AllDigits(yy) && |yy| >= 1 && 1 <= m <= 12
    ensures Normalize(dd + " " + PortugueseMonths[m - 1] + " " + yy) ==
            dd + " " + EnglishMonths[m - 1] + " " + yy
  {
    var name := PortugueseMonths[m - 1];
    var t := dd + " " + name + " " + yy;
    var p0 := |dd| + 1;
    MonthTablesFacts();
    forall i | 0 <= i < |t| ensures LowerChar(t[i]) == t[i] {
      if i < |dd| {
        assert t[i] == dd[i];
      } else if p0 <= i < p0 + |name| {
        assert t[i] == name[i - p0];
      } else if p0 + |name| < i {
        assert t[i] == yy[i - p0 - |name| - 1];
      }
    }
    LowerFixed(t);
    assert t[0] == dd[0];
    assert t[|t| - 1] == yy[|yy| - 1];
    TrimOfTrimmed(t);
    SubstitutePortugueseName(dd, m, yy);
  }

  /** A date written the way the settlement column writes it, day number,
      Portuguese month name and four-digit year (`15 março 2024`),
      converts to that date. */
  lemma PortugueseDateConverts(d: CalendarDate, loose: string -> Option<Date>)
    requires 1 <= d.year <= 9999
    ensures ConvertDate(Str(NatToDigits(d.day) + " " + PortugueseMonths[d.month - 1] + " " + YearText(d.year)), loose) == Some(d)
  {
    var dd, yy := NatToDigits(d.day), YearText(d.year);
    var t := dd + " " + PortugueseMonths[d.month - 1] + " " + yy;
    var u := dd + " " + EnglishMonths[d.month - 1] + " " + yy;
    DigitsFit(d.day, 2);
    NormalizeNamed(dd, d.month, yy);
    NamedLayout(dd, d.month, yy);
    ConvertByPatterns(t, u, loose, Some(d), ParseDayMonthYear(u), ParseYearMonthDay(u), ParseMonthDayYear(u));
  }
}
