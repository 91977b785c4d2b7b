/**
 * The date normaliser (`convertDate` in src/dataWorker.js): lower-case and
 * trim the cell text, replace at most one Portuguese month name by its
 * English name, then try the patterns `d MMMM yyyy`, `dd/MM/yyyy`,
 * `yyyy-MM-dd` and `MM/dd/yyyy` in that order, and finally the engine's own
 * loose `new Date(text)`, which is a parameter of the model.
 *
 * The patterns follow date-fns `parse`: a numeric token reads the longest
 * run of one up to its width in digits (`d`, `dd`, `MM`: two; `yyyy`: four),
 * other pattern characters must match literally, only white space may
 * follow the last token, the year must be at least 1, and the day must
 * exist in its month. `MMMM` accepts an English month name in the wide
 * form, else the abbreviated form, else the one-letter form.
 */
module DateNormalizer {
  import opened Text
  import opened Calendar
  import opened Cells

  /** The month table of the source, in declaration order. */
  const PortugueseMonths: seq<string> :=
    ["janeiro", "fevereiro", "março", "abril", "maio", "junho",
     "julho", "agosto", "setembro", "outubro", "novembro", "dezembro"]

  /** The English names the table maps to, lower-cased before use. */
  const EnglishMonths: seq<string> :=
    ["january", "february", "march", "april", "may", "june",
     "july", "august", "september", "october", "november", "december"]

  const EnglishAbbreviations: seq<string> :=
    ["jan", "feb", "mar", "apr", "may", "jun", "jul", "aug", "sep", "oct", "nov", "dec"]

  /** One-letter month names; a letter stands for the first month it starts. */
  const NarrowMonths: string := "jfmamjjasond"

  // ---------------------------------------------------------------------
  // Month-name substitution

  /** Table entries from `k` on: the first one that occurs is replaced, once. */
  function SubstituteFrom(s: string, k: nat): (r: string)
    requires k <= 12
    ensures (forall j :: k <= j < 12 ==> !Contains(s, PortugueseMonths[j])) ==> r == s
    ensures forall j :: k <= j < 12 && Contains(s, PortugueseMonths[j]) &&
                        (forall i :: k <= i < j ==> !Contains(s, PortugueseMonths[i])) ==>
                        r == ReplaceFirst(s, PortugueseMonths[j], EnglishMonths[j])
    decreases 12 - k
  {
    if k == 12 then s
    else if Contains(s, PortugueseMonths[k]) then ReplaceFirst(s, PortugueseMonths[k], EnglishMonths[k])
    else SubstituteFrom(s, k + 1)
  }

  /** The loop over the month table: the first Portuguese name in table
      order that occurs anywhere is replaced, at its first occurrence, by
      the English name; without one the text is unchanged. */
  function SubstituteMonth(s: string): (r: string)
    ensures (forall j :: 0 <= j < 12 ==> !Contains(s, PortugueseMonths[j])) ==> r == s
    ensures forall j :: 0 <= j < 12 && Contains(s, PortugueseMonths[j]) &&
                        (forall i :: 0 <= i < j ==> !Contains(s, PortugueseMonths[i])) ==>
                        exists p :: OccursAt(s, PortugueseMonths[j], p) &&
                          (forall q :: 0 <= q < p ==> !OccursAt(s, PortugueseMonths[j], q)) &&
                          r == s[..p] + EnglishMonths[j] + s[p + |PortugueseMonths[j]|..]
  {
    SubstituteFrom(s, 0)
  }

  /** The text the patterns are matched against. */
  function Normalize(raw: string): string {
    SubstituteMonth(Trim(Lower(raw)))
  }

  // ---------------------------------------------------------------------
  // Pattern tokens

  /** A value read by a token and the text after it. */
  datatype Scan = Scan(value: nat, rest: string)

  /** A numeric token of at most `width` digits. */
  function ReadNumber(s: string, width: nat): Option<Scan> {
    var n := DigitRun(s);
    var k := if n < width then n else width;
    assert AllDigits(s[..k]) by {
      assert s[..k] == s[..n][..k];
    }
    if k == 0 then None else Some(Scan(DigitsValue(s[..k]), s[k..]))
  }

  /** A literal pattern character. */
  function ReadChar(s: string, c: char): Option<string> {
    if |s| > 0 && s[0] == c then Some(s[1..]) else None
  }

  predicate IsPrefix(p: string, s: string) {
    |p| <= |s| && s[..|p|] == p
  }

  /** The first entry from `k` on that `s` starts with. */
  function FirstPrefix(names: seq<string>, s: string, k: nat): (r: Option<nat>)
    ensures r.Some? ==> k <= r.value < |names| && IsPrefix(names[r.value], s)
    decreases |names| - k
  {
    if k >= |names| then None
    else if IsPrefix(names[k], s) then Some(k)
    else FirstPrefix(names, s, k + 1)
  }

  /** The `MMMM` token: month number 1..12. */
  function ReadMonthName(s: string): (r: Option<Scan>)
    ensures r.Some? ==> 1 <= r.value.value <= 12
  {
    match FirstPrefix(EnglishMonths, s, 0)
    case Some(i) => Some(Scan(i + 1, s[|EnglishMonths[i]|..]))
    case None =>
      match FirstPrefix(EnglishAbbreviations, s, 0)
      case Some(i) => Some(Scan(i + 1, s[|EnglishAbbreviations[i]|..]))
      case None =>
        if |s| > 0 then
          match IndexOf(NarrowMonths, [s[0]])
          case Some(i) => Some(Scan(i + 1, s[1..]))
          case None => None
        else None
  }

  /** The date a pattern read, if only white space is left after it, the
      year is positive and the day exists in the month. */
  function Finish(rest: string, year: nat, month: nat, day: nat): (r: Option<CalendarDate>)
    ensures r.Some? ==> r.value == Date(year, month, day) && year >= 1
  {
    if AllSpace(rest) && year >= 1 && ValidDate(Date(year, month, day)) then Some(Date(year, month, day))
    else None
  }

  /** Three numeric tokens of the given widths separated by `sep`. */
  function ReadThree(s: string, w1: nat, w2: nat, w3: nat, sep: char): Option<(nat, nat, nat, string)> {
    var a :- ReadNumber(s, w1);
    var s1 :- ReadChar(a.rest, sep);
    var b :- ReadNumber(s1, w2);
    var s2 :- ReadChar(b.rest, sep);
    var c :- ReadNumber(s2, w3);
    Some((a.value, b.value, c.value, c.rest))
  }

  // ---------------------------------------------------------------------
  // The four patterns, in the order they are tried

  /** `d MMMM yyyy`. */
  function ParseDayMonthNameYear(s: string): Option<CalendarDate> {
    var day :- ReadNumber(s, 2);
    var s1 :- ReadChar(day.rest, ' ');
    var month :- ReadMonthName(s1);
    var s2 :- ReadChar(month.rest, ' ');
    var year :- ReadNumber(s2, 4);
    Finish(year.rest, year.value, month.value, day.value)
  }

  /** `dd/MM/yyyy`. */
  function ParseDayMonthYear(s: string): Option<CalendarDate> {
    var t :- ReadThree(s, 2, 2, 4, '/');
    Finish(t.3, t.2, t.1, t.0)
  }

  /** `yyyy-MM-dd`. */
  function ParseYearMonthDay(s: string): Option<CalendarDate> {
    var t :- ReadThree(s, 4, 2, 2, '-');
    Finish(t.3, t.0, t.1, t.2)
  }

  /** `MM/dd/yyyy`. */
  function ParseMonthDayYear(s: string): Option<CalendarDate> {
    var t :- ReadThree(s, 2, 2, 4, '/');
    Finish(t.3, t.2, t.0, t.1)
  }

  /** The pattern cascade: the first pattern that yields a date wins. */
  function ParsePatterns(s: string): Option<CalendarDate> {
    var named := ParseDayMonthNameYear(s);
    if named.Some? then named else
    var dayFirst := ParseDayMonthYear(s);
    if dayFirst.Some? then dayFirst else
    var iso := ParseYearMonthDay(s);
    if iso.Some? then iso else
    ParseMonthDayYear(s)
  }

  /** `new Date(text)` followed by `isValid`: the engine's loose parser is
      the parameter `loose`; its answer counts only if it is a real date. */
  function Fallback(text: string, loose: string -> Option<Date>): Option<CalendarDate> {
    match loose(text)
    case Some(d) => if ValidDate(d) then Some(d) else None
    case None => None
  }

  /** `convertDate`. A falsy cell gives no date; otherwise the normalised
      text goes through the patterns and, failing them, the original text
      through the loose parser. */
  function ConvertDate(v: Cell, loose: string -> Option<Date>): (r: Option<CalendarDate>)
    ensures !Truthy(v) ==> r.None?
    ensures Truthy(v) && ParsePatterns(Normalize(v.text)).None? ==> r == Fallback(v.text, loose)
  {
    if !Truthy(v) then None
    else
      var parsed := ParsePatterns(Normalize(v.text));
      if parsed.Some? then parsed else Fallback(v.text, loose)
  }
}
