/**
 * String primitives the pipeline leans on, modelled after the JavaScript
 * built-ins it calls: `trim`, `toLowerCase`, `includes`, `replace` with a
 * string pattern (first occurrence only) and `replace` with a global regular
 * expression that deletes one character. Strings are `seq<char>`, sequences
 * of Unicode scalar values; the JavaScript strings are UTF-16 code units,
 * which differ only for characters outside the Basic Multilingual Plane.
 * None of the characters trimmed, searched for or lower-cased here lies
 * outside it, so the two views agree on every result the pipeline uses.
 */
module Text {

  /** An optional value; usable with `:-` to stop at the first `None`. */
  datatype Option<+T> = None | Some(value: T) {
    predicate IsFailure() {
      None?
    }

    function PropagateFailure<U>(): Option<U>
      requires None?
    {
      None
    }

    function Extract(): T
      requires Some?
    {
      value
    }
  }

  /** The characters `String.prototype.trim` removes: ECMAScript WhiteSpace
      (tab, vertical tab, form feed, space, no-break space, the byte order
      mark and the Unicode space separators) and LineTerminator. */
  predicate IsSpace(c: char) {
    var n := c as int;
    n == 0x09 || n == 0x0A || n == 0x0B || n == 0x0C || n == 0x0D || n == 0x20 ||
    n == 0xA0 || n == 0x1680 || (0x2000 <= n <= 0x200A) || n == 0x2028 ||
    n == 0x2029 || n == 0x202F || n == 0x205F || n == 0x3000 || n == 0xFEFF
  }

  predicate AllSpace(s: string) {
    forall i :: 0 <= i < |s| ==> IsSpace(s[i])
  }

  /** `toLowerCase` on one character. Only the Basic Latin and Latin-1
      upper-case letters are mapped, which covers every letter that appears
      in the month names and headers the pipeline matches. */
  function LowerChar(c: char): char {
    if 'A' <= c <= 'Z' then (c as int + 32) as char
    else if 0xC0 <= c as int <= 0xDE && c as int != 0xD7 then (c as int + 32) as char
    else c
  }

  function Lower(s: string): (r: string)
    ensures |r| == |s|
    ensures forall i :: 0 <= i < |s| ==> r[i] == LowerChar(s[i])
  {
    if |s| == 0 then [] else [LowerChar(s[0])] + Lower(s[1..])
  }

  /** The number of white-space characters `s` starts with. */
  function LeadingSpaces(s: string): (n: nat)
    ensures n <= |s|
    ensures forall i :: 0 <= i < n ==> IsSpace(s[i])
    ensures n < |s| ==> !IsSpace(s[n])
  {
    if |s| > 0 && IsSpace(s[0]) then 1 + LeadingSpaces(s[1..]) else 0
  }

  /** The number of white-space characters `s` ends with. */
  function TrailingSpaces(s: string): (n: nat)
    ensures n <= |s|
    ensures forall i :: |s| - n <= i < |s| ==> IsSpace(s[i])
    ensures n < |s| ==> !IsSpace(s[|s| - n - 1])
  {
    if |s| > 0 && IsSpace(s[|s| - 1]) then 1 + TrailingSpaces(s[..|s| - 1]) else 0
  }

  /** Drops the leading white space. */
  function TrimStart(s: string): (r: string)
    ensures |r| <= |s| && r == s[|s| - |r|..]
    ensures forall i :: 0 <= i < |s| - |r| ==> IsSpace(s[i])
    ensures |r| > 0 ==> !IsSpace(r[0])
  {
    s[LeadingSpaces(s)..]
  }

  /** Drops the trailing white space. */
  function TrimEnd(s: string): (r: string)
    ensures |r| <= |s| && r == s[..|r|]
    ensures forall i :: |r| <= i < |s| ==> IsSpace(s[i])
    ensures |r| > 0 ==> !IsSpace(r[|r| - 1])
  {
    s[..|s| - TrailingSpaces(s)]
  }

  /** `s` splits as white space, then `r` starting at `a`, then white space. */
  predicate TrimSplit(s: string, r: string, a: int) {
    0 <= a && a + |r| <= |s| && s[a..a + |r|] == r && AllSpace(s[..a]) && AllSpace(s[a + |r|..])
  }

  /** `String.prototype.trim`: the longest infix that neither starts nor
      ends with white space, everything cut off being white space. */
  function Trim(s: string): string {
    TrimEnd(TrimStart(s))
  }

  lemma TrimSpec(s: string)
    ensures var r := Trim(s);
            (|r| == 0 ==> AllSpace(s)) &&
            (|r| > 0 ==> !IsSpace(r[0]) && !IsSpace(r[|r| - 1])) &&
            exists a :: TrimSplit(s, r, a)
  {
    var t := TrimStart(s);
    TrimParts(s, t, Trim(s));
  }

  lemma TrimParts(s: string, t: string, r: string)
    requires t == TrimStart(s) && r == TrimEnd(t)
    ensures TrimSplit(s, r, |s| - |t|)
    ensures |r| == 0 ==> AllSpace(s)
  {
    var a := |s| - |t|;
    LeadingSpace(s, t);
    TrailingSpace(t, r);
    ComposeSplit(s, t, r, a);
  }

  lemma LeadingSpace(s: string, t: string)
    requires t == TrimStart(s)
    ensures AllSpace(s[..|s| - |t|]) && s[|s| - |t|..] == t
  {
    PrefixAllSpace(s, |s| - |t|);
  }

  lemma PrefixAllSpace(s: string, a: int)
    requires 0 <= a <= |s| && forall i :: 0 <= i < a ==> IsSpace(s[i])
    ensures AllSpace(s[..a])
  {
    forall i | 0 <= i < a ensures IsSpace(s[..a][i]) {
      assert s[..a][i] == s[i];
    }
  }

  lemma TrailingSpace(t: string, r: string)
    requires r == TrimEnd(t)
    ensures AllSpace(t[|r|..]) && t[..|r|] == r
  {
    forall i | 0 <= i < |t| - |r| ensures IsSpace(t[|r|..][i]) {
      assert t[|r|..][i] == t[|r| + i];
    }
  }

  lemma ComposeSplit(s: string, t: string, r: string, a: int)
    requires 0 <= a <= |s| && s[a..] == t && |r| <= |t| && t[..|r|] == r
    requires AllSpace(s[..a]) && AllSpace(t[|r|..])
    ensures TrimSplit(s, r, a)
    ensures |r| == 0 ==> AllSpace(s)
  {
    assert s[a..a + |r|] == t[..|r|];
    assert s[a + |r|..] == t[|r|..];
    if |r| == 0 {
      AllSpaceJoin(s, a);
    }
  }

  lemma AllSpaceJoin(s: string, a: int)
    requires 0 <= a <= |s| && AllSpace(s[..a]) && AllSpace(s[a..])
    ensures AllSpace(s)
  {
    forall i | 0 <= i < |s| ensures IsSpace(s[i]) {
      if i < a {
        assert s[i] == s[..a][i];
      } else {
        assert s[i] == s[a..][i - a];
      }
    }
  }

  /** Trimming an already trimmed string changes nothing. */
  lemma TrimIdempotent(s: string)
    ensures Trim(Trim(s)) == Trim(s)
  {
    TrimSpec(s);
    TrimOfTrimmed(Trim(s));
  }

  /** A string with no white space at either end is its own trim. */
  lemma TrimOfTrimmed(s: string)
    requires |s| > 0 ==> !IsSpace(s[0]) && !IsSpace(s[|s| - 1])
    ensures Trim(s) == s
  {
    if |s| > 0 {
      assert LeadingSpaces(s) == 0;
      assert TrimStart(s) == s;
      assert TrailingSpaces(s) == 0;
    }
  }

  predicate OccursAt(s: string, p: string, j: int) {
    0 <= j && j + |p| <= |s| && s[j..j + |p|] == p
  }

  /** `s.includes(p)`. */
  predicate Contains(s: string, p: string) {
    exists j | 0 <= j <= |s| :: OccursAt(s, p, j)
  }

  /** The first position at or after `from` where `p` occurs in `s`. */
  function IndexFrom(s: string, p: string, from: nat): (r: Option<nat>)
    ensures r.Some? ==> from <= r.value && OccursAt(s, p, r.value)
    ensures r.Some? ==> forall j :: from <= j < r.value ==> !OccursAt(s, p, j)
    ensures r.None? ==> forall j :: from <= j ==> !OccursAt(s, p, j)
    decreases |s| - from
  {
    if from + |p| > |s| then None
    else if s[from..from + |p|] == p then Some(from)
    else IndexFrom(s, p, from + 1)
  }

  /** `s.indexOf(p)`, with `None` for -1. */
  function IndexOf(s: string, p: string): (r: Option<nat>)
    ensures r.Some? <==> Contains(s, p)
    ensures r.Some? ==> OccursAt(s, p, r.value) && forall j :: 0 <= j < r.value ==> !OccursAt(s, p, j)
  {
    IndexFrom(s, p, 0)
  }

  /** `s.replace(p, rep)` with a string pattern: only the first occurrence of
      `p` is replaced; without one the string is returned unchanged. */
  function ReplaceFirst(s: string, p: string, rep: string): (r: string)
    ensures !Contains(s, p) ==> r == s
    ensures Contains(s, p) ==>
      (exists i :: OccursAt(s, p, i) &&
         (forall j :: 0 <= j < i ==> !OccursAt(s, p, j)) &&
         r == s[..i] + rep + s[i + |p|..])
  {
    match IndexOf(s, p)
    case None => s
    case Some(i) => s[..i] + rep + s[i + |p|..]
  }

  /** `s.replace(/c/g, '')`: every occurrence of `c` deleted, the other
      characters kept in order. */
  function RemoveAll(s: string, c: char): string {
    if |s| == 0 then []
    else if s[0] == c then RemoveAll(s[1..], c) else [s[0]] + RemoveAll(s[1..], c)
  }

  /** `RemoveAll` leaves no `c` behind and keeps every other character with
      its multiplicity. */
  lemma {:induction false} RemoveAllCounts(s: string, c: char)
    ensures c !in RemoveAll(s, c)
    ensures multiset(RemoveAll(s, c)) == multiset(s)[c := 0]
  {
    if |s| > 0 {
      assert s == [s[0]] + s[1..];
      RemoveAllCounts(s[1..], c);
    }
  }

  lemma {:induction false} RemoveAllAppend(a: string, b: string, c: char)
    ensures RemoveAll(a + b, c) == RemoveAll(a, c) + RemoveAll(b, c)
  {
    if |a| == 0 {
      assert a + b == b;
    } else {
      assert (a + b)[1..] == a[1..] + b;
      RemoveAllAppend(a[1..], b, c);
    }
  }

  /** A string without `c` is left alone. */
  lemma {:induction false} RemoveAllAbsent(s: string, c: char)
    requires c !in s
    ensures RemoveAll(s, c) == s
  {
    if |s| > 0 {
      RemoveAllAbsent(s[1..], c);
    }
  }

  // ---------------------------------------------------------------------
  // Decimal digits

  predicate IsDigit(c: char) {
    '0' <= c <= '9'
  }

  predicate AllDigits(s: string) {
    forall i :: 0 <= i < |s| ==> IsDigit(s[i])
  }

  function DigitValue(c: char): nat
    requires IsDigit(c)
  {
    (c as int - '0' as int) as nat
  }

  function DigitChar(n: nat): (c: char)
    requires n < 10
    ensures IsDigit(c) && DigitValue(c) == n
  {
    ('0' as int + n) as char
  }

  /** The length of the run of digits at the start of `s`. */
  function DigitRun(s: string): (n: nat)
    ensures n <= |s| && AllDigits(s[..n])
    ensures n < |s| ==> !IsDigit(s[n])
  {
    if |s| > 0 && IsDigit(s[0]) then
      var k := DigitRun(s[1..]);
      assert s[..1 + k] == [s[0]] + s[1..][..k];
      1 + k
    else 0
  }

  /** The number a string of decimal digits denotes, most significant first. */
  function DigitsValue(s: string): nat
    requires AllDigits(s)
  {
    if |s| == 0 then 0 else 10 * DigitsValue(s[..|s| - 1]) + DigitValue(s[|s| - 1])
  }

  function Pow10(k: nat): (r: nat)
    ensures r >= 1
  {
    if k == 0 then 1 else 10 * Pow10(k - 1)
  }

  /** The digits of `n` without leading zeros ("0" for zero). */
  function NatToDigits(n: nat): (r: string)
    ensures |r| >= 1 && AllDigits(r)
    ensures DigitsValue(r) == n
    ensures n < Pow10(|r|)
    ensures |r| > 1 ==> Pow10(|r| - 1) <= n
  {
    if n < 10 then [DigitChar(n)]
    else
      var r := NatToDigits(n / 10) + [DigitChar(n % 10)];
      assert r[..|r| - 1] == NatToDigits(n / 10);
      r
  }

  /** `n` written with at least `width` digits, padded with leading zeros. */
  function PadDigits(n: nat, width: nat): (r: string)
    ensures AllDigits(r) && DigitsValue(r) == n
    ensures |r| == if |NatToDigits(n)| >= width then |NatToDigits(n)| else width
  {
    var d := NatToDigits(n);
    if |d| >= width then d else ZeroPadded(d, width - |d|)
  }

  function Zeros(k: nat): (r: string)
    ensures |r| == k && AllDigits(r) && DigitsValue(r) == 0
  {
    if k == 0 then [] else
      var r := Zeros(k - 1) + ['0'];
      assert r[..|r| - 1] == Zeros(k - 1);
      r
  }

  function ZeroPadded(d: string, k: nat): (r: string)
    requires AllDigits(d)
    ensures |r| == |d| + k && AllDigits(r) && DigitsValue(r) == DigitsValue(d)
  {
    LeadingZerosValue(Zeros(k), d);
    Zeros(k) + d
  }

  lemma {:induction false} LeadingZerosValue(z: string, d: string)
    requires AllDigits(z) && DigitsValue(z) == 0 && AllDigits(d)
    ensures AllDigits(z + d) && DigitsValue(z + d) == DigitsValue(d)
  {
    if |d| > 0 {
      var e := d[..|d| - 1];
      assert (z + d)[..|z + d| - 1] == z + e;
      LeadingZerosValue(z, e);
    } else {
      assert z + d == z;
    }
  }

  /** A value below 10^k needs at most k digits. */
  lemma {:induction false} DigitsFit(n: nat, k: nat)
    requires k >= 1
    ensures n < Pow10(k) ==> |NatToDigits(n)| <= k
  {
    var d := NatToDigits(n);
    if n < Pow10(k) && |d| > k {
      Pow10Monotone(k, |d| - 1);
      assert false;
    }
  }

  lemma {:induction false} Pow10Monotone(a: nat, b: nat)
    requires a <= b
    ensures Pow10(a) <= Pow10(b)
    decreases b
  {
    if a < b {
      Pow10Monotone(a, b - 1);
    }
  }

  /** The digit run of `a + b` is exactly `a` when `a` is all digits and
      `b` does not start with one. */
  lemma {:induction false} DigitRunAppend(a: string, b: string)
    requires AllDigits(a) && (|b| > 0 ==> !IsDigit(b[0]))
    ensures DigitRun(a + b) == |a|
  {
    if |a| > 0 {
      assert (a + b)[1..] == a[1..] + b;
      DigitRunAppend(a[1..], b);
    } else {
      assert a + b == b;
    }
  }

  /** A digit run is at least as long as any all-digit prefix. */
  lemma {:induction false} DigitRunCovers(a: string, b: string)
    requires AllDigits(a)
    ensures DigitRun(a + b) >= |a|
  {
    if |a| > 0 {
      assert (a + b)[1..] == a[1..] + b;
      DigitRunCovers(a[1..], b);
    }
  }
}
