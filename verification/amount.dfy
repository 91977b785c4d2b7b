/**
 * The amount normaliser for the `Contas a receber` column: a falsy cell
 * reads as "0"; otherwise the first "BRL " is removed, every "." is
 * deleted, the first "," becomes ".", `parseFloat` reads a numeric prefix
 * (`|| 0` turns a failed parse into 0), and the value is divided by 100.
 * Amounts are exact reals.
 */
module Amount {
  import opened Text
  import opened Cells

  const CurrencyPrefix: string := "BRL "

  /** The unsigned decimal literal at the start of `u`: digits, and an
      optional point with more digits; at least one digit must be read. */
  function ReadUnsigned(u: string): (r: Option<real>)
    ensures r.Some? ==> r.value >= 0.0
  {
    var i := DigitRun(u);
    var hasPoint := i < |u| && u[i] == '.';
    var f := if hasPoint then DigitRun(u[i + 1..]) else 0;
    var fraction := if hasPoint then u[i + 1..][..f] else "";
    if i == 0 && f == 0 then None else Some(DecimalValue(u[..i], fraction))
  }

  /** The value of the literal `whole.fraction`. */
  function DecimalValue(whole: string, fraction: string): (v: real)
    requires AllDigits(whole) && AllDigits(fraction)
    ensures v >= 0.0
  {
    DigitsValue(whole) as real + DigitsValue(fraction) as real / Pow10(|fraction|) as real
  }

  /** `parseFloat` restricted to its decimal form: leading white space is
      skipped, then an optional sign and an unsigned literal. `None` stands
      for NaN. */
  function ParseFloatPrefix(s: string): Option<real> {
    ReadSigned(TrimStart(s))
  }

  /** An optional sign and an unsigned literal at the start of `t`. */
  function ReadSigned(t: string): Option<real> {
    var signed := |t| > 0 && (t[0] == '-' || t[0] == '+');
    var u := if signed then t[1..] else t;
    match ReadUnsigned(u)
    case None => None
    case Some(v) => Some(if signed && t[0] == '-' then -v else v)
  }

  /** The string handed to `parseFloat`. */
  function AmountText(c: Cell): string {
    var stripped := if Truthy(c) then ReplaceFirst(c.text, CurrencyPrefix, "") else "0";
    ReplaceFirst(RemoveAll(stripped, '.'), ",", ".")
  }

  /** The cleaned `Contas a receber` value: the parsed number (0 when it
      does not parse), divided by 100. */
  function NormalizeAmount(c: Cell): real {
    var parsed := ParseFloatPrefix(AmountText(c));
    var n := if parsed.Some? then parsed.value else 0.0;
    n / 100.0
  }

  /** An empty or missing amount is read as the text "0", hence 0. */
  lemma FalsyAmountIsZero(c: Cell)
    requires !Truthy(c)
    ensures NormalizeAmount(c) == 0.0
  {
    FalsyText(c);
    ParseZero();
  }

  lemma FalsyText(c: Cell)
    requires !Truthy(c)
    ensures AmountText(c) == "0"
  {
    ZeroText();
  }

  lemma ZeroText()
    ensures ReplaceFirst(RemoveAll("0", '.'), ",", ".") == "0"
  {
    RemoveAllAbsent("0", '.');
    assert !OccursAt("0", ",", 0);
  }

  lemma ParseZero()
    ensures ParseFloatPrefix("0") == Some(0.0)
  {
    assert LeadingSpaces("0") == 0;
    assert TrimStart("0") == "0";
    assert ReadUnsigned("0") == Some(0.0) by {
      assert DigitRun("0") == 1;
      assert "0"[..1] == "0";
      assert DigitsValue("0") == 0;
    }
  }

  /** `parseFloat` of a text without a digit is NaN. */
  lemma NoDigitNoNumber(s: string)
    requires forall i :: 0 <= i < |s| ==> !IsDigit(s[i])
    ensures ParseFloatPrefix(s).None?
  {
    var t := TrimStart(s);
    SuffixHasNoDigit(s, |s| - |t|);
    var signed := |t| > 0 && (t[0] == '-' || t[0] == '+');
    var u := if signed then t[1..] else t;
    if signed {
      SuffixHasNoDigit(t, 1);
    }
    UnsignedNeedsDigit(u);
  }

  lemma SuffixHasNoDigit(s: string, k: nat)
    requires k <= |s| && forall i :: 0 <= i < |s| ==> !IsDigit(s[i])
    ensures forall i :: 0 <= i < |s[k..]| ==> !IsDigit(s[k..][i])
  {
    forall i | 0 <= i < |s[k..]| ensures !IsDigit(s[k..][i]) {
      assert s[k..][i] == s[k + i];
    }
  }

  lemma UnsignedNeedsDigit(u: string)
    requires forall i :: 0 <= i < |u| ==> !IsDigit(u[i])
    ensures ReadUnsigned(u).None?
  {
    assert DigitRun(u) == 0 by {
      if |u| > 0 {
        assert !IsDigit(u[0]);
      }
    }
    if 0 < |u| && u[0] == '.' {
      assert |u[1..]| > 0 ==> u[1..][0] == u[1];
    }
  }

  /** An amount whose text, once cleaned, holds no digit reads as 0 (the
      `|| 0` of the source). */
  lemma DigitlessAmountIsZero(c: Cell)
    requires forall i :: 0 <= i < |AmountText(c)| ==> !IsDigit(AmountText(c)[i])
    ensures NormalizeAmount(c) == 0.0
  {
    NoDigitNoNumber(AmountText(c));
  }

  /** Removing the dots from digits and dots leaves digits. */
  lemma RemoveDotsLeavesDigits(g: string)
    requires forall i :: 0 <= i < |g| ==> IsDigit(g[i]) || g[i] == '.'
    ensures AllDigits(RemoveAll(g, '.'))
  {
    var r := RemoveAll(g, '.');
    RemoveAllCounts(g, '.');
    forall i | 0 <= i < |r| ensures IsDigit(r[i]) {
      assert r[i] in multiset(r);
      assert r[i] in multiset(g);
    }
  }

  /** The unsigned literal `digits.fraction`. */
  lemma ReadDecimal(dd: string, f: string)
    requires AllDigits(dd) && AllDigits(f) && |dd| + |f| >= 1
    ensures ReadUnsigned(dd + "." + f) == Some(DecimalValue(dd, f))
  {
    var u := dd + "." + f;
    assert DigitRun(u) == |dd| by {
      assert u == dd + ("." + f);
      DigitRunAppend(dd, "." + f);
    }
    assert u[|dd|] == '.';
    assert u[|dd| + 1..] == f;
    assert DigitRun(f) == |f| by {
      assert f == f + "";
      DigitRunAppend(f, "");
    }
    assert u[..|dd|] == dd;
    assert f[..|f|] == f;
    assert u[|dd| + 1..][..|f|] == f;
    assert |dd| != 0 || |f| != 0;
  }

  /** `parseFloat` of `sign digits.fraction`. */
  lemma ParseDecimal(sign: string, dd: string, f: string)
    requires sign == "" || sign == "-"
    requires AllDigits(dd) && AllDigits(f) && |dd| + |f| >= 1
    ensures ParseFloatPrefix(sign + dd + "." + f) == Some(Signed(sign, DecimalValue(dd, f)))
  {
    var u := dd + "." + f;
    ReadDecimal(dd, f);
    assert |u| > 0 && !IsSpace(u[0]) && u[0] != '-' && u[0] != '+' by {
      if |dd| > 0 {
        assert u[0] == dd[0];
      } else {
        assert u[0] == '.';
      }
    }
    assert sign + dd + "." + f == sign + u;
    ParseSigned(sign, u);
  }

  /** A sign in front of an unsigned literal that starts the text. */
  lemma ParseSigned(sign: string, u: string)
    requires sign == "" || sign == "-"
    requires |u| > 0 && !IsSpace(u[0]) && u[0] != '-' && u[0] != '+'
    requires ReadUnsigned(u).Some?
    ensures ParseFloatPrefix(sign + u) == Some(Signed(sign, ReadUnsigned(u).value))
  {
    if sign == "-" {
      var x := sign + u;
      assert x[0] == '-' && x[1..] == u;
      TrimStartTight(x);
      ParseAfterMinus(x, ReadUnsigned(u).value);
    } else {
      assert sign + u == u;
      TrimStartTight(u);
      ParseUnsignedStart(u);
    }
  }

  lemma TrimStartTight(s: string)
    requires |s| > 0 && !IsSpace(s[0])
    ensures TrimStart(s) == s
  {
    assert LeadingSpaces(s) == 0;
  }

  lemma ParseAfterMinus(x: string, v: real)
    requires |x| > 0 && x[0] == '-' && ReadUnsigned(x[1..]) == Some(v)
    ensures ReadSigned(x) == Some(-v)
  {
  }

  lemma ParseUnsignedStart(u: string)
    requires |u| > 0 && u[0] != '-' && u[0] != '+'
    ensures ReadSigned(u) == ReadUnsigned(u)
  {
  }

  function Signed(sign: string, v: real): real {
    if sign == "-" then -v else v
  }

  /** Removing the first `BRL ` from a text that starts with it. */
  lemma StripPrefix(rest: string)
    ensures ReplaceFirst(CurrencyPrefix + rest, CurrencyPrefix, "") == rest
  {
    var text := CurrencyPrefix + rest;
    assert OccursAt(text, CurrencyPrefix, 0);
    assert text[4..] == rest;
  }

  /** Deleting the dots of `sign groups , cents` deletes those of the groups. */
  lemma RemoveGroupDots(sign: string, g: string, dd: string, f: string)
    requires '.' !in sign && '.' !in f
    requires RemoveAll(g, '.') == dd
    ensures RemoveAll(sign + g + "," + f, '.') == sign + dd + "," + f
  {
    RemoveAllAppend(sign + g + ",", f, '.');
    RemoveAllAppend(sign + g, ",", '.');
    RemoveAllAppend(sign, g, '.');
    RemoveAllAbsent(sign, '.');
    RemoveAllAbsent(",", '.');
    RemoveAllAbsent(f, '.');
  }

  /** The first comma of `a , f`, when `a` has none, becomes the point. */
  lemma CommaToPoint(a: string, f: string)
    requires ',' !in a
    ensures ReplaceFirst(a + "," + f, ",", ".") == a + "." + f
  {
    var y := a + "," + f;
    var p := |a|;
    assert OccursAt(y, ",", p);
    forall j | 0 <= j < p ensures !OccursAt(y, ",", j) {
      assert y[j] == a[j];
      assert y[j..j + 1][0] == y[j];
    }
    assert y[..p] == a;
    assert y[p + 1..] == f;
  }

  lemma DigitsHaveNoSeparator(f: string)
    requires AllDigits(f)
    ensures '.' !in f && ',' !in f
  {
    forall i | 0 <= i < |f| ensures f[i] != '.' && f[i] != ',' {
      assert IsDigit(f[i]);
    }
  }

  /** The cleaned amount of a pt-BR currency text: `BRL`, an optional minus,
      digits grouped by dots, a comma and the cents is the number those
      digits spell, divided by 100. `BRL 1.234,56` gives 12.3456 and
      `BRL -500,00` gives -5. */
  lemma CurrencyTextAmount(sign: string, g: string, dd: string, f: string)
    requires sign == "" || sign == "-"
    requires RemoveAll(g, '.') == dd && AllDigits(dd)
    requires AllDigits(f) && |dd| + |f| >= 1
    ensures NormalizeAmount(Str(CurrencyPrefix + sign + g + "," + f)) ==
            Signed(sign, DecimalValue(dd, f)) / 100.0
  {
    CurrencyText(sign, g, dd, f);
    ParseDecimal(sign, dd, f);
  }

  /** The text `parseFloat` receives for a pt-BR currency text. */
  lemma CurrencyText(sign: string, g: string, dd: string, f: string)
    requires sign == "" || sign == "-"
    requires RemoveAll(g, '.') == dd && AllDigits(dd) && AllDigits(f)
    ensures AmountText(Str(CurrencyPrefix + sign + g + "," + f)) == sign + dd + "." + f
  {
    var rest := sign + g + "," + f;
    assert CurrencyPrefix + sign + g + "," + f == CurrencyPrefix + rest by {
      JoinAssoc(CurrencyPrefix, sign, g, ",", f);
    }
    StripPrefix(rest);
    DigitsHaveNoSeparator(f);
    DigitsHaveNoSeparator(dd);
    RemoveGroupDots(sign, g, dd, f);
    assert ',' !in sign + dd;
    CommaToPoint(sign + dd, f);
  }

  lemma JoinAssoc(a: string, b: string, c: string, d: string, e: string)
    ensures a + b + c + d + e == a + (b + c + d + e)
  {
  }

  /** One thousands separator between two dot-free parts is dropped. */
  lemma DropSeparator(a: string, b: string)
    requires '.' !in a && '.' !in b
    ensures RemoveAll(a + "." + b, '.') == a + b
  {
    assert "." == ['.'];
    DropChar(a, b, '.');
  }

  /** Removing a thousands separator joins the digit groups around it into
      one number: the left group shifted past the right one, plus the right. */
  lemma GroupedDigitsValue(a: string, b: string)
    requires AllDigits(a) && AllDigits(b)
    ensures AllDigits(RemoveAll(a + "." + b, '.'))
    ensures DigitsValue(RemoveAll(a + "." + b, '.')) == DigitsValue(a) * Pow10(|b|) + DigitsValue(b)
  {
    DropSeparator(a, b);
    DigitsValueAppend(a, b);
  }

  /** The value of two digit strings written one after the other. */
  lemma {:induction false} DigitsValueAppend(a: string, b: string)
    requires AllDigits(a) && AllDigits(b)
    ensures AllDigits(a + b)
    ensures DigitsValue(a + b) == DigitsValue(a) * Pow10(|b|) + DigitsValue(b)
    decreases |b|
  {
    if |b| == 0 {
      assert a + b == a;
    } else {
      var n := |b|;
      var front, c := b[..n - 1], b[n - 1];
      var ab := a + b;
      assert ab[..|ab| - 1] == a + front && ab[|ab| - 1] == c;
      DigitsValueAppend(a, front);
      ShiftStep(DigitsValue(a), Pow10(n - 1), DigitsValue(front), DigitValue(c));
    }
  }

  lemma ShiftStep(x: nat, p: nat, y: nat, c: nat)
    ensures 10 * (x * p + y) + c == x * (10 * p) + (10 * y + c)
  {
  }

  lemma DropChar(a: string, b: string, c: char)
    requires c !in a && c !in b
    ensures RemoveAll(a + [c] + b, c) == a + b
  {
    var x := a + [c];
    assert RemoveAll(x, c) == a by {
      RemoveAllAppend(a, [c], c);
      RemoveAllAbsent(a, c);
      RemoveAllSingle(c);
    }
    RemoveAllAppend(x, b, c);
    RemoveAllAbsent(b, c);
  }

  lemma RemoveAllSingle(c: char)
    ensures RemoveAll([c], c) == []
  {
    assert [c][1..] == [];
  }

  /** `BRL 1.234,56`, the thousands-grouped form, is 12.3456 once divided
      by 100. */
  lemma GroupedAmountExample()
    ensures NormalizeAmount(Str("BRL 1.234,56")) == 12.3456
  {
    assert "BRL 1.234,56" == CurrencyPrefix + "" + "1.234" + "," + "56";
    assert "1" + "." + "234" == "1.234";
    assert "1" + "234" == "1234";
    DropSeparator("1", "234");
    GroupedValue();
    CurrencyTextAmount("", "1.234", "1234", "56");
    assert NormalizeAmount(Str(CurrencyPrefix + "" + "1.234" + "," + "56")) == 1234.56 / 100.0;
  }

  /** `BRL -500,00` is -5. */
  lemma NegativeAmountExample()
    ensures NormalizeAmount(Str("BRL -500,00")) == -5.0
  {
    assert "BRL -500,00" == CurrencyPrefix + "-" + "500" + "," + "00";
    assert DigitsValue("500") == 500 by {
      assert "500"[..2] == "50" && "50"[..1] == "5" && "5"[..0] == "";
    }
    assert DigitsValue("00") == 0 by {
      assert "00"[..1] == "0" && "0"[..0] == "";
    }
    RemoveAllAbsent("500", '.');
    assert DecimalValue("500", "00") == 500.0;
    CurrencyTextAmount("-", "500", "500", "00");
    assert NormalizeAmount(Str(CurrencyPrefix + "-" + "500" + "," + "00")) == -500.0 / 100.0;
  }

  /** `BRL 10.000,00` is 100. */
  lemma LargeAmountExample()
    ensures NormalizeAmount(Str("BRL 10.000,00")) == 100.0
  {
    assert "BRL 10.000,00" == CurrencyPrefix + "" + "10.000" + "," + "00";
    assert "10" + "." + "000" == "10.000";
    assert "10" + "000" == "10000";
    DropSeparator("10", "000");
    LargeValue();
    CurrencyTextAmount("", "10.000", "10000", "00");
    assert NormalizeAmount(Str(CurrencyPrefix + "" + "10.000" + "," + "00")) == 10000.0 / 100.0;
  }

  lemma GroupedValue()
    ensures DecimalValue("1234", "56") == 1234.56
  {
    assert DigitsValue("1234") == 1234 by {
      assert "1234"[..3] == "123" && "123"[..2] == "12" && "12"[..1] == "1" && "1"[..0] == "";
    }
    assert DigitsValue("56") == 56 by {
      assert "56"[..1] == "5" && "5"[..0] == "";
    }
    assert Pow10(|"56"|) == 100;
  }

  lemma LargeValue()
    ensures DecimalValue("10000", "00") == 10000.0
  {
    assert DigitsValue("10000") == 10000 by {
      assert "10000"[..4] == "1000" && "1000"[..3] == "100" && "100"[..2] == "10";
      assert "10"[..1] == "1" && "1"[..0] == "";
    }
    assert DigitsValue("00") == 0 by {
      assert "00"[..1] == "0" && "0"[..0] == "";
    }
  }

}
