/**
 * What the cell conversions of importer/parser.py promise: `int()` reads
 * back what `str()` wrote, `parse_currency` reads back any amount written
 * the Brazilian way, and the examples the parser's tests name.
 */
module ConversionLemmas {
  import opened Text
  import opened Models
  import opened Conversions

  // ------------------------------------------------------------ parse_sold

  /** `int(str(n)) == n`. */
  lemma ParseSoldReadsRendering(n: int)
    ensures ParseSold(Str(IntToString(n))) == Some(n)
  {
    var s := IntToString(n);
    if n < 0 {
      DigitsValueOfNatToString(-n);
      assert s[1..] == NatToString(-n);
    } else {
      DigitsValueOfNatToString(n);
    }
  }

  /** `int('a')` raises. */
  lemma ParseSoldRejectsLetter()
    ensures ParseSold(Str("a")).None?
  {
    assert !IsDigit('a');
  }

  /** A sign alone is no integer literal either. */
  lemma ParseSoldRejectsBareSign()
    ensures ParseSold(Str("-")).None? && ParseSold(Str("+")).None?
  {
  }

  // ------------------------------------------------ parse_currency helpers

  lemma {:induction false} GroupThousandsShape(d: string)
    requires AllDigits(d) && |d| > 0
    ensures var g := GroupThousands(d);
      |g| > 0 && IsDigit(g[0]) && IsDigit(g[|g| - 1]) &&
      forall k :: 0 <= k < |g| ==> IsDigit(g[k]) || g[k] == '.'
    decreases |d|
  {
    if |d| > 3 {
      var front := d[..|d| - 3];
      assert AllDigits(front) by {
        forall k | 0 <= k < |front| ensures IsDigit(front[k]) { assert front[k] == d[k]; }
      }
      GroupThousandsShape(front);
      var g := GroupThousands(d);
      var back := d[|d| - 3..];
      assert g == GroupThousands(front) + "." + back;
      forall k | 0 <= k < |g| ensures IsDigit(g[k]) || g[k] == '.' {
        var gf := GroupThousands(front);
        if k < |gf| {
          assert g[k] == gf[k];
        } else if k > |gf| {
          assert g[k] == back[k - |gf| - 1] == d[|d| - 3 + k - |gf| - 1];
        }
      }
      assert g[|g| - 1] == d[|d| - 1];
    }
  }

  /** Deleting the thousands separators from a grouped number gives its digits back. */
  lemma {:induction false} UngroupThousands(d: string)
    requires AllDigits(d)
    ensures RemoveChar(GroupThousands(d), '.') == d
    decreases |d|
  {
    if |d| <= 3 {
      NonDigitAbsent(d, '.');
      RemoveCharAbsent(d, '.');
    } else {
      var front, back := d[..|d| - 3], d[|d| - 3..];
      AllDigitsSlice(d, 0, |d| - 3);
      AllDigitsSlice(d, |d| - 3, |d|);
      NonDigitAbsent(back, '.');
      UngroupThousands(front);
      assert GroupThousands(d) == GroupThousands(front) + ['.'] + back;
      RemoveCharAround(GroupThousands(front), '.', back);
      assert front + back == d;
    }
  }

  /** Once the text splits at its one ',' into two digit strings, it reads as reais and centavos. */
  lemma ParseUnsignedDecimalOfSplit(body: string, digits: string, fraction: string)
    requires AllDigits(digits) && |digits| > 0 && AllDigits(fraction) && |fraction| == 2
    requires Split(body, ',') == [digits, fraction]
    ensures ParseUnsignedDecimal(body) == Some(DigitsValue(digits) * 100 + FractionCents(fraction))
  {
  }

  /** `digits + "," + fraction` reads as the digits' value in reais plus the fraction in centavos. */
  lemma ParseUnsignedDecimalOfParts(digits: string, fraction: string)
    requires AllDigits(digits) && |digits| > 0 && AllDigits(fraction) && |fraction| == 2
    ensures ParseUnsignedDecimal(digits + "," + fraction)
      == Some(DigitsValue(digits) * 100 + FractionCents(fraction))
  {
    NonDigitAbsent(digits, ',');
    NonDigitAbsent(fraction, ',');
    SplitTwo(digits, ',', fraction);
    assert digits + "," + fraction == digits + [','] + fraction;
    ParseUnsignedDecimalOfSplit(digits + "," + fraction, digits, fraction);
  }

  lemma FractionCentsOfTwoDigits(r: nat)
    requires r < 100
    ensures FractionCents(TwoDigits(r)) == r
  {
  }

  /** "q,rr" with `q` written by `str()` and `rr` two digits reads as `100 * q + r` centavos. */
  lemma ParseUnsignedDecimalOfAmount(q: nat, r: nat)
    requires r < 100
    ensures ParseUnsignedDecimal(NatToString(q) + "," + TwoDigits(r)) == Some(100 * q + r)
  {
    ParseUnsignedDecimalOfParts(NatToString(q), TwoDigits(r));
    DigitsValueOfNatToString(q);
    FractionCentsOfTwoDigits(r);
  }

  /** A '-' in front negates what the unsigned parse reads. */
  lemma ParseDecimalNegative(body: string)
    requires ParseUnsignedDecimal(body).Some?
    ensures ParseDecimal("-" + body) == Some(-(ParseUnsignedDecimal(body).value as int))
  {
    assert ("-" + body)[1..] == body;
  }

  /** Text starting with a digit is read by the unsigned parse alone. */
  lemma ParseDecimalUnsigned(body: string)
    requires |body| > 0 && IsDigit(body[0]) && ParseUnsignedDecimal(body).Some?
    ensures ParseDecimal(body) == Some(ParseUnsignedDecimal(body).value as int)
  {
  }

  /** The sign in front of an unsigned decimal decides the sign of the result. */
  lemma ParseDecimalSigned(negative: bool, body: string, v: nat)
    requires ParseUnsignedDecimal(body) == Some(v)
    requires !negative ==> |body| > 0 && IsDigit(body[0])
    ensures ParseDecimal((if negative then "-" else "") + body) == Some(if negative then -(v as int) else v)
  {
    if negative {
      ParseDecimalNegative(body);
    } else {
      assert "" + body == body;
      ParseDecimalUnsigned(body);
    }
  }

  /** What `parse_currency` hands on for a cell that is not a float decides its result. */
  lemma ParseCurrencyOfText(c: Cell, v: int)
    requires !c.Amount? && ParseDecimal(Normalize(Stringify(c))) == Some(v)
    ensures ParseCurrency(c) == Some(Brl(v))
  {
  }

  // ------------------------------------------------------ parse_currency

  /** An amount in pt_BR digits with neither the currency symbol nor thousands separators: "-1234,56". */
  function PlainBrl(m: Money): string
  {
    var magnitude := if m.cents < 0 then -m.cents else m.cents;
    (if m.cents < 0 then "-" else "") + (NatToString(magnitude / 100) + "," + TwoDigits(magnitude % 100))
  }

  /** The amount as `FormatBrl` writes it after the symbol and the blank: "-1.234,56". */
  function GroupedBrl(m: Money): string
  {
    var magnitude := if m.cents < 0 then -m.cents else m.cents;
    (if m.cents < 0 then "-" else "") + GroupThousands(NatToString(magnitude / 100)) + "," + TwoDigits(magnitude % 100)
  }

  /** The grouped text holds digits, '.', ',' and a leading '-' only, and ends on digits. */
  lemma GroupedBrlShape(m: Money)
    ensures var g := GroupedBrl(m);
      |g| > 0 && (g[0] == '-' || IsDigit(g[0])) && IsDigit(g[|g| - 1]) && 'R' !in g
  {
    var magnitude := if m.cents < 0 then -m.cents else m.cents;
    var sign := if m.cents < 0 then "-" else "";
    var grouped := GroupThousands(NatToString(magnitude / 100));
    var ff := TwoDigits(magnitude % 100);
    var g := GroupedBrl(m);
    GroupThousandsShape(NatToString(magnitude / 100));
    assert g == sign + grouped + "," + ff;
    forall k | 0 <= k < |g| ensures g[k] != 'R' {
      if |sign| <= k < |sign| + |grouped| {
        assert g[k] == grouped[k - |sign|];
      } else if k > |sign| + |grouped| {
        assert g[k] == ff[k - 1 - |sign| - |grouped|];
      }
    }
    assert g[|g| - 1] == ff[1];
  }

  /** Removing "R$" from `FormatBrl(m)` leaves the blank and the grouped amount. */
  lemma RemoveSymbolFormatBrl(m: Money)
    ensures RemovePair(FormatBrl(m), 'R', '$') == " " + GroupedBrl(m)
  {
    var g := GroupedBrl(m);
    GroupedBrlShape(m);
    assert FormatBrl(m) == "R$" + (" " + g);
    assert 'R' !in " " + g;
    RemovePairAbsent(" " + g, 'R', '$');
  }

  /** One blank in front of text with no whitespace at its ends is all `strip` removes. */
  lemma StripLeadingBlank(t: string)
    requires |t| > 0 && !IsSpace(t[0]) && !IsSpace(t[|t| - 1])
    ensures Strip(" " + t) == t
  {
    assert (" " + t)[1..] == t;
  }

  /** Deleting the '.' separators of grouped digits between a sign and a fraction. */
  lemma UngroupParts(sign: string, digits: string, two: string)
    requires '.' !in sign && '.' !in two && AllDigits(digits)
    ensures RemoveChar(sign + GroupThousands(digits) + "," + two, '.') == sign + (digits + "," + two)
  {
    var grouped := GroupThousands(digits);
    var tail := "," + two;
    assert '.' !in tail;
    Assoc(sign + grouped, ",", two);
    RemoveCharKeepsBack(sign + grouped, '.', tail);
    RemoveCharKeepsFront(sign, '.', grouped);
    UngroupThousands(digits);
    Assoc(digits, ",", two);
    Assoc(sign, digits, tail);
  }

  /** Deleting the '.' separators turns the grouped amount into the plain one. */
  lemma UngroupBrl(m: Money)
    ensures RemoveChar(GroupedBrl(m), '.') == PlainBrl(m)
  {
    var magnitude := if m.cents < 0 then -m.cents else m.cents;
    var sign := if m.cents < 0 then "-" else "";
    var two := TwoDigits(magnitude % 100);
    assert '.' !in sign && two[0] != '.' && two[1] != '.';
    UngroupParts(sign, NatToString(magnitude / 100), two);
  }

  /** The plain amount starts with '-' or a digit and ends on a digit. */
  lemma PlainBrlEnds(m: Money)
    ensures var p := PlainBrl(m); |p| > 0 && !IsSpace(p[0]) && !IsSpace(p[|p| - 1])
  {
    var magnitude := if m.cents < 0 then -m.cents else m.cents;
    var p := PlainBrl(m);
    var ff := TwoDigits(magnitude % 100);
    assert p[|p| - 1] == ff[1];
    if m.cents >= 0 {
      assert p[0] == NatToString(magnitude / 100)[0];
    }
  }

  /** Normalising `FormatBrl(m)` drops the symbol, the blank and the thousands separators. */
  lemma NormalizeFormatBrl(m: Money)
    ensures Normalize(FormatBrl(m)) == PlainBrl(m)
  {
    RemoveSymbolFormatBrl(m);
    GroupedBrlShape(m);
    StripLeadingBlank(GroupedBrl(m));
    UngroupBrl(m);
    PlainBrlEnds(m);
    StripUnchanged(PlainBrl(m));
  }

  /** The plain pt_BR digits of an amount read back as that amount. */
  lemma ParseDecimalOfPlainBrl(m: Money)
    ensures ParseDecimal(PlainBrl(m)) == Some(m.cents)
  {
    var magnitude := if m.cents < 0 then -m.cents else m.cents;
    var q, r := magnitude / 100, magnitude % 100;
    var body := NatToString(q) + "," + TwoDigits(r);
    ParseUnsignedDecimalOfAmount(q, r);
    assert body[0] == NatToString(q)[0];
    ParseDecimalSigned(m.cents < 0, body, magnitude);
  }

  /**
   * Text written the Brazilian way, with "R$", '.' between thousands and ','
   * before the centavos, parses back to the amount exactly.
   */
  lemma ParseCurrencyReadsFormatBrl(m: Money)
    ensures ParseCurrency(Str(FormatBrl(m))) == Some(m)
  {
    NormalizeFormatBrl(m);
    ParseDecimalOfPlainBrl(m);
    ParseCurrencyOfText(Str(FormatBrl(m)), m.cents);
  }

  /** What `parse_currency` hands on for a cell that is not a float decides its failure. */
  lemma ParseCurrencyOfBadText(c: Cell)
    requires !c.Amount? && ParseDecimal(Normalize(Stringify(c))).None?
    ensures ParseCurrency(c).None?
  {
  }

  /** `str()` of an int has nothing for the normalisation to remove. */
  lemma NormalizeIntToString(i: int)
    ensures Normalize(IntToString(i)) == IntToString(i)
  {
    var t := IntToString(i);
    assert forall k :: 0 <= k < |t| ==> t[k] == '-' || IsDigit(t[k]);
    assert 'R' !in t && '.' !in t;
    RemovePairAbsent(t, 'R', '$');
    StripUnchanged(t);
    RemoveCharAbsent(t, '.');
  }

  /** A whole number of reais with no ',' reads as that many hundred centavos. */
  lemma ParseUnsignedDecimalOfWhole(n: nat)
    ensures ParseUnsignedDecimal(NatToString(n)) == Some(100 * n)
  {
    NonDigitAbsent(NatToString(n), ',');
    SplitNoSep(NatToString(n), ',');
    DigitsValueOfNatToString(n);
  }

  /** `str()` of an int read as a pt_BR decimal is that many whole reais. */
  lemma ParseDecimalOfIntToString(i: int)
    ensures ParseDecimal(IntToString(i)) == Some(100 * i)
  {
    var magnitude := if i < 0 then -i else i;
    ParseUnsignedDecimalOfWhole(magnitude);
    assert IntToString(i) == (if i < 0 then "-" else "") + NatToString(magnitude);
    ParseDecimalSigned(i < 0, NatToString(magnitude), 100 * magnitude);
  }

  /** An int cell is read through `str()` and comes out as that many whole reais. */
  lemma ParseCurrencyOfInt(i: int)
    ensures ParseCurrency(Int(i)) == Some(Brl(100 * i))
  {
    NormalizeIntToString(i);
    ParseDecimalOfIntToString(i);
    ParseCurrencyOfText(Int(i), 100 * i);
  }

  lemma FormatBrlOf4530()
    ensures FormatBrl(Brl(4530)) == "R$ 45,30"
  {
    assert NatToString(45) == "45";
    assert TwoDigits(30) == "30";
  }

  lemma NatToStringOf107()
    ensures NatToString(107) == "107"
  {
    assert NatToString(10) == "10";
  }

  lemma FormatBrlOf10750()
    ensures FormatBrl(Brl(10750)) == "R$ 107,50"
  {
    var reais, centavos := 10750 / 100, 10750 % 100;
    assert reais == 107 && centavos == 50;
    NatToStringOf107();
    var grouped := GroupThousands(NatToString(reais));
    assert grouped == "107";
    var cents := TwoDigits(centavos);
    assert cents == "50";
    assert FormatBrl(Brl(10750)) == "R$ " + "" + grouped + "," + cents;
  }

  lemma FormatBrlOf470()
    ensures FormatBrl(Brl(470)) == "R$ 4,70"
  {
    assert NatToString(4) == "4";
    assert TwoDigits(70) == "70";
  }

  lemma FormatBrlOf4730()
    ensures FormatBrl(Brl(4730)) == "R$ 47,30"
  {
    assert NatToString(47) == "47";
    assert TwoDigits(30) == "30";
  }

  lemma FormatBrlOf320()
    ensures FormatBrl(Brl(320)) == "R$ 3,20"
  {
    assert NatToString(3) == "3";
    assert TwoDigits(20) == "20";
  }

  /** "R$ 45,30" is forty-five reais and thirty centavos. */
  lemma ParseCurrencyExample()
    ensures ParseCurrency(Str("R$ 45,30")) == Some(Brl(4530))
  {
    FormatBrlOf4530();
    ParseCurrencyReadsFormatBrl(Brl(4530));
  }

  /** The amounts of the parser's sample sheet. */
  lemma ParseCurrencySampleAmounts()
    ensures ParseCurrency(Str("R$ 4,70")) == Some(Brl(470))
    ensures ParseCurrency(Str("R$ 47,30")) == Some(Brl(4730))
    ensures ParseCurrency(Str("R$ 3,20")) == Some(Brl(320))
    ensures ParseCurrency(Str("R$ 107,50")) == Some(Brl(10750))
  {
    FormatBrlOf470();
    ParseCurrencyReadsFormatBrl(Brl(470));
    FormatBrlOf4730();
    ParseCurrencyReadsFormatBrl(Brl(4730));
    FormatBrlOf320();
    ParseCurrencyReadsFormatBrl(Brl(320));
    FormatBrlOf10750();
    ParseCurrencyReadsFormatBrl(Brl(10750));
  }

  lemma RemoveSymbolDotted()
    ensures RemovePair("R$ 45.30", 'R', '$') == " 45.30"
  {
    assert "R$ 45.30" == "R$" + " 45.30";
    RemovePairAbsent(" 45.30", 'R', '$');
  }

  lemma StripDotted()
    ensures Strip(" 45.30") == "45.30"
  {
    StripLeadingBlank("45.30");
    assert " " + "45.30" == " 45.30";
  }

  lemma RemoveSeparatorDotted()
    ensures RemoveChar("45.30", '.') == "4530"
  {
    assert "45.30" == "45" + ['.'] + "30";
    RemoveCharAround("45", '.', "30");
    RemoveCharAbsent("45", '.');
    assert "45" + "30" == "4530";
  }

  lemma NormalizeDotted()
    ensures Normalize("R$ 45.30") == "4530"
  {
    RemoveSymbolDotted();
    StripDotted();
    RemoveSeparatorDotted();
    StripUnchanged("4530");
  }

  lemma ParseDecimalOfDigits()
    ensures ParseDecimal("4530") == Some(453000)
  {
    SplitNoSep("4530", ',');
    assert DigitsValue("4530") == 4530 by {
      assert "4530"[..3] == "453";
      assert "453"[..2] == "45";
      assert "45"[..1] == "4";
    }
    assert ParseUnsignedDecimal("4530") == Some(453000);
    ParseDecimalUnsigned("4530");
  }

  /**
   * "R$ 45.30" is not 45,30: the '.' is taken for a thousands separator,
   * so the text reads as four thousand five hundred and thirty reais.
   */
  lemma ParseCurrencyDotIsThousands()
    ensures ParseCurrency(Str("R$ 45.30")) == Some(Brl(453000))
    ensures ParseCurrency(Str("R$ 45.30")) != Some(Brl(4530))
  {
    NormalizeDotted();
    ParseDecimalOfDigits();
    ParseCurrencyOfText(Str("R$ 45.30"), 453000);
  }

  /** Text without 'R', without '.' and without spaces at its ends is already normalised. */
  lemma NormalizeUnchanged(s: string)
    requires 'R' !in s && '.' !in s
    requires s == [] || (!IsSpace(s[0]) && !IsSpace(s[|s| - 1]))
    ensures Normalize(s) == s
  {
    RemovePairAbsent(s, 'R', '$');
    StripUnchanged(s);
    RemoveCharAbsent(s, '.');
  }

  /** Text that starts with neither a sign nor a digit and holds no ',' is no number. */
  lemma ParseDecimalRejectsLetter(t: string)
    requires t != [] && !IsDigit(t[0]) && t[0] != '+' && t[0] != '-' && ',' !in t
    ensures ParseDecimal(t).None?
  {
    SplitNoSep(t, ',');
    assert !AllDigits(t);
  }

  lemma NormalizeNone()
    ensures Normalize("None") == "None"
  {
    var none := "None";
    assert none[0] == 'N' && none[1] == 'o' && none[2] == 'n' && none[3] == 'e';
    assert 'R' !in none && '.' !in none;
    NormalizeUnchanged(none);
  }

  /** An empty cell (None) is read as the text "None", which is no number. */
  lemma ParseCurrencyRejectsEmpty()
    ensures ParseCurrency(Empty).None?
  {
    NormalizeNone();
    var none := "None";
    assert none[0] == 'N' && none[1] == 'o' && none[2] == 'n' && none[3] == 'e';
    assert ',' !in none;
    ParseDecimalRejectsLetter(none);
    ParseCurrencyOfBadText(Empty);
  }
}
