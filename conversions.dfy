/**
 * The per-cell conversions of the sales sheet parser (importer/parser.py):
 * `str()` of a cell, `parse_sold` (`int()`), `parse_currency` with the
 * Brazilian-Portuguese number conventions, and the choice of conversion by
 * column name that `getattr(self, 'parse_' + name, self.default_parse)` makes.
 */
module Conversions {
  import opened Text
  import opened Models

  /**
   * A cell value as the workbook reader gives it: None, a string, an int, or
   * a float. A float is held exactly, in hundredths.
   */
  datatype Cell = Empty | Str(s: string) | Int(i: int) | Amount(cents: int)

  /** A converted cell: a string, an int, a Money, or the cell passed through unchanged. */
  datatype Value = StrValue(s: string) | IntValue(n: int) | MoneyValue(m: Money) | CellValue(c: Cell)

  // ------------------------------------------------------------- str(v)

  /** Python's `repr` of the float `cents / 100` (fixed-point notation). */
  function FloatRepr(cents: int): string
  {
    var magnitude := if cents < 0 then -cents else cents;
    var fraction := magnitude % 100;
    (if cents < 0 then "-" else "") + NatToString(magnitude / 100) + "."
      + (if fraction % 10 == 0 then [DigitChar(fraction / 10)]
         else [DigitChar(fraction / 10), DigitChar(fraction % 10)])
  }

  /** `str(v)`: None renders as "None". */
  function Stringify(c: Cell): string
  {
    match c
    case Empty => "None"
    case Str(s) => s
    case Int(i) => IntToString(i)
    case Amount(cents) => FloatRepr(cents)
  }

  // ------------------------------------------------------------ int(v)

  /** The accepted integer literal: an optional sign and at least one digit. */
  function ParseIntLiteral(s: string): Option<int>
  {
    var body := if |s| > 0 && (s[0] == '+' || s[0] == '-') then s[1..] else s;
    if body == [] || !AllDigits(body) then None
    else
      var magnitude: int := DigitsValue(body);
      Some(if s[0] == '-' then -magnitude else magnitude)
  }

  /**
   * `parse_sold`, that is `int(v)`: a float is truncated toward zero, a
   * string must be an integer literal, None fails.
   */
  function ParseSold(c: Cell): (r: Option<int>)
    ensures c.Int? ==> r == Some(c.i)
    ensures c.Empty? ==> r.None?
    ensures c.Amount? ==> r.Some? && (c.cents >= 0 ==> 0 <= 100 * r.value <= c.cents < 100 * r.value + 100)
    ensures c.Amount? ==> r.Some? && (c.cents < 0 ==> 100 * r.value - 100 < c.cents <= 100 * r.value <= 0)
  {
    match c
    case Empty => None
    case Str(s) => ParseIntLiteral(s)
    case Int(i) => Some(i)
    case Amount(cents) => Some(if cents >= 0 then cents / 100 else -((-cents) / 100))
  }

  // -------------------------------------------------- parse_currency

  /** The hundredths a decimal fraction's digits give; digits past the second are dropped. */
  function FractionCents(f: string): (r: nat)
    requires AllDigits(f)
    ensures r < 100
  {
    if |f| == 0 then 0
    else if |f| == 1 then 10 * DigitValue(f[0])
    else 10 * DigitValue(f[0]) + DigitValue(f[1])
  }

  /**
   * The unsigned part of what `locale.atof` reads under pt_BR once the
   * thousands separators are gone: digits and at most one ',' followed by
   * digits, with at least one digit in all. The result is in hundredths.
   */
  function ParseUnsignedDecimal(body: string): Option<nat>
  {
    var parts := Split(body, ',');
    var whole := parts[0];
    var fraction := if |parts| == 2 then parts[1] else "";
    if |parts| > 2 || !AllDigits(whole) || !AllDigits(fraction) || (whole == "" && fraction == "") then None
    else Some(DigitsValue(whole) * 100 + FractionCents(fraction))
  }

  /** An optional sign in front of an unsigned decimal. */
  function ParseDecimal(t: string): Option<int>
  {
    var negative := |t| > 0 && t[0] == '-';
    var body := if |t| > 0 && (t[0] == '+' || t[0] == '-') then t[1..] else t;
    match ParseUnsignedDecimal(body)
    case None => None
    case Some(magnitude) =>
      var m: int := magnitude;
      Some(if negative then -m else m)
  }

  /**
   * The text `parse_currency` hands to the number parser: every "R$"
   * removed, surrounding whitespace stripped, every '.' (the pt_BR
   * thousands separator) deleted, and whitespace stripped once more (the
   * float parser tolerates it).
   */
  function Normalize(s: string): string
  {
    Strip(RemoveChar(Strip(RemovePair(s, 'R', '$')), '.'))
  }

  /** `parse_currency`: a float is wrapped unchanged; anything else goes through `str()` and the pt_BR parse. */
  function ParseCurrency(c: Cell): (r: Option<Money>)
    ensures c.Amount? ==> r == Some(Brl(c.cents))
  {
    if c.Amount? then Some(Brl(c.cents))
    else
      match ParseDecimal(Normalize(Stringify(c)))
      case None => None
      case Some(cents) => Some(Brl(cents))
  }

  // ------------------------------------------------ dispatch by name

  /** Which `parse_<name>` method a column name selects. */
  datatype Conversion = ToStr | ToInt | ToMoney | Unchanged

  /** `getattr(self, 'parse_' + name, self.default_parse)` as an explicit table. */
  function ConversionFor(name: string): (k: Conversion)
    ensures k == ToStr <==> name in {"product", "category"}
    ensures k == ToInt <==> name == "sold"
    ensures k == ToMoney <==> name in {"cost", "total", "currency"}
  {
    if name == "product" || name == "category" then ToStr
    else if name == "sold" then ToInt
    else if name == "cost" || name == "total" || name == "currency" then ToMoney
    else Unchanged
  }

  /** `default_parse`, the conversion of a column without a `parse_<name>` method: the cell value as it is. */
  function DefaultParse(v: Cell): Value
  {
    CellValue(v)
  }

  /** Convert one cell for the named column; None stands for the exception the conversion raises. */
  function Convert(name: string, c: Cell): (r: Option<Value>)
    ensures ConversionFor(name) == ToStr ==> r == Some(StrValue(Stringify(c)))
    ensures ConversionFor(name) == Unchanged ==> r == Some(CellValue(c))
    ensures ConversionFor(name) == ToInt ==> (r.Some? <==> ParseSold(c).Some?)
    ensures ConversionFor(name) == ToInt && r.Some? ==> r.value == IntValue(ParseSold(c).value)
    ensures ConversionFor(name) == ToMoney ==> (r.Some? <==> ParseCurrency(c).Some?)
    ensures ConversionFor(name) == ToMoney && r.Some? ==> r.value == MoneyValue(ParseCurrency(c).value)
  {
    match ConversionFor(name)
    case ToStr => Some(StrValue(Stringify(c)))
    case Unchanged => Some(DefaultParse(c))
    case ToInt => (match ParseSold(c) case None => None case Some(n) => Some(IntValue(n)))
    case ToMoney => (match ParseCurrency(c) case None => None case Some(m) => Some(MoneyValue(m)))
  }

  // ------------------------------------------ BRL text, the inverse

  /** Group a digit string in threes from the right with '.', as pt_BR writes thousands. */
  function GroupThousands(d: string): string
    decreases |d|
  {
    if |d| <= 3 then d else GroupThousands(d[..|d| - 3]) + "." + d[|d| - 3..]
  }

  /** The two digits of a number of centavos below one hundred. */
  function TwoDigits(r: nat): (t: string)
    requires r < 100
    ensures |t| == 2 && AllDigits(t)
  {
    [DigitChar(r / 10), DigitChar(r % 10)]
  }

  /** An amount written the Brazilian way: "R$ 1.234,56", "R$ -0,05". */
  function FormatBrl(m: Money): string
  {
    var magnitude := if m.cents < 0 then -m.cents else m.cents;
    "R$ " + (if m.cents < 0 then "-" else "") + GroupThousands(NatToString(magnitude / 100))
      + "," + TwoDigits(magnitude % 100)
  }
}
