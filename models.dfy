/**
 * Value shapes shared by the importer and the admin: money, dates and the
 * month labels the pt-BR locale gives them (manager/models.py).
 */
module Models {
  import opened Text

  /** `Money(amount, 'BRL')` with the amount held exactly, in centavos. */
  datatype Money = Brl(cents: int)

  const CurrencyCode := "BRL"

  function Plus(a: Money, b: Money): (r: Money)
    ensures r.cents == a.cents + b.cents
  {
    Brl(a.cents + b.cents)
  }

  type MonthNumber = m: int | 1 <= m <= 12 witness 1

  /** A calendar date, as Python's `datetime.date` holds it. */
  datatype Date = Date(year: nat, month: MonthNumber, day: nat)

  const MonthNames: seq<string> := [
    "Janeiro", "Fevereiro", "Março", "Abril", "Maio", "Junho",
    "Julho", "Agosto", "Setembro", "Outubro", "Novembro", "Dezembro"]

  /**
   * The pt-BR `YEAR_MONTH_FORMAT` rendering of a date ("F \d\e Y"): the
   * month's name, " de ", the year. The day plays no part.
   */
  function MonthYearLabel(d: Date): string
  {
    MonthNames[d.month - 1] + " de " + NatToString(d.year)
  }
}
