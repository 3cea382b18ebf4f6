/** Currencies an account may hold, the sign shown next to a balance, and the
    shape of the exchange function the ledger uses to move money between them. */
module Currencies {

  /** Each account holds exactly one of these. */
  datatype Currency = USD | EUR | GBP

  /** An amount of money in minor units (cents), so that every value is exact. */
  type Money = int

  /** `convert(from, to, amount)`: the exchange function of the deployment.
      Its rates and rounding are not part of this model, so the ledger takes it
      as a value and nothing is assumed about its results. */
  type Converter = (Currency, Currency, Money) -> Money

  /** The sign shown in front of the balance on the home page:
      dollar for USD, euro for EUR, and pound for every other currency, so
      different currencies are shown with different signs. */
  function Sign(c: Currency): (s: char)
    ensures s == '$' <==> c == USD
    ensures s == '€' <==> c == EUR
    ensures s == '£' <==> c != USD && c != EUR
  {
    if c == USD then '$'
    else if c == EUR then '€'
    else '£'
  }
}
