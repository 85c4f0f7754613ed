/** The exchange-rate provider: a table from currency code to rate, fixed
    when the provider is built and only read afterwards. */
module Rates {
  import opened Wrappers

  /** A currency code such as "USD"; looked up by exact match, never checked
      for format. */
  type Code = string

  /** Rate of one unit of each currency, expressed in a common base currency. */
  type RateTable = map<Code, real>

  /** The value a lookup returns for a code the table does not hold. */
  const NotFound: real := -1.0

  /** The table used when the caller supplies no rates. */
  const DefaultRates: RateTable := map["USD" := 1.0, "EUR" := 0.85, "UGX" := 3700.0]

  /** A built provider. The table is a value: nothing can change it after
      construction, so every lookup sees the table the provider was built with. */
  datatype Provider = Provider(rates: RateTable)

  /** True when the caller's argument selects the default table: a null
      map or an empty one. */
  predicate SelectsDefault(external: Option<RateTable>)
  {
    external.None? || |external.value| == 0
  }

  /** The invariant the design intends for a table (every rate strictly
      positive); construction does not enforce it. */
  ghost predicate ValidTable(rates: RateTable)
  {
    forall c :: c in rates ==> rates[c] > 0.0
  }

  /** True when `code` has a usable rate: it is present with a positive value. */
  predicate Convertible(p: Provider, code: Code)
  {
    code in p.rates && p.rates[code] > 0.0
  }

  /** Builds a provider. A null or empty argument falls back to the default
      table; any other map is kept exactly as given, with no validation. */
  function NewProvider(external: Option<RateTable>): (p: Provider)
    ensures SelectsDefault(external) ==> p.rates == DefaultRates
    ensures !SelectsDefault(external) ==> p.rates == external.value
  {
    match external
    case None => Provider(DefaultRates)
    case Some(m) => if |m| == 0 then Provider(DefaultRates) else Provider(m)
  }

  /** The rate stored for `code`, or the sentinel -1.0 when it is absent. */
  function GetRate(p: Provider, code: Code): (r: real)
    ensures code in p.rates ==> r == p.rates[code]
    ensures code !in p.rates ==> r == NotFound
    ensures r > 0.0 <==> Convertible(p, code)
  {
    if code in p.rates then p.rates[code] else NotFound
  }

  /** The default table holds exactly USD, EUR and UGX, all with positive rates. */
  lemma DefaultTableContents()
    ensures DefaultRates.Keys == {"USD", "EUR", "UGX"}
    ensures |DefaultRates| == 3
    ensures ValidTable(DefaultRates)
  {
    assert "USD" != "EUR" && "USD" != "UGX" && "EUR" != "UGX";
  }

  /** Building with a null or an empty map gives a provider whose lookups
      answer 1.0, 0.85 and 3700.0 for the three default codes and the
      sentinel for every other code. */
  lemma DefaultProviderLookups(external: Option<RateTable>, code: Code)
    requires SelectsDefault(external)
    ensures GetRate(NewProvider(external), "USD") == 1.0
    ensures GetRate(NewProvider(external), "EUR") == 0.85
    ensures GetRate(NewProvider(external), "UGX") == 3700.0
    ensures code !in {"USD", "EUR", "UGX"} ==> GetRate(NewProvider(external), code) == NotFound
  {
    DefaultTableContents();
  }

  /** Building with a non-empty map answers every lookup from that map,
      whatever values it holds, including zero and negative rates. */
  lemma SuppliedProviderLookups(m: RateTable, code: Code)
    requires |m| > 0
    ensures GetRate(NewProvider(Some(m)), code) == (if code in m then m[code] else NotFound)
  {
  }

  /** A provider's table satisfies the intended invariant exactly when the
      default table was chosen or the supplied map already satisfied it:
      construction neither repairs nor rejects a bad map. */
  lemma NewProviderValidity(external: Option<RateTable>)
    ensures ValidTable(NewProvider(external).rates)
            <==> SelectsDefault(external) || ValidTable(external.value)
  {
    DefaultTableContents();
  }

  /** A stored rate of -1.0 reads back exactly like a missing code: the
      sentinel cannot tell the two apart. */
  lemma SentinelIndistinguishable(p: Provider, code: Code)
    requires code in p.rates && p.rates[code] == NotFound
    ensures GetRate(p, code) == GetRate(Provider(p.rates - {code}), code)
  {
  }
}
