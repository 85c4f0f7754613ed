# Simple currency conversion service — Dafny model

This project models the conversion core of `SimpleCurrencyConversionService.java`:

- the **exchange-rate provider** (`ExchangeRateProvider`), built once from a
  caller-supplied map of currency code to rate, falling back to the fixed
  default table {USD ↦ 1.0, EUR ↦ 0.85, UGX ↦ 3700.0} when the map is null or
  empty, and answering `getRate` with the stored value or the sentinel `-1.0`;
- the **converter** (`CurrencyConverter.convert`), which rejects a
  non-positive amount first, then rejects the call when either resolved rate
  is not positive (an unknown code and a stored non-positive rate give the same
  error), and otherwise returns `(amount / fromRate) * toRate` after writing
  one transaction-log entry carrying the cross rate `toRate / fromRate`.

Modules:

- `Wrappers` (`wrappers.dfy`): `Option` (a Java `null` argument is `None`) and
  `Result` (a thrown `IllegalArgumentException` is a `Failure`).
- `Rates` (`rates.dfy`): the rate table as an immutable `map<string, real>`,
  `NewProvider`, `GetRate`, the default table and lemmas about lookups.
  Because the provider is a value, a lookup can never change the table.
- `Converter` (`converter.dfy`): the two error kinds with their exact
  messages, the log record, `Convert` returning its result together with the
  log entries it wrote, and the algebra of conversion (round trip, chaining,
  scaling, monotonicity, reciprocal cross rates).
- `Session` (`session.dfy`): several calls on one converter, whose single
  logger accumulates entries across calls, as the program's entry point does.
- `Scenarios` (`scenarios.dfy`): the four demonstration calls of `main`.

Amounts and rates are Dafny `real`s, so the arithmetic identities hold exactly.
The constructor stores a non-empty map without checking it; the design intends
every stored rate to be positive (`Rates.ValidTable`) but the code does not
enforce this, and the model follows the code.

## Model

| member | source | states |
|---|---|---|
| Rates.NewProvider | SimpleCurrencyConversionService.java:10-20 | a null or empty map yields exactly the default table; any other map is kept unchanged, unvalidated |
| Rates.GetRate | SimpleCurrencyConversionService.java:22-24 | a present code yields its stored value, an absent one yields -1.0; the answer is positive exactly when the code is present with a positive rate |
| Rates.DefaultTableContents | SimpleCurrencyConversionService.java:12-15 | the default table has exactly the three keys USD, EUR, UGX and every default rate is positive |
| Rates.DefaultProviderLookups | SimpleCurrencyConversionService.java:11-15 | after a null or empty argument, lookups give 1.0, 0.85, 3700.0 for USD, EUR, UGX and -1.0 for every other code |
| Rates.SuppliedProviderLookups | SimpleCurrencyConversionService.java:17-23 | after a non-empty argument, every lookup answers from that map, including zero and negative values, and -1.0 for absent codes |
| Rates.NewProviderValidity | SimpleCurrencyConversionService.java:10-19 | the stored table has only positive rates exactly when the default was chosen or the supplied map already had only positive rates |
| Rates.SentinelIndistinguishable | SimpleCurrencyConversionService.java:23 | a code stored with rate -1.0 reads back the same as a missing code |
| Converter.Convert | SimpleCurrencyConversionService.java:45-59 | a non-positive amount fails with the amount error whatever the codes; otherwise an unusable code fails with the currency error; success happens exactly when the amount and both rates are positive, yields a positive amount with the same base-currency value as the input, equal to the amount times the logged cross rate, and writes exactly one log entry; failures write none |
| Converter.MessagesIdentifyKind | SimpleCurrencyConversionService.java:46-54 | the two error messages differ, so the message alone tells the caller which check failed |
| Converter.ConvertSameCurrency | SimpleCurrencyConversionService.java:49-58 | converting a usable currency to itself returns the amount unchanged and logs cross rate 1 |
| Converter.ConvertRoundTrip | SimpleCurrencyConversionService.java:56 | converting the result back to the source currency succeeds and restores the original amount |
| Converter.ConvertChain | SimpleCurrencyConversionService.java:56 | converting A to B and then B to C gives the same result as converting A to C directly |
| Converter.CrossRatesReciprocal | SimpleCurrencyConversionService.java:57 | the logged cross rates of the two directions between a pair multiply to 1 |
| Converter.ConvertScales | SimpleCurrencyConversionService.java:56 | scaling a convertible amount by a positive factor scales the result by that factor |
| Converter.ConvertMonotonic | SimpleCurrencyConversionService.java:56 | a larger amount converts successfully to a strictly larger result |
| Converter.NonPositiveRateActsAsMissing | SimpleCurrencyConversionService.java:49-54 | a code stored with a non-positive rate gives the same outcome, result and log, as if it were absent from the table |
| Session.Run | SimpleCurrencyConversionService.java:71-97 | a run of calls on one converter gives each call the result it would have alone and logs exactly one entry per successful call, each with positive amount and rate |
| Session.RunAppendResults | SimpleCurrencyConversionService.java:36-59 | the results of two batches run back to back are the concatenation of their separate results |
| Session.RunAppendLog | SimpleCurrencyConversionService.java:36-59 | the log of two batches run back to back is the concatenation of their separate logs |
| Session.RunAllSucceed | SimpleCurrencyConversionService.java:56-57 | when every call succeeds the log holds one entry per call, in call order |
| Session.RunNoneSucceed | SimpleCurrencyConversionService.java:46-54 | when no call succeeds nothing is logged |
| Scenarios.ValidTransaction | SimpleCurrencyConversionService.java:65-78 | with the demonstration table, 100 USD converts to 85 EUR, logged with cross rate 0.85 |
| Scenarios.InvalidAmountRejected | SimpleCurrencyConversionService.java:85-90 | -50 USD is refused with "Amount must be positive." and nothing is logged |
| Scenarios.InvalidCurrencyRejected | SimpleCurrencyConversionService.java:92-97 | a conversion to XYZ is refused with "Invalid currency code." and nothing is logged |
| Scenarios.DefaultRatesUsed | SimpleCurrencyConversionService.java:100-105 | with no table supplied, 1 USD converts to 3700 UGX from the default table |
| Scenarios.DemoSessionLog | SimpleCurrencyConversionService.java:71-97 | the first three demonstration calls on one converter leave exactly one log entry, for the valid transaction |

## Left out

- Floating point: amounts and rates are exact reals. IEEE `double` rounding (the
  result and the cross rate may differ from the real identities in the last
  bit), infinities and NaN (a NaN amount or rate passes the `<= 0` checks in
  Java) are not modelled.
- Log output: `TransactionLogger.log` formats with `printf` and two decimals
  and stamps the time with `LocalDateTime.now()`; the model records only the
  abstract entry (codes, amount, cross rate) in a returned sequence.
- The console warning printed when the default table is chosen, and all
  output of `main`; `main`'s four calls are kept as lemmas in `Scenarios`.
- Aliasing: Java stores the caller's map by reference, so a caller could change
  it later; the model's table is an immutable value.
- Java `null` inside the map or as a currency code (a stored `null` rate
  would fail on unboxing): the model's codes are strings and its rates are reals.
- The `CurrencyConverter` and `TransactionLogger` constructors only store
  collaborators; the provider is passed to `Convert` as a parameter instead.
- Exceptions as control flow: a thrown `IllegalArgumentException` is a
  `Failure` carrying the error kind, whose `Message` is the exception text.
