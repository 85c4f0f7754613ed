/** The four demonstration calls of the program's entry point, stated as
    facts about the model. */
module Scenarios {
  import opened Wrappers
  import opened Rates
  import opened Converter
  import opened Session

  /** The table the demonstration supplies; UGX differs from the default. */
  const DemoRates: RateTable := map["USD" := 1.0, "EUR" := 0.85, "UGX" := 3800.0]

  /** The first three demonstration calls, made on one converter. */
  const DemoRequests: seq<Request> :=
    [Request("USD", "EUR", 100.0), Request("USD", "EUR", -50.0), Request("USD", "XYZ", 100.0)]

  /** 100 USD converts to 85 EUR, logged with cross rate 0.85. */
  lemma ValidTransaction()
    ensures Convert(NewProvider(Some(DemoRates)), "USD", "EUR", 100.0)
            == Outcome(Success(85.0), [LogRecord("USD", "EUR", 100.0, 0.85)])
  {
  }

  /** A negative amount is refused with the amount message and nothing is logged. */
  lemma InvalidAmountRejected()
    ensures Convert(NewProvider(Some(DemoRates)), "USD", "EUR", -50.0) == Outcome(Failure(InvalidAmount), [])
    ensures InvalidAmount.Message() == "Amount must be positive."
  {
  }

  /** An unknown destination code is refused with the currency message and
      nothing is logged. */
  lemma InvalidCurrencyRejected()
    ensures Convert(NewProvider(Some(DemoRates)), "USD", "XYZ", 100.0) == Outcome(Failure(InvalidCurrency), [])
    ensures InvalidCurrency.Message() == "Invalid currency code."
  {
    assert "XYZ" !in DemoRates;
  }

  /** With no table supplied, 1 USD converts to 3700 UGX from the default table. */
  lemma DefaultRatesUsed()
    ensures Convert(NewProvider(None), "USD", "UGX", 1.0)
            == Outcome(Success(3700.0), [LogRecord("USD", "UGX", 1.0, 3700.0)])
  {
  }

  /** Over the first three calls the shared logger writes exactly one entry,
      for the one call that succeeds. */
  lemma DemoSessionLog()
    ensures Run(NewProvider(Some(DemoRates)), DemoRequests).log == [LogRecord("USD", "EUR", 100.0, 0.85)]
  {
    var p := NewProvider(Some(DemoRates));
    ValidTransaction();
    InvalidAmountRejected();
    InvalidCurrencyRejected();
    RunAppendLog(p, DemoRequests[..1], DemoRequests[1..]);
    RunNoneSucceed(p, DemoRequests[1..]);
    assert DemoRequests[..1] + DemoRequests[1..] == DemoRequests;
  }
}
