/** The converter: validates a request, converts the amount through the two
    rates, and records one log entry for each successful conversion. */
module Converter {
  import opened Wrappers
  import opened Rates

  /** The two ways a conversion is refused. Both surface in the source as the
      same exception type, told apart only by their messages. */
  datatype ConversionError = InvalidAmount | InvalidCurrency {

    /** The exception message the caller sees. */
    function Message(): string
    {
      match this
      case InvalidAmount => "Amount must be positive."
      case InvalidCurrency => "Invalid currency code."
    }
  }

  /** One transaction-log entry: both codes, the requested amount and the
      cross rate `toRate / fromRate`. The clock timestamp is not modelled. */
  datatype LogRecord = LogRecord(from: Code, to: Code, amount: real, rate: real)

  /** What one call produces: its result and the log entries it wrote. */
  datatype Outcome = Outcome(result: Result<real, ConversionError>, log: seq<LogRecord>)

  /** The cross rate between two convertible codes. */
  function CrossRate(p: Provider, from: Code, to: Code): real
    requires Convertible(p, from) && Convertible(p, to)
  {
    p.rates[to] / p.rates[from]
  }

  /** Converts `amount` from `from` to `to`. The amount is checked first, so a
      non-positive amount is reported even when the codes are also bad; then
      a missing code and a non-positive stored rate are both reported as the
      same currency error. Only a successful call writes a log entry. */
  function Convert(p: Provider, from: Code, to: Code, amount: real): (o: Outcome)
    ensures amount <= 0.0 ==> o == Outcome(Failure(InvalidAmount), [])
    ensures amount > 0.0 && !(Convertible(p, from) && Convertible(p, to))
            ==> o == Outcome(Failure(InvalidCurrency), [])
    ensures o.result.Success? <==> amount > 0.0 && Convertible(p, from) && Convertible(p, to)
    ensures |o.log| == (if o.result.Success? then 1 else 0)
    ensures o.result.Success? ==>
              && o.log[0] == LogRecord(from, to, amount, CrossRate(p, from, to))
              && o.result.value > 0.0
              && o.result.value == amount * o.log[0].rate
              && o.result.value / p.rates[to] == amount / p.rates[from]
  {
    if amount <= 0.0 then
      Outcome(Failure(InvalidAmount), [])
    else
      var fromRate := GetRate(p, from);
      var toRate := GetRate(p, to);
      if fromRate <= 0.0 || toRate <= 0.0 then
        Outcome(Failure(InvalidCurrency), [])
      else
        Outcome(Success((amount / fromRate) * toRate), [LogRecord(from, to, amount, toRate / fromRate)])
  }

  /** The message alone identifies the error kind. */
  lemma MessagesIdentifyKind(e1: ConversionError, e2: ConversionError)
    ensures e1.Message() == e2.Message() <==> e1 == e2
  {
    if e1 != e2 {
      assert "Amount must be positive."[0] != "Invalid currency code."[0];
    }
  }

  /** Converting a currency to itself returns the amount unchanged, logged
      with cross rate 1. */
  lemma ConvertSameCurrency(p: Provider, code: Code, amount: real)
    requires amount > 0.0 && Convertible(p, code)
    ensures Convert(p, code, code, amount) == Outcome(Success(amount), [LogRecord(code, code, amount, 1.0)])
  {
    var r := p.rates[code];
    assert (amount / r) * r == amount;
    assert r / r == 1.0;
  }

  /** Two amounts with the same value in the base currency are equal. */
  lemma SameBaseValue(u: real, w: real, r: real)
    requires r > 0.0 && u / r == w / r
    ensures u == w
  {
    assert u == (u / r) * r;
    assert w == (w / r) * r;
  }

  /** Converting back with the result of a successful conversion restores the
      original amount. */
  lemma ConvertRoundTrip(p: Provider, from: Code, to: Code, amount: real)
    requires Convert(p, from, to, amount).result.Success?
    ensures Convert(p, to, from, Convert(p, from, to, amount).result.value).result.Success?
    ensures Convert(p, to, from, Convert(p, from, to, amount).result.value).result.value == amount
  {
    var x := Convert(p, from, to, amount).result.value;
    var y := Convert(p, to, from, x).result.value;
    assert y / p.rates[from] == x / p.rates[to] == amount / p.rates[from];
    SameBaseValue(y, amount, p.rates[from]);
  }

  /** Converting through an intermediate currency gives the same amount as
      converting directly. */
  lemma ConvertChain(p: Provider, a: Code, b: Code, c: Code, amount: real)
    requires Convert(p, a, b, amount).result.Success? && Convertible(p, c)
    ensures Convert(p, b, c, Convert(p, a, b, amount).result.value).result.Success?
    ensures Convert(p, b, c, Convert(p, a, b, amount).result.value).result
            == Convert(p, a, c, amount).result
  {
    var x := Convert(p, a, b, amount).result.value;
    var y := Convert(p, b, c, x).result.value;
    var z := Convert(p, a, c, amount).result.value;
    assert y / p.rates[c] == x / p.rates[b] == amount / p.rates[a] == z / p.rates[c];
    SameBaseValue(y, z, p.rates[c]);
  }

  /** The cross rates of the two directions between the same pair multiply to 1. */
  lemma CrossRatesReciprocal(p: Provider, from: Code, to: Code)
    requires Convertible(p, from) && Convertible(p, to)
    ensures CrossRate(p, from, to) * CrossRate(p, to, from) == 1.0
  {
  }

  /** Conversion is linear in the amount: scaling a convertible amount by a
      positive factor scales the result by the same factor. */
  lemma ConvertScales(p: Provider, from: Code, to: Code, amount: real, k: real)
    requires Convert(p, from, to, amount).result.Success? && k > 0.0
    ensures Convert(p, from, to, k * amount).result.Success?
    ensures Convert(p, from, to, k * amount).result.value
            == k * Convert(p, from, to, amount).result.value
  {
    var f, t := p.rates[from], p.rates[to];
    var x := Convert(p, from, to, amount).result.value;
    var y := Convert(p, from, to, k * amount).result.value;
    assert y / t == (k * amount) / f == k * (amount / f) == k * (x / t) == (k * x) / t;
    SameBaseValue(y, k * x, t);
  }

  /** A larger amount converts to a larger result. */
  lemma ConvertMonotonic(p: Provider, from: Code, to: Code, a1: real, a2: real)
    requires Convert(p, from, to, a1).result.Success? && a1 < a2
    ensures Convert(p, from, to, a2).result.Success?
    ensures Convert(p, from, to, a1).result.value < Convert(p, from, to, a2).result.value
  {
    var f, t := p.rates[from], p.rates[to];
    var x1 := Convert(p, from, to, a1).result.value;
    var x2 := Convert(p, from, to, a2).result.value;
    assert x1 / t == a1 / f < a2 / f == x2 / t;
    assert x1 == (x1 / t) * t && x2 == (x2 / t) * t;
  }

  /** A code stored with a non-positive rate behaves exactly like a code that
      is not in the table: every conversion gives the same outcome either way. */
  lemma NonPositiveRateActsAsMissing(p: Provider, code: Code, from: Code, to: Code, amount: real)
    requires code in p.rates && p.rates[code] <= 0.0
    ensures Convert(p, from, to, amount) == Convert(Provider(p.rates - {code}), from, to, amount)
  {
    var q := Provider(p.rates - {code});
    assert Convertible(p, from) <==> Convertible(q, from);
    assert Convertible(p, to) <==> Convertible(q, to);
    if amount > 0.0 && Convertible(p, from) && Convertible(p, to) {
      assert p.rates[from] == q.rates[from] && p.rates[to] == q.rates[to];
      var o, o' := Convert(p, from, to, amount), Convert(q, from, to, amount);
      assert o.result.value == o'.result.value;
      assert o.log == o'.log;
    }
  }
}
