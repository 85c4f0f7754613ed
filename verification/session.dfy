/** A sequence of calls on one converter, which keeps a single logger for
    its whole lifetime: the log of a session is the concatenation of the
    entries each call wrote. */
module Session {
  import opened Wrappers
  import opened Rates
  import opened Converter

  /** The arguments of one `convert` call. */
  datatype Request = Request(from: Code, to: Code, amount: real)

  /** What a session produces: one result per request, in order, and the
      accumulated transaction log. */
  datatype Transcript = Transcript(results: seq<Result<real, ConversionError>>, log: seq<LogRecord>)

  /** One call on its own. */
  function Call(p: Provider, r: Request): Outcome
  {
    Convert(p, r.from, r.to, r.amount)
  }

  /** The number of successful results. */
  function SuccessCount(rs: seq<Result<real, ConversionError>>): nat
  {
    if |rs| == 0 then 0 else (if rs[0].Success? then 1 else 0) + SuccessCount(rs[1..])
  }

  /** Runs the requests one after another against the same provider. The
      converter keeps no state between calls, so each result is exactly the
      result of that call made alone, and the log holds one entry per
      successful call, each with a positive amount and a positive rate. */
  function Run(p: Provider, reqs: seq<Request>): (t: Transcript)
    ensures |t.results| == |reqs|
    ensures forall i :: 0 <= i < |reqs| ==> t.results[i] == Call(p, reqs[i]).result
    ensures |t.log| == SuccessCount(t.results)
    ensures forall k :: 0 <= k < |t.log| ==> t.log[k].amount > 0.0 && t.log[k].rate > 0.0
    decreases |reqs|
  {
    if |reqs| == 0 then
      Transcript([], [])
    else
      var o := Call(p, reqs[0]);
      var rest := Run(p, reqs[1..]);
      Transcript([o.result] + rest.results, o.log + rest.log)
  }

  /** Running two batches back to back is the same as running them as one:
      the results are concatenated in order. */
  lemma {:induction false} RunAppendResults(p: Provider, a: seq<Request>, b: seq<Request>)
    ensures Run(p, a + b).results == Run(p, a).results + Run(p, b).results
    decreases |a|
  {
    if |a| == 0 {
      assert a + b == b;
    } else {
      assert (a + b)[1..] == a[1..] + b;
      RunAppendResults(p, a[1..], b);
    }
  }

  /** Running two batches back to back is the same as running them as one:
      the log entries are concatenated in order. */
  lemma {:induction false} RunAppendLog(p: Provider, a: seq<Request>, b: seq<Request>)
    ensures Run(p, a + b).log == Run(p, a).log + Run(p, b).log
    decreases |a|
  {
    if |a| == 0 {
      assert a + b == b;
    } else {
      assert (a + b)[1..] == a[1..] + b;
      RunAppendLog(p, a[1..], b);
    }
  }

  /** When every request succeeds, the log holds exactly one entry per
      request, in request order, each the entry that call writes alone. */
  lemma {:induction false} RunAllSucceed(p: Provider, reqs: seq<Request>)
    requires forall i :: 0 <= i < |reqs| ==> Call(p, reqs[i]).result.Success?
    ensures |Run(p, reqs).log| == |reqs|
    ensures forall i :: 0 <= i < |reqs| ==> Run(p, reqs).log[i] == Call(p, reqs[i]).log[0]
    decreases |reqs|
  {
    if |reqs| > 0 {
      RunAllSucceed(p, reqs[1..]);
      assert forall i :: 1 <= i < |reqs| ==> reqs[1..][i - 1] == reqs[i];
    }
  }

  /** When no request succeeds, nothing is logged. */
  lemma {:induction false} RunNoneSucceed(p: Provider, reqs: seq<Request>)
    requires forall i :: 0 <= i < |reqs| ==> Call(p, reqs[i]).result.Failure?
    ensures Run(p, reqs).log == []
    decreases |reqs|
  {
    if |reqs| > 0 {
      assert forall i :: 1 <= i < |reqs| ==> reqs[1..][i - 1] == reqs[i];
      RunNoneSucceed(p, reqs[1..]);
    }
  }
}
