/**
 * The retry-with-backoff supervisor (src/shared/retryWithBackoff.ts).
 *
 * The supervised source is described by a trace: the stream it produces on its
 * first subscription, on its second (after the first retry), and so on. The
 * supervisor forwards every emission, and on each failure computes the failure
 * count and the delay, asks `shouldRetry`, and either resubscribes (consuming the
 * next run of the trace) or fails for good with the original error.
 */
module RetryWithBackoff {
  import opened JsValues
  import opened Streams

  datatype RetryOpts = RetryOpts(
    resetErrorsOnNext: bool,
    waitTimeOnBackoff: nat,
    waitTimeOnFirstError: nat,
    minWaitTime: nat,
    maxWaitTime: nat,
    sourceDescription: string)

  /** The caller's partial options: a field that is `None` was not given. */
  datatype RetryOptsRaw = RetryOptsRaw(
    resetErrorsOnNext: Option<bool>,
    waitTimeOnBackoff: Option<nat>,
    waitTimeOnFirstError: Option<nat>,
    minWaitTime: Option<nat>,
    maxWaitTime: Option<nat>,
    sourceDescription: Option<string>)

  /** What `shouldRetry` and the log receive on every failure. */
  datatype ErrorInfo = ErrorInfo(error: Value, numberOfErrors: nat, timeBeforeNextRetry: nat)

  const DefaultOpts: RetryOpts := RetryOpts(true, 5 * 1000, 1 * 1000, 1, 1 * 60 * 60 * 1000, "process")

  /** The default `shouldRetry` always retries. */
  function DefaultShouldRetry(info: ErrorInfo): (r: bool)
    ensures r
  {
    true
  }

  /** `{ ...defaults, ...optsRaw }`: every given field overrides its default. */
  function ResolveOpts(raw: RetryOptsRaw): (o: RetryOpts)
    ensures raw.resetErrorsOnNext.None? ==> o.resetErrorsOnNext
    ensures raw.resetErrorsOnNext.Some? ==> o.resetErrorsOnNext == raw.resetErrorsOnNext.value
    ensures raw.waitTimeOnBackoff.None? ==> o.waitTimeOnBackoff == 5000
    ensures raw.waitTimeOnBackoff.Some? ==> o.waitTimeOnBackoff == raw.waitTimeOnBackoff.value
    ensures raw.waitTimeOnFirstError.None? ==> o.waitTimeOnFirstError == 1000
    ensures raw.waitTimeOnFirstError.Some? ==> o.waitTimeOnFirstError == raw.waitTimeOnFirstError.value
    ensures raw.minWaitTime.None? ==> o.minWaitTime == 1
    ensures raw.minWaitTime.Some? ==> o.minWaitTime == raw.minWaitTime.value
    ensures raw.maxWaitTime.None? ==> o.maxWaitTime == 3600000
    ensures raw.maxWaitTime.Some? ==> o.maxWaitTime == raw.maxWaitTime.value
    ensures raw.sourceDescription.None? ==> o.sourceDescription == "process"
    ensures raw.sourceDescription.Some? ==> o.sourceDescription == raw.sourceDescription.value
  {
    RetryOpts(
      raw.resetErrorsOnNext.GetOr(DefaultOpts.resetErrorsOnNext),
      raw.waitTimeOnBackoff.GetOr(DefaultOpts.waitTimeOnBackoff),
      raw.waitTimeOnFirstError.GetOr(DefaultOpts.waitTimeOnFirstError),
      raw.minWaitTime.GetOr(DefaultOpts.minWaitTime),
      raw.maxWaitTime.GetOr(DefaultOpts.maxWaitTime),
      raw.sourceDescription.GetOr(DefaultOpts.sourceDescription))
  }

  function Min(a: nat, b: nat): nat {
    if a <= b then a else b
  }

  /**
   * The delay before the next subscription after the `numberOfErrors`-th consecutive
   * failure: the first failure waits the first-error time, later ones back off linearly
   * up to the cap; the minimum wait is always added.
   */
  function TimeBeforeNextRetry(opts: RetryOpts, numberOfErrors: nat): (t: nat)
    ensures t >= opts.minWaitTime
    ensures numberOfErrors != 1 ==> t <= opts.minWaitTime + opts.maxWaitTime
    ensures numberOfErrors == 1 ==> t == opts.minWaitTime + opts.waitTimeOnFirstError
  {
    opts.minWaitTime +
    (if numberOfErrors == 1 then opts.waitTimeOnFirstError
     else Min(opts.waitTimeOnBackoff * numberOfErrors, opts.maxWaitTime))
  }

  /** From the second failure on, the delay never decreases as the count grows. */
  lemma BackoffNondecreasing(opts: RetryOpts, m: nat, n: nat)
    requires 2 <= m <= n
    ensures TimeBeforeNextRetry(opts, m) <= TimeBeforeNextRetry(opts, n)
  {
    MulMonotone(opts.waitTimeOnBackoff, m, n);
  }

  lemma MulMonotone(a: nat, m: nat, n: nat)
    requires m <= n
    ensures a * m <= a * n
  {
  }

  /** With the default options the first failure waits 1001 ms and the second 10001 ms. */
  lemma DefaultDelays()
    ensures TimeBeforeNextRetry(DefaultOpts, 1) == 1001
    ensures TimeBeforeNextRetry(DefaultOpts, 2) == 10001
  {
  }

  // ---------------------------------------------------------------------------
  // The supervisor
  // ---------------------------------------------------------------------------

  datatype Outcome =
    | Completed                 // a subscription completed; completion is forwarded
    | GaveUp(error: Value)      // `shouldRetry` refused; the original error is forwarded
    | StillRunning              // the current subscription has not terminated
    | TraceExhausted            // a retry was scheduled but the trace describes no further run

  datatype Supervised<T> = Supervised(
    items: seq<T>,              // everything forwarded downstream, in order
    failures: seq<ErrorInfo>,   // what `shouldRetry` was asked on each failure
    subscriptions: nat,         // how many times the source was subscribed
    outcome: Outcome)

  /** The values emitted by a sequence of runs, one after the other. */
  function ConcatItems<T>(runs: seq<Stream<T>>): seq<T> {
    if runs == [] then [] else runs[0].items + ConcatItems(runs[1..])
  }

  /** The per-subscription flag set by `tap` when `resetErrorsOnNext` is on: did this run emit? */
  predicate ResetFlag<T>(opts: RetryOpts, run: Stream<T>) {
    opts.resetErrorsOnNext && |run.items| > 0
  }

  /**
   * `recursiveObserve(errors, source)`, where `runs[0]` is what the current
   * subscription produces and `runs[1..]` what later resubscriptions produce.
   */
  function RecursiveObserve<T>(opts: RetryOpts, shouldRetry: ErrorInfo -> bool, errors: nat,
                               runs: seq<Stream<T>>): (r: Supervised<T>)
    ensures r.subscriptions <= |runs|
    ensures runs != [] <==> r.subscriptions >= 1
    ensures |r.failures| <= r.subscriptions
    decreases |runs|
  {
    if runs == [] then Supervised([], [], 0, TraceExhausted)
    else
      var run := runs[0];
      match run.end
      case Complete => Supervised(run.items, [], 1, Completed)
      case Open => Supervised(run.items, [], 1, StillRunning)
      case Failed(e) =>
        var numberOfErrors := if ResetFlag(opts, run) then 0 else errors;
        var info := ErrorInfo(e, numberOfErrors + 1, TimeBeforeNextRetry(opts, numberOfErrors + 1));
        if shouldRetry(info) then
          var rest := RecursiveObserve(opts, shouldRetry, numberOfErrors + 1, runs[1..]);
          Supervised(run.items + rest.items, [info] + rest.failures, rest.subscriptions + 1, rest.outcome)
        else
          Supervised(run.items, [info], 1, GaveUp(e))
  }

  /** Downstream sees exactly the values of the runs it subscribed to, one after the other. */
  lemma {:induction false} ObservedItems<T>(opts: RetryOpts, shouldRetry: ErrorInfo -> bool, errors: nat,
                                            runs: seq<Stream<T>>)
    ensures var r := RecursiveObserve(opts, shouldRetry, errors, runs);
            r.items == ConcatItems(runs[..r.subscriptions])
    decreases |runs|
  {
    var r := RecursiveObserve(opts, shouldRetry, errors, runs);
    if runs != [] {
      assert runs[..1] == [runs[0]];
      if runs[0].end.Failed? && r.subscriptions > 1 {
        var n := (if ResetFlag(opts, runs[0]) then 0 else errors) + 1;
        var rest := RecursiveObserve(opts, shouldRetry, n, runs[1..]);
        ObservedItems(opts, shouldRetry, n, runs[1..]);
        assert runs[..rest.subscriptions + 1] == [runs[0]] + runs[1..][..rest.subscriptions];
      }
    }
  }

  /** The k-th failure reported is the failure of the k-th subscription, with its original error. */
  lemma {:induction false} FailureIsRunFailure<T>(opts: RetryOpts, shouldRetry: ErrorInfo -> bool, errors: nat,
                                                  runs: seq<Stream<T>>, k: nat)
    requires k < |RecursiveObserve(opts, shouldRetry, errors, runs).failures|
    ensures var info := RecursiveObserve(opts, shouldRetry, errors, runs).failures[k];
            runs[k].end == Failed(info.error)
            && info.timeBeforeNextRetry == TimeBeforeNextRetry(opts, info.numberOfErrors)
    ensures k + 1 < |RecursiveObserve(opts, shouldRetry, errors, runs).failures| ==>
            shouldRetry(RecursiveObserve(opts, shouldRetry, errors, runs).failures[k])
    decreases |runs|
  {
    if k > 0 {
      var n := (if ResetFlag(opts, runs[0]) then 0 else errors) + 1;
      FailureIsRunFailure(opts, shouldRetry, n, runs[1..], k - 1);
    }
  }

  /** Completion is forwarded from the last subscription, after every earlier one failed. */
  lemma {:induction false} CompletionIsForwarded<T>(opts: RetryOpts, shouldRetry: ErrorInfo -> bool,
                                                    errors: nat, runs: seq<Stream<T>>)
    requires RecursiveObserve(opts, shouldRetry, errors, runs).outcome == Completed
    ensures var r := RecursiveObserve(opts, shouldRetry, errors, runs);
            r.subscriptions == |r.failures| + 1 && runs[r.subscriptions - 1].end == Complete
    decreases |runs|
  {
    if runs[0].end.Failed? {
      var n := (if ResetFlag(opts, runs[0]) then 0 else errors) + 1;
      CompletionIsForwarded(opts, shouldRetry, n, runs[1..]);
    }
  }

  /** Giving up forwards, as the final error, the original error `shouldRetry` refused to retry. */
  lemma {:induction false} GivingUpForwardsError<T>(opts: RetryOpts, shouldRetry: ErrorInfo -> bool,
                                                    errors: nat, runs: seq<Stream<T>>)
    requires RecursiveObserve(opts, shouldRetry, errors, runs).outcome.GaveUp?
    ensures var r := RecursiveObserve(opts, shouldRetry, errors, runs);
            |r.failures| == r.subscriptions >= 1
            && !shouldRetry(r.failures[|r.failures| - 1])
            && r.outcome.error == r.failures[|r.failures| - 1].error
            && runs[r.subscriptions - 1].end == Failed(r.outcome.error)
    decreases |runs|
  {
    var r := RecursiveObserve(opts, shouldRetry, errors, runs);
    var n := (if ResetFlag(opts, runs[0]) then 0 else errors) + 1;
    var info := ErrorInfo(runs[0].end.error, n, TimeBeforeNextRetry(opts, n));
    if shouldRetry(info) {
      var rest := RecursiveObserve(opts, shouldRetry, n, runs[1..]);
      GivingUpForwardsError(opts, shouldRetry, n, runs[1..]);
      assert r.failures[|r.failures| - 1] == rest.failures[|rest.failures| - 1];
    }
  }

  /** `source.pipe(retryWithBackoff(optsRaw))`. */
  function RetryWithBackoff<T>(raw: RetryOptsRaw, shouldRetry: ErrorInfo -> bool,
                               runs: seq<Stream<T>>): (r: Supervised<T>)
    requires runs != []
    ensures r.subscriptions >= 1
  {
    RecursiveObserve(ResolveOpts(raw), shouldRetry, 0, runs)
  }

  /** The supervised output as a stream: completion and the final error are forwarded. */
  function AsStream<T>(r: Supervised<T>): (s: Stream<T>)
    ensures s.items == r.items
    ensures r.outcome == Completed <==> s.end == Complete
    ensures r.outcome.GaveUp? <==> s.end.Failed?
  {
    match r.outcome
    case Completed => Stream(r.items, Complete)
    case GaveUp(e) => Stream(r.items, Failed(e))
    case _ => Stream(r.items, Open)
  }

  // ---------------------------------------------------------------------------
  // The failure count, stated independently
  // ---------------------------------------------------------------------------

  /** The index of the last run at or before `k` that emitted anything, if any. */
  function LastEmittingRun<T>(runs: seq<Stream<T>>, k: nat): (j: Option<nat>)
    requires k < |runs|
    ensures j.Some? ==> j.value <= k && |runs[j.value].items| > 0
    ensures j.Some? ==> forall i :: j.value < i <= k ==> runs[i].items == []
    ensures j.None? ==> forall i :: 0 <= i <= k ==> runs[i].items == []
  {
    if |runs[k].items| > 0 then Some(k)
    else if k == 0 then None
    else LastEmittingRun(runs, k - 1)
  }

  /**
   * The failure count reported at the failure of run `k`, when the supervisor started
   * with `errors` earlier failures: with `resetErrorsOnNext` the count restarts at 1 on
   * the last run that emitted and grows by one per failed run since; without it, every
   * failure counts.
   */
  function ExpectedCount<T>(opts: RetryOpts, errors: nat, runs: seq<Stream<T>>, k: nat): nat
    requires k < |runs|
  {
    if !opts.resetErrorsOnNext then errors + k + 1
    else
      match LastEmittingRun(runs, k)
      case Some(j) => k - j + 1
      case None => errors + k + 1
  }

  lemma ExpectedCountShift<T>(opts: RetryOpts, errors: nat, runs: seq<Stream<T>>, k: nat)
    requires k + 1 < |runs|
    ensures ExpectedCount(opts, errors, runs, k + 1)
         == ExpectedCount(opts, ExpectedCount(opts, errors, runs, 0), runs[1..], k)
  {
    if opts.resetErrorsOnNext {
      var a := LastEmittingRun(runs, k + 1);
      var b := LastEmittingRun(runs[1..], k);
      if b.Some? {
        assert |runs[b.value + 1].items| > 0;
      } else if a.Some? {
        assert a.value == 0;
      }
    }
  }

  /** Every reported failure count, and so every delay, agrees with the independent count. */
  lemma {:induction false} FailureCounts<T>(opts: RetryOpts, shouldRetry: ErrorInfo -> bool,
                                            errors: nat, runs: seq<Stream<T>>, k: nat)
    requires k < |RecursiveObserve(opts, shouldRetry, errors, runs).failures|
    ensures RecursiveObserve(opts, shouldRetry, errors, runs).failures[k].numberOfErrors
         == ExpectedCount(opts, errors, runs, k)
    ensures RecursiveObserve(opts, shouldRetry, errors, runs).failures[k].timeBeforeNextRetry
         == TimeBeforeNextRetry(opts, ExpectedCount(opts, errors, runs, k))
    decreases |runs|
  {
    var r := RecursiveObserve(opts, shouldRetry, errors, runs);
    var run := runs[0];
    assert run.end.Failed?;
    var n := (if ResetFlag(opts, run) then 0 else errors) + 1;
    assert n == ExpectedCount(opts, errors, runs, 0);
    var info := ErrorInfo(run.end.error, n, TimeBeforeNextRetry(opts, n));
    assert r.failures[0] == info;
    if k > 0 {
      assert shouldRetry(info);
      var rest := RecursiveObserve(opts, shouldRetry, n, runs[1..]);
      assert r.failures == [info] + rest.failures;
      assert r.failures[k] == rest.failures[k - 1];
      FailureCounts(opts, shouldRetry, n, runs[1..], k - 1);
      ExpectedCountShift(opts, errors, runs, k - 1);
    }
  }

  /** With `resetErrorsOnNext` a failure after an emission in the same subscription counts as failure 1. */
  lemma FailureAfterEmissionCountsAsFirst<T>(opts: RetryOpts, shouldRetry: ErrorInfo -> bool,
                                             errors: nat, runs: seq<Stream<T>>, k: nat)
    requires opts.resetErrorsOnNext
    requires k < |RecursiveObserve(opts, shouldRetry, errors, runs).failures|
    requires |runs[k].items| > 0
    ensures RecursiveObserve(opts, shouldRetry, errors, runs).failures[k].numberOfErrors == 1
    ensures RecursiveObserve(opts, shouldRetry, errors, runs).failures[k].timeBeforeNextRetry
         == opts.minWaitTime + opts.waitTimeOnFirstError
  {
    FailureCounts(opts, shouldRetry, errors, runs, k);
  }

  /** A failure with no emission since the previous failure increments the count. */
  lemma ConsecutiveFailuresIncrement<T>(opts: RetryOpts, shouldRetry: ErrorInfo -> bool,
                                        errors: nat, runs: seq<Stream<T>>, k: nat)
    requires k + 1 < |RecursiveObserve(opts, shouldRetry, errors, runs).failures|
    requires runs[k + 1].items == []
    ensures RecursiveObserve(opts, shouldRetry, errors, runs).failures[k + 1].numberOfErrors
         == RecursiveObserve(opts, shouldRetry, errors, runs).failures[k].numberOfErrors + 1
  {
    FailureCounts(opts, shouldRetry, errors, runs, k);
    FailureCounts(opts, shouldRetry, errors, runs, k + 1);
  }

  /** Without `resetErrorsOnNext`, emissions never reset the count: the k-th failure is failure k + 1. */
  lemma NoResetCountsEveryFailure<T>(opts: RetryOpts, shouldRetry: ErrorInfo -> bool,
                                     runs: seq<Stream<T>>, k: nat)
    requires !opts.resetErrorsOnNext
    requires k < |RecursiveObserve(opts, shouldRetry, 0, runs).failures|
    ensures RecursiveObserve(opts, shouldRetry, 0, runs).failures[k].numberOfErrors == k + 1
  {
    FailureCounts(opts, shouldRetry, 0, runs, k);
  }

  /** An error-free (or empty) source is subscribed exactly once and forwarded unchanged. */
  lemma ErrorFreeSourceForwarded<T>(raw: RetryOptsRaw, shouldRetry: ErrorInfo -> bool,
                                    runs: seq<Stream<T>>)
    requires runs != [] && !runs[0].end.Failed?
    ensures RetryWithBackoff(raw, shouldRetry, runs).subscriptions == 1
    ensures AsStream(RetryWithBackoff(raw, shouldRetry, runs)) == runs[0]
    ensures RetryWithBackoff(raw, shouldRetry, runs).failures == []
  {
  }

  // ---------------------------------------------------------------------------
  // The scenarios of the marble tests, with the default options
  // ---------------------------------------------------------------------------

  const NoOpts: RetryOptsRaw := RetryOptsRaw(None, None, None, None, None, None)

  lemma DefaultsResolved()
    ensures ResolveOpts(NoOpts) == DefaultOpts
  {
  }

  /** 'aX 1s -X-|': emit then fail, fail again without emitting, then complete. */
  lemma TwoFailuresInARow(e: Value)
    ensures var r := RetryWithBackoff(NoOpts, DefaultShouldRetry,
                                      [Stream(["a"], Failed(e)), Stream([], Failed(e)), Stream([], Complete)]);
            r.items == ["a"] && r.subscriptions == 3 && r.outcome == Completed
            && r.failures == [ErrorInfo(e, 1, 1001), ErrorInfo(e, 2, 10001)]
  {
    var runs := [Stream(["a"], Failed(e)), Stream([], Failed(e)), Stream([], Complete)];
    DefaultsResolved();
    DefaultDelays();
    var r2 := RecursiveObserve(DefaultOpts, DefaultShouldRetry, 2, runs[2..]);
    assert r2 == Supervised([], [], 1, Completed);
    var r1 := RecursiveObserve(DefaultOpts, DefaultShouldRetry, 1, runs[1..]);
    assert r1 == Supervised([], [ErrorInfo(e, 2, 10001)], 2, Completed);
    var r0 := RecursiveObserve(DefaultOpts, DefaultShouldRetry, 0, runs);
    assert r0 == Supervised(["a"], [ErrorInfo(e, 1, 1001), ErrorInfo(e, 2, 10001)], 3, Completed);
  }

  /** 'a-bc-#' resubscribed after each failure: every failure follows emissions, so each waits 1001 ms. */
  lemma FailuresAfterSuccessfulRetries(e: Value)
    ensures var run := Stream(["a", "b", "c"], Failed(e));
            var r := RetryWithBackoff(NoOpts, DefaultShouldRetry, [run, run, Stream(["a", "b", "c"], Open)]);
            r.items == ["a", "b", "c", "a", "b", "c", "a", "b", "c"] && r.subscriptions == 3
            && r.outcome == StillRunning
            && r.failures == [ErrorInfo(e, 1, 1001), ErrorInfo(e, 1, 1001)]
  {
    var run := Stream(["a", "b", "c"], Failed(e));
    var runs := [run, run, Stream(["a", "b", "c"], Open)];
    DefaultsResolved();
    DefaultDelays();
    var r2 := RecursiveObserve(DefaultOpts, DefaultShouldRetry, 1, runs[2..]);
    assert r2 == Supervised(["a", "b", "c"], [], 1, StillRunning);
    var r1 := RecursiveObserve(DefaultOpts, DefaultShouldRetry, 1, runs[1..]);
    assert r1 == Supervised(["a", "b", "c", "a", "b", "c"], [ErrorInfo(e, 1, 1001)], 2, StillRunning);
  }
}
