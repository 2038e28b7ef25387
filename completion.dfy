/**
 * The `whenCompleted` operator (src/shared/whenCompleted.ts) and the completion
 * tracker of a socket's epic (src/shared/sockets/prepareWaitForCompletionFn.ts).
 *
 * Time is an abstract natural number. The tracked work is a stream together with
 * the time, measured from `connect()`, at which it terminates.
 */
module Completion {
  import opened JsValues
  import opened Streams

  /** What a wait for completion resolves with. */
  datatype WaitResult = CompletedResult | TimedOut

  /** A settled promise: resolved with a value or rejected with a thrown value. */
  datatype WaitOutcome = Resolved(result: WaitResult) | Rejected(error: Value)

  /** The outcome of one `waitForCompletion()` call and the time it settles. */
  datatype Settlement = Settlement(outcome: WaitOutcome, at: nat)

  /** How long the registry lets a socket's work finish when it does not say otherwise. */
  const DefaultWaitTimeout: nat := 7500

  /**
   * `whenCompleted()`: values are swallowed, completion becomes one `'completed'`
   * followed by completion, an error is forwarded, and an open source yields nothing.
   */
  function WhenCompleted<T>(s: Stream<T>): (r: Stream<WaitResult>)
    ensures s.end == Complete ==> r == Stream([CompletedResult], Complete)
    ensures s.end.Failed? ==> r == Stream([], s.end)
    ensures s.end == Open ==> r == Stream([], Open)
  {
    match s.end
    case Complete => Stream([CompletedResult], Complete)
    case Failed(e) => Stream([], Failed(e))
    case Open => Stream([], Open)
  }

  /** No value of the source is ever forwarded, and at most one `'completed'` is emitted. */
  lemma WhenCompletedForwardsNoValue<T>(s: Stream<T>)
    ensures forall i :: 0 <= i < |WhenCompleted(s).items| ==> WhenCompleted(s).items[i] == CompletedResult
    ensures |WhenCompleted(s).items| <= 1
    ensures |WhenCompleted(s).items| == 1 <==> s.end == Complete
    ensures WhenCompleted(s).end == s.end
  {
  }

  /** `defaultIfEmpty(v)`: a stream that completes without emitting emits `v` first. */
  function DefaultIfEmpty<T>(s: Stream<T>, v: T): (r: Stream<T>)
    ensures r.end == s.end
    ensures s.end == Complete && s.items == [] ==> r.items == [v]
    ensures !(s.end == Complete && s.items == []) ==> r.items == s.items
  {
    if s.end == Complete && s.items == [] then Stream([v], Complete) else s
  }

  /** After `whenCompleted`, `defaultIfEmpty('completed')` never changes anything. */
  lemma DefaultIfEmptyRedundant<T>(s: Stream<T>)
    ensures DefaultIfEmpty(WhenCompleted(s), CompletedResult) == WhenCompleted(s)
  {
  }

  /** The value a terminated stream hands to `toPromise()`: its last value on completion. */
  function PromiseOf(s: Stream<WaitResult>): (r: WaitOutcome)
    requires s.end != Open
    ensures s.end.Failed? ==> r == Rejected(s.end.error)
    ensures s.end == Complete && s.items != [] ==> r == Resolved(s.items[|s.items| - 1])
  {
    match s.end
    case Failed(e) => Rejected(e)
    case Complete =>
      // `toPromise()` of an empty completed stream resolves with `undefined`; it cannot happen here
      if s.items == [] then Resolved(CompletedResult) else Resolved(s.items[|s.items| - 1])
  }

  /** The work tracked for a socket: its result stream and when (after `connect()`) it terminates. */
  datatype Work<T> = Work(results: Stream<T>, duration: nat)

  /**
   * The object returned by `prepareWaitForCompletionFn(results, timeout)`. Its replay
   * buffer of size 1 is the single terminal signal, kept once `connect()` has run.
   */
  class CompletionTracker<T> {
    const work: Work<T>
    const timeout: nat
    var connectedAt: Option<nat>

    constructor (work: Work<T>, timeout: nat)
      ensures this.work == work && this.timeout == timeout
      ensures connectedAt == None
    {
      this.work := work;
      this.timeout := timeout;
      connectedAt := None;
    }

    /** `connect()`: starts tracking; connecting again while connected changes nothing. */
    method Connect(now: nat)
      modifies this
      ensures old(connectedAt).Some? ==> connectedAt == old(connectedAt)
      ensures old(connectedAt).None? ==> connectedAt == Some(now)
    {
      if connectedAt.None? {
        connectedAt := Some(now);
      }
    }

    /** The time the tracked work terminates, if it has been started and does terminate. */
    function EndTime(): (t: Option<nat>)
      reads this
      ensures t.Some? <==> connectedAt.Some? && work.results.end != Open
      ensures t.Some? ==> t.value == connectedAt.value + work.duration
    {
      if connectedAt.Some? && work.results.end != Open then Some(connectedAt.value + work.duration)
      else None
    }

    /**
     * `waitForCompletion()` called at time `start`. The terminal signal is replayed
     * at once when the work already ended; otherwise it is awaited until `start + timeout`,
     * and a signal that arrives exactly at the deadline loses to the timeout.
     */
    function WaitForCompletion(start: nat): (r: Settlement)
      reads this
      ensures start <= r.at <= start + timeout
      ensures r.outcome == Resolved(TimedOut) ==> r.at == start + timeout
      ensures r.outcome != Resolved(TimedOut) ==> EndTime().Some?
    {
      match EndTime()
      case None => Settlement(Resolved(TimedOut), start + timeout)
      case Some(e) =>
        var signal := DefaultIfEmpty(WhenCompleted(work.results), CompletedResult);
        if e <= start then Settlement(PromiseOf(signal), start)
        else if e < start + timeout then Settlement(PromiseOf(signal), e)
        else Settlement(Resolved(TimedOut), start + timeout)
    }

    /** Work that completes before the deadline resolves the wait with `'completed'` when it completes. */
    lemma CompletesWithinTimeout(start: nat)
      requires connectedAt.Some? && work.results.end == Complete
      requires start < connectedAt.value + work.duration < start + timeout
      ensures WaitForCompletion(start) == Settlement(Resolved(CompletedResult), connectedAt.value + work.duration)
    {
    }

    /** Work that terminates neither before the wait nor before the deadline resolves the wait with `'timed-out'` at the deadline. */
    lemma TimesOut(start: nat)
      requires EndTime().None? || (EndTime().value > start && EndTime().value >= start + timeout)
      ensures WaitForCompletion(start) == Settlement(Resolved(TimedOut), start + timeout)
    {
    }

    /** A wait started after the work completed gets the replayed `'completed'` at once. */
    lemma ReplaysCompletion(start: nat)
      requires connectedAt.Some? && work.results.end == Complete
      requires connectedAt.value + work.duration <= start
      ensures WaitForCompletion(start) == Settlement(Resolved(CompletedResult), start)
    {
    }

    /** An error of the tracked work before the deadline rejects the wait with that error. */
    lemma ErrorRejects(start: nat)
      requires connectedAt.Some? && work.results.end.Failed?
      requires connectedAt.value + work.duration < start + timeout
      ensures WaitForCompletion(start).outcome == Rejected(work.results.end.error)
    {
    }

    /** Before `connect()` nothing is tracked, so every wait times out. */
    lemma NothingTrackedBeforeConnect(start: nat)
      requires connectedAt.None?
      ensures WaitForCompletion(start) == Settlement(Resolved(TimedOut), start + timeout)
    {
    }
  }
}
