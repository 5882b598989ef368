/**
 * The web-workers comparison page: the state the page keeps (main-thread and worker result
 * texts, timings and busy flags, a click counter and an animation angle), the handler it
 * installs for the worker's replies, and the timing wrappers each worker request puts around
 * that handler.
 *
 * `performance.now()` readings are parameters. Every handler runs to completion inside one
 * React event, so only the final value of each field is observable; the intermediate
 * "Calculating..." texts of the main-thread handlers are overwritten in the same handler.
 */
module WebWorkersPage {
  import opened Wrappers
  import opened JsString
  import Primes
  import opened Worker

  /** A wrapper put around `onmessage` by one request: the reply type it times and the request's start time. */
  datatype Timer = Timer(watch: string, start: int)

  /** The handler installed at mount: the new worker result text and busy flag for one reply. */
  function BaseHandler(m: WorkerMessage, result: string, busy: bool): (r: (string, bool))
    ensures m.PrimesResult? || m.FibonacciResult? || m.ComputationComplete? || m.ErrorMessage? ==> !r.1
    ensures m.Progress? ==> r.1 == busy
    ensures m.Other? ==> r == (result, busy)
  {
    match m
    case PrimesResult(_, count) => ("Found " + IntToString(count) + " prime numbers", false)
    case FibonacciResult(value) => ("Fibonacci result: " + IntToString(value), false)
    case ComputationComplete(fixed2) => ("Computation complete: " + fixed2.GetOr("N/A"), false)
    case Progress(progress) => ("Progress: " + IntToString(progress) + "%", busy)
    case ErrorMessage(message) => ("Error: " + message, false)
    case Other(_) => (result, busy)
  }

  /** The reply texts name what they report: a PRIMES_RESULT text shows the count, an ERROR text the message. */
  lemma BaseHandlerTexts(m: WorkerMessage, result: string, busy: bool)
    ensures m.PrimesResult? ==> Includes(BaseHandler(m, result, busy).0, IntToString(m.count))
    ensures m.ErrorMessage? ==> Includes(BaseHandler(m, result, busy).0, m.message)
    ensures m.FibonacciResult? ==> Includes(BaseHandler(m, result, busy).0, IntToString(m.result))
  {
    match m
    case PrimesResult(_, count) => IncludesInfix("Found ", IntToString(count), " prime numbers");
    case ErrorMessage(message) =>
      assert "Error: " + message + "" == "Error: " + message;
      IncludesInfix("Error: ", message, "");
    case FibonacciResult(value) =>
      assert "Fibonacci result: " + IntToString(value) + "" == "Fibonacci result: " + IntToString(value);
      IncludesInfix("Fibonacci result: ", IntToString(value), "");
    case _ =>
  }

  /**
   * The worker time after a reply of type `kind` at time `now` has passed through the wrappers
   * `timers` (innermost first): the outermost wrapper runs first and the innermost last, so the
   * innermost matching wrapper, the one installed by the earliest request, sets the time last.
   */
  function ChainTime(timers: seq<Timer>, kind: string, now: int, time: int): int
    decreases |timers|
  {
    if timers == [] then time
    else
      var last := timers[|timers| - 1];
      ChainTime(timers[..|timers| - 1], kind, now, if last.watch == kind then now - last.start else time)
  }

  /** No wrapper for the reply's type: the time is unchanged. */
  lemma {:induction false} ChainTimeNoMatch(timers: seq<Timer>, kind: string, now: int, time: int)
    requires forall i :: 0 <= i < |timers| ==> timers[i].watch != kind
    ensures ChainTime(timers, kind, now, time) == time
    decreases |timers|
  {
    if timers != [] {
      ChainTimeNoMatch(timers[..|timers| - 1], kind, now, time);
    }
  }

  /** Otherwise the earliest matching wrapper decides: the time is measured from its request. */
  lemma {:induction false} ChainTimeEarliest(timers: seq<Timer>, kind: string, now: int, time: int, i: int)
    requires 0 <= i < |timers| && timers[i].watch == kind
    requires forall j :: 0 <= j < i ==> timers[j].watch != kind
    ensures ChainTime(timers, kind, now, time) == now - timers[i].start
    decreases |timers|
  {
    var last := timers[|timers| - 1];
    var inner := timers[..|timers| - 1];
    var t := if last.watch == kind then now - last.start else time;
    if i == |timers| - 1 {
      ChainTimeNoMatch(inner, kind, now, t);
    } else {
      ChainTimeEarliest(inner, kind, now, t, i);
    }
  }

  /** The animation step `(prev + 1) % 360`. */
  function NextFrame(frame: int): (r: int)
    ensures 0 <= r < 360
  {
    (frame + 1) % 360
  }

  /** The angle after k animation steps. */
  function FrameAfter(frame: int, k: nat): int {
    if k == 0 then frame else NextFrame(FrameAfter(frame, k - 1))
  }

  /** k steps from an angle in [0, 360) advance it by k modulo 360; after 360 steps it is back. */
  lemma {:induction false} FrameAfterIs(frame: int, k: nat)
    requires 0 <= frame < 360
    ensures FrameAfter(frame, k) == (frame + k) % 360
  {
    if k > 0 {
      FrameAfterIs(frame, k - 1);
    }
  }

  class WorkerPanel {
    var mainThreadResult: string
    var mainThreadTime: int
    var isMainThreadBusy: bool
    var workerResult: string
    var workerTime: int
    var isWorkerBusy: bool
    var counter: int
    var animationFrame: int
    /** Whether `workerRef.current` holds a worker. */
    var hasWorker: bool
    /** The wrappers around the mount-time handler, innermost first. */
    var timers: seq<Timer>
    /** The requests posted to the worker, oldest first. */
    var requests: seq<Request>

    predicate Valid()
      reads this
    {
      0 <= animationFrame < 360 && (!hasWorker ==> timers == [] && requests == [])
    }

    /** The initial state; `workerCreated` says whether the mount effect has created the worker. */
    constructor (workerCreated: bool)
      ensures mainThreadResult == "" && mainThreadTime == 0 && !isMainThreadBusy
      ensures workerResult == "" && workerTime == 0 && !isWorkerBusy
      ensures counter == 0 && animationFrame == 0
      ensures hasWorker == workerCreated && timers == [] && requests == []
      ensures Valid()
    {
      mainThreadResult, mainThreadTime, isMainThreadBusy := "", 0, false;
      workerResult, workerTime, isWorkerBusy := "", 0, false;
      counter, animationFrame := 0, 0;
      hasWorker, timers, requests := workerCreated, [], [];
    }

    /**
     * A reply arriving at time `now` runs the current `onmessage`: each wrapper, outermost first,
     * records the time when the reply is of its type and then calls the handler it wrapped, down
     * to the mount-time handler. Every reply therefore reaches that handler.
     */
    method HandleWorkerMessage(m: WorkerMessage, now: int)
      modifies this
      ensures (workerResult, isWorkerBusy) == BaseHandler(m, old(workerResult), old(isWorkerBusy))
      ensures workerTime == ChainTime(timers, m.Kind(), now, old(workerTime))
      ensures mainThreadResult == old(mainThreadResult) && mainThreadTime == old(mainThreadTime)
      ensures isMainThreadBusy == old(isMainThreadBusy) && counter == old(counter)
      ensures animationFrame == old(animationFrame) && hasWorker == old(hasWorker)
      ensures timers == old(timers) && requests == old(requests)
    {
      var i := |timers|;
      var time := workerTime;
      assert timers[..i] == timers;
      while i > 0
        invariant 0 <= i <= |timers|
        invariant ChainTime(timers[..i], m.Kind(), now, time) == ChainTime(timers, m.Kind(), now, old(workerTime))
      {
        assert timers[..i][..i - 1] == timers[..i - 1];
        if timers[i - 1].watch == m.Kind() {
          time := now - timers[i - 1].start;
        }
        i := i - 1;
      }
      workerTime := time;
      var r := BaseHandler(m, workerResult, isWorkerBusy);
      workerResult, isWorkerBusy := r.0, r.1;
    }

    /** One animation frame: `setAnimationFrame((prev) => (prev + 1) % 360)`. */
    method Animate()
      requires Valid()
      modifies this
      ensures animationFrame == NextFrame(old(animationFrame))
      ensures Valid()
      ensures counter == old(counter) && workerResult == old(workerResult) && mainThreadResult == old(mainThreadResult)
      ensures isWorkerBusy == old(isWorkerBusy) && workerTime == old(workerTime)
      ensures isMainThreadBusy == old(isMainThreadBusy) && mainThreadTime == old(mainThreadTime)
      ensures hasWorker == old(hasWorker) && timers == old(timers) && requests == old(requests)
    {
      animationFrame := (animationFrame + 1) % 360;
    }

    /** The "Click Me" button: `setCounter((c) => c + 1)`. */
    method ClickCounter()
      requires Valid()
      modifies this
      ensures counter == old(counter) + 1
      ensures Valid()
      ensures animationFrame == old(animationFrame) && workerResult == old(workerResult) && mainThreadResult == old(mainThreadResult)
      ensures isWorkerBusy == old(isWorkerBusy) && workerTime == old(workerTime)
      ensures isMainThreadBusy == old(isMainThreadBusy) && mainThreadTime == old(mainThreadTime)
      ensures hasWorker == old(hasWorker) && timers == old(timers) && requests == old(requests)
    {
      counter := counter + 1;
    }

    /** `calculateOnMainThread(limit)`: the prime search runs on the page's own thread. */
    method CalculateOnMainThread(limit: int, startTime: int, endTime: int)
      modifies this
      ensures mainThreadResult == "Found " + IntToString(|Primes.PrimesUpTo(limit)|) + " prime numbers"
      ensures mainThreadTime == endTime - startTime && !isMainThreadBusy
      ensures workerResult == old(workerResult) && isWorkerBusy == old(isWorkerBusy) && workerTime == old(workerTime)
      ensures timers == old(timers) && requests == old(requests) && hasWorker == old(hasWorker)
      ensures counter == old(counter) && animationFrame == old(animationFrame)
    {
      isMainThreadBusy := true;
      mainThreadResult := "Calculating...";
      var primes := Primes.CalculatePrimes(limit);
      mainThreadResult := "Found " + IntToString(|primes|) + " prime numbers";
      mainThreadTime := endTime - startTime;
      isMainThreadBusy := false;
    }

    /** `fibonacciMainThread(n)` */
    method FibonacciMainThread(n: int, startTime: int, endTime: int)
      modifies this
      ensures mainThreadResult == "Fibonacci(" + IntToString(n) + ") = " + IntToString(CalculateFibonacci(n))
      ensures mainThreadTime == endTime - startTime && !isMainThreadBusy
      ensures workerResult == old(workerResult) && isWorkerBusy == old(isWorkerBusy) && workerTime == old(workerTime)
      ensures timers == old(timers) && requests == old(requests) && hasWorker == old(hasWorker)
      ensures counter == old(counter) && animationFrame == old(animationFrame)
    {
      isMainThreadBusy := true;
      mainThreadResult := "Calculating Fibonacci...";
      var result := CalculateFibonacci(n);
      mainThreadResult := "Fibonacci(" + IntToString(n) + ") = " + IntToString(result);
      mainThreadTime := endTime - startTime;
      isMainThreadBusy := false;
    }

    /**
     * `calculateWithWorker(limit)` as written: without a worker it only reports
     * "Worker not initialized"; otherwise it marks the worker busy, posts the request and wraps
     * the current `onmessage` in one more timing wrapper.
     */
    method CalculateWithWorker(limit: int, startTime: int)
      requires Valid()
      modifies this
      ensures Valid()
      ensures !old(hasWorker) ==> workerResult == "Worker not initialized" && isWorkerBusy == old(isWorkerBusy) &&
                                  requests == old(requests) && timers == old(timers)
      ensures old(hasWorker) ==> workerResult == "Calculating..." && isWorkerBusy &&
                                 requests == old(requests) + [Request("CALCULATE_PRIMES", limit, 0, 0)] &&
                                 timers == old(timers) + [Timer("PRIMES_RESULT", startTime)]
      ensures hasWorker == old(hasWorker) && workerTime == old(workerTime)
      ensures mainThreadResult == old(mainThreadResult) && counter == old(counter) && animationFrame == old(animationFrame)
      ensures mainThreadTime == old(mainThreadTime) && isMainThreadBusy == old(isMainThreadBusy)
    {
      if !hasWorker {
        workerResult := "Worker not initialized";
        return;
      }
      isWorkerBusy := true;
      workerResult := "Calculating...";
      requests := requests + [Request("CALCULATE_PRIMES", limit, 0, 0)];
      timers := timers + [Timer("PRIMES_RESULT", startTime)];
    }

    /**
     * `calculateWithWorker(limit)` with the timing it evidently intends: the new request's timer
     * replaces any earlier one for the same reply type, so the next PRIMES_RESULT is timed from
     * this request.
     */
    method CalculateWithWorkerTimed(limit: int, startTime: int)
      requires Valid()
      modifies this
      ensures Valid()
      ensures !old(hasWorker) ==> workerResult == "Worker not initialized" && isWorkerBusy == old(isWorkerBusy) &&
                                  requests == old(requests) && timers == old(timers)
      ensures old(hasWorker) ==> workerResult == "Calculating..." && isWorkerBusy &&
                                 requests == old(requests) + [Request("CALCULATE_PRIMES", limit, 0, 0)] &&
                                 forall now, t :: ChainTime(timers, "PRIMES_RESULT", now, t) == now - startTime
      ensures forall k, now, t :: k != "PRIMES_RESULT" ==> ChainTime(timers, k, now, t) == ChainTime(old(timers), k, now, t)
      ensures hasWorker == old(hasWorker) && workerTime == old(workerTime)
      ensures mainThreadResult == old(mainThreadResult) && counter == old(counter) && animationFrame == old(animationFrame)
      ensures mainThreadTime == old(mainThreadTime) && isMainThreadBusy == old(isMainThreadBusy)
    {
      if !hasWorker {
        workerResult := "Worker not initialized";
        return;
      }
      isWorkerBusy := true;
      workerResult := "Calculating...";
      requests := requests + [Request("CALCULATE_PRIMES", limit, 0, 0)];
      timers := Without(timers, "PRIMES_RESULT") + [Timer("PRIMES_RESULT", startTime)];
      forall now, t ensures ChainTime(timers, "PRIMES_RESULT", now, t) == now - startTime {
        OnlyTimerDecides(Without(old(timers), "PRIMES_RESULT"), "PRIMES_RESULT", startTime, now, t);
      }
      forall k, now, t | k != "PRIMES_RESULT"
        ensures ChainTime(timers, k, now, t) == ChainTime(old(timers), k, now, t)
      {
        ReplacedTimerKeepsOthers(old(timers), "PRIMES_RESULT", startTime, k, now, t);
      }
    }

    /** `fibonacciWorker(n)`: without a worker it does nothing at all. */
    method FibonacciWorker(n: int, startTime: int)
      requires Valid()
      modifies this
      ensures Valid()
      ensures !old(hasWorker) ==> workerResult == old(workerResult) && isWorkerBusy == old(isWorkerBusy) &&
                                  requests == old(requests) && timers == old(timers)
      ensures old(hasWorker) ==> workerResult == "Calculating Fibonacci..." && isWorkerBusy &&
                                 requests == old(requests) + [Request("FIBONACCI", 0, n, 0)] &&
                                 timers == old(timers) + [Timer("FIBONACCI_RESULT", startTime)]
      ensures hasWorker == old(hasWorker) && workerTime == old(workerTime)
      ensures mainThreadResult == old(mainThreadResult) && counter == old(counter) && animationFrame == old(animationFrame)
      ensures mainThreadTime == old(mainThreadTime) && isMainThreadBusy == old(isMainThreadBusy)
    {
      if !hasWorker {
        return;
      }
      isWorkerBusy := true;
      workerResult := "Calculating Fibonacci...";
      requests := requests + [Request("FIBONACCI", 0, n, 0)];
      timers := timers + [Timer("FIBONACCI_RESULT", startTime)];
    }
  }

  /** The timers that do not watch `kind`, in order. */
  function Without(timers: seq<Timer>, kind: string): (r: seq<Timer>)
    ensures forall i :: 0 <= i < |r| ==> r[i].watch != kind
    decreases |timers|
  {
    if timers == [] then []
    else
      var last := timers[|timers| - 1];
      Without(timers[..|timers| - 1], kind) + (if last.watch == kind then [] else [last])
  }

  /** Dropping the wrappers for `kind` does not change the time any other reply type gets. */
  lemma {:induction false} WithoutKeepsOthers(timers: seq<Timer>, kind: string, k: string, now: int, t: int)
    requires k != kind
    ensures ChainTime(Without(timers, kind), k, now, t) == ChainTime(timers, k, now, t)
    decreases |timers|
  {
    if timers != [] {
      var last := timers[|timers| - 1];
      var inner := timers[..|timers| - 1];
      var t' := if last.watch == k then now - last.start else t;
      WithoutKeepsOthers(inner, kind, k, now, t');
      if last.watch == kind {
        assert Without(timers, kind) == Without(inner, kind);
        assert t' == t;
      } else {
        var w := Without(inner, kind) + [last];
        assert Without(timers, kind) == w;
        assert w[..|w| - 1] == Without(inner, kind);
      }
    }
  }

  /** Replacing the wrappers for `kind` by a single new one leaves every other reply type timed as before. */
  lemma ReplacedTimerKeepsOthers(timers: seq<Timer>, kind: string, start: int, k: string, now: int, t: int)
    requires k != kind
    ensures ChainTime(Without(timers, kind) + [Timer(kind, start)], k, now, t) == ChainTime(timers, k, now, t)
  {
    var w := Without(timers, kind) + [Timer(kind, start)];
    assert w[..|w| - 1] == Without(timers, kind);
    WithoutKeepsOthers(timers, kind, k, now, t);
  }

  /** With a single timer for `kind`, that timer alone decides the reported time. */
  lemma OnlyTimerDecides(others: seq<Timer>, kind: string, start: int, now: int, t: int)
    requires forall i :: 0 <= i < |others| ==> others[i].watch != kind
    ensures ChainTime(others + [Timer(kind, start)], kind, now, t) == now - start
  {
    var ts := others + [Timer(kind, start)];
    ChainTimeEarliest(ts, kind, now, t, |others|);
  }

  /**
   * As written, a second prime request is timed from the first: requests at times 0 and 100 and
   * a reply at 110 report 110 ms instead of 10 ms.
   */
  lemma SecondRequestTimedFromFirst()
    ensures ChainTime([Timer("PRIMES_RESULT", 0), Timer("PRIMES_RESULT", 100)], "PRIMES_RESULT", 110, 0) == 110
  {
    var ts := [Timer("PRIMES_RESULT", 0), Timer("PRIMES_RESULT", 100)];
    ChainTimeEarliest(ts, "PRIMES_RESULT", 110, 0, 0);
  }
}
