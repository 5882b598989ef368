/**
 * The calculation worker: it answers a CALCULATE_PRIMES request with the primes up to the
 * limit and their count, a FIBONACCI request with the naively recursive Fibonacci number, a
 * HEAVY_COMPUTATION request with progress messages and a completion, and any request of an
 * unknown type with an ERROR message.
 */
module Worker {
  import opened Wrappers
  import Primes

  /** A request posted to the worker: its `type` and the fields of its `data` that the worker reads. */
  datatype Request = Request(kind: string, limit: int, n: int, iterations: int)

  /** The reply types the page's handler knows. */
  const KnownKinds: set<string> := {"PRIMES_RESULT", "FIBONACCI_RESULT", "COMPUTATION_COMPLETE", "PROGRESS", "ERROR"}

  /** The `type` of a reply the page's handler does not know. */
  type UnknownKind = k: string | k !in KnownKinds witness ""

  /**
   * A message posted by the worker. COMPUTATION_COMPLETE carries the text of `result.toFixed(2)`,
   * or None when there is no result; anything else the page might receive is `Other`.
   */
  datatype WorkerMessage =
    | PrimesResult(primes: seq<int>, count: int)
    | FibonacciResult(result: int)
    | ComputationComplete(fixed2: Option<string>)
    | Progress(progress: int)
    | ErrorMessage(message: string)
    | Other(kind: UnknownKind)
  {
    /** The message's `type` field. */
    function Kind(): (k: string)
      ensures Other? <==> k !in KnownKinds
    {
      match this
      case PrimesResult(_, _) => "PRIMES_RESULT"
      case FibonacciResult(_) => "FIBONACCI_RESULT"
      case ComputationComplete(_) => "COMPUTATION_COMPLETE"
      case Progress(_) => "PROGRESS"
      case ErrorMessage(_) => "ERROR"
      case Other(k) => k
    }
  }

  /** `calculateFibonacci(n)` (and the page's own `fib`): n itself for n <= 1. */
  function CalculateFibonacci(n: int): (r: int)
    ensures n <= 1 ==> r == n
    ensures n >= 0 ==> r >= 0
    ensures n >= 1 ==> r >= 1
    decreases n
  {
    if n <= 1 then n else CalculateFibonacci(n - 1) + CalculateFibonacci(n - 2)
  }

  /** Fibonacci numbers never decrease from index 0 on. */
  lemma {:induction false} FibonacciMonotone(m: int, n: int)
    requires 0 <= m <= n
    ensures CalculateFibonacci(m) <= CalculateFibonacci(n)
    decreases n - m
  {
    if m < n && n >= 2 {
      FibonacciMonotone(m, n - 1);
      assert CalculateFibonacci(n) == CalculateFibonacci(n - 1) + CalculateFibonacci(n - 2);
    }
  }

  /** The addition law F(m + n + 1) = F(m + 1) F(n + 1) + F(m) F(n), by induction on n. */
  lemma {:induction false} FibonacciAddition(m: nat, n: nat)
    ensures CalculateFibonacci(m + n + 1) ==
            CalculateFibonacci(m + 1) * CalculateFibonacci(n + 1) + CalculateFibonacci(m) * CalculateFibonacci(n)
    decreases n, 2
  {
    if n <= 1 {
      AdditionBase(m, n);
    } else {
      AdditionStep(m, n);
    }
  }

  lemma AdditionBase(m: nat, n: nat)
    requires n <= 1
    ensures CalculateFibonacci(m + n + 1) ==
            CalculateFibonacci(m + 1) * CalculateFibonacci(n + 1) + CalculateFibonacci(m) * CalculateFibonacci(n)
  {
    var a, b := CalculateFibonacci(m + 1), CalculateFibonacci(m);
    var one, low := CalculateFibonacci(n + 1), CalculateFibonacci(n);
    assert one == 1 && low == n;
    assert CalculateFibonacci(m + n + 1) == if n == 0 then a else a + b;
    Scale(a, b, one, low);
  }

  lemma Scale(a: int, b: int, one: int, low: int)
    requires one == 1 && (low == 0 || low == 1)
    ensures a * one + b * low == if low == 0 then a else a + b
  {
  }

  /** The inductive step: the instances for n - 1 and n - 2 add up to the instance for n. */
  lemma {:induction false} AdditionStep(m: nat, n: nat)
    requires n >= 2
    ensures CalculateFibonacci(m + n + 1) ==
            CalculateFibonacci(m + 1) * CalculateFibonacci(n + 1) + CalculateFibonacci(m) * CalculateFibonacci(n)
    decreases n, 1
  {
    var a, b := CalculateFibonacci(m + 1), CalculateFibonacci(m);
    var x1, x0, y, z := CalculateFibonacci(n + 1), CalculateFibonacci(n), CalculateFibonacci(n - 1), CalculateFibonacci(n - 2);
    var p, q := CalculateFibonacci(m + n), CalculateFibonacci(m + n - 1);
    AdditionShifted(m, n);
    AdditionShifted(m, n - 1);
    assert x1 == x0 + y && x0 == y + z;
    assert CalculateFibonacci(m + n + 1) == p + q;
    Combine(a, b, x1, x0, y, z, p, q);
  }

  /** The addition law one index lower, F(m + n) = F(m + 1) F(n) + F(m) F(n - 1). */
  lemma {:induction false} AdditionShifted(m: nat, n: nat)
    requires n >= 1
    ensures CalculateFibonacci(m + n) ==
            CalculateFibonacci(m + 1) * CalculateFibonacci(n) + CalculateFibonacci(m) * CalculateFibonacci(n - 1)
    decreases n, 0
  {
    FibonacciAddition(m, n - 1);
    SameIndex(m + (n - 1) + 1, m + n);
    SameIndex(n - 1 + 1, n);
  }

  lemma SameIndex(i: int, j: int)
    requires i == j
    ensures CalculateFibonacci(i) == CalculateFibonacci(j)
  {
  }

  /** The arithmetic of the step. */
  lemma Combine(a: int, b: int, x1: int, x0: int, y: int, z: int, p: int, q: int)
    requires x1 == x0 + y && x0 == y + z
    requires p == a * x0 + b * y && q == a * y + b * z
    ensures p + q == a * x1 + b * x0
  {
    assert a * x1 == a * x0 + a * y;
    assert b * x0 == b * y + b * z;
  }

  /** `Math.floor(iterations / 10)`: how often a progress message is posted. */
  function ChunkSize(iterations: int): int {
    iterations / 10
  }

  /**
   * Whether iteration i posts a progress message: `i % chunkSize === 0`. With a chunk size of 0
   * the remainder is NaN, which never equals 0.
   */
  predicate Sampled(iterations: int, i: int) {
    ChunkSize(iterations) != 0 && i % ChunkSize(iterations) == 0
  }

  /**
   * The progress messages posted by the first n iterations of `performHeavyComputation`. The
   * percentage `Math.floor((i / iterations) * 100)` is computed exactly.
   */
  function ProgressUpTo(iterations: int, n: int): seq<WorkerMessage>
    decreases n
  {
    if n <= 0 then []
    else
      ProgressUpTo(iterations, n - 1) +
      if iterations > 0 && Sampled(iterations, n - 1) then [Progress((n - 1) * 100 / iterations)] else []
  }

  /**
   * Everything `performHeavyComputation(iterations)` posts: its progress messages, then one
   * COMPUTATION_COMPLETE whose result text `resultText` stands for the floating-point sum.
   */
  function HeavyMessages(iterations: int, resultText: string): seq<WorkerMessage> {
    ProgressUpTo(iterations, iterations) + [ComputationComplete(Some(resultText))]
  }

  /** `performHeavyComputation(iterations)`: the loop with its progress messages every chunk. */
  method PerformHeavyComputation(iterations: int, resultText: string) returns (posted: seq<WorkerMessage>)
    ensures posted == HeavyMessages(iterations, resultText)
  {
    var chunkSize := iterations / 10;
    posted := [];
    var i := 0;
    while i < iterations
      invariant 0 <= i && (i <= iterations || i == 0)
      invariant posted == ProgressUpTo(iterations, i)
    {
      if chunkSize != 0 && i % chunkSize == 0 {
        posted := posted + [Progress(i * 100 / iterations)];
      }
      i := i + 1;
    }
    posted := posted + [ComputationComplete(Some(resultText))];
  }

  /** A percentage of an iteration before the last lies in [0, 100). */
  lemma PercentBelowHundred(i: int, iterations: int)
    requires 0 <= i < iterations
    ensures 0 <= i * 100 / iterations < 100
  {
    assert i * 100 < iterations * 100;
  }

  /** Every progress message of the first n iterations reports a percentage in [0, 100). */
  lemma {:induction false} ProgressInRange(iterations: int, n: int)
    requires n <= iterations
    ensures forall j :: 0 <= j < |ProgressUpTo(iterations, n)| ==>
      ProgressUpTo(iterations, n)[j].Progress? && 0 <= ProgressUpTo(iterations, n)[j].progress < 100
    decreases n
  {
    if n > 0 {
      ProgressInRange(iterations, n - 1);
      if iterations > 0 && Sampled(iterations, n - 1) {
        PercentBelowHundred(n - 1, iterations);
      }
    }
  }

  /** With fewer than ten iterations the chunk size is 0 and no progress message is posted. */
  lemma {:induction false} NoProgressWhenChunkZero(iterations: int, n: int)
    requires iterations < 10
    ensures ProgressUpTo(iterations, n) == []
    decreases n
  {
    if n > 0 {
      NoProgressWhenChunkZero(iterations, n - 1);
    }
  }

  /**
   * The shape of a HEAVY_COMPUTATION answer: progress messages with percentages in [0, 100),
   * then exactly one COMPUTATION_COMPLETE, last; below ten iterations only the completion.
   */
  lemma HeavyShape(iterations: int, resultText: string)
    ensures var posted := HeavyMessages(iterations, resultText);
      posted != [] && posted[|posted| - 1] == ComputationComplete(Some(resultText)) &&
      (forall j :: 0 <= j < |posted| - 1 ==> posted[j].Progress? && 0 <= posted[j].progress < 100) &&
      (iterations < 10 ==> posted == [ComputationComplete(Some(resultText))])
  {
    ProgressInRange(iterations, iterations);
    if iterations < 10 {
      NoProgressWhenChunkZero(iterations, iterations);
    }
  }

  /**
   * `self.onmessage`: the messages the worker posts in answer to one request. `heavyResult` is
   * the text of the floating-point result of a HEAVY_COMPUTATION request, which is not modelled.
   */
  method OnMessage(request: Request, heavyResult: string) returns (posted: seq<WorkerMessage>)
    ensures request.kind == "CALCULATE_PRIMES" ==>
      posted == [PrimesResult(Primes.PrimesUpTo(request.limit), |Primes.PrimesUpTo(request.limit)|)]
    ensures request.kind == "FIBONACCI" ==> posted == [FibonacciResult(CalculateFibonacci(request.n))]
    ensures request.kind == "HEAVY_COMPUTATION" ==> posted == HeavyMessages(request.iterations, heavyResult)
    ensures request.kind !in {"CALCULATE_PRIMES", "FIBONACCI", "HEAVY_COMPUTATION"} ==>
      posted == [ErrorMessage("Unknown operation type")]
  {
    if request.kind == "CALCULATE_PRIMES" {
      var primes := Primes.CalculatePrimes(request.limit);
      posted := [PrimesResult(primes, |primes|)];
    } else if request.kind == "FIBONACCI" {
      posted := [FibonacciResult(CalculateFibonacci(request.n))];
    } else if request.kind == "HEAVY_COMPUTATION" {
      posted := PerformHeavyComputation(request.iterations, heavyResult);
    } else {
      posted := [ErrorMessage("Unknown operation type")];
    }
  }

  /** A PRIMES_RESULT reply lists exactly the primes up to the limit, ascending, with their count. */
  lemma PrimesReplyIsExact(limit: int, p: int)
    ensures var primes := Primes.PrimesUpTo(limit);
      (p in primes <==> 2 <= p <= limit && Primes.IsPrime(p)) &&
      (forall i, j :: 0 <= i < j < |primes| ==> primes[i] < primes[j]) &&
      (limit < 2 ==> primes == [])
  {
    Primes.PrimesUpToMembers(limit, p);
    Primes.PrimesUpToIncreasing(limit);
  }
}
