/**
 * Trial-division prime search, shared by the prime searches in the worker, on the main thread
 * of the web-workers page and in the expensive-calculation example: every number from 2 to the
 * limit is tried against the divisors 2, 3, ... up to its square root (`i <= Math.sqrt(num)`,
 * here `i * i <= num`) and pushed when none divides it.
 */
module Primes {

  predicate IsPrime(n: int) {
    n >= 2 && forall d :: 2 <= d < n ==> n % d != 0
  }

  /** The primes p with 2 <= p <= limit, ascending: the result every copy of the search promises. */
  function PrimesUpTo(limit: int): (r: seq<int>)
    decreases limit
  {
    if limit < 2 then [] else PrimesUpTo(limit - 1) + (if IsPrime(limit) then [limit] else [])
  }

  /** Exactly the primes in [2, limit] are listed. */
  lemma {:induction false} PrimesUpToMembers(limit: int, p: int)
    ensures p in PrimesUpTo(limit) <==> 2 <= p <= limit && IsPrime(p)
    decreases limit
  {
    if limit >= 2 {
      PrimesUpToMembers(limit - 1, p);
    }
  }

  /** The list is strictly increasing, so it has no duplicates. */
  lemma {:induction false} PrimesUpToIncreasing(limit: int)
    ensures forall i, j :: 0 <= i < j < |PrimesUpTo(limit)| ==> PrimesUpTo(limit)[i] < PrimesUpTo(limit)[j]
    decreases limit
  {
    if limit >= 2 {
      PrimesUpToIncreasing(limit - 1);
      var s := PrimesUpTo(limit - 1);
      forall i | 0 <= i < |s| ensures s[i] <= limit - 1 {
        PrimesUpToMembers(limit - 1, s[i]);
      }
    }
  }

  lemma PrimesUpToEmpty(limit: int)
    requires limit < 2
    ensures PrimesUpTo(limit) == []
  {
  }

  /** A number with a proper divisor has one whose square is at most the number. */
  lemma SmallDivisor(n: int, d: int) returns (e: int)
    requires 2 <= d < n && n % d == 0
    ensures 2 <= e && e * e <= n && n % e == 0
  {
    var q := n / d;
    assert n == d * q;
    if q < 2 {
      MulMonotone(d, q, 1);
    }
    if d <= q {
      MulMonotone(d, d, q);
      e := d;
    } else {
      MulMonotone(q, q, d);
      ModOfMultiple(q, d);
      e := q;
    }
  }

  lemma MulMonotone(a: int, b: int, c: int)
    requires 0 <= a && b <= c
    ensures a * b <= a * c
  {
    assert a * c - a * b == a * (c - b);
  }

  /** q divides q * d. */
  lemma ModOfMultiple(q: int, d: int)
    requires q > 0
    ensures (q * d) % q == 0
  {
    var t := (q * d) / q;
    var m := (q * d) % q;
    assert q * d == q * t + m && 0 <= m < q;
    assert q * (d - t) == m;
    if d - t >= 1 {
      MulMonotone(q, 1, d - t);
    } else if d - t <= -1 {
      MulMonotone(q, d - t, -1);
    }
  }

  lemma SquareMonotone(i: int, d: int)
    requires 0 <= i <= d
    ensures i * i <= d * d
  {
    assert i * i <= i * d <= d * d;
  }

  /** Trial division up to the square root suffices. */
  lemma NoSmallDivisorIsPrime(n: int, i: int)
    requires 2 <= i && n < i * i && 2 <= n
    requires forall d :: 2 <= d < i ==> n % d != 0
    ensures IsPrime(n)
  {
    forall d | 2 <= d < n ensures n % d != 0 {
      if n % d == 0 {
        var e := SmallDivisor(n, d);
        if e >= i {
          SquareMonotone(i, e);
        }
      }
    }
  }

  /** A divisor found by trial division shows the number is not prime. */
  lemma DivisorNotPrime(n: int, i: int)
    requires 2 <= i && i * i <= n && n % i == 0
    ensures !IsPrime(n)
  {
    MulMonotone(i, 2, i);
    assert i < n;
  }

  /** `calculatePrimes(limit)`: the nested trial-division loop with its early `break`. */
  method CalculatePrimes(limit: int) returns (primes: seq<int>)
    ensures primes == PrimesUpTo(limit)
  {
    primes := [];
    var num := 2;
    while num <= limit
      invariant 2 <= num <= if limit >= 2 then limit + 1 else 2
      invariant primes == PrimesUpTo(num - 1)
    {
      var isPrime := true;
      var i := 2;
      while i * i <= num
        invariant 2 <= i
        invariant forall d :: 2 <= d < i ==> num % d != 0
      {
        if num % i == 0 {
          isPrime := false;
          break;
        }
        i := i + 1;
      }
      if isPrime {
        NoSmallDivisorIsPrime(num, i);
      } else {
        DivisorNotPrime(num, i);
      }
      if isPrime {
        primes := primes + [num];
      }
      num := num + 1;
    }
    if limit < 2 {
      assert primes == PrimesUpTo(1) == [];
      PrimesUpToEmpty(limit);
    } else {
      assert num == limit + 1;
    }
  }
}
