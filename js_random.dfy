/**
 * `Math.random()` as a parameter. A double in [0, 1) drawn by `Math.random()` is modelled as
 * k / 2^53 for an integer k in [0, 2^53); the expressions the generators build from it are
 * computed exactly on that rational, without the rounding of the double multiplication.
 */
module JsRandom {
  /** 2^53 */
  const Scale: int := 0x20_0000_0000_0000

  /** The numerator k of one draw k / 2^53. */
  type Draw = k: int | 0 <= k < 0x20_0000_0000_0000

  /** `Math.floor(Math.random() * n)` */
  function FloorTimes(k: Draw, n: nat): (r: nat)
    ensures n > 0 ==> r < n
    ensures n == 0 ==> r == 0
  {
    BelowScale(k, n);
    k * n / Scale
  }

  lemma BelowScale(k: Draw, n: nat)
    ensures 0 <= k * n / Scale
    ensures n > 0 ==> k * n / Scale < n
  {
    assert 0 <= k * n;
    if n > 0 {
      assert k * n < Scale * n;
    }
  }

  /** A larger draw never gives a smaller `Math.floor(Math.random() * n)`. */
  lemma FloorTimesMonotone(j: Draw, k: Draw, n: nat)
    requires j <= k
    ensures FloorTimes(j, n) <= FloorTimes(k, n)
  {
    assert j * n <= k * n;
  }

  /** Every value below n is produced by some draw, the draw `ceil(v * 2^53 / n)`, when n <= 2^53. */
  lemma FloorTimesReaches(v: nat, n: nat)
    requires v < n <= Scale
    ensures exists k: Draw :: FloorTimes(k, n) == v
  {
    var k := (v * Scale + n - 1) / n;
    var x := v * Scale + n - 1;
    assert x == n * k + x % n;
    assert v * Scale <= k * n <= x;
    assert (v + 1) * Scale <= n * Scale;
    assert k * n < Scale * n;
    MulCancel(k, n);
    var d: Draw := k;
    DivBetween(d * n, v);
    assert FloorTimes(d, n) == v;
  }

  lemma MulCancel(k: int, n: int)
    requires n > 0 && k * n < Scale * n
    ensures k < Scale
  {
  }

  lemma DivBetween(x: int, q: int)
    requires q * Scale <= x < q * Scale + Scale
    ensures x / Scale == q
  {
  }

  /**
   * `Math.random() > 0.3`. The literal 0.3 is the double 5404319552844595 / 2^54, so the test is
   * 2k > 5404319552844595, which holds exactly when 10k > 3 * 2^53.
   */
  predicate AboveThreeTenths(k: Draw) {
    2 * k > 5404319552844595
  }

  lemma AboveThreeTenthsIff(k: Draw)
    ensures AboveThreeTenths(k) <==> 10 * k > 3 * Scale
  {
  }

  /**
   * `(Math.random() * 5).toFixed(1)` in tenths: the multiple of 0.1 nearest to 5k / 2^53, the
   * larger one on a tie.
   */
  function TenthsOfFive(k: Draw): (t: nat)
    ensures t <= 50
    ensures 2 * t * Scale <= 100 * k + Scale < (2 * t + 2) * Scale
  {
    (100 * k + Scale) / (2 * Scale)
  }
}
