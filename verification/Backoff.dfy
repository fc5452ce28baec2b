/** `retry_with_backoff`, with delays as reals. */
module Backoff {

  /** One call of the function: a value, an exception that is retried, or one that is not. */
  datatype Attempt<T> = Value(value: T) | Retryable(error: string) | Fatal(error: string)

  datatype Outcome<T> = Returned(value: T) | RaisedRetryable(error: string) | RaisedFatal(error: string) | Unknown

  function Power(x: real, n: nat): real {
    if n == 0 then 1.0 else x * Power(x, n - 1)
  }

  function Min(a: real, b: real): real {
    if a <= b then a else b
  }

  /** The delay after attempt `k`. */
  function Delay(initial: real, factor: real, max: real, k: nat): real {
    Min(initial * Power(factor, k), max)
  }

  function Delays(initial: real, factor: real, max: real, n: nat): (ds: seq<real>)
    ensures |ds| == n
  {
    seq(n, k requires 0 <= k < n => Delay(initial, factor, max, k))
  }

  function Sum(xs: seq<real>): real {
    if xs == [] then 0.0 else Sum(xs[..|xs| - 1]) + xs[|xs| - 1]
  }

  function OutcomeOf<T>(a: Attempt<T>): Outcome<T> {
    match a
    case Value(v) => Returned(v)
    case Retryable(e) => RaisedRetryable(e)
    case Fatal(e) => RaisedFatal(e)
  }

  /** The function is called until it does not fail retryably, at most `maxRetries` + 1 times; between two
      calls there is one delay. `attempt(k)` is what call `k` does. */
  method RetryWithBackoff<T>(attempt: nat -> Attempt<T>, maxRetries: int, initial: real, factor: real, max: real)
      returns (r: Outcome<T>, calls: nat, sleeps: seq<real>)
    ensures maxRetries < 0 ==> r == Unknown && calls == 0 && sleeps == []
    ensures maxRetries >= 0 ==> 1 <= calls <= maxRetries + 1 && r == OutcomeOf(attempt(calls - 1))
    ensures forall k: nat | k < calls - 1 :: attempt(k).Retryable?
    ensures maxRetries >= 0 ==>
      (r.RaisedRetryable? <==> forall k: nat | k <= maxRetries :: attempt(k).Retryable?)
    ensures r.RaisedRetryable? ==> calls == maxRetries + 1
    ensures calls > 0 ==> sleeps == Delays(initial, factor, max, calls - 1)
  {
    r, calls, sleeps := Unknown, 0, [];
    var k := 0;
    while k < maxRetries + 1
      invariant 0 <= k && calls == k && r == Unknown
      invariant forall i: nat | i < k :: attempt(i).Retryable?
      invariant sleeps == Delays(initial, factor, max, k)
      invariant maxRetries >= 0 ==> k <= maxRetries
      invariant maxRetries < 0 ==> k == 0
    {
      calls := calls + 1;
      match attempt(k) {
        case Value(v) => return Returned(v), calls, sleeps;
        case Fatal(e) => return RaisedFatal(e), calls, sleeps;
        case Retryable(e) =>
          if k == maxRetries {
            return RaisedRetryable(e), calls, sleeps;
          }
          sleeps := sleeps + [Delay(initial, factor, max, k)];
      }
      k := k + 1;
    }
  }

  // ----- how long it sleeps -----

  /** The first delay is the initial one, each next one `factor` times the last, and none more than `max`. */
  lemma {:induction false} DelaysGrow(initial: real, factor: real, max: real, k: nat)
    requires factor >= 1.0 && max >= 0.0
    ensures Delay(initial, factor, max, 0) == if initial <= max then initial else max
    ensures var next := factor * Delay(initial, factor, max, k);
      Delay(initial, factor, max, k + 1) == if next <= max then next else max
  {
    var p := Power(factor, k);
    assert initial * Power(factor, k + 1) == factor * (initial * p);
    if initial * p > max {
      ScaleUp(factor, max);
      ScaleUp(factor, initial * p);
      MulMonotone(factor, max, initial * p);
    }
  }

  lemma {:induction false} PowerGrows(x: real, n: nat)
    requires x >= 1.0
    ensures 1.0 <= Power(x, n) <= Power(x, n + 1)
  {
    if n > 0 {
      PowerGrows(x, n - 1);
      ScaleUp(x, Power(x, n));
    } else {
      assert Power(x, 1) == x * Power(x, 0) == x;
    }
  }

  lemma {:induction false} ScaleUp(x: real, y: real)
    requires x >= 1.0 && y >= 0.0
    ensures x * y >= y
  {
    assert x * y - y == (x - 1.0) * y;
  }

  lemma {:induction false} MulMonotone(c: real, x: real, y: real)
    requires c >= 0.0 && x <= y
    ensures c * x <= c * y
  {
    assert c * (y - x) >= 0.0;
  }

  /** Delays never decrease, and never exceed the maximum. */
  lemma {:induction false} DelaysIncrease(initial: real, factor: real, max: real, n: nat)
    requires initial >= 0.0 && factor >= 1.0
    ensures var ds := Delays(initial, factor, max, n);
      (forall j, k | 0 <= j <= k < n :: ds[j] <= ds[k]) && forall k | 0 <= k < n :: ds[k] <= max
  {
    forall j, k | 0 <= j <= k < n ensures Delay(initial, factor, max, j) <= Delay(initial, factor, max, k) {
      DelayLater(initial, factor, max, j, k);
    }
  }

  lemma {:induction false} DelayLater(initial: real, factor: real, max: real, j: nat, k: nat)
    requires initial >= 0.0 && factor >= 1.0 && j <= k
    ensures Delay(initial, factor, max, j) <= Delay(initial, factor, max, k)
  {
    if j < k {
      DelayLater(initial, factor, max, j, k - 1);
      PowerGrows(factor, k - 1);
      MulMonotone(initial, Power(factor, k - 1), Power(factor, k));
    }
  }

  lemma {:induction false} SumMore(initial: real, factor: real, max: real, n: nat)
    ensures Sum(Delays(initial, factor, max, n + 1))
            == Sum(Delays(initial, factor, max, n)) + Delay(initial, factor, max, n)
  {
    var ds := Delays(initial, factor, max, n + 1);
    assert ds[..n] == Delays(initial, factor, max, n);
  }

  /** All sleeps together last at most `n` maximal delays. */
  lemma {:induction false} TotalAtMost(initial: real, factor: real, max: real, n: nat)
    ensures Sum(Delays(initial, factor, max, n)) <= n as real * max
  {
    if n > 0 {
      TotalAtMost(initial, factor, max, n - 1);
      SumMore(initial, factor, max, n - 1);
      assert n as real * max == (n - 1) as real * max + max;
    }
  }

  /** ... and at most the geometric sum. */
  lemma {:induction false} TotalGeometric(initial: real, factor: real, max: real, n: nat)
    requires initial >= 0.0 && factor > 1.0
    ensures Sum(Delays(initial, factor, max, n)) <= initial * (Power(factor, n) - 1.0) / (factor - 1.0)
  {
    GeometricScaled(initial, factor, max, n);
    DivideBound(Sum(Delays(initial, factor, max, n)), initial * (Power(factor, n) - 1.0), factor - 1.0);
  }

  lemma {:induction false} DivideBound(x: real, y: real, c: real)
    requires c > 0.0 && c * x <= y
    ensures x <= y / c
  {
    var q := y / c;
    assert c * q == y;
    assert x > q ==> c * x > c * q;
  }

  lemma {:induction false} GeometricScaled(initial: real, factor: real, max: real, n: nat)
    requires initial >= 0.0 && factor > 1.0
    ensures (factor - 1.0) * Sum(Delays(initial, factor, max, n)) <= initial * (Power(factor, n) - 1.0)
  {
    hide Power, Sum, Delays, Delay;
    if n == 0 {
      GeometricStart(initial, factor, max);
    } else {
      var p, before := Power(factor, n - 1), Sum(Delays(initial, factor, max, n - 1));
      GeometricScaled(initial, factor, max, n - 1);
      SumMore(initial, factor, max, n - 1);
      var d := Delay(initial, factor, max, n - 1);
      DelayBelow(initial, factor, max, n - 1);
      MulMonotone(factor - 1.0, d, initial * p);
      GeometricStep(factor - 1.0, before, d, initial, p, factor * p);
    }
  }

  lemma {:induction false} DelayBelow(initial: real, factor: real, max: real, k: nat)
    ensures Delay(initial, factor, max, k) <= initial * Power(factor, k)
    ensures Power(factor, k + 1) == factor * Power(factor, k)
  {
  }

  lemma {:induction false} GeometricStart(initial: real, factor: real, max: real)
    ensures Sum(Delays(initial, factor, max, 0)) == 0.0 && Power(factor, 0) == 1.0
  {
  }

  lemma {:induction false} GeometricStep(c: real, before: real, d: real, initial: real, p: real, q: real)
    requires c * before <= initial * (p - 1.0) && c * d <= c * (initial * p) && q == (c + 1.0) * p
    ensures c * (before + d) <= initial * (q - 1.0)
  {
    assert c * (before + d) == c * before + c * d;
    assert c * (initial * p) == initial * (c * p);
    assert q - 1.0 == c * p + (p - 1.0);
    assert initial * (q - 1.0) == initial * (c * p) + initial * (p - 1.0);
  }
}
