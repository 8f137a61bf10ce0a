/** Retry policies. Durations are integer nanoseconds; float64 arithmetic is done over reals. */
module Retry {
  const BACKOFF_NONE := "none"
  const BACKOFF_CONSTANT := "constant"
  const BACKOFF_LINEAR := "linear"

  const DEFAULT_MAX_ATTEMPTS := 3

  datatype Policy = Policy(
    maxAttempts: int,
    backoff: string,
    initialDelay: int,
    maxDelay: int,
    multiplier: real,
    jitter: bool,
    retryableErrors: seq<string>)
  {
    /** Zero-valued fields are inherited; jitter and retryableErrors never are. */
    function Merge(fallback: Policy): Policy {
      this.(
        maxAttempts := if maxAttempts == 0 then fallback.maxAttempts else maxAttempts,
        backoff := if backoff == "" then fallback.backoff else backoff,
        initialDelay := if initialDelay == 0 then fallback.initialDelay else initialDelay,
        maxDelay := if maxDelay == 0 then fallback.maxDelay else maxDelay,
        multiplier := if multiplier == 0.0 then fallback.multiplier else multiplier)
    }

    function AttemptLimit(): int {
      if maxAttempts == 0 then DEFAULT_MAX_ATTEMPTS else maxAttempts
    }

    predicate ShouldRetry(attempt: int) {
      attempt < AttemptLimit()
    }

    function Growth(): real {
      if multiplier == 0.0 then 2.0 else multiplier
    }

    /** The delay before capping, rounding and jitter. */
    function RawDelay(attempt: int): real {
      if attempt <= 1 || backoff == BACKOFF_NONE then 0.0
      else if backoff == BACKOFF_CONSTANT then initialDelay as real
      else if backoff == BACKOFF_LINEAR then initialDelay as real * (attempt - 1) as real
      else initialDelay as real * Pow(Growth(), attempt - 2)
    }

    predicate Capped(attempt: int) {
      maxDelay > 0 && RawDelay(attempt) > maxDelay as real
    }

    function BaseDelay(attempt: int): int {
      Truncate(if Capped(attempt) then maxDelay as real else RawDelay(attempt))
    }

    /** The wait before an attempt, for the random draw u in [0, 1). */
    function Delay(attempt: int, u: real): int {
      var d := BaseDelay(attempt);
      if attempt <= 1 || backoff == BACKOFF_NONE then 0
      else if jitter && d > 0 then
        var jittered := d + Truncate(Spread(d as real * 0.25, u));
        if jittered < 0 then 0 else jittered
      else d
    }
  }

  /** A draw from [0, 1) stretched over [-range, range). */
  function Spread(range: real, u: real): real {
    u * 2.0 * range - range
  }

  function Pow(base: real, exponent: nat): real {
    if exponent == 0 then 1.0 else base * Pow(base, exponent - 1)
  }

  /** Conversion of a float64 to an integer rounds toward zero. */
  function Truncate(x: real): int {
    if x >= 0.0 then x.Floor else -((-x).Floor)
  }

  /** What the backoff formulas are meant for. */
  predicate Sensible(p: Policy) {
    p.initialDelay >= 0 && p.Growth() >= 1.0
  }

  lemma {:induction false} PowGrows(base: real, exponent: nat)
    requires base >= 1.0
    ensures 1.0 <= Pow(base, exponent) <= Pow(base, exponent + 1)
  {
    if exponent > 0 {
      PowGrows(base, exponent - 1);
      var rest := Pow(base, exponent - 1);
      assert Pow(base, exponent) == base * rest >= rest;
    }
    var here := Pow(base, exponent);
    assert base * here >= here;
  }

  lemma ScaleMonotone(scale: real, a: real, b: real)
    requires scale >= 0.0 && a <= b
    ensures scale * a <= scale * b
  {
  }

  lemma RawDelayGrows(p: Policy, attempt: int)
    requires Sensible(p)
    ensures 0.0 <= p.RawDelay(attempt) <= p.RawDelay(attempt + 1)
  {
    if attempt >= 1 && p.backoff != BACKOFF_NONE && p.backoff != BACKOFF_CONSTANT {
      var d := p.initialDelay as real;
      if p.backoff == BACKOFF_LINEAR {
        ScaleMonotone(d, 0.0, (attempt - 1) as real);
        ScaleMonotone(d, (attempt - 1) as real, attempt as real);
      } else {
        if attempt >= 2 {
          PowGrows(p.Growth(), attempt - 2);
          ScaleMonotone(d, 0.0, Pow(p.Growth(), attempt - 2));
          ScaleMonotone(d, Pow(p.Growth(), attempt - 2), Pow(p.Growth(), attempt - 1));
        } else {
          ScaleMonotone(d, 0.0, Pow(p.Growth(), 0));
        }
      }
    }
  }

  /** The unjittered wait never shrinks from one attempt to the next, and a positive MaxDelay
      bounds it. */
  lemma BaseDelayGrows(p: Policy, attempt: int)
    requires Sensible(p)
    ensures 0 <= p.BaseDelay(attempt) <= p.BaseDelay(attempt + 1)
    ensures p.maxDelay > 0 ==> p.BaseDelay(attempt) <= p.maxDelay
  {
    RawDelayGrows(p, attempt);
  }

  lemma SpreadWithin(range: real, u: real)
    requires range >= 0.0 && 0.0 <= u < 1.0
    ensures -range <= Spread(range, u) <= range
  {
    ScaleMonotone(range, 0.0, u);
    ScaleMonotone(range, u, 1.0);
    assert u * 2.0 * range == 2.0 * (range * u);
  }

  lemma TruncateWithin(x: real, d: int)
    requires -(d as real * 0.25) <= x <= d as real * 0.25
    ensures -d <= 4 * Truncate(x) <= d
  {
    var y := if x >= 0.0 then x else -x;
    assert y.Floor as real <= y;
    assert (4 * y.Floor) as real <= d as real;
  }

  /** Jitter moves a wait by at most a quarter of it, either way. */
  lemma JitterWithinQuarter(p: Policy, attempt: int, u: real)
    requires Sensible(p) && 0.0 <= u < 1.0
    ensures p.Delay(attempt, u) >= 0
    ensures 3 * p.BaseDelay(attempt) <= 4 * p.Delay(attempt, u) <= 5 * p.BaseDelay(attempt)
  {
    BaseDelayGrows(p, attempt);
    var d := p.BaseDelay(attempt);
    SpreadWithin(d as real * 0.25, u);
    TruncateWithin(Spread(d as real * 0.25, u), d);
    assert attempt <= 1 || p.backoff == BACKOFF_NONE ==> d == 0;
  }

  lemma BaseDelayDoubles(p: Policy, attempt: int)
    requires Sensible(p) && attempt >= 2 && p.Growth() == 2.0
    requires p.backoff !in {BACKOFF_NONE, BACKOFF_CONSTANT, BACKOFF_LINEAR}
    requires !p.Capped(attempt + 1)
    ensures 2 * p.BaseDelay(attempt) <= p.BaseDelay(attempt + 1)
  {
    RawDelayGrows(p, attempt);
    var d, pow := p.initialDelay as real, Pow(2.0, attempt - 2);
    assert p.RawDelay(attempt) == d * pow;
    assert p.RawDelay(attempt + 1) == d * (2.0 * pow) == 2.0 * (d * pow);
  }

  /** Uncapped waits that double keep their order whatever the two random draws are. */
  lemma DoublingDelaysKeepOrder(p: Policy, attempt: int, u: real, v: real)
    requires Sensible(p) && attempt >= 2 && p.Growth() == 2.0
    requires p.backoff !in {BACKOFF_NONE, BACKOFF_CONSTANT, BACKOFF_LINEAR}
    requires !p.Capped(attempt + 1)
    requires 0.0 <= u < 1.0 && 0.0 <= v < 1.0
    ensures p.Delay(attempt, u) <= p.Delay(attempt + 1, v)
  {
    BaseDelayGrows(p, attempt);
    BaseDelayDoubles(p, attempt);
    JitterWithinQuarter(p, attempt, u);
    JitterWithinQuarter(p, attempt + 1, v);
  }

  /** The sleeps of a step that makes `attempts` attempts, with one random draw per retry. */
  function TotalWait(p: Policy, attempts: nat, draws: seq<real>): int
    requires |draws| >= attempts
  {
    if attempts == 0 then 0 else TotalWait(p, attempts - 1, draws) + p.Delay(attempts, draws[attempts - 1])
  }

  lemma OneMore(n: int, m: int)
    ensures (n + 1) * m == n * m + m
  {
  }

  /** A step waits at most (attempts - 1) * 1.25 * MaxDelay. */
  lemma {:induction false} TotalWaitBounded(p: Policy, attempts: nat, draws: seq<real>)
    requires Sensible(p) && p.maxDelay > 0
    requires 1 <= attempts <= |draws| && forall k :: 0 <= k < |draws| ==> 0.0 <= draws[k] < 1.0
    ensures 4 * TotalWait(p, attempts, draws) <= (attempts - 1) * (5 * p.maxDelay)
  {
    if attempts > 1 {
      hide Policy.Delay, Policy.BaseDelay;
      TotalWaitBounded(p, attempts - 1, draws);
      JitterWithinQuarter(p, attempts, draws[attempts - 1]);
      BaseDelayGrows(p, attempts);
      OneMore(attempts - 2, 5 * p.maxDelay);
    } else {
      assert TotalWait(p, 0, draws) == 0;
    }
  }

  /** The delays before capping, by how they start and how they go on: nothing before the first attempt,
      the initial delay before the second, and from then on the same again, one more initial delay, or
      the multiple. */
  lemma DelaysExactly(p: Policy, attempt: int)
    ensures attempt <= 1 || p.backoff == "none" ==> p.RawDelay(attempt) == 0.0
    ensures p.backoff != "none" ==> p.RawDelay(2) == p.initialDelay as real
    ensures attempt >= 2 ==>
      var growth := if p.multiplier == 0.0 then 2.0 else p.multiplier;
      var now, later := p.RawDelay(attempt), p.RawDelay(attempt + 1);
      if p.backoff == "none" then later == 0.0
      else if p.backoff == "constant" then later == now
      else if p.backoff == "linear" then later == now + p.initialDelay as real
      else later == growth * now
  {
    if attempt >= 2 {
      var d, power := p.initialDelay as real, Pow(p.Growth(), attempt - 2);
      assert d * (p.Growth() * power) == p.Growth() * (d * power);
      assert d * attempt as real == d * (attempt - 1) as real + d;
    }
    assert Pow(p.Growth(), 0) == 1.0;
  }

  /** None of the inherited fields is set. */
  predicate Unset(p: Policy) {
    p.maxAttempts == 0 && p.backoff == "" && p.initialDelay == 0 && p.maxDelay == 0 && p.multiplier == 0.0
  }

  /** All of them are. */
  predicate FullySet(p: Policy) {
    p.maxAttempts != 0 && p.backoff != "" && p.initialDelay != 0 && p.maxDelay != 0 && p.multiplier != 0.0
  }

  /** Merging fills in exactly what is unset, and defaults may be merged in any grouping. Jitter and
      retryable errors are always the policy's own. */
  lemma MergeLaws(p: Policy, q: Policy, r: Policy)
    ensures Unset(p) ==> p.Merge(q) == q.(jitter := p.jitter, retryableErrors := p.retryableErrors)
    ensures FullySet(p) || Unset(q) ==> p.Merge(q) == p
    ensures p.Merge(q).Merge(r) == p.Merge(q.Merge(r))
    ensures p.Merge(q).jitter == p.jitter && p.Merge(q).retryableErrors == p.retryableErrors
  {
  }

  /** Without jitter every draw gives the same wait. With jitter the waits grow with the draw, from three
      quarters of the unjittered one, through that itself at the middle of the range, up to within the
      truncation of five quarters. */
  lemma JitterSpans(p: Policy, attempt: int, u: real, v: real)
    requires Sensible(p) && 0.0 <= u <= v < 1.0
    ensures !p.jitter ==> p.Delay(attempt, u) == p.BaseDelay(attempt)
    ensures p.Delay(attempt, u) <= p.Delay(attempt, v)
    ensures p.Delay(attempt, 0.5) == p.BaseDelay(attempt)
    ensures p.jitter ==> 4 * p.Delay(attempt, 0.0) <= 3 * p.BaseDelay(attempt) + 3
    ensures p.jitter && u >= 0.75 ==> 8 * p.Delay(attempt, u) >= 9 * p.BaseDelay(attempt) - 8
  {
    BaseDelayGrows(p, attempt);
    JitterWithinQuarter(p, attempt, 0.0);
    JitterWithinQuarter(p, attempt, u);
    JitterWithinQuarter(p, attempt, v);
    var d := p.BaseDelay(attempt);
    var range := d as real * 0.25;
    SpreadGrows(range, u, v);
    SpreadGrows(range, if u >= 0.75 then 0.75 else u, u);
    TruncateGrows(Spread(range, u), Spread(range, v));
    TruncateNear(Spread(range, u));
    TruncateNear(Spread(range, 0.0));
    assert Spread(range, 0.5) == 0.0 && Spread(range, 0.0) == -range && Spread(range, 0.75) == range * 0.5;
    assert attempt <= 1 || p.backoff == BACKOFF_NONE ==> d == 0;
    hide Policy.BaseDelay, Spread, Truncate;
  }

  lemma SpreadGrows(range: real, u: real, v: real)
    requires range >= 0.0 && u <= v
    ensures Spread(range, u) <= Spread(range, v)
  {
    ScaleMonotone(range, u, v);
    assert u * 2.0 * range == 2.0 * (range * u) && v * 2.0 * range == 2.0 * (range * v);
  }

  lemma TruncateGrows(x: real, y: real)
    requires x <= y
    ensures Truncate(x) <= Truncate(y)
  {
  }

  lemma TruncateNear(x: real)
    ensures x - 1.0 < Truncate(x) as real < x + 1.0
  {
  }
}
