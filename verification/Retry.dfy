/** `RetryPolicy` and `retry` of retry.py, over real delays. */
module Retrying {
  import opened Basics

  type Value(!new)
  type Error(!new)

  datatype Policy = Policy(attempts: int, baseDelay: real, factor: real, maxDelay: real, jitter: bool)

  datatype PolicyError = TooFewAttempts | NegativeBase | ShrinkingFactor

  function CheckPolicy(p: Policy): (r: Result<(), PolicyError>)
    ensures r.Ok? <==> p.attempts >= 1 && p.baseDelay >= 0.0 && p.factor >= 1.0
    ensures r == Err(TooFewAttempts) <==> p.attempts < 1
    ensures r == Err(NegativeBase) <==> p.attempts >= 1 && p.baseDelay < 0.0
    ensures r == Err(ShrinkingFactor) <==> p.attempts >= 1 && p.baseDelay >= 0.0 && p.factor < 1.0
  {
    if p.attempts < 1 then Err(TooFewAttempts)
    else if p.baseDelay < 0.0 then Err(NegativeBase)
    else if p.factor < 1.0 then Err(ShrinkingFactor)
    else Ok(())
  }

  function Power(f: real, n: nat): real {
    if n == 0 then 1.0 else f * Power(f, n - 1)
  }

  function Max(x: real, y: real): real { if x <= y then y else x }

  /** What the m-th retry would wait without cap or jitter. */
  function Term(p: Policy, m: nat): real { p.baseDelay * Power(p.factor, m) }

  /** The delay before attempt `attempt`, without jitter; there is none before the first. */
  function Backoff(p: Policy, attempt: int): real {
    if attempt <= 1 then 0.0 else Min(p.maxDelay, Term(p, attempt - 2))
  }

  function DelayFor(p: Policy, attempt: int, rand: real): real {
    if attempt > 1 && p.jitter then Backoff(p, attempt) * rand else Backoff(p, attempt)
  }

  // ----- The delays ----------------------------------------------------------------------

  lemma Scale(f: real, x: real, y: real)
    requires f >= 0.0 && x <= y
    ensures f * x <= f * y
  {
  }

  lemma {:induction false} PowerGrows(f: real, n: nat)
    requires f >= 1.0
    ensures 1.0 <= Power(f, n) <= Power(f, n + 1)
  {
    if n > 0 {
      PowerGrows(f, n - 1);
      Scale(f, Power(f, n - 1), Power(f, n));
    } else {
      assert Power(f, 1) == f * Power(f, 0) == f;
    }
  }

  lemma TermGrows(p: Policy, n: nat)
    requires CheckPolicy(p).Ok?
    ensures Term(p, n) <= Term(p, n + 1)
  {
    PowerGrows(p.factor, n);
    Scale(p.baseDelay, Power(p.factor, n), Power(p.factor, n + 1));
  }

  lemma {:induction false} BackoffGrows(p: Policy, k: int, m: int)
    requires CheckPolicy(p).Ok? && 2 <= k <= m
    ensures Backoff(p, k) <= Backoff(p, m)
    decreases m - k
  {
    if k < m {
      TermGrows(p, k - 2);
      BackoffGrows(p, k + 1, m);
    }
  }

  lemma TermStep(p: Policy, m: nat)
    ensures Term(p, m + 1) == p.factor * Term(p, m)
  {
    var w := Power(p.factor, m);
    assert Power(p.factor, m + 1) == p.factor * w;
    assert p.baseDelay * (p.factor * w) == p.factor * (p.baseDelay * w);
  }

  /** The delays another way: the first retry waits the base delay, and each further one `factor`
      times the delay before it, as long as the cap allows. */
  lemma BackoffRecurrence(p: Policy, k: int)
    requires CheckPolicy(p).Ok? && p.maxDelay >= 0.0 && k >= 2
    ensures Backoff(p, 2) == Min(p.maxDelay, p.baseDelay)
    ensures Backoff(p, k + 1) == Min(p.maxDelay, p.factor * Backoff(p, k))
  {
    assert Term(p, 0) == p.baseDelay;
    TermStep(p, k - 2);
    if Term(p, k - 2) > p.maxDelay {
      Scale(p.factor, p.maxDelay, Term(p, k - 2));
      Scale(p.maxDelay, 1.0, p.factor);
      assert p.factor * p.maxDelay == p.maxDelay * p.factor >= p.maxDelay;
    }
  }

  lemma TermSign(p: Policy, m: nat)
    requires CheckPolicy(p).Ok?
    ensures Term(p, m) >= 0.0
  {
    PowerGrows(p.factor, m);
    Scale(p.baseDelay, 0.0, Power(p.factor, m));
  }

  lemma BackoffSign(p: Policy, attempt: int)
    requires CheckPolicy(p).Ok? && p.maxDelay >= 0.0
    ensures 0.0 <= Backoff(p, attempt) <= p.maxDelay
  {
    if attempt > 1 {
      TermSign(p, attempt - 2);
    }
  }

  /** Unjittered delays never shrink from one attempt to the next exactly when the cap is not
      negative; and a delay that has reached the cap stays there. */
  lemma NondecreasingExactly(p: Policy)
    requires CheckPolicy(p).Ok?
    ensures (forall k, m | 1 <= k <= m :: Backoff(p, k) <= Backoff(p, m)) <==> p.maxDelay >= 0.0
    ensures forall k, m | 2 <= k <= m :: Backoff(p, k) == p.maxDelay ==> Backoff(p, m) == p.maxDelay
  {
    forall k, m | 2 <= k <= m
      ensures Backoff(p, k) <= Backoff(p, m)
    {
      BackoffGrows(p, k, m);
    }
    if p.maxDelay >= 0.0 {
      forall k, m | 1 <= k <= m
        ensures Backoff(p, k) <= Backoff(p, m)
      {
        BackoffSign(p, m);
      }
    } else {
      assert Backoff(p, 1) > Backoff(p, 2);
    }
  }

  /** An accepted policy whose delays shrink: its cap is negative, which nobody checks. */
  lemma NegativeCapShrinks()
    ensures var p := Policy(3, 1.0, 2.0, -1.0, false);
            CheckPolicy(p).Ok? && Backoff(p, 1) == 0.0 && Backoff(p, 2) == -1.0
  {
    assert Term(Policy(3, 1.0, 2.0, -1.0, false), 0) == 1.0;
  }

  /** Jitter scales the delay with the draw, from nothing at 0 to the unjittered delay at 1; without
      jitter, and before the first attempt, the draw does not matter. */
  lemma JitterIsProportional(p: Policy, attempt: int, r: real, q: real)
    ensures DelayFor(p, attempt, 1.0) == Backoff(p, attempt)
    ensures !p.jitter || attempt <= 1 ==> DelayFor(p, attempt, r) == DelayFor(p, attempt, q)
    ensures p.jitter ==> DelayFor(p, attempt, 0.0) == 0.0
    ensures p.jitter ==> DelayFor(p, attempt, r) * q == DelayFor(p, attempt, q) * r
  {
    var x := Backoff(p, attempt);
    assert x * 1.0 == x && x * 0.0 == 0.0;
    assert attempt <= 1 ==> x == 0.0;
    assert x * r * q == x * q * r;
  }

  // ----- The total -----------------------------------------------------------------------

  /** Only a positive delay is slept at all. */
  function Slept(p: Policy, attempt: int, rand: real): real { Max(0.0, DelayFor(p, attempt, rand)) }

  /** Everything slept before attempt n ran. */
  function TotalSleep(p: Policy, rand: nat -> real, n: nat): real {
    if n == 0 then 0.0 else TotalSleep(p, rand, n - 1) + Slept(p, n, rand(n))
  }

  /** 1 + f + ... + f^(m-1). */
  function Geometric(f: real, m: nat): real {
    if m == 0 then 0.0 else Geometric(f, m - 1) + Power(f, m - 1)
  }

  ghost predicate UnitRand(rand: nat -> real) {
    forall n :: 0.0 <= rand(n) <= 1.0
  }

  lemma Shrink(x: real, r: real)
    requires 0.0 <= r <= 1.0
    ensures x >= 0.0 ==> 0.0 <= x * r <= x
    ensures x < 0.0 ==> x * r <= 0.0
  {
    if x >= 0.0 {
      Scale(x, r, 1.0);
      Scale(x, 0.0, r);
    } else {
      Scale(-x, 0.0, r);
      assert x * r == -((-x) * r);
    }
  }

  lemma JitterShrinks(p: Policy, attempt: int, r: real)
    requires 0.0 <= r <= 1.0
    ensures Slept(p, attempt, r) <= Max(0.0, Backoff(p, attempt))
  {
    var x := Backoff(p, attempt);
    var d := DelayFor(p, attempt, r);
    Shrink(x, r);
    assert d == x || d == x * r;
  }

  lemma DelayBounds(p: Policy, attempt: int, r: real)
    requires CheckPolicy(p).Ok? && 0.0 <= r <= 1.0 && attempt >= 2
    ensures Slept(p, attempt, r) <= Max(0.0, p.maxDelay)
    ensures Slept(p, attempt, r) <= Term(p, attempt - 2)
  {
    TermSign(p, attempt - 2);
    JitterShrinks(p, attempt, r);
    var x, s := Backoff(p, attempt), Slept(p, attempt, r);
    assert s <= Max(0.0, x) && x <= p.maxDelay && x <= Term(p, attempt - 2);
  }

  function Repeated(n: nat, x: real): real { n as real * x }

  lemma OneMore(n: nat, x: real)
    ensures Repeated(n + 1, x) == Repeated(n, x) + x
  {
  }

  lemma {:induction false} TotalWithinCap(p: Policy, rand: nat -> real, n: nat)
    requires CheckPolicy(p).Ok? && UnitRand(rand) && n >= 1
    ensures TotalSleep(p, rand, n) <= Repeated(n - 1, Max(0.0, p.maxDelay))
  {
    if n == 1 {
      assert TotalSleep(p, rand, 1) == TotalSleep(p, rand, 0) == 0.0;
    } else {
      TotalWithinCap(p, rand, n - 1);
      DelayBounds(p, n, rand(n));
      OneMore(n - 2, Max(0.0, p.maxDelay));
    }
  }

  /** What the geometric series allows, kept as a sum so that one more term is one more term. */
  function Allowed(p: Policy, m: nat): real {
    if m == 0 then 0.0 else Allowed(p, m - 1) + Term(p, m - 1)
  }

  lemma {:induction false} AllowedIsGeometric(p: Policy, m: nat)
    ensures Allowed(p, m) == p.baseDelay * Geometric(p.factor, m)
  {
    if m == 0 {
      assert p.baseDelay * 0.0 == 0.0;
    } else {
      AllowedIsGeometric(p, m - 1);
      Distribute(p.baseDelay, Geometric(p.factor, m - 1), Power(p.factor, m - 1));
    }
  }

  lemma {:induction false} TotalWithinGeometric(p: Policy, rand: nat -> real, n: nat)
    requires CheckPolicy(p).Ok? && UnitRand(rand) && n >= 1
    ensures TotalSleep(p, rand, n) <= Allowed(p, n - 1)
  {
    if n == 1 {
      assert TotalSleep(p, rand, 1) == TotalSleep(p, rand, 0) == 0.0;
    } else {
      TotalWithinGeometric(p, rand, n - 1);
      DelayBounds(p, n, rand(n));
    }
  }

  lemma {:induction false} PowerOfOne(n: nat)
    ensures Power(1.0, n) == 1.0
  {
    if n == 0 {
    } else {
      PowerOfOne(n - 1);
    }
  }

  lemma {:induction false} GeometricStep(f: real, m: nat)
    ensures f * Geometric(f, m) == Geometric(f, m) + Power(f, m) - 1.0
  {
    if m == 0 {
      assert f * 0.0 == 0.0;
    } else {
      GeometricStep(f, m - 1);
      Distribute(f, Geometric(f, m - 1), Power(f, m - 1));
    }
  }

  lemma GeometricSum(f: real, m: nat)
    ensures Geometric(f, m) * (f - 1.0) == Power(f, m) - 1.0
  {
    GeometricStep(f, m);
    var g := Geometric(f, m);
    assert g * (f - 1.0) == f * g - g;
  }

  lemma {:induction false} GeometricOfOne(m: nat)
    ensures Geometric(1.0, m) == m as real
  {
    if m == 0 {
    } else {
      GeometricOfOne(m - 1);
      PowerOfOne(m - 1);
    }
  }

  /** The sum of the series: (factor^m - 1) / (factor - 1) terms' worth of the base delay. */
  function Series(p: Policy, m: nat): real
    requires p.factor > 1.0
  {
    p.baseDelay * ((Power(p.factor, m) - 1.0) / (p.factor - 1.0))
  }

  lemma Quotient(g: real, d: real, w: real)
    requires d != 0.0 && g * d == w
    ensures g == w / d
  {
  }

  lemma AllowedIsSeries(p: Policy, m: nat)
    ensures p.factor > 1.0 ==> Allowed(p, m) == Series(p, m)
    ensures p.factor == 1.0 ==> Allowed(p, m) == p.baseDelay * m as real
  {
    AllowedIsGeometric(p, m);
    GeometricSum(p.factor, m);
    GeometricOfOne(m);
    if p.factor > 1.0 {
      Quotient(Geometric(p.factor, m), p.factor - 1.0, Power(p.factor, m) - 1.0);
    }
  }

  /** Whatever the random draws, n calls sleep no longer than n - 1 times the cap, and no longer
      than the geometric series: base * (factor^(n-1) - 1) / (factor - 1), or base * (n - 1). */
  lemma BackoffBudget(p: Policy, rand: nat -> real, n: nat)
    requires CheckPolicy(p).Ok? && UnitRand(rand) && n >= 1
    ensures TotalSleep(p, rand, n) <= Repeated(n - 1, Max(0.0, p.maxDelay))
    ensures p.factor > 1.0 ==> TotalSleep(p, rand, n) <= Series(p, n - 1)
    ensures p.factor == 1.0 ==> TotalSleep(p, rand, n) <= p.baseDelay * (n - 1) as real
  {
    TotalWithinCap(p, rand, n);
    TotalWithinGeometric(p, rand, n);
    AllowedIsSeries(p, n - 1);
  }

  /** The policy's delays reach the cap with retry number m, counted from 0, and not before. */
  ghost predicate CappedFrom(p: Policy, m: nat) {
    (forall i: nat | i < m :: Term(p, i) <= p.maxDelay) && (forall i: nat | i >= m :: Term(p, i) >= p.maxDelay)
  }

  /** Without jitter the total is exactly the geometric series up to the cap, and the cap from then
      on. */
  lemma {:induction false} UnjitteredTotal(p: Policy, rand: nat -> real, n: nat, m: nat)
    requires CheckPolicy(p).Ok? && !p.jitter && p.maxDelay >= 0.0 && n >= 1 && CappedFrom(p, m)
    ensures TotalSleep(p, rand, n) ==
            if n - 1 <= m then Allowed(p, n - 1) else Allowed(p, m) + Repeated(n - 1 - m, p.maxDelay)
  {
    if n == 1 {
      assert TotalSleep(p, rand, 1) == TotalSleep(p, rand, 0) == 0.0;
    } else {
      UnjitteredTotal(p, rand, n - 1, m);
      BackoffSign(p, n);
      assert Slept(p, n, rand(n)) == Min(p.maxDelay, Term(p, n - 2));
      if n - 1 > m {
        OneMore(n - 2 - m, p.maxDelay);
        assert n - 2 == m ==> Repeated(0, p.maxDelay) == 0.0;
      }
    }
  }

  // ----- The loop ------------------------------------------------------------------------

  /** What one call of the factory ends with. */
  datatype Attempt = Returned(value: Value) | Cancelled | Raised(error: Error)

  datatype RetryResult =
    | Success(value: Value)
    | CancelledOut
    | NotRetryable(error: Error)
    | Exhausted(attempts: int, last: Error)

  /** The attempts after which the loop goes round again. */
  predicate GoesOn(a: Attempt, retryOn: Error -> bool) {
    a.Raised? && retryOn(a.error)
  }

  /** `retry`, with the outcome of the k-th call and the k-th random draw as inputs. The factory
      runs until the first attempt that does not go on, and at most `attempts` times; the result
      is that attempt's, or the last error when the budget ran out. `slept` is the total of the
      sleeps, `noted` what `on_retry` was told. */
  method Retry(p: Policy, outcome: nat -> Attempt, rand: nat -> real, retryOn: Error -> bool)
    returns (r: RetryResult, calls: nat, slept: real, noted: seq<(int, Error, real)>)
    requires CheckPolicy(p).Ok?
    ensures 1 <= calls <= p.attempts
    ensures forall k: nat | 1 <= k < calls :: GoesOn(outcome(k), retryOn)
    ensures r.Exhausted? <==> GoesOn(outcome(calls), retryOn)
    ensures match r
            case Success(v) => outcome(calls) == Returned(v)
            case CancelledOut => outcome(calls) == Attempt.Cancelled
            case NotRetryable(e) => outcome(calls) == Raised(e) && !retryOn(e)
            case Exhausted(n, last) => n == calls == p.attempts && outcome(calls) == Raised(last)
    ensures slept == TotalSleep(p, rand, calls)
    ensures |noted| == if r.Exhausted? then calls else calls - 1
    ensures forall i: nat | i < |noted| ::
              outcome(i + 1) == Raised(noted[i].1) && noted[i].0 == i + 1
              && noted[i].2 == DelayFor(p, i + 1, rand(i + 1))
  {
    var last: Option<Error> := None;
    slept, noted, calls := 0.0, [], 0;
    while calls < p.attempts
      invariant 0 <= calls <= p.attempts && |noted| == calls
      invariant forall k: nat | 1 <= k <= calls :: GoesOn(outcome(k), retryOn)
      invariant slept == TotalSleep(p, rand, calls)
      invariant calls > 0 ==> last.Some? && outcome(calls) == Raised(last.value)
      invariant forall i: nat | i < |noted| ::
                  outcome(i + 1) == Raised(noted[i].1) && noted[i].0 == i + 1
                  && noted[i].2 == DelayFor(p, i + 1, rand(i + 1))
    {
      calls := calls + 1;
      var delay := DelayFor(p, calls, rand(calls));
      if delay > 0.0 {
        slept := slept + delay;
      }
      match outcome(calls) {
        case Returned(v) =>
          r := Success(v);
          return;
        case Cancelled =>
          r := CancelledOut;
          return;
        case Raised(e) =>
          if !retryOn(e) {
            r := NotRetryable(e);
            return;
          }
          last := Some(e);
          noted := noted + [(calls, e, delay)];
      }
    }
    r := Exhausted(p.attempts, last.value);
  }
}
