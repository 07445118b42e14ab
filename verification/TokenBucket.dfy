/** The lazy rate limiter of sync.py over real numbers, with the injected clock as an input. */
module RateLimiter {
  import opened Basics

  /** The bucket's state; `rate` and `capacity` never change after construction. */
  datatype Bucket = Bucket(rate: real, capacity: real, tokens: real, updated: real)

  predicate WellMade(b: Bucket) {
    b.rate > 0.0 && b.capacity > 0.0 && b.tokens <= b.capacity
  }

  function Refill(b: Bucket, now: real): Bucket {
    if now - b.updated <= 0.0 then b.(updated := now)
    else b.(tokens := Min(b.capacity, b.tokens + (now - b.updated) * b.rate), updated := now)
  }

  function Take(b: Bucket, amount: real): Bucket {
    b.(tokens := b.tokens - amount)
  }

  /** What the outside does to a bucket: read `tokens`, or call `try_acquire`. */
  datatype Event = Read(now: real) | Try(now: real, amount: real)

  predicate Granted(b: Bucket, e: Event) {
    e.Try? && Refill(b, e.now).tokens >= e.amount
  }

  function Step(b: Bucket, e: Event): Bucket {
    if Granted(b, e) then Take(Refill(b, e.now), e.amount) else Refill(b, e.now)
  }

  function Run(b: Bucket, es: seq<Event>): Bucket {
    if es == [] then b else Step(Run(b, es[..|es| - 1]), es[|es| - 1])
  }

  /** The attempts of a run that were granted, in order. */
  function Grants(b: Bucket, es: seq<Event>): (gs: seq<Event>)
    ensures forall g | g in gs :: g.Try? && g in es
  {
    if es == [] then []
    else
      var n := |es| - 1;
      Grants(b, es[..n]) + (if Granted(Run(b, es[..n]), es[n]) then [es[n]] else [])
  }

  function Amount(e: Event): real { if e.Try? then e.amount else 0.0 }

  function Total(gs: seq<Event>): real {
    if gs == [] then 0.0 else Total(gs[..|gs| - 1]) + Amount(gs[|gs| - 1])
  }

  predicate NoNegative(es: seq<Event>) {
    forall i | 0 <= i < |es| :: Amount(es[i]) >= 0.0
  }

  /** The clock never runs backwards, and no attempt is negative. */
  predicate Ordinary(b: Bucket, es: seq<Event>) {
    && NoNegative(es)
    && (forall i | 0 <= i < |es| :: b.updated <= es[i].now)
    && (forall i, j | 0 <= i < j < |es| :: es[i].now <= es[j].now)
  }

  function LastTime(b: Bucket, es: seq<Event>): real {
    if es == [] then b.updated else es[|es| - 1].now
  }

  // ----- Exactness -----------------------------------------------------------------------

  /** The window from the j-th grant to `t` has room for `x` more tokens. */
  predicate WindowFits(rate: real, capacity: real, gs: seq<Event>, j: nat, t: real, x: real)
    requires j < |gs|
  {
    Total(gs[j..]) + x <= capacity + rate * (t - gs[j].now)
  }

  /** No window that ends at `t` would be overrun by `x` more tokens: not the empty one, and
      not one opened by an earlier grant. This mentions no bucket level at all. */
  ghost predicate Fits(rate: real, capacity: real, gs: seq<Event>, t: real, x: real) {
    x <= capacity && forall j | 0 <= j < |gs| :: WindowFits(rate, capacity, gs, j, t, x)
  }

  lemma {:induction false} TotalSplit(a: seq<Event>, b: seq<Event>)
    ensures Total(a + b) == Total(a) + Total(b)
    decreases |b|
  {
    if b == [] {
      assert a + b == a;
    } else {
      var n := |b| - 1;
      assert (a + b)[..|a + b| - 1] == a + b[..n];
      TotalSplit(a, b[..n]);
    }
  }

  lemma TotalOfOne(e: Event)
    ensures Total([e]) == Amount(e)
  {
    assert [e][..0] == [];
  }

  lemma RunTime(b: Bucket, es: seq<Event>)
    ensures Run(b, es).updated == LastTime(b, es)
    ensures Run(b, es).rate == b.rate && Run(b, es).capacity == b.capacity
  {
  }

  /** A grant opens a window of its own and lengthens every older one. */
  lemma WindowAfterGrant(rate: real, capacity: real, gs: seq<Event>, g: Event, j: nat, t: real, x: real)
    requires g.Try? && j <= |gs|
    ensures WindowFits(rate, capacity, gs + [g], j, t, x) <==>
            if j < |gs| then WindowFits(rate, capacity, gs, j, g.now, x + g.amount - rate * (t - g.now))
            else x + g.amount - rate * (t - g.now) <= capacity
  {
    assert (gs + [g])[j..] == gs[j..] + [g];
    TotalSplit(gs[j..], [g]);
    TotalOfOne(g);
    if j < |gs| {
      assert (gs + [g])[j] == gs[j];
      assert rate * (t - gs[j].now) == rate * (t - g.now) + rate * (g.now - gs[j].now);
    }
  }

  lemma FitsAfterGrant(rate: real, capacity: real, gs: seq<Event>, g: Event, t: real, x: real)
    requires rate > 0.0 && g.Try? && g.amount >= 0.0 && g.now <= t
    ensures Fits(rate, capacity, gs + [g], t, x) <==>
            x <= capacity && Fits(rate, capacity, gs, g.now, x + g.amount - rate * (t - g.now))
  {
    var y := x + g.amount - rate * (t - g.now);
    forall j: nat | j <= |gs|
      ensures WindowFits(rate, capacity, gs + [g], j, t, x) <==>
              if j < |gs| then WindowFits(rate, capacity, gs, j, g.now, y) else y <= capacity
    {
      WindowAfterGrant(rate, capacity, gs, g, j, t, x);
    }
    if Fits(rate, capacity, gs + [g], t, x) {
      assert WindowFits(rate, capacity, gs + [g], |gs|, t, x);
    }
  }

  lemma Sign(d: real, rate: real)
    requires rate > 0.0
    ensures d > 0.0 ==> d * rate > 0.0
    ensures d < 0.0 ==> d * rate < 0.0
    ensures d == 0.0 ==> d * rate == 0.0
  {
  }

  /** A refill in terms of what the elapsed time is worth. */
  lemma RefillGains(b: Bucket, now: real, moved: real, gain: real)
    requires moved == now - b.updated && gain == moved * b.rate
    ensures Refill(b, now) ==
            b.(tokens := if moved <= 0.0 then b.tokens else Min(b.capacity, b.tokens + gain), updated := now)
  {
  }

  /** The two refills of a detour through `t1` next to the direct one. */
  lemma Detour(b: Bucket, t1: real, t2: real) returns (g0: real, g1: real, g2: real)
    requires b.rate > 0.0
    ensures g0 == g1 + g2
    ensures (t2 > b.updated <==> g0 > 0.0) && (t1 > b.updated <==> g1 > 0.0) && (t2 > t1 <==> g2 > 0.0)
    ensures (t2 < b.updated <==> g0 < 0.0) && (t1 < b.updated <==> g1 < 0.0) && (t2 < t1 <==> g2 < 0.0)
    ensures Refill(b, t2) == b.(tokens := if g0 <= 0.0 then b.tokens else Min(b.capacity, b.tokens + g0), updated := t2)
    ensures Refill(b, t1) == b.(tokens := if g1 <= 0.0 then b.tokens else Min(b.capacity, b.tokens + g1), updated := t1)
    ensures var m := Refill(b, t1);
            Refill(m, t2) == m.(tokens := if g2 <= 0.0 then m.tokens else Min(b.capacity, m.tokens + g2), updated := t2)
  {
    var d0, d1, d2 := t2 - b.updated, t1 - b.updated, t2 - t1;
    g0, g1, g2 := d0 * b.rate, d1 * b.rate, d2 * b.rate;
    assert d0 == d1 + d2;
    assert (d1 + d2) * b.rate == g1 + g2;
    Sign(d0, b.rate);
    Sign(d1, b.rate);
    Sign(d2, b.rate);
    RefillGains(b, t2, d0, g0);
    RefillGains(b, t1, d1, g1);
    RefillGains(Refill(b, t1), t2, d2, g2);
  }

  lemma RefillTwice(b: Bucket, t1: real, t2: real)
    requires WellMade(b) && b.updated <= t1 <= t2
    ensures Refill(Refill(b, t1), t2) == Refill(b, t2)
  {
    var g0, g1, g2 := Detour(b, t1, t2);
  }

  lemma {:induction false} RunStaysWellMade(b: Bucket, es: seq<Event>)
    requires WellMade(b) && NoNegative(es)
    ensures WellMade(Run(b, es))
  {
    if es == [] {
    } else {
      RunStaysWellMade(b, es[..|es| - 1]);
    }
  }

  /** Only an amount below zero, by more than the room left, can fill a bucket past its capacity. */
  lemma OverfilledExactly(b: Bucket, now: real, amount: real)
    requires WellMade(b)
    ensures WellMade(Step(b, Try(now, amount))) <==> amount >= Refill(b, now).tokens - b.capacity
  {
    assert Refill(b, now).tokens <= b.capacity;
  }

  /** One negative attempt on a full bucket, and there are more tokens than it can hold. */
  lemma NegativeAmountOverfills()
    ensures var full := Bucket(1.0, 10.0, 10.0, 0.0);
            WellMade(full) && Granted(full, Try(0.0, -1.0)) && Step(full, Try(0.0, -1.0)).tokens == 11.0
  {
    OverfilledExactly(Bucket(1.0, 10.0, 10.0, 0.0), 0.0, -1.0);
  }

  lemma RefillAfterTake(b: Bucket, now: real, amount: real, t: real, x: real)
    requires WellMade(b) && b.updated == now <= t && amount >= 0.0
    ensures Refill(Take(b, amount), t).tokens >= x <==>
            x <= b.capacity && b.tokens >= x + amount - b.rate * (t - now)
  {
    assert (t - now) * b.rate == b.rate * (t - now);
  }

  /** One step of the exactness proof: if the level before an event is exact at every time and
      for every amount, it still is after the event. */
  lemma StepIsExact(r: Bucket, gs: seq<Event>, e: Event, t: real, x: real)
    requires WellMade(r) && r.updated <= e.now <= t && Amount(e) >= 0.0
    requires forall u: real, y: real | r.updated <= u ::
               Refill(r, u).tokens >= y <==> Fits(r.rate, r.capacity, gs, u, y)
    ensures Refill(Step(r, e), t).tokens >= x <==>
            Fits(r.rate, r.capacity, gs + (if Granted(r, e) then [e] else []), t, x)
  {
    if Granted(r, e) {
      var full := Refill(r, e.now);
      var y := x + e.amount - r.rate * (t - e.now);
      assert Step(r, e) == Take(full, e.amount) && full.rate == r.rate;
      RefillAfterTake(full, e.now, e.amount, t, x);
      assert full.tokens >= y <==> Fits(r.rate, r.capacity, gs, e.now, y);
      FitsAfterGrant(r.rate, r.capacity, gs, e, t, x);
    } else {
      RefillTwice(r, e.now, t);
      assert gs + [] == gs;
    }
  }

  /** The lazily kept level is exactly the room left by the tightest window of the history. */
  lemma {:induction false} LevelIsExact(b: Bucket, es: seq<Event>, t: real, x: real)
    requires WellMade(b) && b.tokens == b.capacity && Ordinary(b, es) && LastTime(b, es) <= t
    ensures Refill(Run(b, es), t).tokens >= x <==> Fits(b.rate, b.capacity, Grants(b, es), t, x)
    decreases |es|
  {
    if es == [] {
      assert (t - b.updated) * b.rate >= 0.0;
      assert Refill(b, t).tokens == b.capacity;
    } else {
      var n := |es| - 1;
      var r := Run(b, es[..n]);
      RunTime(b, es[..n]);
      RunStaysWellMade(b, es[..n]);
      forall u: real, y: real | r.updated <= u
        ensures Refill(r, u).tokens >= y <==> Fits(r.rate, r.capacity, Grants(b, es[..n]), u, y)
      {
        LevelIsExact(b, es[..n], u, y);
      }
      StepIsExact(r, Grants(b, es[..n]), es[n], t, x);
    }
  }

  /** `try_acquire` says yes exactly when no window of the history would be overrun. */
  lemma GrantsExactly(b: Bucket, es: seq<Event>, t: real, amount: real)
    requires WellMade(b) && b.tokens == b.capacity && Ordinary(b, es) && LastTime(b, es) <= t
    ensures Granted(Run(b, es), Try(t, amount)) <==> Fits(b.rate, b.capacity, Grants(b, es), t, amount)
  {
    LevelIsExact(b, es, t, amount);
  }

  lemma {:induction false} GrantsInOrder(b: Bucket, es: seq<Event>)
    requires Ordinary(b, es)
    ensures forall g | g in Grants(b, es) :: b.updated <= g.now <= LastTime(b, es) && g.amount >= 0.0
    ensures forall i, j | 0 <= i < j < |Grants(b, es)| :: Grants(b, es)[i].now <= Grants(b, es)[j].now
  {
    if es == [] {
    } else {
      GrantsInOrder(b, es[..|es| - 1]);
    }
  }

  /** The prefix of a run that ends with its k-th grant. */
  lemma {:induction false} RunUpToGrant(b: Bucket, es: seq<Event>, k: nat) returns (m: nat)
    requires k < |Grants(b, es)|
    ensures m < |es| && Granted(Run(b, es[..m]), es[m])
    ensures Grants(b, es[..m]) == Grants(b, es)[..k] && es[m] == Grants(b, es)[k]
  {
    var n := |es| - 1;
    if k < |Grants(b, es[..n])| {
      m := RunUpToGrant(b, es[..n], k);
      assert es[..n][..m] == es[..m];
    } else {
      m := n;
    }
  }

  /** The burst plus the refill between two grants covers everything granted from one to the
      other, both included. */
  ghost predicate WithinLimit(rate: real, capacity: real, gs: seq<Event>, i: nat, k: nat)
    requires i <= k < |gs|
  {
    Total(gs[i..k + 1]) <= capacity + rate * (gs[k].now - gs[i].now)
  }

  lemma WindowFromFits(rate: real, capacity: real, gs: seq<Event>, i: nat, k: nat)
    requires i <= k < |gs| && Fits(rate, capacity, gs[..k], gs[k].now, Amount(gs[k]))
    ensures WithinLimit(rate, capacity, gs, i, k)
  {
    assert gs[i..k + 1] == gs[i..k] + [gs[k]];
    TotalSplit(gs[i..k], [gs[k]]);
    TotalOfOne(gs[k]);
    if i < k {
      assert WindowFits(rate, capacity, gs[..k], i, gs[k].now, Amount(gs[k]));
      assert gs[..k][i..] == gs[i..k];
    } else {
      var none := gs[k].now - gs[i].now;
      assert none == 0.0 && rate * none == 0.0;
      assert gs[i..k] == [];
    }
  }

  lemma GrantFits(b: Bucket, es: seq<Event>, k: nat)
    requires WellMade(b) && b.tokens == b.capacity && Ordinary(b, es) && k < |Grants(b, es)|
    ensures var gs := Grants(b, es);
            Fits(b.rate, b.capacity, gs[..k], gs[k].now, Amount(gs[k]))
  {
    var m := RunUpToGrant(b, es, k);
    assert LastTime(b, es[..m]) <= es[m].now;
    GrantsExactly(b, es[..m], es[m].now, es[m].amount);
  }

  lemma NoWindowOverrun(b: Bucket, es: seq<Event>, i: nat, k: nat)
    requires WellMade(b) && b.tokens == b.capacity && Ordinary(b, es)
    requires i <= k < |Grants(b, es)|
    ensures WithinLimit(b.rate, b.capacity, Grants(b, es), i, k)
  {
    GrantFits(b, es, k);
    WindowFromFits(b.rate, b.capacity, Grants(b, es), i, k);
  }

  // ----- Observing the bucket ------------------------------------------------------------

  /** Reading the level at `t1` changes what is found at `t2` exactly when the clock took a
      detour through `t1` and the bucket was not full anyway. */
  lemma ObservationIsExactlyHarmless(b: Bucket, t1: real, t2: real)
    requires WellMade(b)
    ensures Refill(Refill(b, t1), t2) == Refill(b, t2) <==>
            || b.updated <= t1 <= t2
            || t2 <= t1 <= b.updated
            || Refill(b, t2).tokens == b.capacity
  {
    var g0, g1, g2 := Detour(b, t1, t2);
  }

  /** A read at 5 on a clock that then falls back to 1: without the read the bucket would hold one
      token, with it it holds five. */
  lemma DetourMintsTokens()
    ensures var b := Bucket(1.0, 10.0, 0.0, 0.0);
            WellMade(b) && Refill(b, 1.0).tokens == 1.0 && Refill(Refill(b, 5.0), 1.0).tokens == 5.0
  {
    assert (5.0 - 0.0) * 1.0 == 5.0;
  }

  lemma OrdinaryPrefix(b: Bucket, es: seq<Event>, e: Event)
    requires Ordinary(b, es + [e])
    ensures Ordinary(b, es) && LastTime(b, es) <= e.now
  {
    assert forall i | 0 <= i < |es| :: (es + [e])[i] == es[i];
    assert (es + [e])[|es|] == e;
    if es != [] {
      assert (es + [e])[|es| - 1].now <= (es + [e])[|es|].now;
    }
  }

  lemma RunSnoc(b: Bucket, es: seq<Event>, e: Event)
    ensures Run(b, es + [e]) == Step(Run(b, es), e)
    ensures Grants(b, es + [e]) == Grants(b, es) + (if Granted(Run(b, es), e) then [e] else [])
  {
    assert (es + [e])[..|es|] == es;
  }

  lemma LastObservation(b: Bucket, pre: seq<Event>, o: Event, t: real)
    requires WellMade(b) && Ordinary(b, pre + [o]) && o.now <= t && !Granted(Run(b, pre), o)
    ensures Refill(Run(b, pre + [o]), t) == Refill(Run(b, pre), t)
    ensures Grants(b, pre + [o]) == Grants(b, pre)
  {
    OrdinaryPrefix(b, pre, o);
    RunSnoc(b, pre, o);
    RunTime(b, pre);
    RunStaysWellMade(b, pre);
    RefillTwice(Run(b, pre), o.now, t);
  }

  lemma RefillAgain(x: Bucket, y: Bucket, e: Event, t: real)
    requires Refill(x, e.now) == Refill(y, e.now)
    ensures Granted(x, e) == Granted(y, e)
    ensures Refill(Step(x, e), t) == Refill(Step(y, e), t)
  {
  }

  /** On a clock that runs forwards, a read or a refused attempt anywhere in a history changes
      neither any later decision nor the level found at any later time. */
  lemma {:induction false} ObservationsChangeNothing(
    b: Bucket, pre: seq<Event>, o: Event, post: seq<Event>, t: real)
    requires WellMade(b) && Ordinary(b, pre + [o] + post) && LastTime(b, pre + [o] + post) <= t
    requires !Granted(Run(b, pre), o)
    ensures Refill(Run(b, pre + [o] + post), t) == Refill(Run(b, pre + post), t)
    ensures Grants(b, pre + [o] + post) == Grants(b, pre + post)
    decreases |post|
  {
    if post == [] {
      assert pre + [o] + post == pre + [o] && pre + post == pre;
      LastObservation(b, pre, o, t);
    } else {
      var n := |post| - 1;
      var e := post[n];
      var long := pre + [o] + post[..n];
      assert pre + [o] + post == long + [e] && pre + post == pre + post[..n] + [e];
      OrdinaryPrefix(b, long, e);
      ObservationsChangeNothing(b, pre, o, post[..n], e.now);
      RunSnoc(b, long, e);
      RunSnoc(b, pre + post[..n], e);
      RefillAgain(Run(b, long), Run(b, pre + post[..n]), e, t);
    }
  }

  // ----- Clocks that misbehave -----------------------------------------------------------

  function Ahead(d: real): real { if d > 0.0 then d else 0.0 }

  /** What a movement of the clock is worth in tokens, before clamping. */
  function Earned(rate: real, moved: real): real { rate * Ahead(moved) }

  /** The total of the forward movements of the clock that the bucket has seen. */
  function Forward(b: Bucket, es: seq<Event>): real {
    if es == [] then 0.0
    else Forward(b, es[..|es| - 1]) + Ahead(es[|es| - 1].now - LastTime(b, es[..|es| - 1]))
  }

  lemma StepEarns(r: Bucket, e: Event)
    requires WellMade(r) && r.tokens >= 0.0 && Amount(e) >= 0.0
    ensures var earned := Earned(r.rate, e.now - r.updated);
            && 0.0 <= Step(r, e).tokens <= r.capacity
            && Step(r, e).tokens + (if Granted(r, e) then Amount(e) else 0.0) <= r.tokens + earned
  {
    var moved := e.now - r.updated;
    Sign(moved, r.rate);
    var level := Refill(r, e.now).tokens;
    if moved > 0.0 {
      var gain := moved * r.rate;
      assert gain > 0.0 && gain == r.rate * moved;
      assert level == Min(r.capacity, r.tokens + gain);
    } else {
      assert level == r.tokens;
    }
    assert 0.0 <= level <= r.capacity;
  }

  lemma GrantsTotal(b: Bucket, es: seq<Event>, e: Event)
    ensures Total(Grants(b, es + [e])) ==
            Total(Grants(b, es)) + (if Granted(Run(b, es), e) then Amount(e) else 0.0)
  {
    RunSnoc(b, es, e);
    TotalSplit(Grants(b, es), [e]);
    TotalOfOne(e);
    assert Grants(b, es) + [] == Grants(b, es);
  }

  /** What the forward movements are worth in tokens. */
  function Income(b: Bucket, es: seq<Event>): real {
    if es == [] then 0.0
    else Income(b, es[..|es| - 1]) + Earned(b.rate, es[|es| - 1].now - LastTime(b, es[..|es| - 1]))
  }

  lemma {:induction false} IncomeIsForward(b: Bucket, es: seq<Event>)
    ensures Income(b, es) == b.rate * Forward(b, es)
  {
    if es == [] {
      assert b.rate * 0.0 == 0.0;
    } else {
      var n := |es| - 1;
      IncomeIsForward(b, es[..n]);
      Distribute(b.rate, Forward(b, es[..n]), Ahead(es[n].now - LastTime(b, es[..n])));
    }
  }

  ghost predicate WithinIncome(r: Bucket, granted: real, start: real, income: real) {
    WellMade(r) && r.tokens >= 0.0 && r.tokens + granted <= start + income
  }

  lemma StepWithinIncome(r: Bucket, e: Event, granted: real, start: real, income: real)
    requires WithinIncome(r, granted, start, income) && Amount(e) >= 0.0
    ensures WithinIncome(Step(r, e), granted + (if Granted(r, e) then Amount(e) else 0.0), start,
                         income + Earned(r.rate, e.now - r.updated))
  {
    StepEarns(r, e);
  }

  lemma IncomeSnoc(b: Bucket, es: seq<Event>, e: Event)
    ensures Income(b, es + [e]) == Income(b, es) + Earned(b.rate, e.now - LastTime(b, es))
  {
    assert (es + [e])[..|es|] == es;
  }

  lemma {:induction false} LevelWithinIncome(b: Bucket, es: seq<Event>)
    requires WellMade(b) && b.tokens >= 0.0 && NoNegative(es)
    ensures WithinIncome(Run(b, es), Total(Grants(b, es)), b.tokens, Income(b, es))
  {
    if es == [] {
    } else {
      var before, e := es[..|es| - 1], es[|es| - 1];
      assert es == before + [e];
      LevelWithinIncome(b, before);
      RunTime(b, before);
      var r := Run(b, before);
      StepWithinIncome(r, e, Total(Grants(b, before)), b.tokens, Income(b, before));
      GrantsTotal(b, before, e);
      RunSnoc(b, before, e);
      IncomeSnoc(b, before, e);
    }
  }

  /** Whatever the clock does, the level stays between empty and full, and a clock that jumps
      back and forth can only ever earn its forward movements. */
  lemma BadClockIsBounded(b: Bucket, es: seq<Event>)
    requires WellMade(b) && b.tokens >= 0.0 && NoNegative(es)
    ensures 0.0 <= Run(b, es).tokens <= b.capacity
    ensures Total(Grants(b, es)) <= b.capacity + b.rate * Forward(b, es)
  {
    LevelWithinIncome(b, es);
    IncomeIsForward(b, es);
    RunTime(b, es);
  }

  // ----- Waiting in line -----------------------------------------------------------------

  /** How long `acquire` sleeps when it starts at `now`. */
  function Waited(b: Bucket, now: real, amount: real): real
    requires b.rate > 0.0
  {
    var level := Refill(b, now).tokens;
    if level >= amount then 0.0 else (amount - level) / b.rate
  }

  /** The bucket once `amount` was paid, after a sleep that lasted `lag` longer than its pause. */
  function Paid(b: Bucket, now: real, amount: real, pause: real, lag: real): Bucket {
    Take(if pause == 0.0 then Refill(b, now) else Refill(Refill(b, now), now + pause + lag), amount)
  }

  /** The bucket after `acquire`. */
  function AfterAcquire(b: Bucket, now: real, amount: real, lag: real): Bucket
    requires b.rate > 0.0
  {
    Paid(b, now, amount, Waited(b, now, amount), lag)
  }

  lemma SleepIsEnough(b: Bucket, now: real, amount: real, lag: real)
    requires b.rate > 0.0 && amount <= b.capacity && lag >= 0.0 && Refill(b, now).tokens < amount
    ensures var pause := (amount - Refill(b, now).tokens) / b.rate;
            && pause > 0.0
            && Refill(Refill(b, now), now + pause + lag).tokens >= amount
            && (lag == 0.0 ==> Refill(Refill(b, now), now + pause + lag).tokens == amount)
  {
    var deficit := amount - Refill(b, now).tokens;
    var pause := deficit / b.rate;
    assert pause * b.rate == deficit;
    Sign(pause, b.rate);
    assert pause > 0.0;
    assert (pause + lag) * b.rate == deficit + lag * b.rate;
    assert lag * b.rate >= 0.0;
  }

  lemma GainOver(p: real, pause: real, rate: real)
    requires rate > 0.0
    ensures p * rate >= pause * rate <==> p >= pause
  {
    Sign(p - pause, rate);
    assert (p - pause) * rate == p * rate - pause * rate;
  }

  lemma LevelAfter(r: Bucket, p: real, gain: real)
    requires WellMade(r) && p >= 0.0 && gain == p * r.rate
    ensures Refill(r, r.updated + p).tokens == Min(r.capacity, r.tokens + gain)
  {
    Sign(p, r.rate);
    RefillGains(r, r.updated + p, p, gain);
  }

  lemma EnoughExactly(r: Bucket, amount: real, p: real, pause: real)
    requires WellMade(r) && amount <= r.capacity && p >= 0.0 && pause * r.rate == amount - r.tokens
    ensures Refill(r, r.updated + p).tokens >= amount <==> p >= pause
  {
    LevelAfter(r, p, p * r.rate);
    GainOver(p, pause, r.rate);
  }

  lemma NeverLess(r: Bucket, p: real)
    requires WellMade(r) && p >= 0.0
    ensures Refill(r, r.updated + p).tokens >= r.tokens
  {
    Sign(p, r.rate);
    LevelAfter(r, p, p * r.rate);
  }

  /** The pause is the least wait after which the tokens suffice, from wherever the clock stands. */
  lemma PauseIsLeast(b: Bucket, now: real, amount: real, p: real)
    requires WellMade(b) && amount <= b.capacity && p >= 0.0
    ensures Refill(Refill(b, now), now + p).tokens >= amount <==> p >= Waited(b, now, amount)
  {
    var r := Refill(b, now);
    assert r.updated == now;
    if r.tokens >= amount {
      NeverLess(r, p);
    } else {
      var pause := (amount - r.tokens) / b.rate;
      assert pause * b.rate == amount - r.tokens;
      EnoughExactly(r, amount, p, pause);
    }
  }

  /** The attempts that an `acquire` amounts to: one that succeeds, after one that was refused when
      the tokens did not suffice at first. */
  function Tries(now: real, amount: real, pause: real, lag: real): seq<Event> {
    if pause == 0.0 then [Try(now, amount)] else [Try(now, amount), Try(now + pause + lag, amount)]
  }

  lemma RunOfOne(b: Bucket, e: Event)
    ensures Run(b, [e]) == Step(b, e) && Grants(b, [e]) == if Granted(b, e) then [e] else []
  {
    assert [e][..0] == [];
  }

  lemma TwoTries(b: Bucket, now: real, amount: real, later: real)
    requires Refill(b, now).tokens < amount <= Refill(Refill(b, now), later).tokens
    ensures var tries := [Try(now, amount), Try(later, amount)];
            && Run(b, tries) == Take(Refill(Refill(b, now), later), amount)
            && Grants(b, tries) == [Try(later, amount)]
  {
    RunOfOne(b, Try(now, amount));
    assert [Try(now, amount), Try(later, amount)] == [Try(now, amount)] + [Try(later, amount)];
    RunSnoc(b, [Try(now, amount)], Try(later, amount));
  }

  /** A pause after which the attempt succeeds, and which is zero when none is needed. */
  predicate Suffices(b: Bucket, now: real, amount: real, pause: real, lag: real) {
    if Refill(b, now).tokens >= amount then pause == 0.0
    else pause != 0.0 && Refill(Refill(b, now), now + pause + lag).tokens >= amount
  }

  lemma PauseSuffices(b: Bucket, now: real, amount: real, lag: real)
    requires b.rate > 0.0 && amount <= b.capacity && lag >= 0.0
    ensures Suffices(b, now, amount, Waited(b, now, amount), lag)
  {
    if Refill(b, now).tokens < amount {
      SleepIsEnough(b, now, amount, lag);
    }
  }

  lemma PausedTries(b: Bucket, now: real, amount: real, pause: real, lag: real)
    requires Suffices(b, now, amount, pause, lag)
    ensures var tries := Tries(now, amount, pause, lag);
            Paid(b, now, amount, pause, lag) == Run(b, tries) && Grants(b, tries) == [tries[|tries| - 1]]
  {
    if pause == 0.0 {
      RunOfOne(b, Try(now, amount));
    } else {
      TwoTries(b, now, amount, now + pause + lag);
    }
  }

  /** As far as tokens go `acquire` is a series of `try_acquire`, of which exactly the last one
      is granted: whatever is proved about histories holds of histories with `acquire` in them. */
  lemma AcquireIsTries(b: Bucket, now: real, amount: real, lag: real) returns (pause: real)
    requires b.rate > 0.0 && amount <= b.capacity && lag >= 0.0
    ensures pause == Waited(b, now, amount)
    ensures AfterAcquire(b, now, amount, lag) == Run(b, Tries(now, amount, pause, lag))
    ensures Grants(b, Tries(now, amount, pause, lag)) == [Try(if pause == 0.0 then now else now + pause + lag, amount)]
  {
    PauseSuffices(b, now, amount, lag);
    pause := Waited(b, now, amount);
    PausedTries(b, now, amount, pause, lag);
  }

  /** Callers served one after another under the lock; each starts when the previous ended. */
  function ServeAll(b: Bucket, amounts: seq<real>): Bucket
    requires b.rate > 0.0
    ensures ServeAll(b, amounts).rate == b.rate && ServeAll(b, amounts).capacity == b.capacity
  {
    if amounts == [] then b
    else
      var before := ServeAll(b, amounts[..|amounts| - 1]);
      AfterAcquire(before, before.updated, amounts[|amounts| - 1], 0.0)
  }

  function Waits(b: Bucket, amounts: seq<real>): real
    requires b.rate > 0.0
  {
    if amounts == [] then 0.0
    else
      var before := ServeAll(b, amounts[..|amounts| - 1]);
      Waits(b, amounts[..|amounts| - 1]) + Waited(before, before.updated, amounts[|amounts| - 1])
  }

  function Sum(xs: seq<real>): real {
    if xs == [] then 0.0 else Sum(xs[..|xs| - 1]) + xs[|xs| - 1]
  }

  lemma DivideSum(x: real, y: real, rate: real)
    requires rate > 0.0
    ensures (x + y) / rate == x / rate + y / rate
  {
    var q := x / rate + y / rate;
    assert q * rate == x / rate * rate + y / rate * rate;
    assert q * rate == x + y;
  }

  /** One more caller, whose predecessors needed `s` tokens of the `t` there were. */
  lemma OneMoreWaiter(before: Bucket, a: real, s: real, t: real, start: real)
    requires WellMade(before) && 0.0 < a <= before.capacity && 0.0 <= t
    requires s <= t ==> before.updated == start && before.tokens == t - s
    requires s > t ==> before.updated == start + (s - t) / before.rate && before.tokens == 0.0
    ensures var end := AfterAcquire(before, before.updated, a, 0.0);
            && WellMade(end)
            && end.updated == before.updated + Waited(before, before.updated, a)
            && (s + a <= t ==> end.updated == start && end.tokens == t - (s + a))
            && (s + a > t ==> end.updated == start + (s + a - t) / before.rate && end.tokens == 0.0)
  {
    if before.tokens < a {
      SleepIsEnough(before, before.updated, a, 0.0);
      if s > t {
        DivideSum(s - t, a, before.rate);
      }
    }
  }

  /** Applied to the first k amounts: the k-th caller is done after (a_1 + ... + a_k - T) / rate,
      or at once when the tokens sufficed, and the waits reported add up to exactly that. */
  lemma {:induction false} WaitersPayTheirShare(b: Bucket, amounts: seq<real>)
    requires WellMade(b) && b.tokens >= 0.0
    requires forall i | 0 <= i < |amounts| :: 0.0 < amounts[i] <= b.capacity
    ensures var end := ServeAll(b, amounts);
            && WellMade(end)
            && Waits(b, amounts) == end.updated - b.updated
            && (Sum(amounts) <= b.tokens ==> end.updated == b.updated && end.tokens == b.tokens - Sum(amounts))
            && (Sum(amounts) > b.tokens ==>
                  end.updated == b.updated + (Sum(amounts) - b.tokens) / b.rate && end.tokens == 0.0)
  {
    if amounts == [] {
    } else {
      var n := |amounts| - 1;
      WaitersPayTheirShare(b, amounts[..n]);
      OneMoreWaiter(ServeAll(b, amounts[..n]), amounts[n], Sum(amounts[..n]), b.tokens, b.updated);
    }
  }

  // ----- A line whose callers come when they like ----------------------------------------

  datatype Caller = Caller(arrival: real, amount: real)

  /** The lock is free once the caller before has finished, which is when the bucket was last touched. */
  function Begins(b: Bucket, c: Caller): real {
    if c.arrival <= b.updated then b.updated else c.arrival
  }

  function Line(b: Bucket, cs: seq<Caller>): (r: Bucket)
    requires b.rate > 0.0
    ensures r.rate == b.rate && r.capacity == b.capacity
  {
    if cs == [] then b
    else
      var before := Line(b, cs[..|cs| - 1]);
      AfterAcquire(before, Begins(before, cs[|cs| - 1]), cs[|cs| - 1].amount, 0.0)
  }

  /** When each caller was served, and with how much. */
  function Served(b: Bucket, cs: seq<Caller>): seq<Event>
    requires b.rate > 0.0
  {
    if cs == [] then []
    else Served(b, cs[..|cs| - 1]) + [Try(Line(b, cs).updated, cs[|cs| - 1].amount)]
  }

  predicate Sensible(b: Bucket, cs: seq<Caller>) {
    forall i | 0 <= i < |cs| :: 0.0 <= cs[i].amount <= b.capacity
  }

  /** `es` is a history after which the bucket is `b'`, in which `gs` was granted. */
  ghost predicate Tells(b: Bucket, es: seq<Event>, b': Bucket, gs: seq<Event>) {
    Ordinary(b, es) && Run(b, es) == b' && LastTime(b, es) == b'.updated && Grants(b, es) == gs
  }

  lemma OrdinarySnoc(b: Bucket, es: seq<Event>, e: Event)
    requires Ordinary(b, es) && LastTime(b, es) <= e.now && Amount(e) >= 0.0
    ensures Ordinary(b, es + [e])
  {
    var all := es + [e];
    assert es != [] ==> b.updated <= es[|es| - 1].now;
    forall i | 0 <= i < |es| ensures es[i].now <= e.now {
      assert i == |es| - 1 || es[i].now <= es[|es| - 1].now;
    }
    assert forall i | 0 <= i < |all| :: all[i] == if i < |es| then es[i] else e;
  }

  lemma TellsOneMore(b: Bucket, es: seq<Event>, m: Bucket, gs: seq<Event>, e: Event)
    requires Tells(b, es, m, gs) && Amount(e) >= 0.0 && e.now >= m.updated
    ensures Tells(b, es + [e], Step(m, e), gs + (if Granted(m, e) then [e] else []))
  {
    RunSnoc(b, es, e);
    OrdinarySnoc(b, es, e);
  }

  lemma TellsAcquire(b: Bucket, es: seq<Event>, m: Bucket, gs: seq<Event>, now: real, amount: real)
    returns (longer: seq<Event>)
    requires Tells(b, es, m, gs) && m.rate > 0.0 && 0.0 <= amount <= m.capacity && now >= m.updated
    ensures var n := AfterAcquire(m, now, amount, 0.0);
            && n.updated == now + Waited(m, now, amount)
            && Tells(b, longer, n, gs + [Try(n.updated, amount)])
  {
    PauseSuffices(m, now, amount, 0.0);
    TellsOneMore(b, es, m, gs, Try(now, amount));
    longer := es + [Try(now, amount)];
    if Refill(m, now).tokens < amount {
      var pause := Waited(m, now, amount);
      SleepIsEnough(m, now, amount, 0.0);
      assert gs + [] == gs;
      TellsOneMore(b, longer, Refill(m, now), gs, Try(now + pause, amount));
      longer := longer + [Try(now + pause, amount)];
    }
  }

  lemma {:induction false} LineIsHistory(b: Bucket, cs: seq<Caller>) returns (es: seq<Event>)
    requires WellMade(b) && Sensible(b, cs)
    ensures Tells(b, es, Line(b, cs), Served(b, cs))
  {
    if cs == [] {
      es := [];
    } else {
      var n := |cs| - 1;
      var before := Line(b, cs[..n]);
      es := LineIsHistory(b, cs[..n]);
      es := TellsAcquire(b, es, before, Served(b, cs[..n]), Begins(before, cs[n]), cs[n].amount);
    }
  }

  lemma FinishIsLeast(m: Bucket, now: real, amount: real, t: real)
    requires WellMade(m) && amount <= m.capacity && m.updated <= now <= t
    ensures Refill(m, t).tokens >= amount <==> t >= now + Waited(m, now, amount)
  {
    RefillTwice(m, now, t);
    assert now + (t - now) == t;
    PauseIsLeast(m, now, amount, t - now);
  }

  lemma PauseNotNegative(m: Bucket, now: real, amount: real)
    requires WellMade(m) && amount <= m.capacity
    ensures Waited(m, now, amount) >= 0.0
  {
    if Refill(m, now).tokens < amount {
      SleepIsEnough(m, now, amount, 0.0);
    }
  }

  lemma LineSnoc(b: Bucket, cs: seq<Caller>, c: Caller)
    requires b.rate > 0.0
    ensures Line(b, cs + [c]) == AfterAcquire(Line(b, cs), Begins(Line(b, cs), c), c.amount, 0.0)
  {
    assert (cs + [c])[..|cs|] == cs;
  }

  /** Callers served in turn, each from when it came or when the one before had finished. The next
      one finishes at the first moment, from its turn on, at which its amount fits every window of
      what was granted before: nobody waits longer than the limit demands. */
  lemma LineIsExact(b: Bucket, cs: seq<Caller>, c: Caller, t: real)
    requires WellMade(b) && b.tokens == b.capacity && Sensible(b, cs) && 0.0 <= c.amount <= b.capacity
    requires t >= Begins(Line(b, cs), c)
    ensures t >= Line(b, cs + [c]).updated <==> Fits(b.rate, b.capacity, Served(b, cs), t, c.amount)
    ensures Line(b, cs + [c]).updated >= Begins(Line(b, cs), c)
  {
    var m, now := Line(b, cs), Begins(Line(b, cs), c);
    var es := LineIsHistory(b, cs);
    RunStaysWellMade(b, es);
    LineSnoc(b, cs, c);
    var longer := TellsAcquire(b, es, m, Served(b, cs), now, c.amount);
    LevelIsExact(b, es, t, c.amount);
    FinishIsLeast(m, now, c.amount, t);
    PauseNotNegative(m, now, c.amount);
  }

  // ----- The bucket object ---------------------------------------------------------------

  /** The injected clock: it reads `now`, and its sleep advances it by the pause it was asked
      for plus whatever the scheduler adds. */
  class Clock {
    var now: real

    constructor (start: real)
      ensures now == start
    {
      now := start;
    }

    method Sleep(pause: real, lag: real)
      modifies this
      ensures now == old(now) + pause + lag
    {
      now := now + pause + lag;
    }
  }

  datatype BucketError = RateNotPositive | CapacityNotPositive | AmountExceedsCapacity

  /** The constructor's checks, in its order: the rate first, then the capacity it defaults. */
  function CheckedCapacity(rate: real, capacity: Option<real>): (r: Result<real, BucketError>)
    ensures r.Ok? <==> rate > 0.0 && (capacity.Some? ==> capacity.value > 0.0)
    ensures r.Ok? ==> r.value == if capacity.Some? then capacity.value else rate
    ensures r == Err(RateNotPositive) <==> rate <= 0.0
  {
    if rate <= 0.0 then Err(RateNotPositive)
    else
      var c := match capacity case Some(v) => v case None => rate;
      if c <= 0.0 then Err(CapacityNotPositive) else Ok(c)
  }

  class TokenBucket {
    const rate: real
    const capacity: real
    const clock: Clock
    var tokens: real
    var updated: real

    ghost function Abs(): Bucket
      reads this
    {
      Bucket(rate, capacity, tokens, updated)
    }

    ghost predicate Valid()
      reads this
    {
      WellMade(Abs())
    }

    /** A new bucket is full. */
    constructor (rate: real, capacity: Option<real>, clock: Clock)
      requires CheckedCapacity(rate, capacity).Ok?
      ensures Valid() && this.clock == clock
      ensures Abs() == Bucket(rate, CheckedCapacity(rate, capacity).value, this.capacity, clock.now)
    {
      this.rate := rate;
      this.capacity := CheckedCapacity(rate, capacity).value;
      this.clock := clock;
      this.tokens := CheckedCapacity(rate, capacity).value;
      this.updated := clock.now;
    }

    method RefillNow()
      requires rate > 0.0
      modifies this
      ensures Abs() == Refill(old(Abs()), clock.now)
    {
      var now := clock.now;
      var elapsed := now - updated;
      if elapsed <= 0.0 {
        updated := now;
        return;
      }
      var level := tokens + elapsed * rate;
      tokens := if capacity <= level then capacity else level;
      updated := now;
    }

    method Tokens() returns (level: real)
      requires Valid()
      modifies this
      ensures Valid() && Abs() == Step(old(Abs()), Read(clock.now)) && level == tokens
    {
      RefillNow();
      level := tokens;
    }

    method TryAcquire(amount: real) returns (ok: bool)
      requires Valid()
      modifies this
      ensures Abs() == Step(old(Abs()), Try(clock.now, amount))
      ensures ok == Granted(old(Abs()), Try(clock.now, amount))
      ensures amount >= 0.0 ==> Valid()
    {
      RefillNow();
      if tokens >= amount {
        tokens := tokens - amount;
        return true;
      }
      return false;
    }

    /** `acquire` once it holds the lock: it sleeps at most once, pays exactly its deficit, and
        reports exactly the pause it asked for. `lag` is what the scheduler adds to the sleep. */
    method Acquire(amount: real, lag: real) returns (r: Result<real, BucketError>)
      requires Valid() && lag >= 0.0
      modifies this, clock
      ensures amount > capacity ==>
                r == Err(AmountExceedsCapacity) && Abs() == old(Abs()) && clock.now == old(clock.now)
      ensures amount <= capacity ==>
                var pause := Waited(old(Abs()), old(clock.now), amount);
                && r == Ok(pause)
                && clock.now == old(clock.now) + pause + (if pause == 0.0 then 0.0 else lag)
                && Abs() == AfterAcquire(old(Abs()), old(clock.now), amount, lag)
    {
      if amount > capacity {
        return Err(AmountExceedsCapacity);
      }
      ghost var b, start := Abs(), clock.now;
      var waited := 0.0;
      ghost var slept := false;
      while true
        invariant !slept ==> waited == 0.0 && Abs() == b && clock.now == start
        invariant slept ==> Refill(b, start).tokens < amount
                            && waited == (amount - Refill(b, start).tokens) / rate > 0.0
                            && Abs() == Refill(b, start) && clock.now == start + waited + lag
        decreases !slept
      {
        RefillNow();
        if slept {
          SleepIsEnough(b, start, amount, lag);
        }
        if tokens >= amount {
          tokens := tokens - amount;
          return Ok(waited);
        }
        var deficit := amount - tokens;
        var pause := deficit / rate;
        SleepIsEnough(b, start, amount, lag);
        waited := waited + pause;
        clock.Sleep(pause, lag);
        slept := true;
      }
    }
  }
}
