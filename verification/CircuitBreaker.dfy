/** The circuit breaker of retry.py, with the clock readings as inputs. */
module Breaking {
  import opened Basics

  datatype Config = Config(threshold: nat, resetAfter: real)

  datatype State = State(failures: nat, openedAt: Option<real>)

  datatype Mode = Closed | Open | HalfOpen

  const FRESH := State(0, None)

  function ModeOf(c: Config, s: State, now: real): Mode {
    match s.openedAt
    case None => Closed
    case Some(t) => if now - t >= c.resetAfter then HalfOpen else Open
  }

  /** What a call that was let through comes to. `Cancelled` stands for every ending that leaves no
      mark: CancelledError, and an error outside `Exception`. */
  datatype Ending = Succeeded | Failed | Cancelled

  function Record(c: Config, s: State, ending: Ending, now: real): State {
    match ending
    case Succeeded => FRESH
    case Failed =>
      var n := s.failures + 1;
      State(n, if n >= c.threshold then Some(now) else s.openedAt)
    case Cancelled => s
  }

  // ----- Overlapping calls, any clock ----------------------------------------------------

  /** The endings of calls in the order in which they are recorded, however they overlap. */
  datatype End = End(ending: Ending, now: real)

  function Run(c: Config, ends: seq<End>): State {
    if ends == [] then FRESH
    else Record(c, Run(c, ends[..|ends| - 1]), ends[|ends| - 1].ending, ends[|ends| - 1].now)
  }

  /** The failures recorded since the last success; cancelled calls leave no mark. */
  function TrailingFailures(ends: seq<End>): seq<real> {
    if ends == [] then []
    else
      var before := TrailingFailures(ends[..|ends| - 1]);
      match ends[|ends| - 1].ending
      case Succeeded => []
      case Failed => before + [ends[|ends| - 1].now]
      case Cancelled => before
  }

  /** Consecutive, not cumulative: the counter is the length of the trailing run of failures, and
      the breaker is not closed exactly when that run has reached the threshold, since when it
      remembers the time of the last of them. */
  lemma {:induction false} CountsTheTrailingRun(c: Config, ends: seq<End>)
    requires c.threshold >= 1
    ensures var s, tail := Run(c, ends), TrailingFailures(ends);
            && s.failures == |tail|
            && (s.openedAt.Some? <==> |tail| >= c.threshold)
            && (s.openedAt.Some? ==> s.openedAt.value == tail[|tail| - 1])
  {
    if ends == [] {
    } else {
      CountsTheTrailingRun(c, ends[..|ends| - 1]);
    }
  }

  // ----- Periods -------------------------------------------------------------------------

  /** How many full `resetAfter` periods fit into `d`. */
  function Periods(c: Config, d: real): int
    requires c.resetAfter > 0.0
  {
    (d / c.resetAfter).Floor
  }

  lemma NonnegativeFactor(x: real, r: real)
    requires r > 0.0 && x * r >= 0.0
    ensures x >= 0.0
  {
  }

  lemma FullPeriods(n: int, d: real, r: real)
    requires r > 0.0 && d >= n as real * r
    ensures n <= (d / r).Floor
  {
    var q := d / r;
    assert q * r == d;
    assert (q - n as real) * r == q * r - n as real * r;
    NonnegativeFactor(q - n as real, r);
  }

  // ----- Calls that overlap --------------------------------------------------------------

  type Id = nat

  /** A call in flight: when it was let through, and how many failures were recorded then. */
  datatype Flight = Flight(start: real, born: nat)

  /** The breaker with the calls it let through and that have not ended. `failed` holds the times
      of the failures recorded since the last success, `now` the latest reading of the clock. */
  datatype World = World(breaker: State, inFlight: map<Id, Flight>, failed: seq<real>, now: real)

  datatype Move =
    | Begin(id: Id, at: real)
    | Finish(id: Id, ending: Ending, at: real)

  /** Any calls may overlap; the clock does not run backwards. */
  predicate Enabled(w: World, m: Move) {
    m.at >= w.now && (if m.Begin? then m.id !in w.inFlight else m.id in w.inFlight)
  }

  /** A success makes every call still in flight as old as the run of failures it starts. */
  function Renewed(calls: map<Id, Flight>): map<Id, Flight> {
    map id | id in calls :: Flight(calls[id].start, 0)
  }

  function Next(c: Config, w: World, m: Move): World
    requires Enabled(w, m)
  {
    match m
    case Begin(id, at) =>
      if ModeOf(c, w.breaker, at) == Open then w.(now := at)
      else w.(inFlight := w.inFlight[id := Flight(at, |w.failed|)], now := at)
    case Finish(id, ending, at) =>
      var rest := w.(breaker := Record(c, w.breaker, ending, at), inFlight := w.inFlight - {id}, now := at);
      match ending
      case Succeeded => rest.(inFlight := Renewed(rest.inFlight), failed := [])
      case Failed => rest.(failed := w.failed + [at])
      case Cancelled => rest
  }

  function Quiet(now: real): World { World(FRESH, map[], [], now) }

  ghost predicate Runs(c: Config, w: World, moves: seq<Move>)
    decreases |moves|
  {
    moves == [] || (Enabled(w, moves[0]) && Runs(c, Next(c, w, moves[0]), moves[1..]))
  }

  ghost function Exec(c: Config, w: World, moves: seq<Move>): World
    requires Runs(c, w, moves)
    decreases |moves|
  {
    if moves == [] then w else Exec(c, Next(c, w, moves[0]), moves[1..])
  }

  /** Never more than m calls in flight at once. */
  ghost predicate AtMost(c: Config, w: World, moves: seq<Move>, m: nat)
    requires Runs(c, w, moves)
    decreases |moves|
  {
    |w.inFlight| <= m && (moves == [] || AtMost(c, Next(c, w, moves[0]), moves[1..], m))
  }

  /** The calls in flight that were let through before failure number i + 1 was recorded. */
  function Old(calls: map<Id, Flight>, i: nat): set<Id> {
    set id | id in calls && calls[id].born <= i
  }

  predicate Sorted(xs: seq<real>) {
    forall i, j | 0 <= i <= j < |xs| :: xs[i] <= xs[j]
  }

  ghost predicate Told(c: Config, w: World)
    requires c.threshold >= 1
  {
    && w.breaker.failures == |w.failed|
    && (w.breaker.openedAt.Some? <==> |w.failed| >= c.threshold)
    && (w.breaker.openedAt.Some? ==> w.breaker.openedAt.value == w.failed[|w.failed| - 1])
    && Sorted(w.failed) && (forall i | 0 <= i < |w.failed| :: w.failed[i] <= w.now)
  }

  /** A call let through by a breaker that had opened came `resetAfter` after the failure before it. */
  ghost predicate Patient(c: Config, w: World)
    requires c.threshold >= 1
  {
    forall id | id in w.inFlight ::
      var f := w.inFlight[id];
      f.born <= |w.failed| && f.start <= w.now &&
      (f.born >= c.threshold ==> f.start >= w.failed[f.born - 1] + c.resetAfter)
  }

  /** Once open, failure i can only be followed within `resetAfter` by the calls that were in flight
      with it. What is left of them is `Old`; the others have failed already, or never will. */
  ghost predicate Paced(c: Config, w: World, m: nat) {
    forall i: nat | c.threshold - 1 <= i < |w.failed| ::
      var k := |Old(w.inFlight, i)|;
      k < m && (i + m - k < |w.failed| ==> w.failed[i + m - k] >= w.failed[i] + c.resetAfter)
  }

  ghost predicate Inv(c: Config, w: World, m: nat)
    requires c.threshold >= 1
  {
    Told(c, w) && Patient(c, w) && Paced(c, w, m)
  }

  lemma StepIsTold(c: Config, w: World, m: Move)
    requires c.threshold >= 1 && Told(c, w) && Enabled(w, m)
    ensures Told(c, Next(c, w, m))
  {
  }

  lemma {:induction false} RunIsTold(c: Config, w: World, moves: seq<Move>)
    requires c.threshold >= 1 && Told(c, w) && Runs(c, w, moves)
    ensures Told(c, Exec(c, w, moves))
    decreases |moves|
  {
    if moves == [] {
    } else {
      StepIsTold(c, w, moves[0]);
      RunIsTold(c, Next(c, w, moves[0]), moves[1..]);
    }
  }

  /** After any run of overlapping calls: a call is let through exactly when the failures since the
      last success are fewer than the threshold, or the last of them is `resetAfter` ago. */
  lemma AdmittedExactly(c: Config, start: real, moves: seq<Move>, id: Id, at: real)
    requires c.threshold >= 1 && Runs(c, Quiet(start), moves)
    requires Enabled(Exec(c, Quiet(start), moves), Begin(id, at))
    ensures var w := Exec(c, Quiet(start), moves);
            id in Next(c, w, Begin(id, at)).inFlight <==>
            |w.failed| < c.threshold || at >= w.failed[|w.failed| - 1] + c.resetAfter
  {
    RunIsTold(c, Quiet(start), moves);
  }

  lemma BeginKeepsInv(c: Config, w: World, b: Move, m: nat)
    requires c.threshold >= 1 && Inv(c, w, m) && Enabled(w, b) && b.Begin?
    ensures Inv(c, Next(c, w, b), m)
  {
    var n := Next(c, w, b);
    forall i: nat | i < |w.failed| ensures Old(n.inFlight, i) == Old(w.inFlight, i) {
    }
  }

  lemma CancelKeepsInv(c: Config, w: World, id: Id, at: real, m: nat)
    requires c.threshold >= 1 && Inv(c, w, m) && Enabled(w, Finish(id, Cancelled, at))
    ensures Inv(c, Next(c, w, Finish(id, Cancelled, at)), m)
  {
    var n := Next(c, w, Finish(id, Cancelled, at));
    forall i: nat | c.threshold - 1 <= i < |w.failed|
      ensures var k := |Old(n.inFlight, i)|;
              k < m && (i + m - k < |w.failed| ==> w.failed[i + m - k] >= w.failed[i] + c.resetAfter)
    {
      assert Old(n.inFlight, i) == Old(w.inFlight, i) - {id};
    }
  }

  lemma FailKeepsPace(c: Config, w: World, id: Id, at: real, m: nat, i: nat)
    requires c.threshold >= 1 && Inv(c, w, m) && Enabled(w, Finish(id, Failed, at))
    requires c.threshold - 1 <= i < |w.failed|
    ensures var n := Next(c, w, Finish(id, Failed, at));
            var k := |Old(n.inFlight, i)|;
            k < m && (i + m - k < |n.failed| ==> n.failed[i + m - k] >= n.failed[i] + c.resetAfter)
  {
    var n := Next(c, w, Finish(id, Failed, at));
    assert Old(n.inFlight, i) == Old(w.inFlight, i) - {id};
    var k := |Old(w.inFlight, i)|;
    if id in Old(w.inFlight, i) {
      assert |Old(n.inFlight, i)| == k - 1;
    } else {
      assert w.inFlight[id].born > i;
      assert w.failed[w.inFlight[id].born - 1] >= w.failed[i];
    }
  }

  lemma FailKeepsInv(c: Config, w: World, id: Id, at: real, m: nat)
    requires c.threshold >= 1 && Inv(c, w, m) && Enabled(w, Finish(id, Failed, at)) && |w.inFlight| <= m
    ensures Inv(c, Next(c, w, Finish(id, Failed, at)), m)
  {
    var n := Next(c, w, Finish(id, Failed, at));
    forall i: nat | c.threshold - 1 <= i < |n.failed|
      ensures var k := |Old(n.inFlight, i)|;
              k < m && (i + m - k < |n.failed| ==> n.failed[i + m - k] >= n.failed[i] + c.resetAfter)
    {
      if i < |w.failed| {
        FailKeepsPace(c, w, id, at, m, i);
      } else {
        assert |w.inFlight.Keys - {id}| == |w.inFlight| - 1;
        SubsetSize(Old(n.inFlight, i), w.inFlight.Keys - {id});
      }
    }
  }

  lemma {:induction false} OverlapKeepsInv(c: Config, w: World, moves: seq<Move>, m: nat)
    requires c.threshold >= 1 && Inv(c, w, m) && Runs(c, w, moves) && AtMost(c, w, moves, m)
    ensures Inv(c, Exec(c, w, moves), m)
    decreases |moves|
  {
    if moves == [] {
    } else {
      match moves[0] {
        case Begin(_, _) => BeginKeepsInv(c, w, moves[0], m);
        case Finish(id, Failed, at) => FailKeepsInv(c, w, id, at, m);
        case Finish(id, Cancelled, at) => CancelKeepsInv(c, w, id, at, m);
        case Finish(id, Succeeded, at) =>
      }
      OverlapKeepsInv(c, Next(c, w, moves[0]), moves[1..], m);
    }
  }

  /** The first failure of the j-th volley after the one that opened the breaker. */
  function VolleyStart(c: Config, m: nat, j: nat): (i: nat)
    requires c.threshold >= 1
    ensures i >= c.threshold - 1
  {
    if j == 0 then c.threshold - 1 else VolleyStart(c, m, j - 1) + m
  }

  lemma {:induction false} VolleyStartIs(c: Config, m: nat, j: nat)
    requires c.threshold >= 1
    ensures VolleyStart(c, m, j) == c.threshold - 1 + m * j
  {
    if j == 0 {
    } else {
      VolleyStartIs(c, m, j - 1);
      assert m * j == m * (j - 1) + m;
    }
  }

  lemma VolleyGap(c: Config, w: World, m: nat, i: nat)
    requires c.threshold >= 1 && Told(c, w) && Paced(c, w, m) && c.threshold - 1 <= i && i + m < |w.failed|
    ensures w.failed[i + m] >= w.failed[i] + c.resetAfter
  {
    var k := |Old(w.inFlight, i)|;
    assert w.failed[i + m] >= w.failed[i + m - k] >= w.failed[i] + c.resetAfter;
  }

  lemma OneMorePeriod(j: nat, r: real)
    ensures (j + 1) as real * r == j as real * r + r
  {
  }

  /** Failures come in volleys of at most m, `resetAfter` apart. */
  lemma {:induction false} Volleys(c: Config, w: World, m: nat, j: nat)
    requires c.threshold >= 1 && Told(c, w) && Paced(c, w, m) && VolleyStart(c, m, j) < |w.failed|
    ensures w.failed[VolleyStart(c, m, j)] >= w.failed[c.threshold - 1] + j as real * c.resetAfter
  {
    if j == 0 {
    } else {
      Volleys(c, w, m, j - 1);
      VolleyGap(c, w, m, VolleyStart(c, m, j - 1));
      OneMorePeriod(j - 1, c.resetAfter);
    }
  }

  lemma VolleyOf(n: nat, m: nat) returns (j: nat)
    requires m >= 1
    ensures m * j <= n < m * j + m
  {
    j := n / m;
  }

  lemma TimesMonotone(m: nat, j: int, p: int)
    requires j <= p
    ensures m * j <= m * p
  {
  }

  /** Protection with overlapping calls: when never more than m are in flight at once, the failures
      let through since the last success number at most the threshold, the m - 1 others of the
      volley that opened the breaker, and m more for every full `resetAfter` since then. */
  lemma OverlapBound(c: Config, start: real, moves: seq<Move>, m: nat, t: real)
    requires c.threshold >= 1 && c.resetAfter > 0.0 && m >= 1
    requires Runs(c, Quiet(start), moves) && AtMost(c, Quiet(start), moves, m)
    requires var w := Exec(c, Quiet(start), moves); w.now <= t && |w.failed| >= c.threshold
    ensures var failed := Exec(c, Quiet(start), moves).failed;
            |failed| <= c.threshold + m - 1 + m * Periods(c, t - failed[c.threshold - 1])
  {
    OverlapKeepsInv(c, Quiet(start), moves, m);
    var w := Exec(c, Quiet(start), moves);
    var j := VolleyOf(|w.failed| - c.threshold, m);
    VolleyStartIs(c, m, j);
    Volleys(c, w, m, j);
    FullPeriods(j, t - w.failed[c.threshold - 1], c.resetAfter);
    TimesMonotone(m, j, Periods(c, t - w.failed[c.threshold - 1]));
  }

  lemma Unfold(c: Config, w: World, move: Move, rest: seq<Move>, n: World)
    requires Enabled(w, move) && Next(c, w, move) == n
    ensures Runs(c, w, [move] + rest) == Runs(c, n, rest)
    ensures Runs(c, n, rest) ==> Exec(c, w, [move] + rest) == Exec(c, n, rest)
  {
    assert ([move] + rest)[1..] == rest;
  }

  /** Half-open is one probe only for calls that do not overlap. While a probe that is going to
      fail runs from `start` to `end`, a second call is let through exactly when it starts
      before the probe has ended, or a full `resetAfter` later. */
  lemma SecondProbeExactly(c: Config, w: World, a: Id, b: Id, start: real, end: real, other: real)
    requires c.threshold >= 1 && c.resetAfter > 0.0 && Told(c, w) && |w.failed| >= c.threshold
    requires a != b && a !in w.inFlight && b !in w.inFlight && w.now <= start <= end && start <= other
    requires ModeOf(c, w.breaker, start) == HalfOpen
    ensures var before := if other < end then [Begin(a, start)] else [Begin(a, start), Finish(a, Failed, end)];
            && Runs(c, w, before) && Enabled(Exec(c, w, before), Begin(b, other))
            && (b in Next(c, Exec(c, w, before), Begin(b, other)).inFlight <==>
                other < end || other >= end + c.resetAfter)
  {
    var probing := Next(c, w, Begin(a, start));
    assert [Begin(a, start)] + [] == [Begin(a, start)];
    Unfold(c, w, Begin(a, start), [], probing);
    if other >= end {
      var ended := Next(c, probing, Finish(a, Failed, end));
      assert [Finish(a, Failed, end)] + [] == [Finish(a, Failed, end)];
      assert [Begin(a, start)] + [Finish(a, Failed, end)] == [Begin(a, start), Finish(a, Failed, end)];
      Unfold(c, probing, Finish(a, Failed, end), [], ended);
      Unfold(c, w, Begin(a, start), [Finish(a, Failed, end)], probing);
    }
  }

  const PROBES: seq<Move> := [Begin(0, 0.0), Finish(0, Failed, 0.0), Begin(1, 1.0), Begin(2, 1.5)]

  /** A breaker that opened at time 0 lets a call through at time 1 and, while that one is still
      running, another one at time 1.5: two probes in flight at once. */
  lemma HalfOpenAdmitsTwo()
    ensures Runs(Config(1, 1.0), Quiet(0.0), PROBES)
    ensures Exec(Config(1, 1.0), Quiet(0.0), PROBES) ==
            World(State(1, Some(0.0)), map[1 := Flight(1.0, 1), 2 := Flight(1.5, 1)], [0.0], 1.5)
  {
    var c := Config(1, 1.0);
    var w1 := World(FRESH, map[0 := Flight(0.0, 0)], [], 0.0);
    var w2 := World(State(1, Some(0.0)), map[], [0.0], 0.0);
    var w3 := World(State(1, Some(0.0)), map[1 := Flight(1.0, 1)], [0.0], 1.0);
    var w4 := World(State(1, Some(0.0)), map[1 := Flight(1.0, 1), 2 := Flight(1.5, 1)], [0.0], 1.5);
    Unfold(c, Quiet(0.0), Begin(0, 0.0), PROBES[1..], w1);
    Unfold(c, w1, Finish(0, Failed, 0.0), PROBES[2..], w2);
    Unfold(c, w2, Begin(1, 1.0), PROBES[3..], w3);
    Unfold(c, w3, Begin(2, 1.5), [], w4);
    assert PROBES[3..] == [Begin(2, 1.5)] + [];
    assert PROBES[2..] == [Begin(1, 1.0)] + PROBES[3..];
    assert PROBES[1..] == [Finish(0, Failed, 0.0)] + PROBES[2..];
    assert PROBES == [Begin(0, 0.0)] + PROBES[1..];
  }

  // ----- Calls one after another ---------------------------------------------------------

  /** A call that starts at `start` and, when it is let through, ends at `end`. */
  datatype Call = Call(start: real, end: real, ending: Ending)

  predicate LetThrough(c: Config, s: State, call: Call) {
    ModeOf(c, s, call.start) != Open
  }

  function Step(c: Config, s: State, call: Call): State {
    if LetThrough(c, s, call) then Record(c, s, call.ending, call.end) else s
  }

  function Serve(c: Config, calls: seq<Call>): State {
    if calls == [] then FRESH else Step(c, Serve(c, calls[..|calls| - 1]), calls[|calls| - 1])
  }

  /** The clock runs forwards, and no call starts before the previous one has ended. */
  predicate OneAtATime(calls: seq<Call>) {
    && (forall i | 0 <= i < |calls| :: calls[i].start <= calls[i].end)
    && (forall i, j | 0 <= i < j < |calls| :: calls[i].end <= calls[j].start)
  }

  predicate Reached(c: Config, s: State, call: Call) {
    LetThrough(c, s, call) && call.ending.Failed?
  }

  /** When the calls that failed since the last success ended: only calls let through count. */
  function FailedSince(c: Config, calls: seq<Call>): seq<real> {
    if calls == [] then []
    else
      var n := |calls| - 1;
      var before := FailedSince(c, calls[..n]);
      var s := Serve(c, calls[..n]);
      if !LetThrough(c, s, calls[n]) then before
      else match calls[n].ending
           case Succeeded => []
           case Failed => before + [calls[n].end]
           case Cancelled => before
  }

  /** How long after the opening failure, number `threshold`, failure number i + 1 has to come. */
  function Gap(c: Config, i: int): real { (i + 1 - c.threshold) as real * c.resetAfter }

  /** From the failure that opened the breaker on, failures let through are at least
      `resetAfter` apart. */
  ghost predicate Spaced(c: Config, failed: seq<real>)
    requires c.threshold >= 1
  {
    forall i | c.threshold - 1 <= i < |failed| :: failed[i] >= failed[c.threshold - 1] + Gap(c, i)
  }

  function LastEnd(calls: seq<Call>): real {
    if calls == [] then 0.0 else calls[|calls| - 1].end
  }

  lemma OneMoreFailure(c: Config, before: seq<real>, end: real)
    requires c.threshold >= 1 && Spaced(c, before)
    requires |before| >= c.threshold ==> end - before[|before| - 1] >= c.resetAfter
    ensures Spaced(c, before + [end])
  {
    var n := |before|;
    if n >= c.threshold {
      assert before[n - 1] >= before[c.threshold - 1] + Gap(c, n - 1);
      assert Gap(c, n) == Gap(c, n - 1) + c.resetAfter;
    } else {
      assert Gap(c, c.threshold - 1) == 0.0;
    }
  }

  /** The breaker's fields say what happened since the last success. */
  ghost predicate Reports(c: Config, s: State, failed: seq<real>, calls: seq<Call>)
    requires c.threshold >= 1
  {
    && s.failures == |failed|
    && (s.openedAt.Some? <==> |failed| >= c.threshold)
    && (s.openedAt.Some? ==> s.openedAt.value == failed[|failed| - 1])
    && (forall i | 0 <= i < |failed| :: failed[i] <= LastEnd(calls))
  }

  lemma {:induction false} CallsAreReported(c: Config, calls: seq<Call>)
    requires c.threshold >= 1 && OneAtATime(calls)
    ensures Reports(c, Serve(c, calls), FailedSince(c, calls), calls)
  {
    if calls == [] {
    } else {
      var n := |calls| - 1;
      CallsAreReported(c, calls[..n]);
      assert LastEnd(calls[..n]) <= LastEnd(calls) || n == 0;
    }
  }

  lemma {:induction false} FailuresAreSpaced(c: Config, calls: seq<Call>)
    requires c.threshold >= 1 && c.resetAfter > 0.0 && OneAtATime(calls)
    ensures Reports(c, Serve(c, calls), FailedSince(c, calls), calls)
    ensures Spaced(c, FailedSince(c, calls))
  {
    CallsAreReported(c, calls);
    if calls == [] {
    } else {
      var n := |calls| - 1;
      FailuresAreSpaced(c, calls[..n]);
      if Reached(c, Serve(c, calls[..n]), calls[n]) {
        OneMoreFailure(c, FailedSince(c, calls[..n]), calls[n].end);
      }
    }
  }

  /** A call is refused exactly when the failures since the last success have reached the
      threshold and the last of them is less than `resetAfter` ago. */
  lemma RefusedExactly(c: Config, calls: seq<Call>, start: real, failed: seq<real>)
    requires c.threshold >= 1 && c.resetAfter > 0.0 && OneAtATime(calls) && failed == FailedSince(c, calls)
    ensures ModeOf(c, Serve(c, calls), start) == Open <==>
            |failed| >= c.threshold && start < failed[|failed| - 1] + c.resetAfter
  {
    FailuresAreSpaced(c, calls);
  }

  lemma AfterTheGap(c: Config, failed: seq<real>, t: real)
    requires c.threshold >= 1 && c.resetAfter > 0.0 && Spaced(c, failed)
    requires |failed| >= c.threshold && failed[|failed| - 1] <= t
    ensures |failed| - c.threshold <= Periods(c, t - failed[c.threshold - 1])
  {
    var last := |failed| - 1;
    assert failed[last] >= failed[c.threshold - 1] + Gap(c, last);
    FullPeriods(|failed| - c.threshold, t - failed[c.threshold - 1], c.resetAfter);
  }

  /** Protection: of the calls let through since the last success, those that had failed by time
      t number at most the threshold and one more for every full `resetAfter` since the breaker
      opened, at the failure that reached the threshold. */
  lemma ProtectionBound(c: Config, calls: seq<Call>, t: real, failed: seq<real>)
    requires c.threshold >= 1 && c.resetAfter > 0.0 && OneAtATime(calls)
    requires calls != [] && LastEnd(calls) <= t
    requires failed == FailedSince(c, calls) && |failed| >= c.threshold
    ensures |failed| <= c.threshold + Periods(c, t - failed[c.threshold - 1])
  {
    FailuresAreSpaced(c, calls);
    AfterTheGap(c, failed, t);
  }

  // ----- The breaker object --------------------------------------------------------------

  type Value(!new)
  type Error(!new)

  /** `Died` is an error outside `Exception`. */
  datatype Outcome = Returned(value: Value) | Raised(error: Error) | CancelledOut | Died(error: Error)

  datatype BreakerError = ThresholdTooSmall

  function CheckThreshold(threshold: int): (r: Result<nat, BreakerError>)
    ensures r.Ok? <==> threshold >= 1
  {
    if threshold < 1 then Err(ThresholdTooSmall) else Ok(threshold)
  }

  datatype CallError = CircuitOpen(failures: nat) | CallFailed(error: Error) | CallCancelled | CallDied(error: Error)

  function EndingOf(o: Outcome): Ending {
    match o
    case Returned(_) => Succeeded
    case Raised(_) => Failed
    case CancelledOut => Cancelled
    case Died(_) => Cancelled
  }

  /** One call of the breaker: when it starts, when the factory ends if it is called, and how. */
  datatype Attempt = Attempt(start: real, end: real, outcome: Outcome)

  /** A call is let through while the Exceptions raised since the last success are fewer than the
      threshold, or once the last of them is `resetAfter` ago. */
  predicate Admits(c: Config, raised: seq<real>, start: real)
    requires c.threshold >= 1
  {
    |raised| < c.threshold || start >= raised[|raised| - 1] + c.resetAfter
  }

  /** Told from what the factories did alone: the times of the Exceptions raised by calls let through
      since the last one that returned. */
  function Raises(c: Config, attempts: seq<Attempt>): seq<real>
    requires c.threshold >= 1
  {
    if attempts == [] then []
    else
      var raised := Raises(c, attempts[..|attempts| - 1]);
      var a := attempts[|attempts| - 1];
      if !Admits(c, raised, a.start) then raised
      else
        match a.outcome
        case Returned(_) => []
        case Raised(_) => raised + [a.end]
        case CancelledOut => raised
        case Died(_) => raised
  }

  function AsCall(a: Attempt): Call { Call(a.start, a.end, EndingOf(a.outcome)) }

  /** The breaker after these calls, one after another, on any clock. */
  function After(c: Config, attempts: seq<Attempt>): State {
    if attempts == [] then FRESH
    else Step(c, After(c, attempts[..|attempts| - 1]), AsCall(attempts[|attempts| - 1]))
  }

  /** What the factories did decides everything: the counter is the number of Exceptions since the
      last success, the breaker has opened exactly when they reached the threshold, at the last of
      them, and the state at any time, open or not, follows. */
  lemma {:induction false} StateFromOutcomes(c: Config, attempts: seq<Attempt>, now: real)
    requires c.threshold >= 1
    ensures var s, raised := After(c, attempts), Raises(c, attempts);
            && s.failures == |raised|
            && s.openedAt == (if |raised| >= c.threshold then Some(raised[|raised| - 1]) else None)
            && ModeOf(c, s, now) == (if |raised| < c.threshold then Closed
                                     else if now < raised[|raised| - 1] + c.resetAfter then Open else HalfOpen)
  {
    if attempts == [] {
    } else {
      var n := |attempts| - 1;
      StateFromOutcomes(c, attempts[..n], attempts[n].start);
    }
  }

  class CircuitBreaker {
    const threshold: nat
    const resetAfter: real
    var failures: nat
    var openedAt: Option<real>

    ghost function Abs(): State
      reads this
    {
      State(failures, openedAt)
    }

    function Cfg(): Config {
      Config(threshold, resetAfter)
    }

    constructor (threshold: int, resetAfter: real)
      requires CheckThreshold(threshold).Ok?
      ensures Abs() == FRESH && Cfg() == Config(threshold, resetAfter)
    {
      this.threshold, this.resetAfter := threshold, resetAfter;
      failures, openedAt := 0, None;
    }

    method Mode(now: real) returns (m: Mode)
      ensures m == ModeOf(Cfg(), Abs(), now)
    {
      if openedAt == None {
        return Closed;
      }
      if now - openedAt.value >= resetAfter {
        return HalfOpen;
      }
      return Open;
    }

    method RecordSuccess()
      modifies this
      ensures Abs() == FRESH
    {
      failures := 0;
      openedAt := None;
    }

    method RecordFailure(now: real)
      modifies this
      ensures Abs() == Record(Cfg(), old(Abs()), Failed, now)
    {
      failures := failures + 1;
      if failures >= threshold {
        openedAt := Some(now);
      }
    }

    /** `call` with nothing overlapping: it starts at `start`; the factory, when it is called at
        all, ends with `o` at `end`. */
    method Invoke(start: real, end: real, o: Outcome) returns (r: Result<Value, CallError>, called: bool)
      modifies this
      ensures called == LetThrough(Cfg(), old(Abs()), Call(start, end, EndingOf(o)))
      ensures Abs() == Step(Cfg(), old(Abs()), Call(start, end, EndingOf(o)))
      ensures called <==> old(openedAt).None? || start - old(openedAt).value >= resetAfter
      ensures !called ==> r == Err(CircuitOpen(old(failures))) && Abs() == old(Abs())
      ensures called && o.Returned? ==> failures == 0 && openedAt == None
      ensures called && o.Raised? ==>
                && failures == old(failures) + 1
                && openedAt == if failures >= threshold then Some(end) else old(openedAt)
      ensures called && (o.CancelledOut? || o.Died?) ==> Abs() == old(Abs())
      ensures called ==> r == match o
                              case Returned(v) => Ok(v)
                              case Raised(e) => Err(CallFailed(e))
                              case CancelledOut => Err(CallCancelled)
                              case Died(e) => Err(CallDied(e))
    {
      var mode := Mode(start);
      if mode == Open {
        return Err(CircuitOpen(failures)), false;
      }
      called := true;
      match o {
        case CancelledOut =>
          r := Err(CallCancelled);
        case Died(e) =>
          r := Err(CallDied(e));
        case Raised(e) =>
          RecordFailure(end);
          r := Err(CallFailed(e));
        case Returned(v) =>
          RecordSuccess();
          r := Ok(v);
      }
    }
  }
}
