/** `amap` of streams.py: an async function mapped over a stream, in order or by completion. */
module ConcurrentMap {
  import opened Basics

  /** What the source delivers. */
  type Item(!new)

  /** A task is known by the position of its item in the source. Where the generator stands:
      in the fill loop, awaiting the popped head, waiting for a first completion, going through
      `done`, suspended at `yield` (with what is left of `done`), in `finally`, or over. */
  datatype Place =
    | Filling
    | Awaiting(head: nat)
    | Waiting
    | Visiting(left: seq<nat>)
    | AtYield(rest: seq<nat>)
    | Unwinding(complete: bool)
    | Over(whole: bool)

  datatype State = State(
    read: seq<Item>, exhausted: bool, inFlight: seq<nat>, live: set<nat>, failed: set<nat>,
    out: seq<nat>, at: Place)

  datatype Config = Config(concurrency: nat, ordered: bool)

  datatype Step =
    | Read(item: Item)
    | SourceEnds
    | Proceed
    | TaskDone(task: nat, ok: bool)
    | HeadIsDone
    | WaitReturns(done: seq<nat>)
    | VisitNext
    | Resume
    | Abort
    | Finish

  function Start(): State { State([], false, [], {}, {}, [], Filling) }

  predicate MoreToFill(s: State, c: Config) {
    !s.exhausted && |s.inFlight| < c.concurrency
  }

  predicate NoneLive(s: State) {
    forall i | 0 <= i < |s.inFlight| :: s.inFlight[i] !in s.live
  }

  predicate Enabled(s: State, step: Step, c: Config) {
    match step
    case Read(_) => s.at == Filling && MoreToFill(s, c)
    case SourceEnds => s.at == Filling && MoreToFill(s, c)
    case Proceed => s.at == Filling && !MoreToFill(s, c)
    case TaskDone(t, _) => t in s.live
    case HeadIsDone => s.at.Awaiting? && s.at.head !in s.live
    case WaitReturns(done) =>
      && s.at == Waiting && |done| > 0 && Distinct(done)
      && forall i | 0 <= i < |done| :: done[i] in s.inFlight && done[i] !in s.live
    case VisitNext => s.at.Visiting?
    case Resume => s.at.AtYield?
    // The consumer closes the generator at a yield, the source raises, or the caller is
    // cancelled: at the await of a popped head that cancels the head, and waits for it.
    case Abort =>
      s.at.AtYield? || s.at == Filling || s.at == Waiting || (s.at.Awaiting? && s.at.head !in s.live)
    case Finish => s.at.Unwinding? && NoneLive(s)
  }

  function Without(xs: seq<nat>, t: nat): seq<nat> {
    if xs == [] then [] else if xs[0] == t then xs[1..] else [xs[0]] + Without(xs[1..], t)
  }

  function Next(s: State, step: Step, c: Config): State
    requires Enabled(s, step, c)
  {
    match step
    case Read(item) =>
      var n := |s.read|;
      s.(read := s.read + [item], inFlight := s.inFlight + [n], live := s.live + {n})
    case SourceEnds => s.(exhausted := true)
    case Proceed =>
      if s.inFlight == [] then s.(at := Unwinding(true))
      else if c.ordered then s.(at := Awaiting(s.inFlight[0]), inFlight := s.inFlight[1..])
      else s.(at := Waiting)
    case TaskDone(t, ok) =>
      s.(live := s.live - {t}, failed := if ok then s.failed else s.failed + {t})
    case HeadIsDone =>
      if s.at.head in s.failed then s.(at := Unwinding(false))
      else s.(at := AtYield([]), out := s.out + [s.at.head])
    case WaitReturns(done) => s.(at := Visiting(done))
    case VisitNext =>
      if s.at.left == [] then s.(at := Filling)
      else
        var t := s.at.left[0];
        var removed := s.(inFlight := Without(s.inFlight, t));
        if t in s.failed then removed.(at := Unwinding(false))
        else removed.(at := AtYield(s.at.left[1..]), out := s.out + [t])
    case Resume => s.(at := if c.ordered then Filling else Visiting(s.at.rest))
    case Abort => s.(at := Unwinding(false))
    case Finish => s.(at := Over(s.at.complete))
  }

  ghost predicate Runs(s: State, steps: seq<Step>, c: Config)
    decreases |steps|
  {
    |steps| == 0 || (Enabled(s, steps[0], c) && Runs(Next(s, steps[0], c), steps[1..], c))
  }

  ghost function Exec(s: State, steps: seq<Step>, c: Config): State
    requires Runs(s, steps, c)
    decreases |steps|
  {
    if |steps| == 0 then s else Exec(Next(s, steps[0], c), steps[1..], c)
  }

  // ----- The invariant -------------------------------------------------------------------

  function Head(at: Place): seq<nat> { if at.Awaiting? then [at.head] else [] }

  /** Tasks the generator still has to deliver. */
  function Owed(s: State): seq<nat> { Head(s.at) + s.inFlight }

  predicate Aborted(at: Place) { at == Unwinding(false) || at == Over(false) }

  /** Yielded results followed by the popped and in-flight tasks are the items read: in order
      in the ordered form, as a multiset otherwise. After an abort only the yields count. */
  ghost predicate Accounted(n: nat, out: seq<nat>, owed: seq<nat>, aborted: bool, ordered: bool) {
    if ordered then
      if aborted then out <= Upto(n) else out + owed == Upto(n)
    else
      if aborted then multiset(out) <= multiset(Upto(n))
      else multiset(out + owed) == multiset(Upto(n))
  }

  ghost predicate Covers(s: State, c: Config) {
    Accounted(|s.read|, s.out, Owed(s), Aborted(s.at), c.ordered)
  }

  /** What is left of `done` are finished tasks, each still in flight. */
  ghost predicate Ready(s: State, left: seq<nat>) {
    && Distinct(left)
    && forall i | 0 <= i < |left| :: left[i] in s.inFlight && left[i] !in s.live
  }

  /** No more than `concurrency` tasks are owed, so none live beyond them, and reading ahead is
      bounded by the same number. */
  ghost predicate Bounded(s: State, c: Config) {
    && |Owed(s)| <= c.concurrency
    && |s.read| <= |s.out| + c.concurrency
    && (forall t | t in s.live :: t in Owed(s))
  }

  ghost predicate Placed(s: State, c: Config) {
    && (s.at.Visiting? ==> Ready(s, s.at.left))
    && (s.at.AtYield? ==> Ready(s, s.at.rest))
    && (s.at == Unwinding(true) || s.at == Over(true) ==> s.exhausted && s.inFlight == [])
    && (s.at == Waiting ==> s.inFlight != [])
    && (s.at.Over? ==> s.live == {})
    && (if c.ordered then !s.at.Visiting? && s.at != Waiting else !s.at.Awaiting?)
  }

  ghost predicate Inv(s: State, c: Config) {
    c.concurrency >= 1 && Covers(s, c) && Bounded(s, c) && Placed(s, c)
  }

  lemma {:induction false} WithoutOne(xs: seq<nat>, t: nat)
    requires t in xs
    ensures multiset(xs) == multiset(Without(xs, t)) + multiset{t}
    ensures |Without(xs, t)| == |xs| - 1
    ensures forall u | u in xs && u != t :: u in Without(xs, t)
  {
    assert xs == [xs[0]] + xs[1..];
    if xs[0] != t {
      WithoutOne(xs[1..], t);
    }
  }

  lemma CoversLength(n: nat, out: seq<nat>, owed: seq<nat>, ordered: bool)
    requires Accounted(n, out, owed, false, ordered)
    ensures |out| + |owed| == n
  {
    if !ordered {
      assert |multiset(out + owed)| == |multiset(Upto(n))|;
    }
  }

  lemma AccountRead(n: nat, out: seq<nat>, owed: seq<nat>, ordered: bool)
    requires Accounted(n, out, owed, false, ordered)
    ensures Accounted(n + 1, out, owed + [n], false, ordered)
  {
    UptoSnoc(n);
    assert out + (owed + [n]) == (out + owed) + [n];
  }

  lemma AccountYield(n: nat, out: seq<nat>, owed: seq<nat>, t: nat, left: seq<nat>, ordered: bool)
    requires Accounted(n, out, owed, false, ordered)
    requires if ordered then owed == [t] + left else multiset(owed) == multiset(left) + multiset{t}
    ensures Accounted(n, out + [t], left, false, ordered)
  {
    if ordered {
      assert out + owed == (out + [t]) + left;
    }
  }

  lemma AccountAbort(n: nat, out: seq<nat>, owed: seq<nat>, ordered: bool)
    requires Accounted(n, out, owed, false, ordered)
    ensures forall owed' :: Accounted(n, out, owed', true, ordered)
  {
  }

  /** Steps that move the generator on without reading, yielding or giving up. */
  predicate Quiet(s: State, step: Step) {
    || step.SourceEnds? || step.Proceed? || step.TaskDone? || step.WaitReturns? || step.Resume? || step.Finish?
    || (step.VisitNext? && s.at.Visiting? && s.at.left == [])
  }

  lemma QuietOwesTheSame(s: State, step: Step, c: Config)
    requires Enabled(s, step, c) && Quiet(s, step)
    ensures var n := Next(s, step, c);
            && n.out == s.out && n.read == s.read && n.live <= s.live
            && Owed(n) == Owed(s) && Aborted(n.at) == Aborted(s.at)
  {
    if step.Proceed? && s.inFlight != [] {
      assert [s.inFlight[0]] + s.inFlight[1..] == s.inFlight;
    }
  }

  /** `n` differs from `s` by task `t` being delivered, or by giving up on it. */
  ghost predicate Delivers(s: State, n: State, t: nat, ordered: bool) {
    && n.read == s.read && n.live == s.live && t !in s.live
    && (if Aborted(n.at) then n.out == s.out else n.out == s.out + [t])
    && |Owed(n)| == |Owed(s)| - 1
    && (forall u | u in Owed(s) && u != t :: u in Owed(n))
    && (if ordered then Owed(s) == [t] + Owed(n) else multiset(Owed(s)) == multiset(Owed(n)) + multiset{t})
  }

  lemma HeadDelivers(s: State, c: Config)
    requires Enabled(s, HeadIsDone, c) && c.ordered
    ensures Delivers(s, Next(s, HeadIsDone, c), s.at.head, c.ordered)
  {
    var n := Next(s, HeadIsDone, c);
    assert Owed(s) == [s.at.head] + Owed(n) by {
      assert Owed(n) == s.inFlight;
    }
  }

  lemma VisitDelivers(s: State, c: Config)
    requires Enabled(s, VisitNext, c) && s.at.left != [] && Ready(s, s.at.left) && !c.ordered
    ensures Delivers(s, Next(s, VisitNext, c), s.at.left[0], false)
  {
    var t := s.at.left[0];
    assert t in s.inFlight && t !in s.live;
    WithoutOne(s.inFlight, t);
    assert Owed(s) == s.inFlight && Owed(Next(s, VisitNext, c)) == Without(s.inFlight, t);
  }

  lemma StepDelivers(s: State, step: Step, c: Config, t: nat)
    requires Placed(s, c) && Enabled(s, step, c) && !Quiet(s, step) && (step.HeadIsDone? || step.VisitNext?)
    requires t == if step.HeadIsDone? then s.at.head else s.at.left[0]
    ensures Delivers(s, Next(s, step, c), t, c.ordered)
  {
    if step.HeadIsDone? {
      HeadDelivers(s, c);
    } else {
      VisitDelivers(s, c);
    }
  }

  lemma AbortOwesNoMore(s: State, c: Config)
    requires Enabled(s, Abort, c)
    ensures var n := Next(s, Abort, c);
            && n.read == s.read && n.out == s.out && |Owed(n)| <= |Owed(s)|
            && forall t :: t in s.live && t in Owed(s) ==> t in Owed(n)
  {
    assert Owed(s) == Head(s.at) + Owed(Next(s, Abort, c));
  }

  lemma DeliveryKeepsCovers(s: State, n: State, t: nat, c: Config)
    requires Covers(s, c) && !Aborted(s.at) && Delivers(s, n, t, c.ordered)
    ensures Covers(n, c)
  {
    if Aborted(n.at) {
      AccountAbort(|s.read|, s.out, Owed(s), c.ordered);
    } else {
      AccountYield(|s.read|, s.out, Owed(s), t, Owed(n), c.ordered);
    }
  }

  lemma ReadKeepsCovers(s: State, item: Item, c: Config)
    requires Covers(s, c) && Enabled(s, Read(item), c)
    ensures Covers(Next(s, Read(item), c), c)
  {
    assert Owed(s) == s.inFlight && Owed(Next(s, Read(item), c)) == Owed(s) + [|s.read|];
    AccountRead(|s.read|, s.out, Owed(s), c.ordered);
  }

  lemma StepKeepsCovers(s: State, step: Step, c: Config)
    requires Inv(s, c) && Enabled(s, step, c)
    ensures Covers(Next(s, step, c), c)
  {
    if Quiet(s, step) {
      QuietOwesTheSame(s, step, c);
    } else if step.Read? {
      ReadKeepsCovers(s, step.item, c);
    } else if step.Abort? {
      AbortOwesNoMore(s, c);
      AccountAbort(|s.read|, s.out, Owed(s), c.ordered);
    } else {
      var t := if step.HeadIsDone? then s.at.head else s.at.left[0];
      StepDelivers(s, step, c, t);
      DeliveryKeepsCovers(s, Next(s, step, c), t, c);
    }
  }

  lemma StepKeepsBounds(s: State, step: Step, c: Config)
    requires Inv(s, c) && Enabled(s, step, c)
    ensures Bounded(Next(s, step, c), c)
  {
    var n := Next(s, step, c);
    if Quiet(s, step) {
      QuietOwesTheSame(s, step, c);
    } else if step.Read? {
      CoversLength(|s.read|, s.out, Owed(s), c.ordered);
      assert Owed(s) == s.inFlight && Owed(n) == Owed(s) + [|s.read|];
    } else if step.Abort? {
      AbortOwesNoMore(s, c);
    } else {
      StepDelivers(s, step, c, if step.HeadIsDone? then s.at.head else s.at.left[0]);
    }
  }

  lemma StepKeepsPlace(s: State, step: Step, c: Config)
    requires Inv(s, c) && Enabled(s, step, c)
    ensures Placed(Next(s, step, c), c)
  {
    var n := Next(s, step, c);
    match step
    case VisitNext =>
      if s.at.left != [] {
        WithoutOne(s.inFlight, s.at.left[0]);
        if n.at.AtYield? {
          assert forall i | 0 <= i < |n.at.rest| :: n.at.rest[i] == s.at.left[i + 1];
        }
      }
    case _ =>
  }

  lemma StepKeepsInv(s: State, step: Step, c: Config)
    requires Inv(s, c) && Enabled(s, step, c)
    ensures Inv(Next(s, step, c), c)
  {
    StepKeepsCovers(s, step, c);
    StepKeepsBounds(s, step, c);
    StepKeepsPlace(s, step, c);
  }

  lemma {:induction false} RunKeepsInv(s: State, steps: seq<Step>, c: Config)
    requires Inv(s, c) && Runs(s, steps, c)
    ensures Inv(Exec(s, steps, c), c)
    decreases |steps|
  {
    if |steps| == 0 {
    } else {
      StepKeepsInv(s, steps[0], c);
      RunKeepsInv(Next(s, steps[0], c), steps[1..], c);
    }
  }

  // ----- What the consumer sees ----------------------------------------------------------

  /** Results in the order of the yields, for a function `f` computed by the tasks. */
  function Yields<R>(s: State, f: Item -> R): (ys: seq<R>)
    requires forall i | 0 <= i < |s.out| :: s.out[i] < |s.read|
    ensures |ys| == |s.out| && forall i | 0 <= i < |ys| :: ys[i] == f(s.read[s.out[i]])
  {
    seq(|s.out|, i requires 0 <= i < |s.out| => f(s.read[s.out[i]]))
  }

  ghost predicate OutInRange(s: State) {
    forall i | 0 <= i < |s.out| :: s.out[i] < |s.read|
  }

  lemma CoversInRange(s: State, c: Config)
    requires Covers(s, c)
    ensures OutInRange(s)
  {
    var all := Upto(|s.read|);
    if c.ordered {
      assert forall i | 0 <= i < |s.out| :: s.out[i] == (s.out + Owed(s))[i];
    } else {
      assert multiset(s.out) <= multiset(all) by {
        assert multiset(s.out + Owed(s)) == multiset(s.out) + multiset(Owed(s));
      }
      forall i | 0 <= i < |s.out| ensures s.out[i] < |s.read| {
        assert s.out[i] in multiset(s.out);
        assert s.out[i] in multiset(all);
        assert s.out[i] in all;
      }
    }
  }

  /** The ordered form yields a prefix of `map(f, read)` whatever order the tasks finish in and
      however it ends; when it runs to the end it yields all of it. */
  lemma OrderedRefinesMap<R>(steps: seq<Step>, c: Config, f: Item -> R)
    requires c.concurrency >= 1 && c.ordered && Runs(Start(), steps, c)
    ensures var s := Exec(Start(), steps, c);
            && OutInRange(s)
            && Yields(s, f) <= Map(f, s.read)
            && (s.at == Over(true) ==> s.exhausted && Yields(s, f) == Map(f, s.read))
  {
    RunKeepsInv(Start(), steps, c);
    var s := Exec(Start(), steps, c);
    CoversInRange(s, c);
    assert forall i | 0 <= i < |s.out| :: s.out[i] == i by {
      assert s.out <= Upto(|s.read|);
    }
    if s.at == Over(true) {
      assert s.out == s.out + Owed(s);
    }
  }

  lemma PermutedYields<R>(s: State, f: Item -> R)
    requires OutInRange(s) && multiset(s.out) == multiset(Upto(|s.read|))
    ensures multiset(Yields(s, f)) == multiset(Map(f, s.read))
  {
    if s.read == [] {
      assert |s.out| == |multiset(s.out)| == |multiset(Upto(0))|;
      assert Yields(s, f) == Map(f, s.read);
    } else {
      var g := (i: nat) => if i < |s.read| then f(s.read[i]) else f(s.read[0]);
      SameImage(s.out, Upto(|s.read|), g);
      assert Yields(s, f) == Map(g, s.out) && Map(f, s.read) == Map(g, Upto(|s.read|));
    }
  }

  /** The unordered form yields no item's result twice, and when it runs to the end it yields
      every one: the same results as `map(f, read)`, in the order of completion. */
  lemma UnorderedIsAPermutation<R>(steps: seq<Step>, c: Config, f: Item -> R)
    requires c.concurrency >= 1 && !c.ordered && Runs(Start(), steps, c)
    ensures var s := Exec(Start(), steps, c);
            && OutInRange(s)
            && multiset(s.out) <= multiset(Upto(|s.read|))
            && (s.at == Over(true) ==> s.exhausted && multiset(Yields(s, f)) == multiset(Map(f, s.read)))
  {
    RunKeepsInv(Start(), steps, c);
    var s := Exec(Start(), steps, c);
    CoversInRange(s, c);
    assert multiset(s.out + Owed(s)) == multiset(s.out) + multiset(Owed(s));
    if s.at == Over(true) {
      assert s.out + Owed(s) == s.out;
      PermutedYields(s, f);
    }
  }

  lemma {:induction false} FewInSeq(xs: set<nat>, ys: seq<nat>)
    requires forall x | x in xs :: x in ys
    ensures |xs| <= |ys|
    decreases |ys|
  {
    if ys == [] {
      assert xs == {};
    } else {
      assert forall x | x in xs - {ys[0]} :: x in ys[1..];
      FewInSeq(xs - {ys[0]}, ys[1..]);
      assert xs <= xs - {ys[0]} + {ys[0]};
    }
  }

  /** On every run and every exit: never more than `concurrency` tasks alive, never more than
      `concurrency` items read ahead of the yields, and no task alive once it is over. */
  lemma NoLiveTaskLeft(steps: seq<Step>, c: Config)
    requires c.concurrency >= 1 && Runs(Start(), steps, c)
    ensures var s := Exec(Start(), steps, c);
            && |s.live| <= c.concurrency
            && |s.read| <= |s.out| + c.concurrency
            && (s.at.Over? ==> s.live == {})
  {
    RunKeepsInv(Start(), steps, c);
    var s := Exec(Start(), steps, c);
    FewInSeq(s.live, Owed(s));
  }

  // ----- How it ends ---------------------------------------------------------------------

  /** What gives a run a bad end: it is given up, or a task fails. */
  predicate Spoils(step: Step) { step.Abort? || (step.TaskDone? && !step.ok) }

  /** Every task the generator knows of belongs to an item that was read. */
  ghost predicate Known(s: State) {
    && (forall t | t in s.live :: t < |s.read|)
    && (forall t | t in s.failed :: t < |s.read|)
    && (forall t | t in s.inFlight :: t < |s.read|)
    && (forall t | t in s.out :: t < |s.read|)
    && (s.at.Awaiting? ==> s.at.head < |s.read|)
  }

  lemma {:induction false} WithoutIsPart(xs: seq<nat>, t: nat)
    ensures forall u | u in Without(xs, t) :: u in xs
  {
    if xs == [] {
    } else {
      WithoutIsPart(xs[1..], t);
    }
  }

  lemma StepKeepsKnown(s: State, step: Step, c: Config)
    requires Placed(s, c) && Known(s) && Enabled(s, step, c)
    ensures Known(Next(s, step, c))
  {
    if step.VisitNext? && s.at.left != [] {
      assert s.at.left[0] in s.inFlight;
      WithoutIsPart(s.inFlight, s.at.left[0]);
    } else if step.Proceed? && s.inFlight != [] {
      assert s.inFlight[0] in s.inFlight && forall t | t in s.inFlight[1..] :: t in s.inFlight;
    }
  }

  /** Yielded tasks have succeeded: they are done, and did not fail. */
  ghost predicate OutSucceeded(s: State) {
    forall t | t in s.out :: t !in s.live && t !in s.failed
  }

  lemma StepKeepsOutSucceeded(s: State, step: Step, c: Config)
    requires Placed(s, c) && Known(s) && OutSucceeded(s) && Enabled(s, step, c)
    ensures OutSucceeded(Next(s, step, c))
  {
    if step.VisitNext? && s.at.left != [] {
      assert s.at.left[0] !in s.live;
    }
  }

  /** On every run, aborted ones included: what is yielded is the result of a task that succeeded. */
  lemma {:induction false} OnlySuccessIsYielded(s: State, steps: seq<Step>, c: Config)
    requires Inv(s, c) && Known(s) && OutSucceeded(s) && Runs(s, steps, c)
    ensures Known(Exec(s, steps, c)) && OutSucceeded(Exec(s, steps, c))
    decreases |steps|
  {
    if |steps| == 0 {
    } else {
      StepKeepsInv(s, steps[0], c);
      StepKeepsKnown(s, steps[0], c);
      StepKeepsOutSucceeded(s, steps[0], c);
      OnlySuccessIsYielded(Next(s, steps[0], c), steps[1..], c);
    }
  }

  /** The run so far was spoiled: it is aborted, or carries a failed task. */
  predicate Spoiled(s: State) { Aborted(s.at) || s.failed != {} }

  lemma StepSpoils(s: State, step: Step, c: Config)
    requires Enabled(s, step, c)
    ensures Spoiled(Next(s, step, c)) <==> Spoiled(s) || Spoils(step)
  {
    if step.TaskDone? && !step.ok {
      assert step.task in Next(s, step, c).failed;
    }
  }

  lemma {:induction false} SpoiledExactly(s: State, steps: seq<Step>, c: Config)
    requires Runs(s, steps, c)
    ensures Spoiled(Exec(s, steps, c)) <==> Spoiled(s) || exists i :: 0 <= i < |steps| && Spoils(steps[i])
    decreases |steps|
  {
    if |steps| == 0 {
    } else {
      StepSpoils(s, steps[0], c);
      SpoiledExactly(Next(s, steps[0], c), steps[1..], c);
      assert forall i | 0 <= i < |steps| - 1 :: steps[1..][i] == steps[i + 1];
      if i :| 0 <= i < |steps| && Spoils(steps[i]) && i > 0 {
        assert Spoils(steps[1..][i - 1]);
      }
    }
  }

  lemma WholeYieldsAll(s: State, c: Config)
    requires Inv(s, c) && s.at == Over(true)
    ensures forall t: nat | t < |s.read| :: t in s.out
  {
    assert s.out + Owed(s) == s.out;
    forall t: nat | t < |s.read| ensures t in s.out {
      assert Upto(|s.read|)[t] == t;
      assert t in multiset(Upto(|s.read|));
      assert c.ordered || t in multiset(s.out);
    }
  }

  /** A generator that is over has run to the end exactly when nobody gave it up and no task failed.
      In particular a task that fails ends it, and a task that succeeds does not. */
  lemma EndsWholeExactly(steps: seq<Step>, c: Config)
    requires c.concurrency >= 1 && Runs(Start(), steps, c) && Exec(Start(), steps, c).at.Over?
    ensures Exec(Start(), steps, c).at == Over(true) <==> forall i | 0 <= i < |steps| :: !Spoils(steps[i])
  {
    RunKeepsInv(Start(), steps, c);
    OnlySuccessIsYielded(Start(), steps, c);
    SpoiledExactly(Start(), steps, c);
    var s := Exec(Start(), steps, c);
    if s.at == Over(true) {
      WholeYieldsAll(s, c);
      assert forall t: nat :: t !in s.failed;
    }
  }

  /** Nobody gave it up and nobody failed: then it is not on its way to a bad end either. */
  lemma NoAbortByItself(steps: seq<Step>, c: Config)
    requires c.concurrency >= 1 && Runs(Start(), steps, c) && forall i | 0 <= i < |steps| :: !Spoils(steps[i])
    ensures !Aborted(Exec(Start(), steps, c).at)
  {
    SpoiledExactly(Start(), steps, c);
  }

  // ----- As busy as it may be ------------------------------------------------------------

  /** Whenever the generator waits for a task, all slots are in use, or the source is exhausted. */
  ghost predicate Busy(s: State, c: Config) {
    s.at.Awaiting? || s.at == Waiting ==> s.exhausted || |Owed(s)| >= c.concurrency
  }

  lemma StepKeepsBusy(s: State, step: Step, c: Config)
    requires Busy(s, c) && Enabled(s, step, c)
    ensures Busy(Next(s, step, c), c)
  {
  }

  lemma {:induction false} AlwaysBusy(s: State, steps: seq<Step>, c: Config)
    requires Busy(s, c) && Runs(s, steps, c)
    ensures Busy(Exec(s, steps, c), c)
    decreases |steps|
  {
    if |steps| == 0 {
    } else {
      StepKeepsBusy(s, steps[0], c);
      AlwaysBusy(Next(s, steps[0], c), steps[1..], c);
    }
  }

  /** What is left to visit of the finished tasks of one wait. */
  function Left(at: Place): seq<nat> {
    match at
    case Visiting(left) => left
    case AtYield(rest) => rest
    case _ => []
  }

  predicate OfTheRound(step: Step) { step.VisitNext? || step.Resume? || step.TaskDone? }

  lemma {:induction false} RoundIsOver(s: State, steps: seq<Step>, c: Config)
    requires Runs(s, steps, c) && (s.at == Filling || s.at.Unwinding?)
    requires forall i | 0 <= i < |steps| :: OfTheRound(steps[i])
    ensures Exec(s, steps, c).at == s.at && Exec(s, steps, c).out == s.out
    decreases |steps|
  {
    if |steps| == 0 {
    } else {
      RoundIsOver(Next(s, steps[0], c), steps[1..], c);
    }
  }

  lemma RoundStep(s: State, step: Step, c: Config)
    requires !c.ordered && Enabled(s, step, c) && (s.at.Visiting? || s.at.AtYield?) && OfTheRound(step)
    ensures var n := Next(s, step, c);
            if n.at.Visiting? || n.at.AtYield? then n.out + Left(n.at) == s.out + Left(s.at)
            else n.at.Unwinding? || (n.at == Filling && n.out == s.out + Left(s.at))
  {
    if step.VisitNext? {
      if s.at.left == [] {
        assert s.out + [] == s.out;
      } else {
        assert s.at.left == [s.at.left[0]] + s.at.left[1..];
      }
    }
  }

  /** The unordered form yields everything that one wait found done, in the order in which it was
      visited, before it reads or waits again. */
  lemma {:induction false} RoundYieldsAll(s: State, steps: seq<Step>, c: Config)
    requires !c.ordered && Runs(s, steps, c) && (s.at.Visiting? || s.at.AtYield?)
    requires forall i | 0 <= i < |steps| :: OfTheRound(steps[i])
    ensures var n := Exec(s, steps, c);
            && (n.at.Visiting? || n.at.AtYield? ==> n.out + Left(n.at) == s.out + Left(s.at))
            && (n.at == Filling ==> n.out == s.out + Left(s.at))
            && n.at != Waiting && !n.at.Awaiting?
    decreases |steps|
  {
    if |steps| == 0 {
    } else {
      var m := Next(s, steps[0], c);
      RoundStep(s, steps[0], c);
      if m.at.Visiting? || m.at.AtYield? {
        RoundYieldsAll(m, steps[1..], c);
      } else {
        RoundIsOver(m, steps[1..], c);
      }
    }
  }

  // ----- Termination ---------------------------------------------------------------------

  function Rank(at: Place): nat {
    match at
    case Awaiting(_) => 7
    case AtYield(_) => 6
    case Visiting(left) => if |left| == 0 then 5 else 2
    case Filling => 4
    case Waiting => 3
    case Unwinding(_) => 1
    case Over(_) => 0
  }

  /** An upper bound for the steps that are left, over a source of `total` items. */
  function Remaining(s: State, total: nat): int {
    7 * (total - |s.read|) + 5 * |s.inFlight| + |s.live| + Bit(!s.exhausted) + Rank(s.at)
  }

  lemma ReadSpends(s: State, item: Item, c: Config, total: nat)
    requires Enabled(s, Read(item), c)
    ensures Remaining(Next(s, Read(item), c), total) < Remaining(s, total)
  {
    assert |s.live + {|s.read|}| <= |s.live| + 1;
  }

  lemma TaskDoneSpends(s: State, t: nat, ok: bool, c: Config, total: nat)
    requires Enabled(s, TaskDone(t, ok), c)
    ensures Remaining(Next(s, TaskDone(t, ok), c), total) < Remaining(s, total)
  {
    assert |s.live - {t}| == |s.live| - 1;
  }

  lemma VisitSpends(s: State, c: Config, total: nat)
    requires Placed(s, c) && Enabled(s, VisitNext, c)
    ensures Remaining(Next(s, VisitNext, c), total) < Remaining(s, total)
  {
    if |s.at.left| > 0 {
      assert s.at.left[0] in s.inFlight;
      WithoutOne(s.inFlight, s.at.left[0]);
    }
  }

  lemma StepSpends(s: State, step: Step, c: Config, total: nat)
    requires Placed(s, c) && Enabled(s, step, c)
    ensures Remaining(Next(s, step, c), total) < Remaining(s, total)
  {
    match step
    case Read(item) => ReadSpends(s, item, c, total);
    case TaskDone(t, ok) => TaskDoneSpends(s, t, ok, c, total);
    case VisitNext => VisitSpends(s, c, total);
    case _ =>
  }

  lemma {:induction false} StepsAreSpent(s: State, steps: seq<Step>, c: Config, total: nat)
    requires Inv(s, c) && Runs(s, steps, c)
    ensures |steps| + Remaining(Exec(s, steps, c), total) <= Remaining(s, total)
    decreases |steps|
  {
    if |steps| == 0 {
    } else {
      StepKeepsInv(s, steps[0], c);
      StepSpends(s, steps[0], c, total);
      StepsAreSpent(Next(s, steps[0], c), steps[1..], c, total);
    }
  }

  /** Until it is over something can happen, and not only that the generator is given up. */
  lemma CanMove(s: State, c: Config) returns (step: Step)
    requires Inv(s, c) && !s.at.Over?
    ensures Enabled(s, step, c) && !step.Abort?
  {
    match s.at
    case Filling => step := if MoreToFill(s, c) then SourceEnds else Proceed;
    case Awaiting(h) => step := if h in s.live then TaskDone(h, true) else HeadIsDone;
    case Waiting =>
      var t := s.inFlight[0];
      step := if t in s.live then TaskDone(t, true) else WaitReturns([t]);
    case Visiting(_) => step := VisitNext;
    case AtYield(_) => step := Resume;
    case Unwinding(_) =>
      if i :| 0 <= i < |s.inFlight| && s.inFlight[i] in s.live {
        step := TaskDone(s.inFlight[i], true);
      } else {
        step := Finish;
      }
  }

  /** In either form, over a source of `total` items at most 7 * total + 5 steps happen, in whatever
      order tasks finish and however the generator ends; and one that can go no further is over. */
  lemma AmapTerminates(steps: seq<Step>, c: Config, total: nat)
    requires c.concurrency >= 1 && Runs(Start(), steps, c) && |Exec(Start(), steps, c).read| <= total
    ensures |steps| <= 7 * total + 5
    ensures var s := Exec(Start(), steps, c); (forall step | Enabled(s, step, c) :: step.Abort?) ==> s.at.Over?
  {
    RunKeepsInv(Start(), steps, c);
    StepsAreSpent(Start(), steps, c, total);
    var s := Exec(Start(), steps, c);
    if !s.at.Over? {
      var step := CanMove(s, c);
    }
  }

  /** Nobody gives it up and no task fails: when it can go no further, it has run to the end. */
  lemma UnspoiledIsWhole(steps: seq<Step>, c: Config)
    requires c.concurrency >= 1 && Runs(Start(), steps, c) && forall i | 0 <= i < |steps| :: !Spoils(steps[i])
    requires forall step | Enabled(Exec(Start(), steps, c), step, c) :: step.Abort?
    ensures Exec(Start(), steps, c).at == Over(true)
  {
    AmapTerminates(steps, c, |Exec(Start(), steps, c).read|);
    EndsWholeExactly(steps, c);
  }

  // ----- The generator object ------------------------------------------------------------

  datatype AmapError = ConcurrencyTooSmall

  function CheckConcurrency(concurrency: int): (r: Result<nat, AmapError>)
    ensures r.Ok? <==> concurrency >= 1
  {
    if concurrency < 1 then Err(ConcurrencyTooSmall) else Ok(concurrency)
  }

  /** What a generator can come to, from its start, under some schedule. */
  ghost predicate Reachable(s: State, c: Config) {
    c.concurrency >= 1 && exists steps :: Runs(Start(), steps, c) && Exec(Start(), steps, c) == s
  }

  lemma {:induction false} RunSnoc(s: State, steps: seq<Step>, step: Step, c: Config)
    requires Runs(s, steps, c) && Enabled(Exec(s, steps, c), step, c)
    ensures Runs(s, steps + [step], c) && Exec(s, steps + [step], c) == Next(Exec(s, steps, c), step, c)
    decreases |steps|
  {
    if |steps| == 0 {
      assert steps + [step] == [step] && [step][1..] == [];
    } else {
      assert (steps + [step])[1..] == steps[1..] + [step];
      RunSnoc(Next(s, steps[0], c), steps[1..], step, c);
    }
  }

  lemma StaysReachable(s: State, step: Step, c: Config)
    requires Reachable(s, c) && Enabled(s, step, c)
    ensures Reachable(Next(s, step, c), c)
  {
    var steps :| Runs(Start(), steps, c) && Exec(Start(), steps, c) == s;
    RunSnoc(Start(), steps, step, c);
  }

  /** The first k answers of a source that has at least k items. */
  function Delivered(answer: nat -> Option<Item>, k: nat): (r: seq<Item>)
    requires forall i: nat | i < k :: answer(i).Some?
    ensures |r| == k
  {
    if k == 0 then [] else Delivered(answer, k - 1) + [answer(k - 1).value]
  }

  /** From `s` to `n` the first k answers were taken in, one new task for each, and nothing else. */
  ghost predicate Filled(s: State, n: State, answer: nat -> Option<Item>, k: nat) {
    && n.at == s.at == Filling && n.out == s.out
    && (forall i: nat | i < k :: answer(i).Some?)
    && n.read == s.read + Delivered(answer, k)
    && n.inFlight == s.inFlight + Upto(|n.read|)[|s.read|..]
    && (if s.exhausted then n.exhausted && k == 0 else n.exhausted ==> answer(k) == None)
  }

  lemma FillOneMore(s: State, m: State, n: State, answer: nat -> Option<Item>, k: nat)
    requires Filled(s, m, answer, k) && !m.exhausted && answer(k).Some?
    requires n == m.(read := m.read + [answer(k).value], inFlight := m.inFlight + [|m.read|], live := n.live)
    ensures Filled(s, n, answer, k + 1)
  {
    UptoSnoc(|m.read|);
    assert Delivered(answer, k + 1) == Delivered(answer, k) + [answer(k).value];
    assert Upto(|n.read|)[|s.read|..] == Upto(|m.read|)[|s.read|..] + [|m.read|];
  }

  /** The generator's local variables, changed in place between its suspension points. Reads,
      yields, completions and the place in the code are ghost: they belong to the loop. */
  class Generator {
    const concurrency: nat
    const ordered: bool
    var inFlight: seq<nat>
    var exhausted: bool
    var nextTask: nat
    ghost var read: seq<Item>
    ghost var live: set<nat>
    ghost var failed: set<nat>
    ghost var out: seq<nat>
    ghost var at: Place

    ghost function Abs(): State
      reads this
    {
      State(read, exhausted, inFlight, live, failed, out, at)
    }

    function Cfg(): Config {
      Config(concurrency, ordered)
    }

    ghost predicate Valid()
      reads this
    {
      nextTask == |read| && Reachable(Abs(), Cfg())
    }

    constructor (concurrency: int, ordered: bool)
      requires CheckConcurrency(concurrency).Ok?
      ensures Valid() && Abs() == Start() && Cfg() == Config(concurrency, ordered)
    {
      this.concurrency, this.ordered := concurrency, ordered;
      inFlight, exhausted, nextTask := [], false, 0;
      read, live, failed, out, at := [], {}, {}, [], Filling;
      ghost var none: seq<Step> := [];
      assert Runs(Start(), none, Config(concurrency, ordered));
    }

    method GotItem(item: Item)
      requires Valid() && Enabled(Abs(), Read(item), Cfg())
      modifies this
      ensures Valid() && Abs() == Next(old(Abs()), Read(item), Cfg())
    {
      ghost var after := Next(Abs(), Read(item), Cfg());
      StaysReachable(Abs(), Read(item), Cfg());
      inFlight := inFlight + [nextTask];
      live, read := live + {nextTask}, read + [item];
      nextTask := nextTask + 1;
      assert Abs() == after;
    }

    method GotEnd()
      requires Valid() && Enabled(Abs(), SourceEnds, Cfg())
      modifies this
      ensures Valid() && Abs() == Next(old(Abs()), SourceEnds, Cfg())
    {
      ghost var after := Next(Abs(), SourceEnds, Cfg());
      StaysReachable(Abs(), SourceEnds, Cfg());
      exhausted := true;
      assert Abs() == after;
    }

    ghost method TaskFinishes(t: nat, ok: bool)
      requires Valid() && t in live
      modifies this`live, this`failed
      ensures Valid() && Abs() == Next(old(Abs()), TaskDone(t, ok), Cfg())
    {
      StaysReachable(Abs(), TaskDone(t, ok), Cfg());
      live, failed := live - {t}, if ok then failed else failed + {t};
    }

    /** A suspension: meanwhile any of the live tasks may finish, well or not. */
    ghost method Suspend()
      requires Valid()
      modifies this`live, this`failed
      ensures Valid() && live <= old(live) && old(failed) <= failed <= old(failed) + (old(live) - live)
    {
      var finishing: seq<(nat, bool)> := *;
      for i := 0 to |finishing|
        invariant Valid() && live <= old(live) && old(failed) <= failed <= old(failed) + (old(live) - live)
      {
        if finishing[i].0 in live {
          TaskFinishes(finishing[i].0, finishing[i].1);
        }
      }
    }

    /** The fill loop, on whatever the source answers: it takes items until `concurrency` tasks are
        in flight or the source ends, one task for each, in the order of the source, and leaves
        the loop only when there is nothing more to fill. */
    method Fill(answer: nat -> Option<Item>) returns (k: nat)
      requires Valid() && at == Filling
      modifies this
      ensures Valid() && Filled(old(Abs()), Abs(), answer, k) && !MoreToFill(Abs(), Cfg())
    {
      k := 0;
      assert Delivered(answer, 0) == [] && Upto(|read|)[|read|..] == [];
      while !exhausted && |inFlight| < concurrency
        invariant Valid() && Filled(old(Abs()), Abs(), answer, k)
        decreases !exhausted, concurrency - |inFlight|
      {
        Suspend();
        ghost var before := Abs();
        match answer(k) {
          case None =>
            GotEnd();
          case Some(item) =>
            GotItem(item);
            FillOneMore(old(Abs()), before, Abs(), answer, k);
            k := k + 1;
        }
      }
    }

    /** From the end of the fill loop to the next suspension, or to the return. */
    method AfterFill() returns (returned: bool)
      requires Valid() && Enabled(Abs(), Proceed, Cfg())
      modifies this
      ensures Valid() && Abs() == Next(old(Abs()), Proceed, Cfg())
      ensures returned == (at == Unwinding(true))
    {
      ghost var after := Next(Abs(), Proceed, Cfg());
      StaysReachable(Abs(), Proceed, Cfg());
      returned := |inFlight| == 0;
      if returned {
        at := Unwinding(true);
      } else if ordered {
        at := Awaiting(inFlight[0]);
        inFlight := inFlight[1..];
      } else {
        at := Waiting;
      }
      assert Abs() == after;
    }

    /** The popped head is done: yield its result, or let its error out. */
    method HeadDone(ok: bool)
      requires Valid() && Enabled(Abs(), HeadIsDone, Cfg()) && ok == (at.head !in failed)
      modifies this
      ensures Valid() && Abs() == Next(old(Abs()), HeadIsDone, Cfg())
    {
      ghost var after := Next(Abs(), HeadIsDone, Cfg());
      StaysReachable(Abs(), HeadIsDone, Cfg());
      if ok {
        out := out + [at.head];
        at := AtYield([]);
      } else {
        at := Unwinding(false);
      }
      assert Abs() == after;
    }

    /** One round of the loop over `done`. */
    method Visit(t: nat, ok: bool)
      requires Valid() && at.Visiting? && |at.left| > 0 && t == at.left[0] && ok == (t !in failed)
      modifies this
      ensures Valid() && Abs() == Next(old(Abs()), VisitNext, Cfg())
    {
      ghost var after := Next(Abs(), VisitNext, Cfg());
      StaysReachable(Abs(), VisitNext, Cfg());
      inFlight := Without(inFlight, t);
      if ok {
        out := out + [t];
        at := AtYield(at.left[1..]);
      } else {
        at := Unwinding(false);
      }
      assert Abs() == after;
    }
  }
}
