/** `merge` of streams.py: several sources interleaved as their items arrive. */
module Merging {
  import opened Basics

  type Item(!new)

  /** Where the generator stands: at the top of its loop, going through `done`, suspended at the
      `yield` of an item of `source`, in `finally`, or over. */
  datatype Place =
    | Waiting
    | Visiting(left: seq<nat>)
    | AtYield(source: nat, rest: seq<nat>)
    | Unwinding(complete: bool)
    | Over(whole: bool)

  /** `pending[i]` counts the outstanding `__anext__` tasks of source i, finished ones that were
      not looked at included; `live` are the unfinished ones; `pos[i]` items of source i were
      yielded; every yielded item carries the source it came from. */
  datatype State = State(
    pending: multiset<nat>, live: set<nat>, ended: set<nat>, pos: seq<nat>,
    out: seq<(nat, Item)>, at: Place)

  datatype Step =
    | TaskDone(source: nat)
    | WaitReturns(done: seq<nat>)
    | LoopEnds
    | VisitNext(ok: bool)
    | Resume
    | Abort
    | Finish

  function Zeros(n: nat): (r: seq<nat>)
    ensures |r| == n && forall i | 0 <= i < n :: r[i] == 0
  {
    seq(n, i => 0)
  }

  function OnePerSource(n: nat): (m: multiset<nat>)
    ensures forall i: nat :: m[i] == if i < n then 1 else 0
  {
    if n == 0 then multiset{} else OnePerSource(n - 1) + multiset{n - 1}
  }

  function AllSources(n: nat): (r: set<nat>)
    ensures forall i: nat :: i in r <==> i < n
  {
    if n == 0 then {} else AllSources(n - 1) + {n - 1}
  }

  function Start(n: nat): State {
    State(OnePerSource(n), AllSources(n), {}, Zeros(n), [], Waiting)
  }

  predicate Ready(s: State, left: seq<nat>) {
    && Distinct(left)
    && forall k | 0 <= k < |left| :: s.pending[left[k]] > 0 && left[k] !in s.live
  }

  predicate Enabled(s: State, step: Step, sources: seq<seq<Item>>) {
    match step
    case TaskDone(i) => i in s.live
    case WaitReturns(done) => s.at == Waiting && |done| > 0 && Ready(s, done)
    case LoopEnds => s.at == Waiting && |s.pending| == 0
    case VisitNext(ok) =>
      && s.at.Visiting?
      && if s.at.left == [] then ok
         else s.at.left[0] < |s.pos| == |sources| && s.pos[s.at.left[0]] <= |sources[s.at.left[0]]|
    case Resume => s.at.AtYield?
    case Abort => s.at.AtYield? || s.at == Waiting
    case Finish => s.at.Unwinding? && forall i | i in s.pending :: i !in s.live
  }

  function Next(s: State, step: Step, sources: seq<seq<Item>>): State
    requires Enabled(s, step, sources)
  {
    match step
    case TaskDone(i) => s.(live := s.live - {i})
    case WaitReturns(done) => s.(at := Visiting(done))
    case LoopEnds => s.(at := Unwinding(true))
    case VisitNext(ok) =>
      if s.at.left == [] then s.(at := Waiting)
      else
        var i, rest := s.at.left[0], s.at.left[1..];
        var popped := s.(pending := s.pending - multiset{i});
        if !ok then popped.(at := Unwinding(false))
        else if s.pos[i] == |sources[i]| then popped.(ended := s.ended + {i}, at := Visiting(rest))
        else popped.(out := s.out + [(i, sources[i][s.pos[i]])], pos := s.pos[i := s.pos[i] + 1],
                     at := AtYield(i, rest))
    case Resume =>
      s.(pending := s.pending + multiset{s.at.source}, live := s.live + {s.at.source}, at := Visiting(s.at.rest))
    case Abort => s.(at := Unwinding(false))
    case Finish => s.(at := Over(s.at.complete))
  }

  ghost predicate Runs(s: State, steps: seq<Step>, sources: seq<seq<Item>>)
    decreases |steps|
  {
    steps == [] || (Enabled(s, steps[0], sources) && Runs(Next(s, steps[0], sources), steps[1..], sources))
  }

  ghost function Exec(s: State, steps: seq<Step>, sources: seq<seq<Item>>): State
    requires Runs(s, steps, sources)
    decreases |steps|
  {
    if steps == [] then s else Exec(Next(s, steps[0], sources), steps[1..], sources)
  }

  /** The output as source i sees it. */
  function Restrict(out: seq<(nat, Item)>, i: nat): seq<Item> {
    if out == [] then []
    else
      var last := out[|out| - 1];
      Restrict(out[..|out| - 1], i) + (if last.0 == i then [last.1] else [])
  }

  lemma RestrictSnoc(out: seq<(nat, Item)>, x: (nat, Item), i: nat)
    ensures Restrict(out + [x], i) == Restrict(out, i) + (if x.0 == i then [x.1] else [])
  {
    assert (out + [x])[..|out|] == out;
  }

  // ----- The invariant -------------------------------------------------------------------

  /** Restricted to any source, the output is what that source delivered so far. */
  ghost predicate Shuffled(s: State, sources: seq<seq<Item>>) {
    && |s.pos| == |sources|
    && (forall i | 0 <= i < |sources| :: s.pos[i] <= |sources[i]| && Restrict(s.out, i) == sources[i][..s.pos[i]])
    && (forall k | 0 <= k < |s.out| :: s.out[k].0 < |sources|)
  }

  predicate Yielding(at: Place, i: nat) { at.AtYield? && at.source == i }

  /** A source that has not ended has exactly one `__anext__` outstanding, except while its item
      is being yielded; one that has ended delivered everything and has none. */
  ghost predicate OneOutstanding(s: State, sources: seq<seq<Item>>) {
    forall i: nat ::
      s.pending[i] == if i < |sources| && i !in s.ended && !Yielding(s.at, i) then 1 else 0
  }

  ghost predicate Placed(s: State, sources: seq<seq<Item>>) {
    && (forall i | i in s.ended :: i < |sources| == |s.pos| && s.pos[i] == |sources[i]|)
    && (forall i | i in s.live :: s.pending[i] > 0)
    && (s.at.Visiting? ==> Ready(s, s.at.left))
    && (s.at.AtYield? ==> Ready(s, s.at.rest) && s.at.source < |sources| && s.at.source !in s.ended)
    && (s.at == Unwinding(true) || s.at == Over(true) ==> |s.pending| == 0)
    && (s.at.Over? ==> s.live == {})
  }

  predicate Gone(at: Place) { at == Unwinding(false) || at == Over(false) }

  ghost predicate Inv(s: State, sources: seq<seq<Item>>) {
    Shuffled(s, sources) && Placed(s, sources) && (!Gone(s.at) ==> OneOutstanding(s, sources))
  }

  lemma StepKeepsShuffle(s: State, step: Step, sources: seq<seq<Item>>)
    requires Inv(s, sources) && Enabled(s, step, sources)
    ensures Shuffled(Next(s, step, sources), sources)
  {
    var n := Next(s, step, sources);
    if step.VisitNext? && n.out != s.out {
      var j := s.at.left[0];
      var x := (j, sources[j][s.pos[j]]);
      forall i | 0 <= i < |sources|
        ensures n.pos[i] <= |sources[i]| && Restrict(n.out, i) == sources[i][..n.pos[i]]
      {
        RestrictSnoc(s.out, x, i);
        if i == j {
          assert sources[i][..n.pos[i]] == sources[i][..s.pos[i]] + [x.1];
        }
      }
    }
  }

  lemma VisitKeepsOutstanding(s: State, ok: bool, sources: seq<seq<Item>>)
    requires OneOutstanding(s, sources) && Enabled(s, VisitNext(ok), sources) && s.at.left != []
    requires s.pending[s.at.left[0]] > 0 && !Gone(Next(s, VisitNext(ok), sources).at)
    ensures OneOutstanding(Next(s, VisitNext(ok), sources), sources)
  {
  }

  lemma StepKeepsOutstanding(s: State, step: Step, sources: seq<seq<Item>>)
    requires OneOutstanding(s, sources) && Placed(s, sources) && Enabled(s, step, sources)
    requires !Gone(Next(s, step, sources).at)
    ensures OneOutstanding(Next(s, step, sources), sources)
  {
    if step.VisitNext? && s.at.left != [] {
      VisitKeepsOutstanding(s, step.ok, sources);
    }
  }

  lemma VisitKeepsPlace(s: State, ok: bool, sources: seq<seq<Item>>)
    requires Inv(s, sources) && Enabled(s, VisitNext(ok), sources) && s.at.left != []
    ensures Placed(Next(s, VisitNext(ok), sources), sources)
  {
    var n := Next(s, VisitNext(ok), sources);
    var i, rest := s.at.left[0], s.at.left[1..];
    assert s.pending[i] > 0 && i !in s.live && i !in s.ended;
    assert forall k | 0 <= k < |rest| :: rest[k] == s.at.left[k + 1] && rest[k] != i;
    assert Ready(n, rest);
  }

  lemma ResumeKeepsPlace(s: State, sources: seq<seq<Item>>)
    requires Inv(s, sources) && Enabled(s, Resume, sources)
    ensures Placed(Next(s, Resume, sources), sources)
  {
    var n := Next(s, Resume, sources);
    assert s.pending[s.at.source] == 0;
    assert Ready(n, s.at.rest);
  }

  lemma StepKeepsPlace(s: State, step: Step, sources: seq<seq<Item>>)
    requires Inv(s, sources) && Enabled(s, step, sources)
    ensures Placed(Next(s, step, sources), sources)
  {
    if step.VisitNext? && s.at.left != [] {
      VisitKeepsPlace(s, step.ok, sources);
    } else if step.Resume? {
      ResumeKeepsPlace(s, sources);
    }
  }

  lemma StepKeepsInv(s: State, step: Step, sources: seq<seq<Item>>)
    requires Inv(s, sources) && Enabled(s, step, sources)
    ensures Inv(Next(s, step, sources), sources)
  {
    StepKeepsShuffle(s, step, sources);
    StepKeepsPlace(s, step, sources);
    if !Gone(Next(s, step, sources).at) {
      StepKeepsOutstanding(s, step, sources);
    }
  }

  lemma {:induction false} RunKeepsInv(s: State, steps: seq<Step>, sources: seq<seq<Item>>)
    requires Inv(s, sources) && Runs(s, steps, sources)
    ensures Inv(Exec(s, steps, sources), sources)
    decreases |steps|
  {
    if steps == [] {
    } else {
      StepKeepsInv(s, steps[0], sources);
      RunKeepsInv(Next(s, steps[0], sources), steps[1..], sources);
    }
  }

  /** Every item of every source exactly once, each source in its own order. */
  ghost predicate IsInterleaving(out: seq<(nat, Item)>, sources: seq<seq<Item>>) {
    && (forall k | 0 <= k < |out| :: out[k].0 < |sources|)
    && (forall i | 0 <= i < |sources| :: Restrict(out, i) == sources[i])
  }

  /** For every schedule, choice of `done` and order of visiting it: restricted to a source the
      output is a prefix of it, and a merge that runs to its end interleaves all of them. */
  lemma MergeIsAShuffle(sources: seq<seq<Item>>, steps: seq<Step>)
    requires Runs(Start(|sources|), steps, sources)
    ensures var s := Exec(Start(|sources|), steps, sources);
            && (forall i | 0 <= i < |sources| :: Restrict(s.out, i) <= sources[i])
            && (!Gone(s.at) ==> OneOutstanding(s, sources))
            && (s.at == Over(true) ==> IsInterleaving(s.out, sources))
            && (s.at.Over? ==> s.live == {})
  {
    RunKeepsInv(Start(|sources|), steps, sources);
    var s := Exec(Start(|sources|), steps, sources);
    if s.at == Over(true) {
      forall i | 0 <= i < |sources| ensures Restrict(s.out, i) == sources[i] {
        assert s.pending[i] == 0;
        assert i in s.ended;
      }
    }
  }

  // ----- How it ends ---------------------------------------------------------------------

  /** What gives a run a bad end: it is given up, or a source raises. */
  predicate Spoils(step: Step) { step.Abort? || (step.VisitNext? && !step.ok) }

  lemma StepSpoils(s: State, step: Step, sources: seq<seq<Item>>)
    requires Enabled(s, step, sources)
    ensures Gone(Next(s, step, sources).at) <==> Gone(s.at) || Spoils(step)
  {
  }

  /** A merge is on its way to a bad end exactly when it was given up or a source raised; in
      particular the end of one source lets the others go on. */
  lemma {:induction false} GoneExactly(s: State, steps: seq<Step>, sources: seq<seq<Item>>)
    requires Runs(s, steps, sources)
    ensures Gone(Exec(s, steps, sources).at) <==>
            Gone(s.at) || exists i :: 0 <= i < |steps| && Spoils(steps[i])
    decreases |steps|
  {
    if steps == [] {
    } else {
      StepSpoils(s, steps[0], sources);
      GoneExactly(Next(s, steps[0], sources), steps[1..], sources);
      assert forall i | 0 <= i < |steps| - 1 :: steps[1..][i] == steps[i + 1];
      if i :| 0 <= i < |steps| && Spoils(steps[i]) && i > 0 {
        assert Spoils(steps[1..][i - 1]);
      }
    }
  }

  /** A merge that is over ran to its end exactly when nobody gave it up and no source raised. */
  lemma EndsWholeExactly(sources: seq<seq<Item>>, steps: seq<Step>)
    requires Runs(Start(|sources|), steps, sources) && Exec(Start(|sources|), steps, sources).at.Over?
    ensures Exec(Start(|sources|), steps, sources).at == Over(true) <==>
            forall i | 0 <= i < |steps| :: !Spoils(steps[i])
  {
    GoneExactly(Start(|sources|), steps, sources);
  }

  /** What is left to visit of the reads that one wait found done. */
  function Left(at: Place): seq<nat> {
    match at
    case Visiting(left) => left
    case AtYield(_, rest) => rest
    case _ => []
  }

  /** From `s` to `n` the read of source i was looked at: its item is out, or it has ended. */
  predicate LookedAt(s: State, n: State, i: nat, sources: seq<seq<Item>>) {
    && i < |s.pos| == |n.pos| == |sources|
    && (if s.pos[i] == |sources[i]| then i in n.ended && n.pos[i] == s.pos[i] else n.pos[i] == s.pos[i] + 1)
  }

  predicate OfTheRound(step: Step) { step.VisitNext? || step.Resume? || step.TaskDone? }

  predicate InRound(at: Place) { at.Visiting? || at.AtYield? }

  /** From `s` to `n`, with `left` still to visit in `s`: what was visited on the way was looked at,
      and no other source moved. */
  ghost predicate Visits(s: State, n: State, left: seq<nat>, sources: seq<seq<Item>>) {
    && s.ended <= n.ended && |n.pos| == |s.pos|
    && (!Gone(n.at) && !InRound(n.at) ==>
          n.at == Waiting && forall k | 0 <= k < |left| :: LookedAt(s, n, left[k], sources))
    && (forall i | 0 <= i < |s.pos| && i !in left :: n.pos[i] == s.pos[i])
  }

  /** One step of a round: it visits the first of `left`, or nobody. */
  ghost predicate VisitsOne(s: State, n: State, sources: seq<seq<Item>>) {
    var left := Left(s.at);
    && s.ended <= n.ended && |n.pos| == |s.pos|
    && (InRound(n.at) || (n.at == Waiting && left == []))
    && ((Left(n.at) == left && n.pos == s.pos)
        || (left != [] && Left(n.at) == left[1..] && LookedAt(s, n, left[0], sources)
            && forall i | 0 <= i < |s.pos| && i != left[0] :: n.pos[i] == s.pos[i]))
  }

  lemma RoundStep(s: State, step: Step, sources: seq<seq<Item>>)
    requires Inv(s, sources) && Enabled(s, step, sources) && InRound(s.at) && OfTheRound(step)
    requires Next(s, step, sources).at != Unwinding(false)
    ensures VisitsOne(s, Next(s, step, sources), sources)
  {
  }

  lemma {:induction false} NothingMoves(s: State, steps: seq<Step>, sources: seq<seq<Item>>)
    requires Runs(s, steps, sources) && (s.at == Waiting || s.at == Unwinding(false))
    requires forall i | 0 <= i < |steps| :: OfTheRound(steps[i])
    ensures var n := Exec(s, steps, sources); n.at == s.at && n.pos == s.pos && n.ended == s.ended
    decreases |steps|
  {
    if steps == [] {
    } else {
      NothingMoves(Next(s, steps[0], sources), steps[1..], sources);
    }
  }

  lemma VisitsOneMore(s: State, m: State, n: State, sources: seq<seq<Item>>)
    requires VisitsOne(s, m, sources) && Visits(m, n, Left(m.at), sources) && Distinct(Left(s.at))
    ensures Visits(s, n, Left(s.at), sources)
  {
    var left := Left(s.at);
    if Left(m.at) != left {
      assert left == [left[0]] + left[1..];
      assert left[0] !in left[1..];
      forall k | 0 < k < |left| && LookedAt(m, n, left[1..][k - 1], sources)
        ensures LookedAt(s, n, left[k], sources)
      {
        assert left[1..][k - 1] == left[k] != left[0];
      }
    }
  }

  lemma FailedVisit(s: State, step: Step, sources: seq<seq<Item>>)
    requires Enabled(s, step, sources) && InRound(s.at) && OfTheRound(step)
    requires Next(s, step, sources).at == Unwinding(false)
    ensures Next(s, step, sources).pos == s.pos && Next(s, step, sources).ended == s.ended
  {
  }

  /** A merge looks at everything that one wait found done before it waits again. */
  lemma {:induction false} RoundLooksAtAll(s: State, steps: seq<Step>, sources: seq<seq<Item>>)
    requires Inv(s, sources) && Runs(s, steps, sources) && InRound(s.at)
    requires forall i | 0 <= i < |steps| :: OfTheRound(steps[i])
    ensures Visits(s, Exec(s, steps, sources), Left(s.at), sources)
    decreases |steps|
  {
    if steps == [] {
    } else {
      var m := Next(s, steps[0], sources);
      StepKeepsInv(s, steps[0], sources);
      if m.at == Unwinding(false) {
        FailedVisit(s, steps[0], sources);
        NothingMoves(m, steps[1..], sources);
      } else {
        RoundStep(s, steps[0], sources);
        if InRound(m.at) {
          RoundLooksAtAll(m, steps[1..], sources);
        } else {
          NothingMoves(m, steps[1..], sources);
        }
        VisitsOneMore(s, m, Exec(m, steps[1..], sources), sources);
      }
    }
  }

  // ----- Termination ---------------------------------------------------------------------

  /** How many items the sources hold. */
  function Items(sources: seq<seq<Item>>): nat {
    if sources == [] then 0 else Items(sources[..|sources| - 1]) + |sources[|sources| - 1]|
  }

  function Sum(xs: seq<nat>): nat {
    if xs == [] then 0 else Sum(xs[..|xs| - 1]) + xs[|xs| - 1]
  }

  lemma {:induction false} SumUpdate(xs: seq<nat>, i: nat, x: nat)
    requires i < |xs|
    ensures Sum(xs[i := x]) == Sum(xs) - xs[i] + x
  {
    var n := |xs| - 1;
    if i == n {
      assert xs[i := x][..n] == xs[..n];
    } else {
      assert xs[i := x][..n] == xs[..n][i := x];
      SumUpdate(xs[..n], i, x);
    }
  }

  lemma {:induction false} SumOfZeros(n: nat)
    ensures Sum(Zeros(n)) == 0
  {
    if n == 0 {
    } else {
      assert Zeros(n)[..n - 1] == Zeros(n - 1);
      SumOfZeros(n - 1);
    }
  }

  lemma {:induction false} SumWithin(xs: seq<nat>, sources: seq<seq<Item>>)
    requires |xs| == |sources| && forall i | 0 <= i < |xs| :: xs[i] <= |sources[i]|
    ensures Sum(xs) <= Items(sources)
  {
    if xs == [] {
    } else {
      SumWithin(xs[..|xs| - 1], sources[..|xs| - 1]);
    }
  }

  lemma {:induction false} SizeOfAll(n: nat)
    ensures |AllSources(n)| == |OnePerSource(n)| == n
  {
    if n == 0 {
    } else {
      SizeOfAll(n - 1);
    }
  }

  function Rank(at: Place): nat {
    match at
    case AtYield(_, _) => 8
    case Visiting(left) => if left == [] then 3 else 1
    case Waiting => 2
    case Unwinding(_) => 1
    case Over(_) => 0
  }

  /** An upper bound for the steps that are left. */
  function Remaining(s: State, sources: seq<seq<Item>>): int {
    5 * (Items(sources) - Sum(s.pos)) + 3 * |s.pending| + |s.live| + Rank(s.at)
  }

  lemma VisitSpends(s: State, ok: bool, sources: seq<seq<Item>>)
    requires Inv(s, sources) && Enabled(s, VisitNext(ok), sources)
    ensures Remaining(Next(s, VisitNext(ok), sources), sources) < Remaining(s, sources)
  {
    if s.at.left != [] {
      var i := s.at.left[0];
      assert s.pending[i] > 0 && |s.pending - multiset{i}| == |s.pending| - 1;
      SumUpdate(s.pos, i, s.pos[i] + 1);
    }
  }

  lemma ResumeSpends(s: State, sources: seq<seq<Item>>)
    requires Enabled(s, Resume, sources)
    ensures Remaining(Next(s, Resume, sources), sources) < Remaining(s, sources)
  {
    assert |s.live + {s.at.source}| <= |s.live| + 1;
  }

  lemma StepSpends(s: State, step: Step, sources: seq<seq<Item>>)
    requires Inv(s, sources) && Enabled(s, step, sources)
    ensures Remaining(Next(s, step, sources), sources) < Remaining(s, sources)
  {
    match step
    case VisitNext(ok) => VisitSpends(s, ok, sources);
    case Resume => ResumeSpends(s, sources);
    case TaskDone(i) => assert |s.live - {i}| == |s.live| - 1;
    case _ =>
  }

  lemma {:induction false} StepsAreSpent(s: State, steps: seq<Step>, sources: seq<seq<Item>>)
    requires Inv(s, sources) && Runs(s, steps, sources)
    ensures |steps| + Remaining(Exec(s, steps, sources), sources) <= Remaining(s, sources)
    decreases |steps|
  {
    if steps == [] {
    } else {
      StepKeepsInv(s, steps[0], sources);
      StepSpends(s, steps[0], sources);
      StepsAreSpent(Next(s, steps[0], sources), steps[1..], sources);
    }
  }

  /** Until it is over something can happen, and not only that the generator is given up. */
  lemma CanMove(s: State, sources: seq<seq<Item>>) returns (step: Step)
    requires Inv(s, sources) && !s.at.Over?
    ensures Enabled(s, step, sources) && !step.Abort?
  {
    match s.at
    case Waiting =>
      if |s.pending| == 0 {
        step := LoopEnds;
      } else {
        var i :| i in s.pending;
        step := if i in s.live then TaskDone(i) else WaitReturns([i]);
      }
    case Visiting(left) =>
      step := VisitNext(true);
      if left != [] {
        assert s.pending[left[0]] > 0;
      }
    case AtYield(_, _) => step := Resume;
    case Unwinding(_) =>
      if i :| i in s.pending && i in s.live {
        step := TaskDone(i);
      } else {
        step := Finish;
      }
  }

  /** Over sources that hold N items together, a merge of S sources takes at most 5 N + 4 S + 2 steps,
      whatever the schedule and however it ends; and one that can go no further is over. */
  lemma MergeTerminates(sources: seq<seq<Item>>, steps: seq<Step>)
    requires Runs(Start(|sources|), steps, sources)
    ensures |steps| <= 5 * Items(sources) + 4 * |sources| + 2
    ensures var s := Exec(Start(|sources|), steps, sources);
            (forall step | Enabled(s, step, sources) :: step.Abort?) ==> s.at.Over?
  {
    RunKeepsInv(Start(|sources|), steps, sources);
    StepsAreSpent(Start(|sources|), steps, sources);
    SumOfZeros(|sources|);
    SizeOfAll(|sources|);
    var s := Exec(Start(|sources|), steps, sources);
    SumWithin(s.pos, sources);
    if !s.at.Over? {
      var step := CanMove(s, sources);
    }
  }

  /** Nobody gives it up and no source raises: when it can go no further, everything is out. */
  lemma UnspoiledMergeInterleaves(sources: seq<seq<Item>>, steps: seq<Step>)
    requires Runs(Start(|sources|), steps, sources) && forall i | 0 <= i < |steps| :: !Spoils(steps[i])
    requires forall step | Enabled(Exec(Start(|sources|), steps, sources), step, sources) :: step.Abort?
    ensures IsInterleaving(Exec(Start(|sources|), steps, sources).out, sources)
  {
    MergeTerminates(sources, steps);
    EndsWholeExactly(sources, steps);
    MergeIsAShuffle(sources, steps);
  }

  // ----- The generator object ------------------------------------------------------------

  /** The dictionary `pending`, filled by one loop over the sources and changed in place. */
  class Merger {
    const sources: seq<seq<Item>>
    var pending: multiset<nat>
    var pos: seq<nat>
    ghost var live: set<nat>
    ghost var ended: set<nat>
    ghost var out: seq<(nat, Item)>
    ghost var at: Place

    ghost function Abs(): State
      reads this
    {
      State(pending, live, ended, pos, out, at)
    }

    ghost predicate Valid()
      reads this
    {
      Inv(Abs(), sources)
    }

    constructor (sources: seq<seq<Item>>)
      ensures Valid() && this.sources == sources && Abs() == Start(|sources|)
    {
      var asked: multiset<nat> := multiset{};
      for i := 0 to |sources|
        invariant asked == OnePerSource(i)
      {
        asked := asked + multiset{i};
      }
      this.sources := sources;
      pending, pos := asked, Zeros(|sources|);
      live, ended, out, at := AllSources(|sources|), {}, [], Waiting;
    }

    /** One round of the loop over `done`: the task of source `i` leaves `pending` and its
        outcome decides. Returns the item to yield, if there is one. */
    method Visit(i: nat, ok: bool) returns (yielded: Option<Item>)
      requires Valid() && at.Visiting? && at.left != [] && i == at.left[0]
      modifies this
      ensures Enabled(old(Abs()), VisitNext(ok), sources)
      ensures Valid() && Abs() == Next(old(Abs()), VisitNext(ok), sources)
      ensures yielded.Some? <==> ok && old(pos[i]) < |sources[i]|
      ensures yielded.Some? ==> out == old(out) + [(i, yielded.value)]
    {
      assert pending[i] > 0;
      ghost var after := Next(Abs(), VisitNext(ok), sources);
      StepKeepsInv(Abs(), VisitNext(ok), sources);
      pending := pending - multiset{i};
      yielded := None;
      if !ok {
        at := Unwinding(false);
      } else if pos[i] == |sources[i]| {
        ended := ended + {i};
        at := Visiting(at.left[1..]);
      } else {
        yielded := Some(sources[i][pos[i]]);
        out := out + [(i, yielded.value)];
        pos := pos[i := pos[i] + 1];
        at := AtYield(i, at.left[1..]);
      }
      assert Abs() == after;
    }

    /** After the yield the same source is asked again. */
    method AskAgain(i: nat)
      requires Valid() && at.AtYield? && at.source == i
      modifies this
      ensures Valid() && Abs() == Next(old(Abs()), Resume, sources)
    {
      StepKeepsInv(Abs(), Resume, sources);
      pending := pending + multiset{i};
      live := live + {i};
      at := Visiting(at.rest);
    }
  }
}
