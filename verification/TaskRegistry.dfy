/** `TaskRegistry` of tasks.py: background tasks with an owner, which may spawn further ones. */
module Registry {
  import opened Basics

  type Error(!new)

  /** What a task will still spawn into the registry, in order: a finite tree. */
  datatype Plan = Plan(children: seq<Plan>)

  datatype Task = Task(id: nat, plan: Plan)

  /** `fatal` marks an error outside `Exception`, which `cancel_and_wait` does not absorb. */
  datatype Ending = Succeeded | Failed(error: Error, fatal: bool) | Cancelled

  predicate Fatal(e: Ending) { e.Failed? && e.fatal }

  /** `tasks` lists the members of the set the registry owns; `spawned` and `cancelled` are
      only counted for the proof. */
  datatype State = State(
    tasks: seq<Task>, closed: bool, completed: nat, failed: nat, errors: seq<Error>,
    cancelled: nat, spawned: nat)

  const EMPTY := State([], false, 0, 0, [], 0, 0)

  datatype Step =
    | Spawn(plan: Plan)
    | SpawnChild(k: nat)
    | End(k: nat, ending: Ending)
    | Close

  predicate Enabled(s: State, step: Step) {
    match step
    case Spawn(_) => true
    case SpawnChild(k) => k < |s.tasks| && |s.tasks[k].plan.children| > 0
    case End(k, _) => k < |s.tasks|
    case Close => true
  }

  function Own(s: State, plan: Plan): State {
    if s.closed then s
    else s.(tasks := s.tasks + [Task(s.spawned, plan)], spawned := s.spawned + 1)
  }

  /** `_on_done`: the task leaves the set, and its ending is counted. */
  function Settle(s: State, k: nat, ending: Ending): State
    requires k < |s.tasks|
  {
    var left := s.(tasks := RemoveAt(s.tasks, k));
    match ending
    case Cancelled => left.(cancelled := s.cancelled + 1)
    case Succeeded => left.(completed := s.completed + 1)
    case Failed(e, _) => left.(failed := s.failed + 1, errors := s.errors + [e])
  }

  function Advance(t: Task): Task
    requires |t.plan.children| > 0
  {
    Task(t.id, Plan(t.plan.children[1..]))
  }

  function Next(s: State, step: Step): State
    requires Enabled(s, step)
  {
    match step
    case Spawn(plan) => Own(s, plan)
    case SpawnChild(k) => Own(s.(tasks := s.tasks[k := Advance(s.tasks[k])]), s.tasks[k].plan.children[0])
    case End(k, ending) => Settle(s, k, ending)
    case Close => s.(closed := true)
  }

  ghost predicate Runs(s: State, steps: seq<Step>)
    decreases |steps|
  {
    steps == [] || (Enabled(s, steps[0]) && Runs(Next(s, steps[0]), steps[1..]))
  }

  ghost function Exec(s: State, steps: seq<Step>): State
    requires Runs(s, steps)
    decreases |steps|
  {
    if steps == [] then s else Exec(Next(s, steps[0]), steps[1..])
  }

  // ----- Ownership -----------------------------------------------------------------------

  /** Every task ever spawned is owned, or was counted under exactly one ending. */
  ghost predicate Inv(s: State) {
    && s.spawned == |s.tasks| + s.completed + s.failed + s.cancelled
    && |s.errors| == s.failed
    && (forall i | 0 <= i < |s.tasks| :: s.tasks[i].id < s.spawned)
    && (forall i, j | 0 <= i < j < |s.tasks| :: s.tasks[i].id != s.tasks[j].id)
  }

  lemma OwnKeepsInv(s: State, plan: Plan)
    requires Inv(s)
    ensures Inv(Own(s, plan))
  {
  }

  lemma SettleKeepsInv(s: State, k: nat, ending: Ending)
    requires Inv(s) && k < |s.tasks|
    ensures Inv(Settle(s, k, ending))
  {
    var left := RemoveAt(s.tasks, k);
    assert forall i | 0 <= i < |left| :: left[i] == if i < k then s.tasks[i] else s.tasks[i + 1];
  }

  lemma AdvanceKeepsInv(s: State, k: nat)
    requires Inv(s) && k < |s.tasks| && |s.tasks[k].plan.children| > 0
    ensures Inv(s.(tasks := s.tasks[k := Advance(s.tasks[k])]))
  {
  }

  lemma StepKeepsInv(s: State, step: Step)
    requires Inv(s) && Enabled(s, step)
    ensures Inv(Next(s, step))
  {
    match step
    case Spawn(plan) => OwnKeepsInv(s, plan);
    case SpawnChild(k) =>
      AdvanceKeepsInv(s, k);
      OwnKeepsInv(s.(tasks := s.tasks[k := Advance(s.tasks[k])]), s.tasks[k].plan.children[0]);
    case End(k, ending) => SettleKeepsInv(s, k, ending);
    case Close =>
  }

  lemma {:induction false} RunKeepsInv(s: State, steps: seq<Step>)
    requires Inv(s) && Runs(s, steps)
    ensures Inv(Exec(s, steps))
    decreases |steps|
  {
    if steps == [] {
    } else {
      StepKeepsInv(s, steps[0]);
      RunKeepsInv(Next(s, steps[0]), steps[1..]);
    }
  }

  function ErrorIn(step: Step): seq<Error> {
    if step.End? && step.ending.Failed? then [step.ending.error] else []
  }

  function ErrorsIn(steps: seq<Step>): seq<Error>
    decreases |steps|
  {
    if steps == [] then [] else ErrorIn(steps[0]) + ErrorsIn(steps[1..])
  }

  function Endings(steps: seq<Step>): nat
    decreases |steps|
  {
    if steps == [] then 0 else Bit(steps[0].End?) + Endings(steps[1..])
  }

  predicate EndsWell(step: Step) { step.End? && step.ending.Succeeded? }

  predicate EndsCancelled(step: Step) { step.End? && step.ending.Cancelled? }

  function Successes(steps: seq<Step>): nat
    decreases |steps|
  {
    if steps == [] then 0 else Bit(EndsWell(steps[0])) + Successes(steps[1..])
  }

  function Cancellations(steps: seq<Step>): nat
    decreases |steps|
  {
    if steps == [] then 0 else Bit(EndsCancelled(steps[0])) + Cancellations(steps[1..])
  }

  /** The calls of `spawn` that come before the registry is closed, when it is closed or not now. */
  function Accepted(closed: bool, steps: seq<Step>): nat
    decreases |steps|
  {
    if closed || steps == [] then 0
    else Bit(steps[0].Spawn? || steps[0].SpawnChild?) + Accepted(steps[0].Close?, steps[1..])
  }

  lemma CloseComesLater(steps: seq<Step>)
    requires steps != []
    ensures (exists i :: 0 <= i < |steps| && steps[i].Close?) <==>
            steps[0].Close? || exists i :: 0 <= i < |steps| - 1 && steps[1..][i].Close?
  {
    if i :| 0 <= i < |steps| && steps[i].Close? && i > 0 {
      assert steps[1..][i - 1].Close?;
    }
    if i :| 0 <= i < |steps| - 1 && steps[1..][i].Close? {
      assert steps[i + 1].Close?;
    }
  }

  /** Each kind of ending has its counter, an open registry accepts every task and a closed one
      none, and `Close` closes it. */
  lemma {:induction false} CountersAreExact(s: State, steps: seq<Step>)
    requires Runs(s, steps)
    ensures var n := Exec(s, steps);
            && n.completed == s.completed + Successes(steps)
            && n.cancelled == s.cancelled + Cancellations(steps)
            && n.spawned == s.spawned + Accepted(s.closed, steps)
            && (n.closed <==> s.closed || exists i :: 0 <= i < |steps| && steps[i].Close?)
    decreases |steps|
  {
    if steps == [] {
    } else {
      var m := Next(s, steps[0]);
      CountersAreExact(m, steps[1..]);
      CloseComesLater(steps);
      assert m.closed == (s.closed || steps[0].Close?);
    }
  }

  /** From `s` to `n` so many tasks ended, and these errors were logged. */
  ghost predicate Logged(s: State, n: State, endings: nat, errors: seq<Error>) {
    && n.errors == s.errors + errors
    && n.completed + n.failed + n.cancelled == s.completed + s.failed + s.cancelled + endings
  }

  lemma StepIsLogged(s: State, step: Step)
    requires Enabled(s, step)
    ensures Logged(s, Next(s, step), Bit(step.End?), ErrorIn(step))
  {
    assert s.errors + [] == s.errors;
  }

  lemma LoggedTwice(s: State, m: State, n: State, a: nat, b: nat, e: seq<Error>, e': seq<Error>)
    requires Logged(s, m, a, e) && Logged(m, n, b, e')
    ensures Logged(s, n, a + b, e + e')
  {
    assert (s.errors + e) + e' == s.errors + (e + e');
  }

  lemma {:induction false} EndingsAreLogged(s: State, steps: seq<Step>)
    requires Runs(s, steps)
    ensures Logged(s, Exec(s, steps), Endings(steps), ErrorsIn(steps))
    decreases |steps|
  {
    if steps == [] {
      assert s.errors + [] == s.errors;
    } else {
      var m, rest := Next(s, steps[0]), steps[1..];
      StepIsLogged(s, steps[0]);
      EndingsAreLogged(m, rest);
      LoggedTwice(s, m, Exec(m, rest), Bit(steps[0].End?), Endings(rest), ErrorIn(steps[0]), ErrorsIn(rest));
    }
  }

  lemma OwnershipFrom(s: State, steps: seq<Step>)
    requires Inv(s) && s.errors == [] && s.completed + s.failed + s.cancelled + s.spawned == 0 && Runs(s, steps)
    ensures var n := Exec(s, steps);
            && n.spawned == |n.tasks| + n.completed + n.failed + n.cancelled
            && n.completed + n.failed + n.cancelled == Endings(steps)
            && n.completed == Successes(steps) && n.cancelled == Cancellations(steps)
            && n.spawned == Accepted(s.closed, steps)
            && n.errors == ErrorsIn(steps) && |n.errors| == n.failed
  {
    RunKeepsInv(s, steps);
    EndingsAreLogged(s, steps);
    CountersAreExact(s, steps);
  }

  /** On every run: what was spawned is owned or has ended, every ending is counted once, and
      `errors` lists the failures in the order in which the tasks finished. */
  lemma OwnershipIsExact(steps: seq<Step>)
    requires Runs(EMPTY, steps)
    ensures var s := Exec(EMPTY, steps);
            && s.spawned == |s.tasks| + s.completed + s.failed + s.cancelled
            && s.completed + s.failed + s.cancelled == Endings(steps)
            && s.completed == Successes(steps) && s.cancelled == Cancellations(steps)
            && s.spawned == Accepted(false, steps)
            && s.errors == ErrorsIn(steps) && |s.errors| == s.failed
  {
    OwnershipFrom(EMPTY, steps);
  }

  /** Once the registry is closed and empty nothing is ever added again. */
  lemma {:induction false} ClosedForGood(s: State, steps: seq<Step>)
    requires s.closed && s.tasks == [] && Runs(s, steps)
    ensures Exec(s, steps) == s
    decreases |steps|
  {
    if steps == [] {
    } else {
      assert Next(s, steps[0]) == s;
      ClosedForGood(s, steps[1..]);
    }
  }

  // ----- Who is still there --------------------------------------------------------------

  predicate Owns(tasks: seq<Task>, id: nat) {
    exists k :: 0 <= k < |tasks| && tasks[k].id == id
  }

  /** The tasks that ended on a run. */
  ghost function EndedIn(s: State, steps: seq<Step>): set<nat>
    requires Runs(s, steps)
    decreases |steps|
  {
    if steps == [] then {}
    else (if steps[0].End? then {s.tasks[steps[0].k].id} else {}) + EndedIn(Next(s, steps[0]), steps[1..])
  }

  lemma OwnsAfterSpawn(s: State, plan: Plan, id: nat)
    ensures Owns(Own(s, plan).tasks, id) <==> Owns(s.tasks, id) || s.spawned <= id < Own(s, plan).spawned
  {
    var n := Own(s, plan).tasks;
    if !s.closed {
      assert n[|s.tasks|].id == s.spawned;
      if k :| 0 <= k < |s.tasks| && s.tasks[k].id == id {
        assert n[k].id == id;
      }
    }
  }

  lemma OwnsAfterEnd(s: State, k: nat, ending: Ending, id: nat)
    requires Inv(s) && k < |s.tasks|
    ensures Owns(Settle(s, k, ending).tasks, id) <==> Owns(s.tasks, id) && id != s.tasks[k].id
  {
    var n := Settle(s, k, ending).tasks;
    assert forall i | 0 <= i < |n| :: n[i] == s.tasks[if i < k then i else i + 1];
    if i :| 0 <= i < |s.tasks| && s.tasks[i].id == id && i != k {
      assert n[if i < k then i else i - 1].id == id;
    }
  }

  lemma OwnsAfterStep(s: State, step: Step, id: nat)
    requires Inv(s) && Enabled(s, step)
    ensures s.spawned <= Next(s, step).spawned
    ensures Owns(Next(s, step).tasks, id) <==>
            && (Owns(s.tasks, id) || s.spawned <= id < Next(s, step).spawned)
            && !(step.End? && id == s.tasks[step.k].id)
  {
    match step
    case Spawn(plan) => OwnsAfterSpawn(s, plan, id);
    case SpawnChild(k) =>
      var advanced := s.(tasks := s.tasks[k := Advance(s.tasks[k])]);
      assert forall i | 0 <= i < |s.tasks| :: advanced.tasks[i].id == s.tasks[i].id;
      OwnsAfterSpawn(advanced, s.tasks[k].plan.children[0], id);
    case End(k, ending) => OwnsAfterEnd(s, k, ending, id);
    case Close =>
  }

  /** The registry owns exactly the tasks it had and those spawned since, less those that ended. */
  lemma {:induction false} OwnedExactly(s: State, steps: seq<Step>, id: nat)
    requires Inv(s) && Runs(s, steps)
    ensures var n := Exec(s, steps);
            && s.spawned <= n.spawned
            && (Owns(n.tasks, id) <==>
                (Owns(s.tasks, id) || s.spawned <= id < n.spawned) && id !in EndedIn(s, steps))
    decreases |steps|
  {
    if steps == [] {
    } else {
      StepKeepsInv(s, steps[0]);
      OwnsAfterStep(s, steps[0], id);
      OwnedExactly(Next(s, steps[0]), steps[1..], id);
    }
  }

  // ----- A cancelled drain ---------------------------------------------------------------

  lemma {:induction false} StaysOpen(s: State, steps: seq<Step>)
    requires Runs(s, steps) && forall i | 0 <= i < |steps| :: !steps[i].Close?
    ensures Exec(s, steps).closed == s.closed
    decreases |steps|
  {
    if steps == [] {
    } else {
      StaysOpen(Next(s, steps[0]), steps[1..]);
    }
  }

  /** A drain that is cancelled cancels and awaits its latest snapshot, the tasks of `s`, and
      nobody else. Exactly the tasks spawned since then that have not ended survive it, in a
      registry that is as open as before. */
  lemma SurvivorsExactly(s: State, steps: seq<Step>, id: nat)
    requires Inv(s) && Runs(s, steps) && forall k | 0 <= k < |s.tasks| :: s.tasks[k].id in EndedIn(s, steps)
    requires forall i | 0 <= i < |steps| :: !steps[i].Close?
    ensures var n := Exec(s, steps);
            && n.closed == s.closed
            && (Owns(n.tasks, id) <==> s.spawned <= id < n.spawned && id !in EndedIn(s, steps))
  {
    OwnedExactly(s, steps, id);
    StaysOpen(s, steps);
  }

  const LEAF := Plan([])

  /** One task, which spawns another one while it unwinds: the scope is cancelled during its drain,
      the first task ends, and the scope is left with the second one alive in an open registry. */
  lemma CancelledDrainLeaks()
    ensures var s := State([Task(0, Plan([LEAF]))], false, 0, 0, [], 0, 1);
            var unwinding: seq<Step> := [SpawnChild(0), End(0, Cancelled)];
            && Next(EMPTY, Spawn(Plan([LEAF]))) == s
            && Runs(s, unwinding) && EndedIn(s, unwinding) == {0}
            && Exec(s, unwinding) == State([Task(1, LEAF)], false, 0, 0, [], 1, 2)
  {
    var s := State([Task(0, Plan([LEAF]))], false, 0, 0, [], 0, 1);
    var unwinding: seq<Step> := [SpawnChild(0), End(0, Cancelled)];
    var m := State([Task(0, LEAF), Task(1, LEAF)], false, 0, 0, [], 0, 2);
    assert Plan([LEAF]).children[1..] == [];
    assert Next(s, SpawnChild(0)) == m;
    assert RemoveAt(m.tasks, 0) == [Task(1, LEAF)];
    var last := unwinding[1..];
    assert last == [End(0, Cancelled)];
    var n, none := Next(m, last[0]), last[1..];
    assert none == [] && Runs(n, none) && Exec(n, none) == n && EndedIn(n, none) == {};
    assert Runs(m, last) && Exec(m, last) == Next(m, End(0, Cancelled)) && EndedIn(m, last) == {0};
  }

  /** Two tasks, and an abort that awaits them in this order: the first one answers its cancellation
      with an error outside Exception. That error leaves `cancel_and_wait`, and with it `aclose`,
      at its first await, while the second task is alive in the closed registry. */
  lemma FatalErrorCutsAbortShort(e: Error)
    ensures var s := State([Task(0, LEAF), Task(1, LEAF)], true, 0, 0, [], 0, 2);
            && Next(Next(Next(EMPTY, Spawn(LEAF)), Spawn(LEAF)), Close) == s
            && Next(s, End(0, Failed(e, true))) == State([Task(1, LEAF)], true, 0, 1, [e], 0, 2)
  {
    assert RemoveAt([Task(0, LEAF), Task(1, LEAF)], 0) == [Task(1, LEAF)];
  }

  // ----- Draining terminates -------------------------------------------------------------

  /** How many steps a task can still cause: its own end, and for every task it will spawn the
      spawning and whatever that one can cause. */
  function Weight(p: Plan): (w: nat)
    ensures w >= 1
    decreases p, 0
  {
    1 + WeightAll(p.children)
  }

  function WeightAll(ps: seq<Plan>): nat
    decreases ps, 1
  {
    if ps == [] then 0 else Weight(ps[0]) + 1 + WeightAll(ps[1..])
  }

  function Total(tasks: seq<Task>): nat {
    if tasks == [] then 0 else Total(tasks[..|tasks| - 1]) + Weight(tasks[|tasks| - 1].plan)
  }

  lemma {:induction false} TotalSplit(a: seq<Task>, b: seq<Task>)
    ensures Total(a + b) == Total(a) + Total(b)
    decreases |b|
  {
    if b == [] {
      assert a + b == a;
    } else {
      assert (a + b)[..|a + b| - 1] == a + b[..|b| - 1];
      TotalSplit(a, b[..|b| - 1]);
    }
  }

  lemma TotalOne(t: Task)
    ensures Total([t]) == Weight(t.plan)
  {
    assert [t][..0] == [];
  }

  lemma TotalThree(a: seq<Task>, t: Task, b: seq<Task>)
    ensures Total(a + [t] + b) == Total(a) + Weight(t.plan) + Total(b)
    ensures Total(a + b) == Total(a) + Total(b)
  {
    TotalSplit(a + [t], b);
    TotalSplit(a, [t]);
    TotalSplit(a, b);
    TotalOne(t);
  }

  lemma TotalAround(tasks: seq<Task>, k: nat)
    requires k < |tasks|
    ensures Total(tasks) == Total(RemoveAt(tasks, k)) + Weight(tasks[k].plan)
  {
    SplitAt(tasks, k);
    TotalThree(tasks[..k], tasks[k], tasks[k + 1..]);
  }

  lemma StepSpends(s: State, step: Step)
    requires Enabled(s, step) && (step.SpawnChild? || step.End?)
    ensures Total(Next(s, step).tasks) < Total(s.tasks)
  {
    TotalAround(s.tasks, step.k);
    if step.SpawnChild? {
      var child := s.tasks[step.k].plan.children[0];
      var advanced := s.tasks[step.k := Advance(s.tasks[step.k])];
      TotalAround(advanced, step.k);
      assert RemoveAt(advanced, step.k) == RemoveAt(s.tasks, step.k);
      TotalSplit(advanced, [Task(s.spawned, child)]);
      TotalOne(Task(s.spawned, child));
    }
  }

  predicate FromWithin(steps: seq<Step>) {
    forall i | 0 <= i < |steps| :: steps[i].SpawnChild? || steps[i].End?
  }

  /** With nothing spawned from outside, every run is shorter than the finite trees allow, and a
      run that can go no further has an empty registry: `drain` terminates. */
  lemma {:induction false} DrainTerminates(s: State, steps: seq<Step>)
    requires Runs(s, steps) && FromWithin(steps)
    ensures |steps| + Total(Exec(s, steps).tasks) <= Total(s.tasks)
    ensures (forall step | Enabled(Exec(s, steps), step) :: !step.End?) ==> Exec(s, steps).tasks == []
    decreases |steps|
  {
    if steps != [] {
      StepSpends(s, steps[0]);
      DrainTerminates(Next(s, steps[0]), steps[1..]);
    } else if s.tasks != [] {
      assert Enabled(s, End(0, Cancelled));
    }
  }

  // ----- The registry object -------------------------------------------------------------

  /** Everybody in `tasks` was in `base`, or is task number n or later. */
  ghost predicate FromOrNew(tasks: seq<Task>, base: seq<Task>, n: nat) {
    forall k | 0 <= k < |tasks| :: Owns(base, tasks[k].id) || tasks[k].id >= n
  }

  lemma StepAddsOnlyNew(s: State, step: Step, base: seq<Task>, n: nat)
    requires Inv(s) && Enabled(s, step) && FromOrNew(s.tasks, base, n) && n <= s.spawned
    ensures FromOrNew(Next(s, step).tasks, base, n) && n <= Next(s, step).spawned
    ensures s.closed ==> Next(s, step).spawned == s.spawned
  {
    var after := Next(s, step).tasks;
    forall k | 0 <= k < |after| ensures Owns(base, after[k].id) || after[k].id >= n {
      assert Owns(after, after[k].id);
      OwnsAfterStep(s, step, after[k].id);
      if i :| 0 <= i < |s.tasks| && s.tasks[i].id == after[k].id {
        assert Owns(base, s.tasks[i].id) || s.tasks[i].id >= n;
      }
    }
  }

  lemma OwnedByName(tasks: seq<Task>, ids: seq<nat>)
    requires |ids| == |tasks| && forall k | 0 <= k < |tasks| :: ids[k] == tasks[k].id
    ensures forall k | 0 <= k < |tasks| :: tasks[k].id in ids
    ensures forall id :: Owns(tasks, id) <==> id in ids
    ensures tasks != [] ==> ids[0] in ids && Owns(tasks, ids[0])
  {
    forall k | 0 <= k < |tasks| ensures tasks[k].id in ids && Owns(tasks, tasks[k].id) {
      assert ids[k] in ids;
    }
  }

  /** Without newcomers, whoever is not among `ids` is not there. */
  lemma NobodyNew(tasks: seq<Task>, base: seq<Task>, ids: seq<nat>, n: nat)
    requires FromOrNew(tasks, base, n) && forall k | 0 <= k < |tasks| :: tasks[k].id < n
    requires forall id :: Owns(base, id) <==> id in ids
    ensures tasks == [] || tasks[0].id in ids
  {
    assert tasks == [] || Owns(base, tasks[0].id);
  }

  lemma StillFromOrNew(tasks: seq<Task>, middle: seq<Task>, m: nat, base: seq<Task>, n: nat)
    requires FromOrNew(tasks, middle, m) && FromOrNew(middle, base, n) && n <= m
    ensures FromOrNew(tasks, base, n)
  {
    forall k | 0 <= k < |tasks| ensures Owns(base, tasks[k].id) || tasks[k].id >= n {
      if Owns(middle, tasks[k].id) {
        var i :| 0 <= i < |middle| && middle[i].id == tasks[k].id;
      }
    }
  }

  /** A task ends once. */
  ghost predicate Kept(before: map<nat, Ending>, after: map<nat, Ending>) {
    forall id | id in before :: id in after && after[id] == before[id]
  }

  datatype SpawnError = RegistryClosed

  class TaskRegistry {
    var tasks: seq<Task>
    var closed: bool
    var completed: nat
    var failed: nat
    var errors: seq<Error>
    ghost var cancelled: nat
    var spawned: nat
    var cancelRequested: set<nat>    // the tasks on which `cancel` was called
    var outcome: map<nat, Ending>   // how the finished tasks ended

    ghost function Abs(): State
      reads this
    {
      State(tasks, closed, completed, failed, errors, cancelled, spawned)
    }

    ghost predicate Valid()
      reads this
    {
      && Inv(Abs())
      && (forall id | id in cancelRequested :: id < spawned)
      && (forall id: nat :: id in outcome <==> id < spawned && !Owns(tasks, id))
    }

    constructor ()
      ensures Valid() && Abs() == EMPTY && cancelRequested == {} && outcome == map[]
    {
      tasks, closed, completed, failed, errors, cancelled, spawned := [], false, 0, 0, [], 0, 0;
      cancelRequested, outcome := {}, map[];
    }

    method SpawnTask(plan: Plan) returns (r: Result<nat, SpawnError>)
      requires Valid()
      modifies this
      ensures Valid() && Abs() == Next(old(Abs()), Spawn(plan))
      ensures cancelRequested == old(cancelRequested) && outcome == old(outcome)
      ensures if old(closed) then r == Err(RegistryClosed) else r.Ok? && Owns(tasks, r.value)
    {
      if closed {
        return Err(RegistryClosed);
      }
      ghost var before := Abs();
      var task := Task(spawned, plan);
      tasks := tasks + [task];
      spawned := spawned + 1;
      StepKeepsInv(before, Spawn(plan));
      forall id: nat ensures id in outcome <==> id < spawned && !Owns(tasks, id) {
        OwnsAfterStep(before, Spawn(plan), id);
      }
      assert tasks[|tasks| - 1].id == task.id;
      return Ok(task.id);
    }

    /** A running task spawns the next of its children; a closed registry refuses it. */
    method ChildSpawns(k: nat)
      requires Valid() && Enabled(Abs(), SpawnChild(k))
      modifies this
      ensures Valid() && Abs() == Next(old(Abs()), SpawnChild(k))
      ensures cancelRequested == old(cancelRequested) && outcome == old(outcome)
    {
      ghost var before := Abs();
      var child := tasks[k].plan.children[0];
      tasks := tasks[k := Advance(tasks[k])];
      if !closed {
        tasks := tasks + [Task(spawned, child)];
        spawned := spawned + 1;
      }
      StepKeepsInv(before, SpawnChild(k));
      forall id: nat ensures id in outcome <==> id < spawned && !Owns(tasks, id) {
        OwnsAfterStep(before, SpawnChild(k), id);
      }
    }

    method OnDone(k: nat, ending: Ending)
      requires Valid() && k < |tasks|
      modifies this
      ensures Valid() && Abs() == Next(old(Abs()), End(k, ending))
      ensures cancelRequested == old(cancelRequested) && outcome == old(outcome)[old(tasks)[k].id := ending]
    {
      ghost var before := Abs();
      outcome := outcome[tasks[k].id := ending];
      tasks := RemoveAt(tasks, k);
      match ending {
        case Cancelled =>
          cancelled := cancelled + 1;
        case Succeeded =>
          completed := completed + 1;
        case Failed(e, _) =>
          failed := failed + 1;
          errors := errors + [e];
      }
      StepKeepsInv(before, End(k, ending));
      forall id: nat ensures id in outcome <==> id < spawned && !Owns(tasks, id) {
        OwnsAfterStep(before, End(k, ending), id);
      }
    }

    /** The event loop runs some task: it spawns its next child, or it ends. */
    method SomeTaskMoves(ghost base: seq<Task>, ghost n: nat)
      requires Valid() && tasks != [] && FromOrNew(tasks, base, n) && n <= spawned
      modifies this
      ensures Valid() && closed == old(closed) && cancelRequested == old(cancelRequested)
      ensures Total(tasks) < old(Total(tasks))
      ensures FromOrNew(tasks, base, n) && old(spawned) <= spawned && (closed ==> spawned == old(spawned))
      ensures Kept(old(outcome), outcome)
    {
      var k: nat, spawns: bool, ending: Ending := *, *, *;
      if k >= |tasks| {
        k := 0;
      }
      spawns := spawns && |tasks[k].plan.children| > 0;
      ghost var step := if spawns then SpawnChild(k) else End(k, ending);
      StepSpends(Abs(), step);
      StepAddsOnlyNew(Abs(), step, base, n);
      assert Owns(tasks, tasks[k].id);
      OwnsAfterStep(Abs(), step, tasks[k].id);
      if spawns {
        ChildSpawns(k);
      } else {
        OnDone(k, ending);
      }
    }

    /** Waiting for the tasks of a snapshot: meanwhile any task may spawn or end, in any order. */
    method Await(snapshot: seq<nat>)
      requires Valid()
      modifies this
      ensures Valid() && closed == old(closed) && cancelRequested == old(cancelRequested)
      ensures forall k | 0 <= k < |tasks| :: tasks[k].id !in snapshot
      ensures FromOrNew(tasks, old(tasks), old(spawned)) && (closed ==> spawned == old(spawned))
      ensures (exists id :: id in snapshot && Owns(old(tasks), id)) ==> Total(tasks) < old(Total(tasks))
    {
      assert forall k | 0 <= k < |tasks| :: Owns(tasks, tasks[k].id);
      while exists k :: 0 <= k < |tasks| && tasks[k].id in snapshot
        invariant Valid() && closed == old(closed) && cancelRequested == old(cancelRequested)
        invariant tasks == old(tasks) || Total(tasks) < old(Total(tasks))
        invariant FromOrNew(tasks, old(tasks), old(spawned)) && old(spawned) <= spawned
        invariant closed ==> spawned == old(spawned)
        decreases Total(tasks)
      {
        SomeTaskMoves(old(tasks), old(spawned));
      }
    }

    method Snapshot() returns (ids: seq<nat>)
      ensures |ids| == |tasks| && forall k | 0 <= k < |tasks| :: ids[k] == tasks[k].id
    {
      ids := seq(|tasks|, k requires 0 <= k < |tasks| reads this => tasks[k].id);
    }

    /** Waiting for one task. */
    method AwaitTask(id: nat)
      requires Valid() && id < spawned
      modifies this
      ensures Valid() && closed == old(closed) && cancelRequested == old(cancelRequested) && id in outcome
      ensures FromOrNew(tasks, old(tasks), old(spawned)) && old(spawned) <= spawned
      ensures closed ==> spawned == old(spawned)
      ensures Kept(old(outcome), outcome)
    {
      assert forall k | 0 <= k < |tasks| :: Owns(tasks, tasks[k].id);
      while id !in outcome
        invariant Valid() && closed == old(closed) && cancelRequested == old(cancelRequested)
        invariant FromOrNew(tasks, old(tasks), old(spawned)) && old(spawned) <= spawned
        invariant closed ==> spawned == old(spawned)
        invariant Kept(old(outcome), outcome)
        decreases Total(tasks)
      {
        SomeTaskMoves(old(tasks), old(spawned));
      }
    }

    method CancelThem(ids: seq<nat>)
      requires Valid() && forall i | 0 <= i < |ids| :: ids[i] < spawned
      modifies this`cancelRequested
      ensures Valid() && cancelRequested == old(cancelRequested) + set id | id in ids
    {
      for i := 0 to |ids|
        invariant Valid()
        invariant cancelRequested == old(cancelRequested) + set id | id in ids[..i]
      {
        assert ids[..i + 1] == ids[..i] + [ids[i]];
        cancelRequested := cancelRequested + {ids[i]};
      }
      assert ids[..|ids|] == ids;
    }

    /** The second loop of `cancel_and_wait`: one task after another is awaited. */
    method AwaitInTurn(ids: seq<nat>, struck: set<nat>) returns (left: Option<nat>, swallowed: set<nat>)
      requires Valid() && forall i | 0 <= i < |ids| :: ids[i] < spawned
      modifies this
      ensures Valid() && closed == old(closed) && cancelRequested == old(cancelRequested) && swallowed <= struck
      ensures left.None? ==>
                forall i | 0 <= i < |ids| :: ids[i] in outcome && (i in swallowed || !Fatal(outcome[ids[i]]))
      ensures left.Some? ==>
                && left.value < |ids| && left.value !in swallowed
                && (forall i | 0 <= i <= left.value :: ids[i] in outcome)
                && Fatal(outcome[ids[left.value]])
      ensures FromOrNew(tasks, old(tasks), old(spawned)) && (closed ==> spawned == old(spawned))
    {
      assert forall k | 0 <= k < |tasks| :: Owns(tasks, tasks[k].id);
      swallowed := {};
      for i := 0 to |ids|
        invariant Valid() && closed == old(closed) && cancelRequested == old(cancelRequested)
        invariant swallowed <= struck && forall k | k in swallowed :: k < i
        invariant forall k | 0 <= k < i :: ids[k] in outcome && (k in swallowed || !Fatal(outcome[ids[k]]))
        invariant FromOrNew(tasks, old(tasks), old(spawned)) && old(spawned) <= spawned
        invariant closed ==> spawned == old(spawned)
      {
        var suspends := ids[i] !in outcome;
        ghost var base, n := tasks, spawned;
        AwaitTask(ids[i]);
        StillFromOrNew(tasks, base, n, old(tasks), old(spawned));
        if suspends && i in struck {
          swallowed := swallowed + {i};
        } else if Fatal(outcome[ids[i]]) {
          return Some(i), swallowed;
        }
      }
      left := None;
    }

    /** `cancel_and_wait` over owned tasks: all are asked to stop before the first is awaited, then
        they are awaited one after another. `left` is the place at which an error outside
        Exception left it; at the places in `struck` the caller is cancelled while it waits, so
        that a CancelledError comes out there and is swallowed (`swallowed`). It waits for
        everybody exactly when every task ended without such an error, those places apart. */
    method CancelAndWait(ids: seq<nat>, struck: set<nat>) returns (left: Option<nat>, swallowed: set<nat>)
      requires Valid() && forall i | 0 <= i < |ids| :: ids[i] < spawned
      modifies this
      ensures Valid() && closed == old(closed) && swallowed <= struck
      ensures left.None? <==>
              forall i | 0 <= i < |ids| :: ids[i] in outcome && (i in swallowed || !Fatal(outcome[ids[i]]))
      ensures left.None? ==> forall k | 0 <= k < |tasks| :: tasks[k].id !in ids
      ensures left.Some? ==>
                && left.value < |ids| && forall i | 0 <= i <= left.value :: ids[i] in outcome
      ensures FromOrNew(tasks, old(tasks), old(spawned)) && (closed ==> spawned == old(spawned))
      ensures cancelRequested == old(cancelRequested) + set id | id in ids
    {
      CancelThem(ids);
      left, swallowed := AwaitInTurn(ids, struck);
      assert forall k | 0 <= k < |tasks| :: Owns(tasks, tasks[k].id);
    }

    /** A cancelled `gather`: it cancels everybody it waits for, and waits on for all of them, whatever
        they end with. */
    method CancelAndGather(ids: seq<nat>)
      requires Valid() && forall i | 0 <= i < |ids| :: ids[i] < spawned
      modifies this
      ensures Valid() && closed == old(closed)
      ensures forall k | 0 <= k < |tasks| :: tasks[k].id !in ids
      ensures FromOrNew(tasks, old(tasks), old(spawned))
      ensures cancelRequested == old(cancelRequested) + set id | id in ids
    {
      CancelThem(ids);
      Await(ids);
    }

    /** `drain`: it ends, because the spawn trees are finite, with nothing left to own and nobody
        cancelled, unless its own caller is cancelled during round `interrupted`. Then `gather`
        cancels and awaits the tasks of that round, and CancelledError leaves. Whoever is still
        there was spawned after that snapshot, and was not asked to stop. */
    method Drain(interrupted: Option<nat>) returns (cancelled: bool, ghost snapshot: State)
      requires Valid()
      modifies this
      ensures Valid() && closed == old(closed)
      ensures interrupted.None? ==> !cancelled
      ensures !cancelled ==> tasks == [] && cancelRequested == old(cancelRequested)
      ensures cancelled ==>
                && (forall k | 0 <= k < |tasks| :: tasks[k].id >= snapshot.spawned && tasks[k].id !in cancelRequested)
                && (forall k | 0 <= k < |snapshot.tasks| :: snapshot.tasks[k].id in cancelRequested)
    {
      cancelled, snapshot := false, Abs();
      var round: nat := 0;
      while tasks != []
        invariant Valid() && closed == old(closed) && cancelRequested == old(cancelRequested)
        decreases Total(tasks)
      {
        var ids := Snapshot();
        snapshot := Abs();
        OwnedByName(tasks, ids);
        if interrupted == Some(round) {
          CancelAndGather(ids);
          return true, snapshot;
        }
        Await(ids);
        round := round + 1;
      }
    }

    /** `aclose`: closed first, so that no task that is unwinding can add another one; then every
        task still owned is cancelled, and awaited. The registry ends empty unless an error outside
        Exception leaves the waiting, which is exactly when an owned task ended with one at an
        await that was not struck. */
    method Aclose(struck: set<nat>) returns (left: Option<nat>, swallowed: set<nat>)
      requires Valid()
      modifies this
      ensures Valid() && closed && swallowed <= struck
      ensures left.None? ==> tasks == []
      ensures left.None? <==> forall k | 0 <= k < |old(tasks)| ::
                                var id := old(tasks)[k].id; id in outcome && (k in swallowed || !Fatal(outcome[id]))
      ensures forall k | 0 <= k < |old(tasks)| :: old(tasks)[k].id in cancelRequested
    {
      closed := true;
      var ids := Snapshot();
      ghost var owned := tasks;
      OwnedByName(owned, ids);
      left, swallowed := CancelAndWait(ids, struck);
      NobodyNew(tasks, owned, ids, spawned);
    }

    /** `__aexit__` ends in four ways. Aborted, or drained to the end, the scope is closed and empty,
        and by `ClosedForGood` stays that way. Cancelled during the drain it is left as open as it
        was, with whoever was spawned after the latest snapshot and has not ended. And an abort
        that an error outside Exception leaves is closed, but perhaps not empty. */
    method Exit(raised: bool, interrupted: Option<nat>, struck: set<nat>)
      returns (cancelled: bool, left: Option<nat>, swallowed: set<nat>, ghost snapshot: State)
      requires Valid()
      modifies this
      ensures Valid() && (raised || interrupted.None? ==> !cancelled) && swallowed <= struck
      ensures !cancelled && left.None? ==> tasks == [] && closed
      ensures raised ==> closed && forall k | 0 <= k < |old(tasks)| :: old(tasks)[k].id in cancelRequested
      ensures raised ==> (left.None? <==> forall k | 0 <= k < |old(tasks)| ::
                            var id := old(tasks)[k].id; id in outcome && (k in swallowed || !Fatal(outcome[id])))
      ensures !raised ==> left.None?
      ensures !raised && !cancelled ==> cancelRequested == old(cancelRequested)
      ensures cancelled ==>
                && closed == old(closed)
                && (forall k | 0 <= k < |tasks| :: tasks[k].id >= snapshot.spawned && tasks[k].id !in cancelRequested)
                && (forall k | 0 <= k < |snapshot.tasks| :: snapshot.tasks[k].id in cancelRequested)
    {
      if raised {
        cancelled, snapshot := false, Abs();
        left, swallowed := Aclose(struck);
      } else {
        cancelled, snapshot := Drain(interrupted);
        left, swallowed := None, {};
        if !cancelled {
          closed := true;
        }
      }
    }
  }
}
