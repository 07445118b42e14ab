/** Structured concurrency of tasks.py: `cancel_and_wait`, `run_all` and `first_result`. */
module Tasks {
  import opened Basics

  type Value(!new)
  type Error(==, !new)

  /** `fatal` marks an error outside `Exception`: `except Exception` lets it pass. */
  datatype Status = Running | Succeeded(value: Value) | Failed(error: Error, fatal: bool) | Cancelled

  predicate Done(s: Status) { s != Running }

  predicate Fatal(s: Status) { s.Failed? && s.fatal }

  predicate AllDone(ss: seq<Status>) {
    forall i | 0 <= i < |ss| :: Done(ss[i])
  }

  /** Time passes: tasks may finish, and a finished task never changes again. */
  predicate Later(before: seq<Status>, after: seq<Status>) {
    |before| == |after| && forall i | 0 <= i < |before| :: Done(before[i]) ==> after[i] == before[i]
  }

  function AllRunning(n: nat): (r: seq<Status>)
    ensures |r| == n && forall i | 0 <= i < n :: r[i] == Running
  {
    seq(n, i => Running)
  }

  /** The errors of the failed children, in the order of the children. */
  function FailuresOf(ss: seq<Status>): seq<Error> {
    if ss == [] then []
    else FailuresOf(ss[..|ss| - 1]) + (if ss[|ss| - 1].Failed? then [ss[|ss| - 1].error] else [])
  }

  predicate SomeFailed(ss: seq<Status>) {
    exists i :: 0 <= i < |ss| && ss[i].Failed?
  }

  lemma {:induction false} NoFailures(ss: seq<Status>)
    ensures FailuresOf(ss) == [] <==> !SomeFailed(ss)
  {
    if ss == [] {
    } else {
      var front := ss[..|ss| - 1];
      NoFailures(front);
      if i :| 0 <= i < |ss| && ss[i].Failed? {
        assert i < |front| ==> front[i].Failed?;
      }
    }
  }

  predicate InRange(ss: seq<Status>, tasks: seq<nat>) {
    forall i | 0 <= i < |tasks| :: tasks[i] < |ss|
  }

  /** Those among `tasks` that are not done, in the same order. */
  function Unfinished(ss: seq<Status>, tasks: seq<nat>): (r: seq<nat>)
    requires InRange(ss, tasks)
    ensures forall i | 0 <= i < |r| :: r[i] < |ss| && !Done(ss[r[i]])
  {
    if tasks == [] then []
    else
      var n := |tasks| - 1;
      Unfinished(ss, tasks[..n]) + (if Done(ss[tasks[n]]) then [] else [tasks[n]])
  }

  lemma UnfinishedSnoc(ss: seq<Status>, front: seq<nat>, x: nat, tasks: seq<nat>)
    requires tasks == front + [x] && InRange(ss, front) && x < |ss|
    ensures InRange(ss, tasks) && Unfinished(ss, tasks) == Unfinished(ss, front) + (if Done(ss[x]) then [] else [x])
  {
    assert tasks[..|tasks| - 1] == front;
  }

  lemma {:induction false} WhoeverRunsIsListed(ss: seq<Status>, tasks: seq<nat>)
    requires InRange(ss, tasks)
    ensures forall i | 0 <= i < |tasks| :: !Done(ss[tasks[i]]) ==> tasks[i] in Unfinished(ss, tasks)
  {
    if tasks == [] {
    } else {
      var front, x := tasks[..|tasks| - 1], tasks[|tasks| - 1];
      WhoeverRunsIsListed(ss, front);
      assert forall i | 0 <= i < |front| :: tasks[i] == front[i];
    }
  }

  function Finished(ss: seq<Status>, tasks: seq<nat>): (r: seq<nat>)
    requires InRange(ss, tasks)
    ensures forall i | 0 <= i < |r| :: r[i] < |ss| && Done(ss[r[i]])
    ensures forall i | 0 <= i < |tasks| :: Done(ss[tasks[i]]) ==> tasks[i] in r
  {
    if tasks == [] then []
    else
      var n := |tasks| - 1;
      Finished(ss, tasks[..n]) + (if Done(ss[tasks[n]]) then [tasks[n]] else [])
  }

  lemma AddOne(a: seq<nat>, b: seq<nat>, whole: seq<nat>, x: nat)
    requires multiset(a) + multiset(b) == multiset(whole)
    ensures multiset(a + [x]) + multiset(b) == multiset(whole + [x]) == multiset(a) + multiset(b + [x])
  {
  }

  lemma {:induction false} DoneOrNot(ss: seq<Status>, tasks: seq<nat>)
    requires InRange(ss, tasks)
    ensures multiset(Finished(ss, tasks)) + multiset(Unfinished(ss, tasks)) == multiset(tasks)
  {
    if tasks == [] {
    } else {
      var front, x := tasks[..|tasks| - 1], tasks[|tasks| - 1];
      var a, b := Finished(ss, front), Unfinished(ss, front);
      DoneOrNot(ss, front);
      AddOne(a, b, front, x);
      assert tasks == front + [x];
      if Done(ss[x]) {
        assert Finished(ss, tasks) == a + [x] && Unfinished(ss, tasks) == b;
      } else {
        assert Finished(ss, tasks) == a && Unfinished(ss, tasks) == b + [x];
      }
    }
  }

  // ----- cancel_and_wait -----------------------------------------------------------------

  /** The children after a suspension, when they have come to `next` meanwhile. */
  function Advance(before: seq<Status>, next: seq<Status>): (r: seq<Status>)
    ensures Later(before, r)
  {
    if Later(before, next) then next else before
  }

  /** The children after a suspension that lasts until `t` is done. */
  function UntilDone(before: seq<Status>, next: seq<Status>, t: nat): (r: seq<Status>)
    requires t < |before|
    ensures Later(before, r) && Done(r[t])
  {
    var r := Advance(before, next);
    if Done(r[t]) then r else r[t := Cancelled]
  }

  /** What the second loop of `cancel_and_wait` comes to: the children, the place in its list at
      which an error left it, the places at which it swallowed a CancelledError of its caller,
      and the number of suspensions so far. */
  datatype Cleanup = Cleanup(status: seq<Status>, left: Option<nat>, swallowed: set<nat>, turn: nat)

  /** The tasks of `pending` are awaited one after another. `views(k)` is what the children come to
      during the k-th suspension; a task that is done is awaited without one. At the places in
      `struck` the caller is cancelled while it waits, and CancelledError comes out of the await
      whatever the task ended with. CancelledError and Exceptions are absorbed, other errors leave. */
  function AwaitFrom(before: seq<Status>, pending: seq<nat>, i: nat, views: nat -> seq<Status>, turn: nat,
                     struck: set<nat>, swallowed: set<nat>): (r: Cleanup)
    requires InRange(before, pending) && i <= |pending|
    ensures Later(before, r.status)
    decreases |pending| - i
  {
    if i == |pending| then Cleanup(before, None, swallowed, turn)
    else
      var t := pending[i];
      if Done(before[t]) then
        if Fatal(before[t]) then Cleanup(before, Some(i), swallowed, turn)
        else AwaitFrom(before, pending, i + 1, views, turn, struck, swallowed)
      else
        var after := UntilDone(before, views(turn), t);
        if i in struck then AwaitFrom(after, pending, i + 1, views, turn + 1, struck, swallowed + {i})
        else if Fatal(after[t]) then Cleanup(after, Some(i), swallowed, turn + 1)
        else AwaitFrom(after, pending, i + 1, views, turn + 1, struck, swallowed)
  }

  /** The first `i` of `pending` are done, and no error of theirs was left unabsorbed. */
  ghost predicate AbsorbedUpto(status: seq<Status>, pending: seq<nat>, i: nat, swallowed: set<nat>) {
    && InRange(status, pending) && i <= |pending|
    && forall k | 0 <= k < i :: Done(status[pending[k]]) && (k in swallowed || !Fatal(status[pending[k]]))
  }

  /** Everybody in `pending` is done, and no error of theirs was left unabsorbed. */
  ghost predicate Absorbed(r: Cleanup, pending: seq<nat>) {
    AbsorbedUpto(r.status, pending, |pending|, r.swallowed)
  }

  /** Either everybody was absorbed, or an error that nobody absorbs left at the first place at
      which one came out, and only the tasks up to that place are known to be done. */
  ghost predicate EndsExactly(r: Cleanup, pending: seq<nat>, struck: set<nat>) {
    && (r.left.None? <==> Absorbed(r, pending))
    && r.swallowed <= struck
    && (r.left.Some? ==>
          && InRange(r.status, pending) && r.left.value < |pending| && Fatal(r.status[pending[r.left.value]])
          && forall k | 0 <= k <= r.left.value :: Done(r.status[pending[k]]))
  }

  lemma LeftAt(before: seq<Status>, after: seq<Status>, pending: seq<nat>, i: nat, swallowed: set<nat>,
               struck: set<nat>, turn: nat)
    requires AbsorbedUpto(before, pending, i, swallowed) && i < |pending| && Later(before, after)
    requires Fatal(after[pending[i]]) && i !in swallowed && swallowed <= struck
    ensures EndsExactly(Cleanup(after, Some(i), swallowed, turn), pending, struck)
  {
  }

  lemma AbsorbedOneMore(before: seq<Status>, after: seq<Status>, pending: seq<nat>, i: nat,
                        swallowed: set<nat>, more: set<nat>)
    requires AbsorbedUpto(before, pending, i, swallowed) && i < |pending| && Later(before, after)
    requires swallowed <= more && Done(after[pending[i]]) && (i in more || !Fatal(after[pending[i]]))
    ensures AbsorbedUpto(after, pending, i + 1, more)
  {
  }

  /** The loop ends in one of two ways. Either it waits for everybody; or an error outside Exception
      leaves it at the first place where one came out of an await, and only the tasks up to that
      place are known to be done. It waits for everybody exactly when no such error came out. */
  lemma {:induction false} CleanupIsExact(before: seq<Status>, pending: seq<nat>, i: nat, views: nat -> seq<Status>,
                                          turn: nat, struck: set<nat>, swallowed: set<nat>)
    requires AbsorbedUpto(before, pending, i, swallowed)
    requires forall k | k in swallowed :: k < i && k in struck
    ensures EndsExactly(AwaitFrom(before, pending, i, views, turn, struck, swallowed), pending, struck)
    decreases |pending| - i
  {
    if i == |pending| {
    } else {
      var t := pending[i];
      if Done(before[t]) {
        if Fatal(before[t]) {
          LeftAt(before, before, pending, i, swallowed, struck, turn);
        } else {
          AbsorbedOneMore(before, before, pending, i, swallowed, swallowed);
          CleanupIsExact(before, pending, i + 1, views, turn, struck, swallowed);
        }
      } else {
        var after := UntilDone(before, views(turn), t);
        if i in struck {
          AbsorbedOneMore(before, after, pending, i, swallowed, swallowed + {i});
          CleanupIsExact(after, pending, i + 1, views, turn + 1, struck, swallowed + {i});
        } else if Fatal(after[t]) {
          LeftAt(before, after, pending, i, swallowed, struck, turn + 1);
        } else {
          AbsorbedOneMore(before, after, pending, i, swallowed, swallowed);
          CleanupIsExact(after, pending, i + 1, views, turn + 1, struck, swallowed);
        }
      }
    }
  }

  /** What `cancel_and_wait(tasks)` comes to from `ss`, after `turn` suspensions. */
  function CleanupOf(ss: seq<Status>, tasks: seq<nat>, views: nat -> seq<Status>, turn: nat, struck: set<nat>): Cleanup
    requires InRange(ss, tasks)
  {
    AwaitFrom(ss, Unfinished(ss, tasks), 0, views, turn, struck, {})
  }

  /** The cleanup of `tasks` from `ss`, in terms of the tasks: it leaves with an error exactly when a
      task that it cancelled ended with one outside Exception and its await was not struck;
      otherwise everybody is done. */
  ghost predicate CleanedUp(ss: seq<Status>, tasks: seq<nat>, r: Cleanup)
    requires InRange(ss, tasks)
  {
    var pending := Unfinished(ss, tasks);
    && Later(ss, r.status)
    && (r.left.None? <==> Absorbed(r, pending))
    && (r.left.None? ==> forall i | 0 <= i < |tasks| :: Done(r.status[tasks[i]]))
    && (r.left.Some? ==> r.left.value < |pending| && Fatal(r.status[pending[r.left.value]]))
  }

  lemma CleanupIsCleanedUp(ss: seq<Status>, tasks: seq<nat>, views: nat -> seq<Status>, turn: nat, struck: set<nat>)
    requires InRange(ss, tasks)
    ensures CleanedUp(ss, tasks, CleanupOf(ss, tasks, views, turn, struck))
    ensures CleanupOf(ss, tasks, views, turn, struck).swallowed <= struck
  {
    var pending := Unfinished(ss, tasks);
    WhoeverRunsIsListed(ss, tasks);
    CleanupIsExact(ss, pending, 0, views, turn, struck, {});
    var r := CleanupOf(ss, tasks, views, turn, struck);
    if r.left.None? {
      forall i | 0 <= i < |tasks| ensures Done(r.status[tasks[i]]) {
        if !Done(ss[tasks[i]]) {
          var k :| 0 <= k < |pending| && pending[k] == tasks[i];
        }
      }
    }
  }

  /** The children when a wait for a first exception is over, or was interrupted. */
  function FirstException(before: seq<Status>, next: seq<Status>, interrupted: bool): (r: seq<Status>)
    ensures Later(before, r)
    ensures !interrupted ==> AllDone(r) || SomeFailed(r)
  {
    var r := Advance(before, next);
    if interrupted || AllDone(r) || SomeFailed(r) then r
    else seq(|r|, i requires 0 <= i < |r| => if Done(r[i]) then r[i] else Cancelled)
  }

  /** The children when at least one of `pending` is done. */
  function UntilOneDone(before: seq<Status>, next: seq<Status>, pending: seq<nat>): (r: seq<Status>)
    requires pending != [] && InRange(before, pending)
    ensures Later(before, r) && exists i :: 0 <= i < |pending| && Done(r[pending[i]])
  {
    var r := Advance(before, next);
    if exists i :: 0 <= i < |pending| && Done(r[pending[i]]) then r else r[pending[0] := Cancelled]
  }

  /** A set of tasks has no order of its own: it is visited in the one given, if that is one of it. */
  function Reordered(tasks: seq<nat>, order: seq<nat>): (r: seq<nat>)
    ensures multiset(r) == multiset(tasks)
  {
    if multiset(order) == multiset(tasks) then order else tasks
  }

  /** The event loop, as far as these functions see it: the status of every child, the
      cancellations requested, and how often the caller was suspended. `views` is what the
      children do meanwhile. */
  class Loop {
    const views: nat -> seq<Status>
    var status: seq<Status>
    var turn: nat
    var cancelRequested: set<nat>

    constructor (n: nat, views: nat -> seq<Status>)
      ensures this.views == views && status == AllRunning(n) && turn == 0 && cancelRequested == {}
    {
      this.views := views;
      status := AllRunning(n);
      turn := 0;
      cancelRequested := {};
    }

    method Cancel(t: nat)
      requires t < |status|
      modifies this`cancelRequested
      ensures cancelRequested == old(cancelRequested) + {t}
    {
      cancelRequested := cancelRequested + {t};
    }

    /** `await task` of a task that is not done. */
    method Await(t: nat)
      requires t < |status|
      modifies this`status, this`turn
      ensures status == UntilDone(old(status), views(old(turn)), t) && turn == old(turn) + 1
    {
      status := UntilDone(status, views(turn), t);
      turn := turn + 1;
    }

    /** `asyncio.wait(..., FIRST_EXCEPTION)` over all children, unless the caller is cancelled there. */
    method WaitFirstException(interrupted: bool)
      modifies this`status, this`turn
      ensures status == FirstException(old(status), views(old(turn)), interrupted) && turn == old(turn) + 1
    {
      status := FirstException(status, views(turn), interrupted);
      turn := turn + 1;
    }

    /** `asyncio.wait(pending, FIRST_COMPLETED)`, unless the caller is cancelled there: `done` are the
        finished ones among `pending`, in the order `order` if that is one of them, and `rest`
        those still running. */
    method WaitFirstCompleted(pending: seq<nat>, order: seq<nat>) returns (done: seq<nat>, rest: seq<nat>)
      requires pending != [] && InRange(status, pending)
      modifies this`status, this`turn
      ensures status == UntilOneDone(old(status), views(old(turn)), pending) && turn == old(turn) + 1
      ensures InRange(status, pending) && done == Reordered(Finished(status, pending), order)
      ensures rest == Unfinished(status, pending)
    {
      status := UntilOneDone(status, views(turn), pending);
      turn := turn + 1;
      done, rest := Reordered(Finished(status, pending), order), Unfinished(status, pending);
    }

    /** Time that passes at a wait which the caller's cancellation ends. */
    method LetTimePass()
      modifies this`status, this`turn
      ensures status == Advance(old(status), views(old(turn))) && turn == old(turn) + 1
    {
      status := Advance(status, views(turn));
      turn := turn + 1;
    }

    /** The comprehension that picks the tasks that are not done. */
    method Pick(tasks: seq<nat>) returns (pending: seq<nat>)
      requires InRange(status, tasks)
      ensures pending == Unfinished(status, tasks)
    {
      pending := [];
      for i := 0 to |tasks|
        invariant pending == Unfinished(status, tasks[..i])
      {
        assert tasks[..i + 1][..i] == tasks[..i];
        if !Done(status[tasks[i]]) {
          pending := pending + [tasks[i]];
        }
      }
      assert tasks[..|tasks|] == tasks;
    }

    method CancelAll(pending: seq<nat>)
      requires InRange(status, pending)
      modifies this`cancelRequested
      ensures cancelRequested == old(cancelRequested) + set t | t in pending
    {
      for i := 0 to |pending|
        invariant cancelRequested == old(cancelRequested) + set t | t in pending[..i]
      {
        assert pending[..i + 1] == pending[..i] + [pending[i]];
        Cancel(pending[i]);
      }
      assert pending[..|pending|] == pending;
    }

    method AwaitAll(pending: seq<nat>, struck: set<nat>) returns (r: Cleanup)
      requires InRange(status, pending)
      modifies this`status, this`turn
      ensures r == AwaitFrom(old(status), pending, 0, views, old(turn), struck, {})
      ensures status == r.status && turn == r.turn
    {
      var swallowed: set<nat> := {};
      for i := 0 to |pending|
        invariant |status| == |old(status)|
        invariant AwaitFrom(old(status), pending, 0, views, old(turn), struck, {}) ==
                  AwaitFrom(status, pending, i, views, turn, struck, swallowed)
      {
        var suspends := !Done(status[pending[i]]);
        if suspends {
          Await(pending[i]);
        }
        if suspends && i in struck {
          swallowed := swallowed + {i};
        } else if Fatal(status[pending[i]]) {
          return Cleanup(status, Some(i), swallowed, turn);
        }
      }
      return Cleanup(status, None, swallowed, turn);
    }

    /** `cancel_and_wait`: every task is asked to stop, then they are awaited one by one. `r.left`
        says at which of them an error that nobody absorbs ended the waiting. */
    method CancelAndWait(tasks: seq<nat>, struck: set<nat>) returns (r: Cleanup)
      requires InRange(status, tasks)
      modifies this
      ensures r == CleanupOf(old(status), tasks, views, old(turn), struck)
      ensures status == r.status && turn == r.turn
      ensures CleanedUp(old(status), tasks, r) && r.swallowed <= struck
      ensures cancelRequested == old(cancelRequested) + set t | t in Unfinished(old(status), tasks)
    {
      CleanupIsCleanedUp(status, tasks, views, turn, struck);
      var pending := Pick(tasks);
      CancelAll(pending);
      r := AwaitAll(pending, struck);
    }
  }

  // ----- run_all -------------------------------------------------------------------------

  datatype Outcome =
    | Values(values: seq<Value>)
    | Failures(errors: seq<Error>)
    | ChildCancelled     // a child cancelled itself: reading its result raises CancelledError
    | CallerCancelled
    | CleanupLeft(error: Error)   // an error outside Exception came out of `cancel_and_wait`

  /** The two comprehensions that read the outcomes: done and not cancelled, then with an error. */
  method CollectFailures(status: seq<Status>) returns (failures: seq<Error>)
    ensures failures == FailuresOf(status)
  {
    failures := [];
    for i := 0 to |status|
      invariant failures == FailuresOf(status[..i])
    {
      assert status[..i + 1][..i] == status[..i];
      if Done(status[i]) && status[i] != Cancelled && status[i].Failed? {
        failures := failures + [status[i].error];
      }
    }
    assert status[..|status|] == status;
  }

  /** The cleanup of `run_all` covers all its children. */
  function FullCleanup(seen: seq<Status>, views: nat -> seq<Status>, turn: nat, struck: set<nat>): Cleanup {
    CleanupOf(seen, Upto(|seen|), views, turn, struck)
  }

  /** `e` is an error outside Exception with which a child ended that was still running in `seen`. */
  ghost predicate LeftWith(seen: seq<Status>, final: seq<Status>, e: Error) {
    |final| == |seen| && exists i :: 0 <= i < |seen| && !Done(seen[i]) && final[i] == Failed(e, true)
  }

  /** A cleanup from `seen` with which everybody is done, or out of which the error `e` came. When no
      cancellation was swallowed, nobody who still had to be waited for ended with such an error. */
  ghost predicate CleanEnd(seen: seq<Status>, c: Cleanup, e: Option<Error>) {
    && Later(seen, c.status)
    && if c.left.Some? then e.Some? && LeftWith(seen, c.status, e.value)
       else
         && e.None? && AllDone(c.status)
         && (c.swallowed == {} ==> forall i | 0 <= i < |seen| :: !Done(seen[i]) ==> !Fatal(c.status[i]))
  }

  /** A cleanup that reaches everybody who is still running ends in one of the two ways. */
  lemma ReachesEverybody(seen: seq<Status>, tasks: seq<nat>, c: Cleanup) returns (e: Option<Error>)
    requires InRange(seen, tasks) && CleanedUp(seen, tasks, c)
    requires forall i | 0 <= i < |seen| :: Done(seen[i]) || i in tasks
    ensures CleanEnd(seen, c, e)
    ensures c.left.Some? ==> e == Some(c.status[Unfinished(seen, tasks)[c.left.value]].error)
  {
    var pending := Unfinished(seen, tasks);
    if c.left.Some? {
      var i := pending[c.left.value];
      assert c.status[i] == Failed(c.status[i].error, true);
      e := Some(c.status[i].error);
    } else {
      e := None;
      WhoeverRunsIsListed(seen, tasks);
      forall i | 0 <= i < |seen| && !Done(seen[i])
        ensures Done(c.status[i]) && (c.swallowed == {} ==> !Fatal(c.status[i]))
      {
        var k :| 0 <= k < |tasks| && tasks[k] == i;
        assert i in pending;
        var l :| 0 <= l < |pending| && pending[l] == i;
      }
    }
  }

  lemma EverybodyIn(n: nat, all: seq<nat>)
    requires all == Upto(n)
    ensures forall i | 0 <= i < n :: i in all
  {
    forall i | 0 <= i < n ensures i in all {
      assert all[i] == i;
    }
  }

  /** `cancel_and_wait` over all children; `e` is the error that came out of it, if one did. */
  method CleanUp(loop: Loop, struck: set<nat>) returns (c: Cleanup, e: Option<Error>)
    modifies loop
    ensures c == FullCleanup(old(loop.status), loop.views, old(loop.turn), struck)
    ensures CleanEnd(old(loop.status), c, e) && c.swallowed <= struck
  {
    ghost var seen := loop.status;
    var all := Upto(|loop.status|);
    EverybodyIn(|seen|, all);
    var running := Unfinished(loop.status, all);
    c := loop.CancelAndWait(all, struck);
    ghost var error := ReachesEverybody(seen, all, c);
    e := if c.left.Some? then Some(c.status[running[c.left.value]].error) else None;
  }

  /** The results in child order; reading a child that was cancelled raises CancelledError. */
  method ReadValues(final: seq<Status>) returns (r: Outcome)
    requires AllDone(final) && !SomeFailed(final)
    ensures r.Values? || (r == ChildCancelled && exists i :: 0 <= i < |final| && final[i] == Cancelled)
    ensures r.Values? <==> forall i | 0 <= i < |final| :: final[i].Succeeded?
    ensures r.Values? ==> |r.values| == |final| && forall i | 0 <= i < |final| :: final[i] == Succeeded(r.values[i])
  {
    var values: seq<Value> := [];
    for i := 0 to |final|
      invariant |values| == i && forall k | 0 <= k < i :: final[k] == Succeeded(values[k])
    {
      if final[i] == Cancelled {
        return ChildCancelled;
      }
      values := values + [final[i].value];
    }
    return Values(values);
  }

  /** The cleanup, and what is raised after it unless an error comes out of it first. */
  method CleanUpAndRaise(loop: Loop, outcome: Outcome, struck: set<nat>)
    returns (r: Outcome, c: Cleanup)
    requires !outcome.CleanupLeft?
    modifies loop
    ensures c == FullCleanup(old(loop.status), loop.views, old(loop.turn), struck)
    ensures Later(old(loop.status), c.status) && c.swallowed <= struck && (r.CleanupLeft? <==> c.left.Some?)
    ensures if r.CleanupLeft? then LeftWith(old(loop.status), c.status, r.error) else r == outcome && AllDone(c.status)
  {
    var e;
    c, e := CleanUp(loop, struck);
    r := if e.Some? then CleanupLeft(e.value) else outcome;
  }

  /** `run_all` over n factories. `seen` is the moment its wait returned, `final` its exit. There is a
      cleanup when the caller was cancelled at the wait, or some child had failed. Every child is
      done on every exit, except when an error outside Exception comes out of the cleanup, and
      then that error is what the caller gets. Values stand at their child's position; a failure
      report lists, in the order of the children, exactly the failures present when the wait
      returned. The caller's cancellation comes out exactly when it arrived at the wait and
      nothing left the cleanup: one that arrives during the cleanup is swallowed. */
  method RunAll(n: nat, views: nat -> seq<Status>, atWait: bool, struck: set<nat>)
    returns (r: Outcome, final: seq<Status>, seen: seq<Status>, c: Cleanup)
    ensures |final| == n && final == c.status && Later(seen, final)
    ensures seen == if n == 0 then [] else FirstException(AllRunning(n), views(0), atWait)
    ensures c == if n > 0 && (atWait || SomeFailed(seen)) then FullCleanup(seen, views, 1, struck)
                 else Cleanup(seen, None, {}, if n == 0 then 0 else 1)
    ensures c.swallowed <= struck && (r.CleanupLeft? <==> c.left.Some?)
    ensures if r.CleanupLeft? then LeftWith(seen, final, r.error) else AllDone(final)
    ensures r.Values? ==> |r.values| == n && forall i | 0 <= i < n :: final[i] == Succeeded(r.values[i])
    ensures r.Failures? ==> r.errors == FailuresOf(seen) != []
    ensures r == ChildCancelled ==> exists i :: 0 <= i < n && seen[i] == Cancelled
    ensures r == CallerCancelled <==> n > 0 && atWait && !r.CleanupLeft?
    ensures !(n > 0 && atWait) && !r.CleanupLeft? ==>
              && (r.Failures? <==> SomeFailed(seen))
              && (r.Values? <==> forall i | 0 <= i < n :: seen[i].Succeeded?)
  {
    if n == 0 {
      return Values([]), [], [], Cleanup([], None, {}, 0);
    }
    var loop := new Loop(n, views);
    loop.WaitFirstException(atWait);
    seen := loop.status;
    var failures := CollectFailures(seen);
    NoFailures(seen);
    if atWait || failures != [] {
      r, c := CleanUpAndRaise(loop, if atWait then CallerCancelled else Failures(failures), struck);
    } else {
      r := ReadValues(seen);
      c := Cleanup(seen, None, {}, 1);
    }
    final := c.status;
  }

  // ----- Two runs of run_all -------------------------------------------------------------

  lemma OneOfTwo(ss: seq<Status>)
    requires |ss| >= 2 && Done(ss[0]) && !Done(ss[1])
    ensures Unfinished(ss, [0, 1]) == [1]
  {
    UnfinishedSnoc(ss, [], 0, [0]);
    UnfinishedSnoc(ss, [0], 1, [0, 1]);
  }

  lemma TwoOfThree(ss: seq<Status>)
    requires |ss| == 3 && Done(ss[0]) && !Done(ss[1]) && !Done(ss[2])
    ensures Unfinished(ss, Upto(3)) == [1, 2]
  {
    OneOfTwo(ss);
    assert Upto(3) == [0, 1, 2];
    UnfinishedSnoc(ss, [0, 1], 2, Upto(3));
  }

  lemma LeftAtOnce(before: seq<Status>, after: seq<Status>, views: nat -> seq<Status>)
    requires |before| == 3 && Done(before[0]) && !Done(before[1]) && !Done(before[2])
    requires Later(before, after) && Fatal(after[1]) && views(1) == after
    ensures FullCleanup(before, views, 1, {}) == Cleanup(after, Some(0), {}, 2)
  {
    TwoOfThree(before);
    assert AwaitFrom(before, [1, 2], 0, views, 1, {}, {}) == Cleanup(after, Some(0), {}, 2);
  }

  /** Child 0 fails; child 1 answers its cancellation with an error outside Exception; child 2 takes
      its time. The second error comes out of `run_all` while child 2 still runs. */
  method SiblingOutlivesRunAll(e: Error, f: Error) returns (r: Outcome, final: seq<Status>)
    ensures r == CleanupLeft(f) && final == [Failed(e, false), Failed(f, true), Running]
  {
    var first := [Failed(e, false), Running, Running];
    var second := [Failed(e, false), Failed(f, true), Running];
    var views := (k: nat) => if k == 0 then first else second;
    var seen, c;
    r, final, seen, c := RunAll(3, views, false, {});
    assert first[0].Failed?;
    assert seen == first;
    LeftAtOnce(first, second, views);
  }

  lemma FirstFails(e: Error, ss: seq<Status>)
    requires ss == [Failed(e, false), Running]
    ensures FailuresOf(ss) == [e]
  {
    assert ss[..1] == [Failed(e, false)] && ss[..1][..0] == [];
    assert FailuresOf(ss[..1]) == [e];
  }

  /** The second suspension is the last one, and the cancellation that arrives in it is absorbed. */
  lemma StruckOnce(before: seq<Status>, after: seq<Status>, views: nat -> seq<Status>)
    requires |before| == 2 && Done(before[0]) && !Done(before[1])
    requires Later(before, after) && Done(after[1]) && views(1) == after
    ensures FullCleanup(before, views, 1, {0}) == Cleanup(after, None, {0}, 2)
  {
    OneOfTwo(before);
    assert Upto(2) == [0, 1];
    assert AwaitFrom(after, [1], 1, views, 2, {0}, {0}) == Cleanup(after, None, {0}, 2);
    assert {} + {0} == {0};
  }

  /** Child 0 fails, and the caller is cancelled while `run_all` awaits child 1: no CancelledError
      comes out, but the report of the failure. */
  method CancellationIsSwallowed(e: Error) returns (r: Outcome, swallowed: set<nat>)
    ensures r == Failures([e]) && swallowed == {0}
  {
    var first := [Failed(e, false), Running];
    var second := [Failed(e, false), Cancelled];
    var views := (k: nat) => if k == 0 then first else second;
    var final, seen, c;
    r, final, seen, c := RunAll(2, views, false, {0});
    swallowed := c.swallowed;
    assert first[0].Failed?;
    assert seen == first;
    FirstFails(e, first);
    StruckOnce(first, second, views);
  }

  // ----- What a report lists -------------------------------------------------------------

  /** `who` lists the children that failed, in their order, each once, and `errors` are theirs. */
  ghost predicate ListsFailures(ss: seq<Status>, who: seq<nat>, errors: seq<Error>) {
    && |errors| == |who|
    && (forall k | 0 <= k < |who| :: who[k] < |ss| && ss[who[k]].Failed? && errors[k] == ss[who[k]].error)
    && (forall k, l | 0 <= k < l < |who| :: who[k] < who[l])
    && (forall i: nat | i < |ss| && ss[i].Failed? :: i in who)
  }

  lemma ListsOneMore(front: seq<Status>, who: seq<nat>, errors: seq<Error>, s: Status)
    requires ListsFailures(front, who, errors)
    ensures s.Failed? ==> ListsFailures(front + [s], who + [|front|], errors + [s.error])
    ensures !s.Failed? ==> ListsFailures(front + [s], who, errors)
  {
    var n := |front|;
    forall i: nat | i < n + 1 && (front + [s])[i].Failed? ensures i in who || (i == n && s.Failed?) {
      assert i < n ==> front[i].Failed?;
    }
    assert (who + [n])[|who|] == n;
    assert forall i | i in who :: i in who + [n];
  }

  /** The report names every child that failed, in the order of the children, with its own error. */
  lemma {:induction false} FailuresInOrder(ss: seq<Status>) returns (who: seq<nat>)
    ensures ListsFailures(ss, who, FailuresOf(ss))
  {
    if ss == [] {
      who := [];
    } else {
      var front, s := ss[..|ss| - 1], ss[|ss| - 1];
      who := FailuresInOrder(front);
      ListsOneMore(front, who, FailuresOf(front), s);
      assert ss == front + [s];
      who := if s.Failed? then who + [|front|] else who;
    }
  }

  // ----- first_result --------------------------------------------------------------------

  datatype Race =
    | NoFactories
    | Winner(value: Value)
    | AllFailed(errors: seq<Error>)
    | RaceCancelled
    | RaceLeft(error: Error)   // an error outside Exception came out of `cancel_and_wait`

  /** Whoever is done has failed. */
  predicate OnlyFailures(ss: seq<Status>) {
    forall i | 0 <= i < |ss| :: Done(ss[i]) ==> ss[i].Failed?
  }

  /** The first of `order` that is done and did not fail. */
  function FirstGood(ss: seq<Status>, order: seq<nat>): (r: Option<nat>)
    ensures r.Some? ==> r.value < |ss| && Done(ss[r.value]) && !ss[r.value].Failed?
  {
    if order == [] then None
    else if order[0] < |ss| && Done(ss[order[0]]) && !ss[order[0]].Failed? then Some(order[0])
    else FirstGood(ss, order[1..])
  }

  lemma UnfinishedOneMore(before: seq<Status>, after: seq<Status>, front: seq<nat>, x: nat, tasks: seq<nat>)
    requires Later(before, after) && InRange(before, front) && x < |before| && tasks == front + [x]
    requires Unfinished(after, Unfinished(before, front)) == Unfinished(after, front)
    ensures InRange(before, tasks) && Unfinished(after, Unfinished(before, tasks)) == Unfinished(after, tasks)
  {
    var some, more := Unfinished(before, front), Unfinished(before, tasks);
    UnfinishedSnoc(before, front, x, tasks);
    UnfinishedSnoc(after, front, x, tasks);
    if Done(before[x]) {
      assert more == some;
    } else {
      UnfinishedSnoc(after, some, x, more);
    }
  }

  lemma {:induction false} UnfinishedLater(before: seq<Status>, after: seq<Status>, tasks: seq<nat>)
    requires Later(before, after) && InRange(before, tasks)
    ensures Unfinished(after, Unfinished(before, tasks)) == Unfinished(after, tasks)
  {
    if tasks == [] {
    } else {
      var front, x := tasks[..|tasks| - 1], tasks[|tasks| - 1];
      assert tasks == front + [x] && InRange(before, front);
      UnfinishedLater(before, after, front);
      UnfinishedOneMore(before, after, front, x, tasks);
    }
  }

  lemma {:induction false} NobodyDone(ss: seq<Status>, n: nat)
    requires n <= |ss| && forall i | 0 <= i < n :: !Done(ss[i])
    ensures Unfinished(ss, Upto(n)) == Upto(n)
  {
    if n == 0 {
    } else {
      NobodyDone(ss, n - 1);
      UptoSnoc(n - 1);
      UnfinishedSnoc(ss, Upto(n - 1), n - 1, Upto(n));
    }
  }

  /** To cancel those who still run is to cancel everybody. */
  lemma SameCleanup(seen: seq<Status>, pending: seq<nat>, views: nat -> seq<Status>, turn: nat, struck: set<nat>)
    requires pending == Unfinished(seen, Upto(|seen|))
    ensures Unfinished(seen, pending) == pending
    ensures CleanupOf(seen, pending, views, turn, struck) == FullCleanup(seen, views, turn, struck)
    ensures forall i | 0 <= i < |seen| :: Done(seen[i]) || i in pending
  {
    UnfinishedLater(seen, seen, Upto(|seen|));
    WhoeverRunsIsListed(seen, Upto(|seen|));
    forall i | 0 <= i < |seen| ensures Done(seen[i]) || i in pending {
      assert Upto(|seen|)[i] == i;
    }
  }

  lemma {:induction false} FirstGoodAt(ss: seq<Status>, order: seq<nat>, at: nat)
    requires InRange(ss, order) && at <= |order|
    requires forall k | 0 <= k < at :: ss[order[k]].Failed?
    requires at < |order| ==> Done(ss[order[at]]) && !ss[order[at]].Failed?
    ensures FirstGood(ss, order) == if at < |order| then Some(order[at]) else None
    decreases |order|
  {
    if order == [] {
    } else if at > 0 {
      FirstGoodAt(ss, order[1..], at - 1);
    }
  }

  /** The errors read so far are those of the visited children, which all failed. */
  ghost predicate Visited(status: seq<Status>, visited: seq<nat>, errors: seq<Error>) {
    && |visited| == |errors|
    && forall k | 0 <= k < |visited| ::
         visited[k] < |status| && status[visited[k]].Failed? && status[visited[k]].error == errors[k]
  }

  lemma VisitedLater(before: seq<Status>, after: seq<Status>, visited: seq<nat>, errors: seq<Error>)
    requires Visited(before, visited, errors) && Later(before, after)
    ensures Visited(after, visited, errors)
  {
  }

  lemma {:induction false} AllFailures(ss: seq<Status>, g: nat -> Error)
    requires forall i: nat | i < |ss| :: ss[i].Failed? && ss[i].error == g(i)
    ensures FailuresOf(ss) == Map(g, Upto(|ss|))
  {
    if ss == [] {
    } else {
      var n := |ss| - 1;
      AllFailures(ss[..n], g);
      UptoSnoc(n);
      MapSnoc<nat, Error>(g, Upto(n), n);
    }
  }

  /** When every child was visited, the errors are everybody's, in the order of the visits. */
  lemma EveryError(final: seq<Status>, visited: seq<nat>, errors: seq<Error>)
    requires Visited(final, visited, errors) && multiset(visited) == multiset(Upto(|final|))
    ensures forall i | 0 <= i < |final| :: final[i].Failed?
    ensures |errors| == |final| && multiset(errors) == multiset(FailuresOf(final))
  {
    var n := |final|;
    assert |visited| == |multiset(visited)| == |multiset(Upto(n))| == n;
    forall i | 0 <= i < n ensures final[i].Failed? {
      assert Upto(n)[i] == i;
      assert i in multiset(visited);
      var k :| 0 <= k < |visited| && visited[k] == i;
    }
    if n > 0 {
      var g := (i: nat) => if i < n && final[i].Failed? then final[i].error else final[0].error;
      SameImage(visited, Upto(n), g);
      assert errors == Map(g, visited);
      AllFailures(final, g);
    }
  }

  /** The report of a race is promised in the order of the children. For children with different
      errors it is exactly when they were visited in that order. */
  lemma InChildOrderExactly(final: seq<Status>, visited: seq<nat>, errors: seq<Error>)
    requires Visited(final, visited, errors) && multiset(visited) == multiset(Upto(|final|))
    requires forall i, j | 0 <= i < j < |final| ::
               final[i].Failed? && final[j].Failed? ==> final[i].error != final[j].error
    ensures errors == FailuresOf(final) <==> visited == Upto(|final|)
  {
    var n := |final|;
    EveryError(final, visited, errors);
    if n > 0 {
      var g := (i: nat) => if i < n && final[i].Failed? then final[i].error else final[0].error;
      AllFailures(final, g);
      assert |visited| == |multiset(visited)| == |multiset(Upto(n))| == n;
      assert errors == Map(g, visited);
      if errors == FailuresOf(final) {
        forall k | 0 <= k < n ensures visited[k] == k {
          assert g(visited[k]) == errors[k] == Map(g, Upto(n))[k] == g(k);
        }
      }
    }
  }

  /** The loop over `done`: it collects errors up to the first task that did not fail. */
  method ReadDone(status: seq<Status>, done: seq<nat>, errors: seq<Error>, ghost visited: seq<nat>)
    returns (at: nat, errors': seq<Error>, ghost visited': seq<nat>)
    requires Visited(status, visited, errors)
    requires forall k | 0 <= k < |done| :: done[k] < |status| && Done(status[done[k]])
    ensures at <= |done| && visited' == visited + done[..at] && Visited(status, visited', errors')
    ensures at < |done| ==> !status[done[at]].Failed?
  {
    errors', visited' := errors, visited;
    assert visited + done[..0] == visited;
    at := 0;
    while at < |done| && status[done[at]].Failed?
      invariant at <= |done| && visited' == visited + done[..at] && Visited(status, visited', errors')
    {
      errors', visited' := errors' + [status[done[at]].error], visited' + [done[at]];
      at := at + 1;
    }
  }

  /** Two children that failed, of which the second is visited first: the report is turned round. */
  method ReportTurnedRound(e: Error, f: Error) returns (errors: seq<Error>)
    ensures errors == [f, e] && FailuresOf([Failed(e, false), Failed(f, false)]) == [e, f]
  {
    var final := [Failed(e, false), Failed(f, false)];
    assert final[..1] == [Failed(e, false)] && final[..1][..0] == [];
    assert FailuresOf(final[..1]) == [e];
    var order: seq<nat> := [1, 0];
    var at;
    ghost var visited;
    at, errors, visited := ReadDone(final, order, [], []);
    assert at == 2 && order[..2] == order && visited == [] + order;
  }

  /** Visited, about to be visited, and pending children are all the children. */
  ghost predicate Covered(n: nat, visited: seq<nat>, done: seq<nat>, pending: seq<nat>) {
    multiset(visited) + multiset(done) + multiset(pending) == multiset(Upto(n))
  }

  lemma MoveVisited(n: nat, visited: seq<nat>, done: seq<nat>, rest: seq<nat>, pending: seq<nat>, at: nat)
    requires Covered(n, visited, [], pending) && at <= |done|
    requires multiset(done) + multiset(rest) == multiset(pending)
    ensures Covered(n, visited + done[..at], done[at..], rest)
  {
    assert done == done[..at] + done[at..];
    assert multiset(visited + done[..at]) == multiset(visited) + multiset(done[..at]);
  }

  lemma SplitLength(a: seq<nat>, b: seq<nat>, whole: seq<nat>)
    requires multiset(a) + multiset(b) == multiset(whole)
    ensures |a| + |b| == |whole|
  {
    assert |multiset(a + b)| == |multiset(whole)|;
  }

  /** Whoever is still running is among `pending`; the children already visited, and the rest of
      `done`, are done. */
  lemma OnlyPendingRun(status: seq<Status>, visited: seq<nat>, errors: seq<Error>, done: seq<nat>, pending: seq<nat>)
    requires Visited(status, visited, errors) && Covered(|status|, visited, done, pending)
    requires forall k | 0 <= k < |done| :: done[k] < |status| && Done(status[done[k]])
    ensures forall i | 0 <= i < |status| :: Done(status[i]) || i in pending
  {
    forall i | 0 <= i < |status| ensures Done(status[i]) || i in pending {
      assert Upto(|status|)[i] == i;
      assert i in multiset(visited) + multiset(done) + multiset(pending);
      if i in multiset(visited) {
        var k :| 0 <= k < |visited| && visited[k] == i;
      } else if i in multiset(done) {
        var k :| 0 <= k < |done| && done[k] == i;
      }
    }
  }

  lemma NobodyLeft(n: nat, visited: seq<nat>)
    requires Covered(n, visited, [], [])
    ensures multiset(visited) == multiset(Upto(n))
  {
    assert multiset(visited) + multiset{} + multiset{} == multiset(visited);
  }

  /** What the decisive child makes of the race. */
  function Verdict(s: Status): Race { if s.Succeeded? then Winner(s.value) else RaceCancelled }

  /** The race ends with `verdict` after a cleanup from `seen`, or with what came out of the cleanup. */
  ghost predicate EndsWith(seen: seq<Status>, c: Cleanup, verdict: Race, r: Race) {
    && CleanEnd(seen, c, if r.RaceLeft? then Some(r.error) else None)
    && (r.RaceLeft? || r == verdict)
  }

  /** CancelledError came up in the loop: everybody who still runs is cancelled. */
  method GiveUp(loop: Loop, struck: set<nat>) returns (r: Race, c: Cleanup)
    modifies loop
    ensures c == FullCleanup(old(loop.status), loop.views, old(loop.turn), struck) && c.swallowed <= struck
    ensures EndsWith(old(loop.status), c, RaceCancelled, r)
  {
    var e;
    c, e := CleanUp(loop, struck);
    r := if e.Some? then RaceLeft(e.value) else RaceCancelled;
  }

  /** The winner's cleanup: only `pending` is cancelled, and that is everybody who still runs. */
  method CancelLosers(loop: Loop, pending: seq<nat>, value: Value, struck: set<nat>) returns (r: Race, c: Cleanup)
    requires InRange(loop.status, pending) && pending == Unfinished(loop.status, Upto(|loop.status|))
    modifies loop
    ensures c == FullCleanup(old(loop.status), loop.views, old(loop.turn), struck) && c.swallowed <= struck
    ensures EndsWith(old(loop.status), c, Winner(value), r)
  {
    ghost var seen := loop.status;
    SameCleanup(seen, pending, loop.views, loop.turn, struck);
    c := loop.CancelAndWait(pending, struck);
    ghost var error := ReachesEverybody(seen, pending, c);
    r := if c.left.Some? then RaceLeft(c.status[pending[c.left.value]].error) else Winner(value);
  }

  /** A child that did not fail ends the race. */
  method Decide(loop: Loop, hit: nat, pending: seq<nat>, struck: set<nat>) returns (r: Race, c: Cleanup)
    requires hit < |loop.status| && Done(loop.status[hit]) && !loop.status[hit].Failed?
    requires InRange(loop.status, pending) && pending == Unfinished(loop.status, Upto(|loop.status|))
    modifies loop
    ensures c == FullCleanup(old(loop.status), loop.views, old(loop.turn), struck) && c.swallowed <= struck
    ensures EndsWith(old(loop.status), c, Verdict(old(loop.status[hit])), r)
  {
    if loop.status[hit] == Cancelled {
      r, c := GiveUp(loop, struck);
    } else {
      r, c := CancelLosers(loop, pending, loop.status[hit].value, struck);
    }
  }

  lemma AllOfThemDone(status: seq<Status>, pending: seq<nat>, done: seq<nat>)
    requires InRange(status, pending) && multiset(done) == multiset(Finished(status, pending))
    requires exists i :: 0 <= i < |pending| && Done(status[pending[i]])
    ensures done != [] && multiset(done) + multiset(Unfinished(status, pending)) == multiset(pending)
    ensures forall k | 0 <= k < |done| :: done[k] < |status| && Done(status[done[k]])
  {
    DoneOrNot(status, pending);
    var f := Finished(status, pending);
    var i :| 0 <= i < |pending| && Done(status[pending[i]]);
    assert pending[i] in multiset(f);
    assert pending[i] in multiset(done);
    forall k | 0 <= k < |done| ensures done[k] < |status| && Done(status[done[k]]) {
      assert done[k] in multiset(done);
      assert done[k] in multiset(f);
      assert done[k] in f;
    }
  }

  lemma ReadInOrder(status: seq<Status>, done: seq<nat>, visited: seq<nat>, at: nat, errors: seq<Error>)
    requires at <= |done| && Visited(status, visited + done[..at], errors)
    requires forall k | 0 <= k < |done| :: done[k] < |status| && Done(status[done[k]])
    requires at < |done| ==> !status[done[at]].Failed?
    ensures FirstGood(status, done) == if at < |done| then Some(done[at]) else None
  {
    forall k | 0 <= k < at ensures status[done[k]].Failed? {
      assert (visited + done[..at])[|visited| + k] == done[k];
    }
    FirstGoodAt(status, done, at);
  }

  /** Between two rounds everybody who is done has failed and was visited. */
  lemma OnlyFailuresSoFar(status: seq<Status>, visited: seq<nat>, errors: seq<Error>, pending: seq<nat>)
    requires Visited(status, visited, errors) && Covered(|status|, visited, [], pending)
    requires forall k | 0 <= k < |pending| :: pending[k] < |status| && !Done(status[pending[k]])
    ensures OnlyFailures(status) && (AllDone(status) ==> pending == [])
  {
    var none: seq<nat> := [];
    OnlyPendingRun(status, visited, errors, none, pending);
    forall i | 0 <= i < |status| && Done(status[i]) ensures status[i].Failed? {
      assert Upto(|status|)[i] == i;
      assert i in multiset(visited) + multiset(none) + multiset(pending);
      assert i !in pending;
      var k :| 0 <= k < |visited| && visited[k] == i;
    }
    if pending != [] {
      assert !Done(status[pending[0]]);
    }
  }

  /** Between two rounds: `pending` still run, and all others were visited and had failed. */
  ghost predicate Racing(status: seq<Status>, pending: seq<nat>, visited: seq<nat>, errors: seq<Error>) {
    && pending == Unfinished(status, Upto(|status|))
    && Covered(|status|, visited, [], pending) && Visited(status, visited, errors)
  }

  lemma NobodyVisited(n: nat, none: seq<nat>)
    requires none == []
    ensures Covered(n, none, none, Upto(n))
  {
    assert multiset(none) + multiset(none) + multiset(Upto(n)) == multiset(Upto(n));
  }

  lemma AtTheStart(n: nat, ss: seq<Status>, all: seq<nat>)
    requires ss == AllRunning(n) && all == Upto(n)
    ensures Racing(ss, all, [], [])
  {
    NobodyVisited(n, []);
    NobodyDone(ss, n);
  }

  /** The wait from `before` on ends with `seen`, when the children come to `next` meanwhile. Until
      then whoever was done had failed; in `seen` the loop comes upon `hit`, if upon anybody. */
  ghost predicate Round(before: seq<Status>, seen: seq<Status>, next: seq<Status>, order: seq<nat>, hit: Option<nat>) {
    var pending := Unfinished(before, Upto(|before|));
    && OnlyFailures(before) && pending != []
    && seen == UntilOneDone(before, next, pending)
    && hit == FirstGood(seen, Reordered(Finished(seen, pending), order))
  }

  /** One round of the loop: it waits, and reads what is done up to the first child that did not
      fail. `hit` is that child, if there is one. */
  method OneRound(loop: Loop, pending: seq<nat>, order: seq<nat>, errors: seq<Error>, ghost visited: seq<nat>)
    returns (hit: Option<nat>, rest: seq<nat>, errors': seq<Error>, ghost visited': seq<nat>)
    requires Racing(loop.status, pending, visited, errors) && pending != []
    modifies loop`status, loop`turn
    ensures loop.turn == old(loop.turn) + 1 && |loop.status| == old(|loop.status|)
    ensures Round(old(loop.status), loop.status, loop.views(old(loop.turn)), order, hit)
    ensures rest == Unfinished(loop.status, Upto(|loop.status|)) && |rest| < |pending|
    ensures hit.None? ==> Racing(loop.status, rest, visited', errors')
  {
    OnlyFailuresSoFar(loop.status, visited, errors, pending);
    var done;
    done, rest := loop.WaitFirstCompleted(pending, order);
    VisitedLater(old(loop.status), loop.status, visited, errors);
    AllOfThemDone(loop.status, pending, done);
    SplitLength(done, rest, pending);
    UnfinishedLater(old(loop.status), loop.status, Upto(|loop.status|));
    var at;
    at, errors', visited' := ReadDone(loop.status, done, errors, visited);
    MoveVisited(|loop.status|, visited, done, rest, pending, at);
    ReadInOrder(loop.status, done, visited, at, errors');
    hit := if at < |done| then Some(done[at]) else None;
  }

  /** What is known of the race at its exit; `seen` is the last moment before it cancels anybody.
      Every child is done on every exit, except when an error outside Exception comes out of the
      cleanup, and then that error is what the caller gets. A value is the result of a child that
      succeeded; a failure report carries the errors of all n children, which then all failed, in
      the order in which they were visited. */
  ghost predicate RaceOutcome(n: nat, r: Race, final: seq<Status>, callerCancelled: bool, seen: seq<Status>,
                              visited: seq<nat>, swallowed: set<nat>) {
    && |final| == n && Later(seen, final)
    && (if r.RaceLeft? then LeftWith(seen, final, r.error) else AllDone(final))
    && (!r.RaceLeft? && swallowed == {} ==> forall i | 0 <= i < n :: !Done(seen[i]) ==> !Fatal(final[i]))
    && (r.Winner? ==> exists i :: 0 <= i < n && seen[i] == final[i] == Succeeded(r.value))
    && (r.AllFailed? ==>
          && |r.errors| == n && multiset(r.errors) == multiset(FailuresOf(final))
          && (forall i | 0 <= i < n :: final[i].Failed?)
          && Visited(final, visited, r.errors) && multiset(visited) == multiset(Upto(n)))
    && (callerCancelled ==> r == RaceCancelled || r.RaceLeft?)
    && (r == RaceCancelled ==> callerCancelled || exists i :: 0 <= i < n && seen[i] == Cancelled)
  }

  /** How the race came to its exit in round `rounds`: the first in which its caller was cancelled,
      or a child that was done had not failed, or nobody was left. `before` is the moment the
      round began. The child that decides is the first of those that the loop visits in that
      round; everybody who still runs is then cancelled and waited for. */
  ghost predicate RaceCourse(views: nat -> seq<Status>, orders: nat -> seq<nat>, struck: set<nat>, r: Race,
                             final: seq<Status>, callerCancelled: bool, before: seq<Status>, seen: seq<Status>,
                             rounds: nat, swallowed: set<nat>) {
    if r.AllFailed? then final == seen && swallowed == {}
    else
      var c := FullCleanup(seen, views, rounds, struck);
      && final == c.status && swallowed == c.swallowed <= struck
      && rounds > 0
      && if callerCancelled then OnlyFailures(before) && !AllDone(before) && seen == Advance(before, views(rounds - 1))
         else
           exists hit: nat | hit < |seen| ::
             && Round(before, seen, views(rounds - 1), orders(rounds - 1), Some(hit))
             && (r.RaceLeft? || r == Verdict(seen[hit]))
  }

  lemma CancelledExit(n: nat, seen: seq<Status>, c: Cleanup, r: Race, visited: seq<nat>)
    requires |seen| == n && EndsWith(seen, c, RaceCancelled, r)
    ensures RaceOutcome(n, r, c.status, true, seen, visited, c.swallowed)
  {
  }

  lemma DecidedExit(n: nat, seen: seq<Status>, c: Cleanup, hit: nat, r: Race, visited: seq<nat>)
    requires |seen| == n && hit < n && Done(seen[hit]) && !seen[hit].Failed?
    requires EndsWith(seen, c, Verdict(seen[hit]), r)
    ensures RaceOutcome(n, r, c.status, false, seen, visited, c.swallowed)
  {
    assert c.status[hit] == seen[hit];
  }

  lemma AllFailedExit(final: seq<Status>, visited: seq<nat>, errors: seq<Error>)
    requires Visited(final, visited, errors) && Covered(|final|, visited, [], [])
    ensures RaceOutcome(|final|, AllFailed(errors), final, false, final, visited, {})
  {
    NobodyLeft(|final|, visited);
    EveryError(final, visited, errors);
  }

  /** What the loop ends with: everybody's error was read, its caller was cancelled at a wait, or it
      came upon a child that did not fail, while `rest` still run. */
  datatype LoopEnd = AllRead | Interrupted | Hit(child: nat, rest: seq<nat>)

  /** The loop ended with the wait that began at `before`, its k-th, as `end` says. */
  ghost predicate LoopEnds(end: LoopEnd, before: seq<Status>, seen: seq<Status>, k: nat, views: nat -> seq<Status>,
                           orders: nat -> seq<nat>, atWait: Option<nat>)
  {
    && k > 0 && |seen| == |before|
    && match end
       case AllRead => false
       case Interrupted =>
         && atWait.Some? && atWait.value + 1 == k
         && OnlyFailures(before) && !AllDone(before) && seen == Advance(before, views(k - 1))
       case Hit(child, rest) =>
         && (atWait.Some? ==> atWait.value >= k)
         && Round(before, seen, views(k - 1), orders(k - 1), Some(child)) && rest == Unfinished(seen, Upto(|seen|))
  }

  /** One turn of the loop. */
  method Turn(loop: Loop, orders: nat -> seq<nat>, atWait: Option<nat>, pending: seq<nat>, errors: seq<Error>,
              ghost visited: seq<nat>)
    returns (end: Option<LoopEnd>, rest: seq<nat>, errors': seq<Error>, ghost visited': seq<nat>)
    requires Racing(loop.status, pending, visited, errors) && pending != []
    requires atWait.Some? ==> atWait.value >= loop.turn
    modifies loop`status, loop`turn
    ensures end.Some? ==>
              LoopEnds(end.value, old(loop.status), loop.status, loop.turn, loop.views, orders, atWait)
    ensures end.None? ==>
              && Racing(loop.status, rest, visited', errors') && |rest| < |pending|
              && |loop.status| == old(|loop.status|) && (atWait.Some? ==> atWait.value >= loop.turn)
  {
    if atWait.Some? && atWait.value == loop.turn {
      OnlyFailuresSoFar(loop.status, visited, errors, pending);
      loop.LetTimePass();
      return Some(Interrupted), [], errors, visited;
    }
    var hit;
    hit, rest, errors', visited' := OneRound(loop, pending, orders(loop.turn), errors, visited);
    end := if hit.Some? then Some(Hit(hit.value, rest)) else None;
  }

  /** The loop of `first_result`. */
  method Rounds(loop: Loop, all: seq<nat>, orders: nat -> seq<nat>, atWait: Option<nat>)
    returns (end: LoopEnd, errors: seq<Error>, ghost visited: seq<nat>, ghost before: seq<Status>)
    requires Racing(loop.status, all, [], []) && loop.turn == 0
    modifies loop`status, loop`turn
    ensures |loop.status| == old(|loop.status|)
    ensures !end.AllRead? ==> LoopEnds(end, before, loop.status, loop.turn, loop.views, orders, atWait)
    ensures end.AllRead? ==>
              Racing(loop.status, [], visited, errors) && (atWait.Some? ==> atWait.value >= loop.turn)
  {
    var pending := all;
    errors, visited, before := [], [], [];
    while pending != []
      invariant |loop.status| == old(|loop.status|)
      invariant atWait.Some? ==> atWait.value >= loop.turn
      invariant Racing(loop.status, pending, visited, errors)
      decreases |pending|
    {
      before := loop.status;
      var over;
      over, pending, errors, visited := Turn(loop, orders, atWait, pending, errors, visited);
      if over.Some? {
        return over.value, errors, visited, before;
      }
    }
    end := AllRead;
  }

  /** `first_result` over n factories; `orders(k)` is the order in which it visits what is done in
      round k. It ends with CancelledError only if the caller was cancelled at one of its waits
      (`atWait` says at which), or it came upon a child that had cancelled itself: without
      either, it raises exactly when no child succeeded. A cancellation that arrives while the
      losers are being cancelled is swallowed, and the value is returned. */
  method FirstResult(n: nat, views: nat -> seq<Status>, orders: nat -> seq<nat>, atWait: Option<nat>, struck: set<nat>)
    returns (r: Race, final: seq<Status>, ghost callerCancelled: bool, ghost seen: seq<Status>,
             ghost visited: seq<nat>, rounds: nat, swallowed: set<nat>, ghost before: seq<Status>)
    ensures n == 0 <==> r == NoFactories
    ensures n == 0 ==> rounds == 0 && swallowed == {}
    ensures RaceOutcome(n, r, final, callerCancelled, seen, visited, swallowed)
    ensures n > 0 ==> RaceCourse(views, orders, struck, r, final, callerCancelled, before, seen, rounds, swallowed)
    ensures callerCancelled <==> atWait.Some? && atWait.value < rounds
    ensures callerCancelled ==> rounds == atWait.value + 1
  {
    if n == 0 {
      return NoFactories, [], false, [], [], 0, {}, [];
    }
    var loop := new Loop(n, views);
    var end, errors, c;
    var all: seq<nat> := Upto(n);
    AtTheStart(n, loop.status, all);
    end, errors, visited, before := Rounds(loop, all, orders, atWait);
    seen, rounds := loop.status, loop.turn;
    match end {
      case Interrupted =>
        r, c := GiveUp(loop, struck);
        CancelledExit(n, seen, c, r, visited);
        return r, c.status, true, seen, visited, rounds, c.swallowed, before;
      case Hit(child, rest) =>
        r, c := Decide(loop, child, rest, struck);
        DecidedExit(n, seen, c, child, r, visited);
        return r, c.status, false, seen, visited, rounds, c.swallowed, before;
      case AllRead =>
        AllFailedExit(seen, visited, errors);
        return AllFailed(errors), loop.status, false, seen, visited, rounds, {}, before;
    }
  }
}
