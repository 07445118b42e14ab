/** The worker pool of queues.py: producers, a bounded queue with its unfinished counter, and
    workers, interleaved in any order. `asyncio.Queue` appears only through its contract. */
module Pool {
  import opened Basics

  /** What goes in, what the handler returns, and what it raises. */
  type Item(!new)
  type Value(==, !new)
  type Error(!new)

  /** What became of an item after a worker took it from the queue. */
  datatype Fate =
    | InHand(worker: nat)
    | Completed(result: Value)
    | Failed(error: Error)
    | Dropped             // CancelledError came out of the handler
    | Escaped(value: Value)   // the handler finished, and then `on_result` raised
    | Lost                // the handler raised what `except Exception` does not catch

  datatype Kind = KHand | KCompleted | KFailed | KDropped | KEscaped | KLost

  function KindOf(f: Fate): Kind {
    match f
    case InHand(_) => KHand
    case Completed(_) => KCompleted
    case Failed(_) => KFailed
    case Dropped => KDropped
    case Escaped(_) => KEscaped
    case Lost => KLost
  }

  datatype Worker = Idle | Handling(item: nat) | Stopped

  /** Items are known by their position in `enqueued`, the order in which they entered the queue;
      `fates[i]` is what happened to the i-th of them once it was taken. */
  datatype State = State(
    maxsize: nat, closed: bool, queue: seq<Item>, unfinished: int, workers: map<nat, Worker>,
    submitted: int, completed: int, failed: int, rejected: int, results: seq<Value>, errors: seq<Error>,
    blocked: map<nat, Item>, lostPuts: int, enqueued: seq<Item>, fates: seq<Fate>)
  {
    predicate Full() { |queue| >= maxsize }
    predicate Has(w: nat, x: Worker) { w in workers && workers[w] == x }
    predicate Busy(w: nat) { w in workers && workers[w].Handling? && workers[w].item < |fates| }

    function Put(item: Item): State {
      this.(queue := queue + [item], unfinished := unfinished + 1, enqueued := enqueued + [item])
    }

    /** Worker `w` is done with its item; `x` is what the worker is afterwards. */
    function Settle(w: nat, fate: Fate, x: Worker): State
      requires Busy(w)
    {
      this.(workers := workers[w := x], fates := fates[workers[w].item := fate])
    }
  }

  function IdleWorkers(n: nat): (ws: map<nat, Worker>)
    ensures forall w: nat :: w in ws <==> w < n
    ensures forall w | w in ws :: ws[w] == Idle
  {
    if n == 0 then map[] else IdleWorkers(n - 1)[n - 1 := Idle]
  }

  function Fresh(maxsize: nat): State {
    State(maxsize, false, [], 0, map[], 0, 0, 0, 0, [], [], map[], 0, [], [])
  }

  datatype Step =
    | Start(n: nat)
    | Submit(put: nat, item: Item)
    | Unblock(put: nat)
    | CancelPut(put: nat)
    | TrySubmit(item: Item)
    | Get(w: nat)
    | Complete(w: nat, result: Value)
    | CallbackRaises(w: nat, result: Value)
    | Fail(w: nat, error: Error)
    | Drop(w: nat)
    | Die(w: nat)
    | StopIdle(w: nat)
    | Close
    | Retire

  predicate Enabled(s: State, step: Step) {
    match step
    case Start(n) => s.workers == map[]
    case Submit(p, _) => !s.closed && p !in s.blocked
    case Unblock(p) => p in s.blocked
    case CancelPut(p) => p in s.blocked
    case TrySubmit(_) => !s.closed
    case Get(w) => s.Has(w, Idle) && s.queue != []
    case Complete(w, _) => s.Busy(w)
    case CallbackRaises(w, _) => s.Busy(w)
    case Fail(w, _) => s.Busy(w)
    case Drop(w) => s.Busy(w)
    case Die(w) => s.Busy(w)
    case StopIdle(w) => s.Has(w, Idle)
    case Close => true
    case Retire => forall w | w in s.workers :: s.workers[w] == Stopped
  }

  function Next(s: State, step: Step): State
    requires Enabled(s, step)
  {
    match step
    case Start(n) => s.(workers := IdleWorkers(n))
    case Submit(p, item) =>
      var counted := s.(submitted := s.submitted + 1);
      if s.Full() then counted.(blocked := s.blocked[p := item]) else counted.Put(item)
    case Unblock(p) =>
      if s.Full() then s else s.(blocked := s.blocked - {p}).Put(s.blocked[p])
    case CancelPut(p) =>
      s.(blocked := s.blocked - {p}, lostPuts := s.lostPuts + 1)
    case TrySubmit(item) =>
      if s.Full() then s.(rejected := s.rejected + 1)
      else s.(submitted := s.submitted + 1).Put(item)
    case Get(w) =>
      s.(queue := s.queue[1..], workers := s.workers[w := Handling(|s.fates|)], fates := s.fates + [InHand(w)])
    case Complete(w, r) =>
      s.Settle(w, Completed(r), Idle).(
        completed := s.completed + 1, results := s.results + [r], unfinished := s.unfinished - 1)
    case CallbackRaises(w, r) =>
      s.Settle(w, Escaped(r), Stopped).(completed := s.completed + 1, results := s.results + [r])
    case Fail(w, e) =>
      s.Settle(w, Failed(e), Idle).(
        failed := s.failed + 1, errors := s.errors + [e], unfinished := s.unfinished - 1)
    case Drop(w) =>
      s.Settle(w, Dropped, Stopped).(unfinished := s.unfinished - 1)
    case Die(w) => s.Settle(w, Lost, Stopped)
    case StopIdle(w) => s.(workers := s.workers[w := Stopped])
    case Close => s.(closed := true)
    case Retire => s.(workers := map[])
  }

  ghost predicate Runs(s: State, steps: seq<Step>)
    decreases |steps|
  {
    steps == [] || (Enabled(s, steps[0]) && Runs(Next(s, steps[0]), steps[1..]))
  }

  ghost function Exec(s: State, steps: seq<Step>): State
    requires Runs(s, steps)
    decreases |steps|
  {
    if steps == [] then s else Exec(Next(s, steps[0]), steps[1..])
  }

  // ----- Counting fates ------------------------------------------------------------------

  function Count(fates: seq<Fate>, k: Kind): nat {
    if fates == [] then 0
    else Count(fates[..|fates| - 1], k) + Bit(KindOf(fates[|fates| - 1]) == k)
  }

  lemma CountSnoc(fates: seq<Fate>, f: Fate, k: Kind)
    ensures Count(fates + [f], k) == Count(fates, k) + Bit(KindOf(f) == k)
  {
    assert (fates + [f])[..|fates|] == fates;
  }

  lemma {:induction false} CountUpdate(fates: seq<Fate>, i: nat, f: Fate, k: Kind)
    requires i < |fates|
    ensures Count(fates[i := f], k) + Bit(KindOf(fates[i]) == k) == Count(fates, k) + Bit(KindOf(f) == k)
  {
    var n := |fates| - 1;
    if i == n {
      assert fates[i := f][..n] == fates[..n];
    } else {
      assert fates[i := f][..n] == fates[..n][i := f];
      CountUpdate(fates[..n], i, f, k);
    }
  }

  lemma {:induction false} CountsAddUp(fates: seq<Fate>)
    ensures |fates| == Count(fates, KHand) + Count(fates, KCompleted) + Count(fates, KFailed)
                       + Count(fates, KDropped) + Count(fates, KEscaped) + Count(fates, KLost)
  {
    if fates == [] {
    } else {
      CountsAddUp(fates[..|fates| - 1]);
    }
  }

  lemma {:induction false} CountZero(fates: seq<Fate>, k: Kind)
    ensures Count(fates, k) == 0 <==> forall i | 0 <= i < |fates| :: KindOf(fates[i]) != k
  {
    if fates == [] {
    } else {
      CountZero(fates[..|fates| - 1], k);
    }
  }

  function ResultOf(f: Fate): multiset<Value> {
    match f
    case Completed(r) => multiset{r}
    case Escaped(r) => multiset{r}
    case _ => multiset{}
  }

  /** Items that were taken and for which `task_done` will never be called. */
  function Leaked(fates: seq<Fate>): nat { Count(fates, KEscaped) + Count(fates, KLost) }

  /** The results of the finished items. */
  function ResultsOf(fates: seq<Fate>): multiset<Value> {
    if fates == [] then multiset{}
    else ResultsOf(fates[..|fates| - 1]) + ResultOf(fates[|fates| - 1])
  }

  lemma Swap(a: multiset<Value>, b: multiset<Value>, c: multiset<Value>)
    ensures a + b + c == a + c + b
  {
  }

  lemma {:induction false} ResultsUpdate(fates: seq<Fate>, i: nat, f: Fate)
    requires i < |fates| && ResultOf(fates[i]) == multiset{}
    ensures ResultsOf(fates[i := f]) == ResultsOf(fates) + ResultOf(f)
  {
    var n := |fates| - 1;
    var updated := fates[i := f];
    var front := ResultsOf(fates[..n]);
    if i == n {
      assert updated[..n] == fates[..n];
      assert front + multiset{} == front;
    } else {
      assert updated[..n] == fates[..n][i := f];
      ResultsUpdate(fates[..n], i, f);
      assert ResultsOf(updated[..n]) == front + ResultOf(f);
      Swap(front, ResultOf(f), ResultOf(fates[n]));
      assert updated[n] == fates[n];
    }
  }

  // ----- The invariant -------------------------------------------------------------------

  /** The queue is what entered it and was not taken, in order. */
  ghost predicate Queued(s: State) {
    && |s.fates| <= |s.enqueued|
    && s.queue == s.enqueued[|s.fates|..]
    && |s.queue| <= s.maxsize
    && s.submitted == |s.enqueued| + |s.blocked| + s.lostPuts
  }

  /** A worker handles an item exactly when that item's fate says so. */
  ghost predicate Linked(s: State) {
    && (forall w | w in s.workers && s.workers[w].Handling? ::
          s.workers[w].item < |s.fates| && s.fates[s.workers[w].item] == InHand(w))
    && (forall i | 0 <= i < |s.fates| && s.fates[i].InHand? :: s.Has(s.fates[i].worker, Handling(i)))
  }

  ghost predicate Counted(s: State) {
    && s.unfinished == |s.queue| + Count(s.fates, KHand) + Leaked(s.fates)
    && s.completed == Count(s.fates, KCompleted) + Count(s.fates, KEscaped) == |s.results|
    && s.failed == Count(s.fates, KFailed) == |s.errors|
    && multiset(s.results) == ResultsOf(s.fates)
  }

  ghost predicate Inv(s: State) {
    Queued(s) && Linked(s) && Counted(s)
  }

  predicate Settles(step: Step) {
    step.Complete? || step.CallbackRaises? || step.Fail? || step.Drop? || step.Die?
  }

  lemma SettleKeepsLinks(s: State, w: nat, fate: Fate, x: Worker)
    requires Linked(s) && s.Busy(w) && !fate.InHand? && !x.Handling?
    ensures Linked(s.Settle(w, fate, x))
  {
    var n := s.Settle(w, fate, x);
    forall i | 0 <= i < |n.fates| && n.fates[i].InHand?
      ensures n.Has(n.fates[i].worker, Handling(i))
    {
      assert n.fates[i] == s.fates[i] && s.Has(s.fates[i].worker, Handling(i));
    }
  }

  /** The counts after worker `w` settles its item: one in hand less, one of the new fate more. */
  ghost predicate CountsMove(before: seq<Fate>, after: seq<Fate>, f: Fate) {
    && Count(before, KHand) == Count(after, KHand) + 1
    && Count(after, KEscaped) == Count(before, KEscaped) + Bit(KindOf(f) == KEscaped)
    && Count(after, KLost) == Count(before, KLost) + Bit(KindOf(f) == KLost)
    && Count(after, KCompleted) == Count(before, KCompleted) + Bit(KindOf(f) == KCompleted)
    && Count(after, KFailed) == Count(before, KFailed) + Bit(KindOf(f) == KFailed)
    && ResultsOf(after) == ResultsOf(before) + ResultOf(f)
  }

  lemma SettleMovesCounts(s: State, w: nat, f: Fate, x: Worker)
    requires Linked(s) && s.Busy(w) && !f.InHand?
    ensures CountsMove(s.fates, s.Settle(w, f, x).fates, f)
  {
    var i := s.workers[w].item;
    CountUpdate(s.fates, i, f, KHand);
    CountUpdate(s.fates, i, f, KEscaped);
    CountUpdate(s.fates, i, f, KLost);
    CountUpdate(s.fates, i, f, KCompleted);
    CountUpdate(s.fates, i, f, KFailed);
    ResultsUpdate(s.fates, i, f);
  }

  lemma CompleteKeepsCounts(s: State, w: nat, r: Value)
    requires Counted(s) && Linked(s) && s.Busy(w)
    ensures Counted(Next(s, Complete(w, r)))
  {
    SettleMovesCounts(s, w, Completed(r), Idle);
  }

  lemma CallbackKeepsCounts(s: State, w: nat, r: Value)
    requires Counted(s) && Linked(s) && s.Busy(w)
    ensures Counted(Next(s, CallbackRaises(w, r)))
  {
    SettleMovesCounts(s, w, Escaped(r), Stopped);
  }

  lemma FailKeepsCounts(s: State, w: nat, e: Error)
    requires Counted(s) && Linked(s) && s.Busy(w)
    ensures Counted(Next(s, Fail(w, e)))
  {
    SettleMovesCounts(s, w, Failed(e), Idle);
  }

  lemma DropKeepsCounts(s: State, w: nat)
    requires Counted(s) && Linked(s) && s.Busy(w)
    ensures Counted(Next(s, Drop(w)))
  {
    SettleMovesCounts(s, w, Dropped, Stopped);
  }

  lemma DieKeepsCounts(s: State, w: nat)
    requires Counted(s) && Linked(s) && s.Busy(w)
    ensures Counted(Next(s, Die(w)))
  {
    SettleMovesCounts(s, w, Lost, Stopped);
  }

  lemma SettleKeepsCounts(s: State, step: Step)
    requires Counted(s) && Linked(s) && Enabled(s, step) && Settles(step)
    ensures Counted(Next(s, step))
  {
    match step
    case Complete(w, r) => CompleteKeepsCounts(s, w, r);
    case CallbackRaises(w, r) => CallbackKeepsCounts(s, w, r);
    case Fail(w, e) => FailKeepsCounts(s, w, e);
    case Drop(w) => DropKeepsCounts(s, w);
    case Die(w) => DieKeepsCounts(s, w);
  }

  lemma SettleKeepsRest(s: State, step: Step)
    requires Queued(s) && Linked(s) && Enabled(s, step) && Settles(step)
    ensures Queued(Next(s, step)) && Linked(Next(s, step))
  {
    match step
    case Complete(w, r) => SettleKeepsLinks(s, w, Completed(r), Idle);
    case CallbackRaises(w, r) => SettleKeepsLinks(s, w, Escaped(r), Stopped);
    case Fail(w, e) => SettleKeepsLinks(s, w, Failed(e), Idle);
    case Drop(w) => SettleKeepsLinks(s, w, Dropped, Stopped);
    case Die(w) => SettleKeepsLinks(s, w, Lost, Stopped);
  }

  predicate IsPut(step: Step) { step.Submit? || step.Unblock? || step.TrySubmit? || step.CancelPut? }

  lemma PutKeepsQueue(s: State, step: Step)
    requires Queued(s) && Enabled(s, step) && IsPut(step)
    ensures Queued(Next(s, step))
    ensures Next(s, step).fates == s.fates && Next(s, step).workers == s.workers
  {
    var n := Next(s, step);
    if step.Unblock? || step.CancelPut? {
      assert (s.blocked - {step.put}).Keys == s.blocked.Keys - {step.put};
    }
  }

  /** Whoever leaves workers and fates alone leaves the links alone. */
  lemma SameLinks(s: State, n: State)
    requires Linked(s) && n.fates == s.fates && n.workers == s.workers
    ensures Linked(n)
  {
    forall i | 0 <= i < |n.fates| && n.fates[i].InHand?
      ensures n.Has(n.fates[i].worker, Handling(i))
    {
      assert s.Has(s.fates[i].worker, Handling(i));
    }
  }

  lemma PutKeepsCounts(s: State, step: Step)
    requires Counted(s) && Enabled(s, step) && IsPut(step)
    ensures Counted(Next(s, step))
  {
    var n := Next(s, step);
    assert n.unfinished - s.unfinished == |n.queue| - |s.queue|;
  }

  lemma PutKeepsInv(s: State, step: Step)
    requires Inv(s) && Enabled(s, step) && IsPut(step)
    ensures Inv(Next(s, step))
  {
    PutKeepsQueue(s, step);
    PutKeepsCounts(s, step);
    SameLinks(s, Next(s, step));
  }

  lemma GetKeepsCounts(s: State, w: nat)
    requires Counted(s) && Enabled(s, Get(w))
    ensures Counted(Next(s, Get(w)))
  {
    var taken: Fate := InHand(w);
    CountSnoc(s.fates, taken, KHand);
    CountSnoc(s.fates, taken, KEscaped);
    CountSnoc(s.fates, taken, KLost);
    CountSnoc(s.fates, taken, KCompleted);
    CountSnoc(s.fates, taken, KFailed);
    assert (s.fates + [taken])[..|s.fates|] == s.fates;
  }

  lemma GetKeepsRest(s: State, w: nat)
    requires Queued(s) && Linked(s) && Enabled(s, Get(w))
    ensures Queued(Next(s, Get(w))) && Linked(Next(s, Get(w)))
  {
  }

  lemma LifecycleKeepsInv(s: State, step: Step)
    requires Inv(s) && Enabled(s, step)
    requires step.Start? || step.StopIdle? || step.Close? || step.Retire?
    ensures Inv(Next(s, step))
  {
    var n := Next(s, step);
    assert n.fates == s.fates && Queued(n) && Counted(n);
    assert Linked(n) by {
      forall i | 0 <= i < |n.fates| && n.fates[i].InHand?
        ensures n.Has(n.fates[i].worker, Handling(i))
      {
        assert s.Has(s.fates[i].worker, Handling(i));
      }
    }
  }

  lemma StepKeepsInv(s: State, step: Step)
    requires Inv(s) && Enabled(s, step)
    ensures Inv(Next(s, step))
  {
    if Settles(step) {
      SettleKeepsRest(s, step);
      SettleKeepsCounts(s, step);
    } else if step.Get? {
      GetKeepsCounts(s, step.w);
      GetKeepsRest(s, step.w);
    } else if IsPut(step) {
      PutKeepsInv(s, step);
    } else {
      LifecycleKeepsInv(s, step);
    }
  }

  lemma NewPoolIsSound(maxsize: nat)
    ensures Inv(Fresh(maxsize))
  {
  }

  lemma {:induction false} RunKeepsInv(s: State, steps: seq<Step>)
    requires Inv(s) && Runs(s, steps)
    ensures Inv(Exec(s, steps))
    decreases |steps|
  {
    if steps == [] {
    } else {
      StepKeepsInv(s, steps[0]);
      RunKeepsInv(Next(s, steps[0]), steps[1..]);
    }
  }

  // ----- Fates come from steps -----------------------------------------------------------

  /** The fate that a step gives to the item of its worker. */
  predicate Brings(step: Step, k: Kind) {
    match step
    case Complete(_, _) => k == KCompleted
    case CallbackRaises(_, _) => k == KEscaped
    case Fail(_, _) => k == KFailed
    case Drop(_) => k == KDropped
    case Die(_) => k == KLost
    case _ => false
  }

  function Occurs(steps: seq<Step>, k: Kind): nat {
    if steps == [] then 0 else Bit(Brings(steps[0], k)) + Occurs(steps[1..], k)
  }

  /** How many steps of a run leave an item taken and never marked done: a callback that raises,
      or a handler that raises what `except Exception` does not catch. */
  function Leaks(steps: seq<Step>): nat { Occurs(steps, KEscaped) + Occurs(steps, KLost) }

  lemma SettleBringsFate(s: State, w: nat, f: Fate, x: Worker, k: Kind)
    requires Linked(s) && s.Busy(w) && k != KHand
    ensures Count(s.Settle(w, f, x).fates, k) == Count(s.fates, k) + Bit(KindOf(f) == k)
  {
    CountUpdate(s.fates, s.workers[w].item, f, k);
  }

  lemma SettleStepBringsFate(s: State, step: Step, k: Kind)
    requires Linked(s) && Enabled(s, step) && Settles(step) && k != KHand
    ensures Count(Next(s, step).fates, k) == Count(s.fates, k) + Bit(Brings(step, k))
  {
    match step
    case Complete(w, r) => SettleBringsFate(s, w, Completed(r), Idle, k);
    case CallbackRaises(w, r) => SettleBringsFate(s, w, Escaped(r), Stopped, k);
    case Fail(w, e) => SettleBringsFate(s, w, Failed(e), Idle, k);
    case Drop(w) => SettleBringsFate(s, w, Dropped, Stopped, k);
    case Die(w) => SettleBringsFate(s, w, Lost, Stopped, k);
  }

  lemma StepBringsFate(s: State, step: Step, k: Kind)
    requires Linked(s) && Enabled(s, step) && k != KHand
    ensures Count(Next(s, step).fates, k) == Count(s.fates, k) + Bit(Brings(step, k))
  {
    if Settles(step) {
      SettleStepBringsFate(s, step, k);
    } else if step.Get? {
      CountSnoc(s.fates, InHand(step.w), k);
    }
  }

  /** Fates are permanent, and each comes from the step that brought it: over any run, as many
      items fail, are dropped, complete or escape as there were such steps. */
  lemma {:induction false} FatesAreSteps(s: State, steps: seq<Step>, k: Kind)
    requires Inv(s) && Runs(s, steps) && k != KHand
    ensures Count(Exec(s, steps).fates, k) == Count(s.fates, k) + Occurs(steps, k)
    decreases |steps|
  {
    if steps == [] {
    } else {
      StepKeepsInv(s, steps[0]);
      StepBringsFate(s, steps[0], k);
      FatesAreSteps(Next(s, steps[0]), steps[1..], k);
    }
  }

  lemma LeaksAreSteps(s: State, steps: seq<Step>)
    requires Inv(s) && Runs(s, steps)
    ensures Leaked(Exec(s, steps).fates) == Leaked(s.fates) + Leaks(steps)
  {
    FatesAreSteps(s, steps, KEscaped);
    FatesAreSteps(s, steps, KLost);
  }

  // ----- Accounting ----------------------------------------------------------------------

  lemma {:induction false} RunKeepsSize(s: State, steps: seq<Step>)
    requires Runs(s, steps)
    ensures Exec(s, steps).maxsize == s.maxsize
    decreases |steps|
  {
    if steps == [] {
    } else {
      RunKeepsSize(Next(s, steps[0]), steps[1..]);
    }
  }

  /** On every run, abort included: every item is somewhere, and the counters say where. */
  lemma Accounting(maxsize: nat, steps: seq<Step>)
    requires Runs(Fresh(maxsize), steps)
    ensures var s := Exec(Fresh(maxsize), steps);
            && s.submitted == s.completed + s.failed + Count(s.fates, KDropped) + Count(s.fates, KLost)
                              + Count(s.fates, KHand) + |s.queue| + |s.blocked| + s.lostPuts
            && s.unfinished == |s.queue| + Count(s.fates, KHand) + Leaked(s.fates)
            && Leaked(s.fates) == Leaks(steps) && Count(s.fates, KDropped) == Occurs(steps, KDropped)
            && |s.results| == s.completed && |s.errors| == s.failed && |s.queue| <= maxsize
            && multiset(s.results) == ResultsOf(s.fates)
  {
    RunKeepsInv(Fresh(maxsize), steps);
    var s := Exec(Fresh(maxsize), steps);
    CountsAddUp(s.fates);
    LeaksAreSteps(Fresh(maxsize), steps);
    FatesAreSteps(Fresh(maxsize), steps, KDropped);
    RunKeepsSize(Fresh(maxsize), steps);
  }

  predicate IsAttempt(step: Step) { step.Submit? || step.TrySubmit? }

  function ResultIn(step: Step): seq<Value> {
    match step
    case Complete(_, r) => [r]
    case CallbackRaises(_, r) => [r]
    case _ => []
  }

  function ErrorIn(step: Step): seq<Error> { if step.Fail? then [step.error] else [] }

  function Attempts(steps: seq<Step>): nat {
    if steps == [] then 0 else Bit(IsAttempt(steps[0])) + Attempts(steps[1..])
  }

  function ResultsIn(steps: seq<Step>): seq<Value> {
    if steps == [] then [] else ResultIn(steps[0]) + ResultsIn(steps[1..])
  }

  function ErrorsIn(steps: seq<Step>): seq<Error> {
    if steps == [] then [] else ErrorIn(steps[0]) + ErrorsIn(steps[1..])
  }

  /** From `s` to `n` so many calls were counted, and these results and errors were logged. */
  ghost predicate Logged(s: State, n: State, calls: nat, results: seq<Value>, errors: seq<Error>) {
    && n.submitted + n.rejected == s.submitted + s.rejected + calls
    && n.results == s.results + results
    && n.errors == s.errors + errors
  }

  lemma StepIsLogged(s: State, step: Step)
    requires Enabled(s, step)
    ensures Logged(s, Next(s, step), Bit(IsAttempt(step)), ResultIn(step), ErrorIn(step))
  {
    assert s.results + [] == s.results && s.errors + [] == s.errors;
  }

  lemma LoggedTwice(s: State, m: State, n: State, c: nat, d: nat,
                    r: seq<Value>, r': seq<Value>, e: seq<Error>, e': seq<Error>)
    requires Logged(s, m, c, r, e) && Logged(m, n, d, r', e')
    ensures Logged(s, n, c + d, r + r', e + e')
  {
    assert (s.results + r) + r' == s.results + (r + r');
    assert (s.errors + e) + e' == s.errors + (e + e');
  }

  /** Nothing is dropped silently: every accepted call of `submit` or `try_submit` is counted as
      submitted or as rejected, and results and errors are logged in the order they occurred. */
  lemma {:induction false} NothingIsSilent(s: State, steps: seq<Step>)
    requires Runs(s, steps)
    ensures Logged(s, Exec(s, steps), Attempts(steps), ResultsIn(steps), ErrorsIn(steps))
    decreases |steps|
  {
    if steps == [] {
      assert s.results + [] == s.results && s.errors + [] == s.errors;
    } else {
      var m, rest := Next(s, steps[0]), steps[1..];
      StepIsLogged(s, steps[0]);
      NothingIsSilent(m, rest);
      LoggedTwice(s, m, Exec(m, rest), Bit(IsAttempt(steps[0])), Attempts(rest), ResultIn(steps[0]),
                  ResultsIn(rest), ErrorIn(steps[0]), ErrorsIn(rest));
    }
  }

  lemma ZeroExactly(s: State)
    requires Inv(s)
    ensures s.unfinished == 0 <==>
            && s.queue == []
            && (forall w | w in s.workers :: !s.workers[w].Handling?)
            && Leaked(s.fates) == 0
  {
    CountZero(s.fates, KHand);
    if s.unfinished == 0 {
      forall w | w in s.workers ensures !s.workers[w].Handling? {
        assert s.workers[w].Handling? ==> KindOf(s.fates[s.workers[w].item]) == KHand;
      }
    } else if s.queue == [] && Leaked(s.fates) == 0 {
      var i :| 0 <= i < |s.fates| && KindOf(s.fates[i]) == KHand;
      assert s.Has(s.fates[i].worker, Handling(i));
    }
  }

  /** The counter that `join` waits on is zero exactly when nothing is queued, nobody holds an
      item, and on the whole run nothing leaked: no `on_result` raised, and no handler died. */
  lemma JoinReturnsExactly(maxsize: nat, steps: seq<Step>)
    requires Runs(Fresh(maxsize), steps)
    ensures var s := Exec(Fresh(maxsize), steps);
            s.unfinished == 0 <==>
              && s.queue == []
              && (forall w | w in s.workers :: !s.workers[w].Handling?)
              && Leaks(steps) == 0
  {
    RunKeepsInv(Fresh(maxsize), steps);
    LeaksAreSteps(Fresh(maxsize), steps);
    ZeroExactly(Exec(Fresh(maxsize), steps));
  }

  // ----- A drained close -----------------------------------------------------------------

  ghost predicate ClosedFor(s: State, enqueued: seq<Item>) {
    s.closed && s.blocked == map[] && s.enqueued == enqueued
  }

  /** Closed with no `put` still blocked: nothing can enter the queue any more. */
  lemma {:induction false} ClosedStaysClosed(s: State, steps: seq<Step>, enqueued: seq<Item>)
    requires ClosedFor(s, enqueued) && Runs(s, steps)
    ensures ClosedFor(Exec(s, steps), enqueued)
    decreases |steps|
  {
    if steps == [] {
    } else {
      ClosedStaysClosed(Next(s, steps[0]), steps[1..], enqueued);
    }
  }

  /** Nothing left to do: queue empty, nobody busy. */
  ghost predicate Drained(s: State) {
    s.queue == [] && forall w | w in s.workers :: !s.workers[w].Handling?
  }

  lemma {:induction false} DrainedStaysDrained(s: State, steps: seq<Step>, enqueued: seq<Item>)
    requires ClosedFor(s, enqueued) && Drained(s) && Runs(s, steps)
    ensures Drained(Exec(s, steps)) && Exec(s, steps).fates == s.fates
    ensures Exec(s, steps).completed == s.completed && Exec(s, steps).failed == s.failed
    decreases |steps|
  {
    if steps == [] {
    } else {
      ClosedStaysClosed(s, [steps[0]], enqueued);
      DrainedStaysDrained(Next(s, steps[0]), steps[1..], enqueued);
    }
  }

  lemma AllSettled(s: State)
    requires Inv(s) && Drained(s) && Leaked(s.fates) == 0
    ensures |s.fates| == |s.enqueued|
    ensures forall i | 0 <= i < |s.fates| :: s.fates[i].Completed? || s.fates[i].Failed? || s.fates[i].Dropped?
    ensures s.completed + s.failed == |s.enqueued| <==> Count(s.fates, KDropped) == 0
  {
    CountZero(s.fates, KEscaped);
    CountZero(s.fates, KLost);
    CountsAddUp(s.fates);
    forall i | 0 <= i < |s.fates| ensures !s.fates[i].InHand? {
      assert s.fates[i].InHand? ==> s.Has(s.fates[i].worker, Handling(i));
    }
    CountZero(s.fates, KHand);
    forall i | 0 <= i < |s.fates|
      ensures s.fates[i].Completed? || s.fates[i].Failed? || s.fates[i].Dropped?
    {
      assert KindOf(s.fates[i]) != KEscaped && KindOf(s.fates[i]) != KLost;
    }
  }

  /** `aclose(drain=True)`: `before` leads from the new pool to the moment it sets the flag,
      `toJoin` to the moment the counter hits zero, `toReturn` to its return. Every item ever
      enqueued was handed to the handler exactly once, in order, and is accounted for; what the
      workers finished is everything exactly when no handler let a CancelledError out on the way. */
  lemma DrainedClose(maxsize: nat, before: seq<Step>, toJoin: seq<Step>, toReturn: seq<Step>)
    requires Runs(Fresh(maxsize), before)
    requires var c := Exec(Fresh(maxsize), before); ClosedFor(c, c.enqueued) && Runs(c, toJoin)
    requires var j := Exec(Exec(Fresh(maxsize), before), toJoin); j.unfinished == 0 && Runs(j, toReturn)
    ensures var c := Exec(Fresh(maxsize), before);
            var s := Exec(Exec(c, toJoin), toReturn);
            && s.queue == [] && s.enqueued == c.enqueued
            && |s.fates| == |s.enqueued|
            && (forall i | 0 <= i < |s.fates| :: s.fates[i].Completed? || s.fates[i].Failed? || s.fates[i].Dropped?)
            && (s.completed + s.failed == |s.enqueued| <==>
                Occurs(before, KDropped) == 0 && Occurs(toJoin, KDropped) == 0)
  {
    var c := Exec(Fresh(maxsize), before);
    var j := Exec(c, toJoin);
    var s := Exec(j, toReturn);
    RunKeepsInv(Fresh(maxsize), before);
    RunKeepsInv(c, toJoin);
    RunKeepsInv(j, toReturn);
    FatesAreSteps(Fresh(maxsize), before, KDropped);
    FatesAreSteps(c, toJoin, KDropped);
    ClosedStaysClosed(c, toJoin, c.enqueued);
    ClosedStaysClosed(j, toReturn, c.enqueued);
    ZeroExactly(j);
    DrainedStaysDrained(j, toReturn, c.enqueued);
    AllSettled(s);
  }

  lemma BlockedPutGetsThrough(s: State, p: nat)
    requires Enabled(s, Unblock(p)) && s.queue == [] && s.maxsize >= 1
    ensures Runs(s, [Unblock(p)]) && Exec(s, [Unblock(p)]).queue == [s.blocked[p]]
  {
    var late: seq<Step> := [Unblock(p)];
    var n := Next(s, late[0]);
    assert late[1..] == [];
    assert Runs(n, late[1..]) && Exec(n, late[1..]) == n;
  }

  lemma {:induction false} ResultsInOrder(fates: seq<Fate>, items: seq<Item>, f: Item -> Value)
    requires |fates| == |items|
    requires forall i | 0 <= i < |fates| :: fates[i] == Completed(f(items[i]))
    ensures ResultsOf(fates) == multiset(Map(f, items))
  {
    if fates == [] {
    } else {
      var n := |fates| - 1;
      ResultsInOrder(fates[..n], items[..n], f);
      MapSnoc(f, items[..n], items[n]);
      assert items[..n] + [items[n]] == items;
    }
  }

  /** A handler that returns gives `f` of the item that its worker was handed. */
  ghost predicate StepComputes(s: State, step: Step, f: Item -> Value) {
    step.Complete? ==>
      s.Busy(step.w) && s.workers[step.w].item < |s.enqueued| && step.result == f(s.enqueued[s.workers[step.w].item])
  }

  ghost predicate Computes(s: State, steps: seq<Step>, f: Item -> Value)
    requires Runs(s, steps)
    decreases |steps|
  {
    steps == [] || (StepComputes(s, steps[0], f) && Computes(Next(s, steps[0]), steps[1..], f))
  }

  ghost predicate Computed(s: State, f: Item -> Value) {
    && |s.fates| <= |s.enqueued|
    && forall i | 0 <= i < |s.fates| :: s.fates[i].Completed? ==> s.fates[i].result == f(s.enqueued[i])
  }

  lemma StepKeepsComputed(s: State, step: Step, f: Item -> Value)
    requires Queued(s) && Enabled(s, step) && StepComputes(s, step, f) && Computed(s, f)
    ensures Computed(Next(s, step), f)
  {
    var n := Next(s, step);
    assert s.enqueued <= n.enqueued;
    if Settles(step) {
      var i := s.workers[step.w].item;
      assert n.fates == s.fates[i := n.fates[i]];
    } else {
      assert s.fates <= n.fates;
    }
  }

  lemma {:induction false} RunKeepsComputed(s: State, steps: seq<Step>, f: Item -> Value)
    requires Inv(s) && Runs(s, steps) && Computes(s, steps, f) && Computed(s, f)
    ensures Computed(Exec(s, steps), f)
    decreases |steps|
  {
    if steps == [] {
    } else {
      StepKeepsComputed(s, steps[0], f);
      StepKeepsInv(s, steps[0]);
      RunKeepsComputed(Next(s, steps[0]), steps[1..], f);
    }
  }

  /** Once the counter is back at zero, a pool whose handler computed `f` and never failed has
      exactly the image of what was enqueued, in whatever order the workers finished. */
  lemma DrainedResults(maxsize: nat, steps: seq<Step>, f: Item -> Value)
    requires Runs(Fresh(maxsize), steps) && Computes(Fresh(maxsize), steps, f)
    requires Occurs(steps, KFailed) == 0 && Occurs(steps, KDropped) == 0
    requires Exec(Fresh(maxsize), steps).unfinished == 0
    ensures var s := Exec(Fresh(maxsize), steps); multiset(s.results) == multiset(Map(f, s.enqueued))
  {
    var s := Exec(Fresh(maxsize), steps);
    RunKeepsInv(Fresh(maxsize), steps);
    RunKeepsComputed(Fresh(maxsize), steps, f);
    FatesAreSteps(Fresh(maxsize), steps, KFailed);
    FatesAreSteps(Fresh(maxsize), steps, KDropped);
    ZeroExactly(s);
    AllSettled(s);
    CountZero(s.fates, KFailed);
    CountZero(s.fates, KDropped);
    forall i | 0 <= i < |s.fates| ensures s.fates[i] == Completed(f(s.enqueued[i])) {
      assert KindOf(s.fates[i]) != KFailed && KindOf(s.fates[i]) != KDropped;
    }
    ResultsInOrder(s.fates, s.enqueued, f);
  }

  /** After the join of a closed pool the queue stays empty on every run exactly when no `put`
      was still blocked: a blocked one enqueues its item behind the back of the close. */
  lemma LatePutsExactly(s: State)
    requires Inv(s) && s.closed && s.unfinished == 0 && s.maxsize >= 1
    ensures (forall steps | Runs(s, steps) :: Exec(s, steps).queue == []) <==> s.blocked == map[]
  {
    ZeroExactly(s);
    if s.blocked == map[] {
      forall steps | Runs(s, steps) ensures Exec(s, steps).queue == [] {
        DrainedStaysDrained(s, steps, s.enqueued);
      }
    } else {
      var p :| p in s.blocked;
      BlockedPutGetsThrough(s, p);
    }
  }

  // ----- Building runs ---------------------------------------------------------------------

  lemma Unfold(s: State, step: Step, rest: seq<Step>)
    requires Enabled(s, step)
    ensures Runs(s, [step] + rest) == Runs(Next(s, step), rest)
    ensures Runs(Next(s, step), rest) ==> Exec(s, [step] + rest) == Exec(Next(s, step), rest)
  {
    assert ([step] + rest)[1..] == rest;
  }

  /** What a pool can come to, from a new one, under some schedule. */
  ghost predicate Reachable(maxsize: nat, s: State) {
    exists steps :: Runs(Fresh(maxsize), steps) && Exec(Fresh(maxsize), steps) == s
  }

  lemma {:induction false} RunSnoc(s: State, steps: seq<Step>, step: Step)
    requires Runs(s, steps) && Enabled(Exec(s, steps), step)
    ensures Runs(s, steps + [step]) && Exec(s, steps + [step]) == Next(Exec(s, steps), step)
    decreases |steps|
  {
    if steps == [] {
      assert steps + [step] == [step] && [step][1..] == [];
    } else {
      assert (steps + [step])[1..] == steps[1..] + [step];
      RunSnoc(Next(s, steps[0]), steps[1..], step);
    }
  }

  lemma Extend(maxsize: nat, steps: seq<Step>, s: State, step: Step)
    requires Runs(Fresh(maxsize), steps) && Exec(Fresh(maxsize), steps) == s && Enabled(s, step)
    ensures Runs(Fresh(maxsize), steps + [step]) && Exec(Fresh(maxsize), steps + [step]) == Next(s, step)
  {
    RunSnoc(Fresh(maxsize), steps, step);
  }

  lemma StaysReachable(maxsize: nat, s: State, step: Step)
    requires Reachable(maxsize, s) && Enabled(s, step)
    ensures Reachable(maxsize, Next(s, step))
  {
    var steps :| Runs(Fresh(maxsize), steps) && Exec(Fresh(maxsize), steps) == s;
    Extend(maxsize, steps, s, step);
  }

  // ----- What gets in ----------------------------------------------------------------------

  lemma {:induction false} RunFront(s: State, steps: seq<Step>, step: Step)
    requires Runs(s, steps + [step])
    ensures Runs(s, steps) && Enabled(Exec(s, steps), step)
    ensures Exec(s, steps + [step]) == Next(Exec(s, steps), step)
    decreases |steps|
  {
    if steps == [] {
      assert steps + [step] == [step] && [step][1..] == [];
    } else {
      assert (steps + [step])[1..] == steps[1..] + [step];
      RunFront(Next(s, steps[0]), steps[1..], step);
    }
  }

  function Gets(steps: seq<Step>): nat {
    if steps == [] then 0 else Gets(steps[..|steps| - 1]) + Bit(steps[|steps| - 1].Get?)
  }

  /** The item of the latest `submit` under the name `p`. */
  function Asked(steps: seq<Step>, p: nat): Option<Item> {
    if steps == [] then None
    else
      var step := steps[|steps| - 1];
      if step.Submit? && step.put == p then Some(step.item) else Asked(steps[..|steps| - 1], p)
  }

  /** What a step after `before` wants to put in. */
  function Offered(before: seq<Step>, step: Step): Option<Item> {
    match step
    case Submit(_, item) => Some(item)
    case TrySubmit(item) => Some(item)
    case Unblock(p) => Asked(before, p)
    case _ => None
  }

  /** What entered the queue, told from the calls alone: an offer gets in exactly when fewer than
      `maxsize` of the earlier items have not been taken out again. */
  function Entered(maxsize: nat, steps: seq<Step>): seq<Item> {
    if steps == [] then []
    else
      var before := steps[..|steps| - 1];
      var entered, offer := Entered(maxsize, before), Offered(before, steps[|steps| - 1]);
      entered + (if offer.Some? && |entered| - Gets(before) < maxsize then [offer.value] else [])
  }

  predicate HasRoom(maxsize: nat, steps: seq<Step>) { |Entered(maxsize, steps)| - Gets(steps) < maxsize }

  /** The calls of `try_submit` that met a queue without room. */
  function Shed(maxsize: nat, steps: seq<Step>): nat {
    if steps == [] then 0
    else
      var before := steps[..|steps| - 1];
      Shed(maxsize, before) + Bit(steps[|steps| - 1].TrySubmit? && !HasRoom(maxsize, before))
  }

  /** Put `p` met a queue without room, and neither found some since nor was cancelled. */
  predicate Waits(maxsize: nat, steps: seq<Step>, p: nat) {
    if steps == [] then false
    else
      var before, step := steps[..|steps| - 1], steps[|steps| - 1];
      if step.Submit? && step.put == p then !HasRoom(maxsize, before)
      else if step.Unblock? && step.put == p then Waits(maxsize, before, p) && !HasRoom(maxsize, before)
      else Waits(maxsize, before, p) && !(step.CancelPut? && step.put == p)
  }

  predicate HasClose(steps: seq<Step>) { exists i :: 0 <= i < |steps| && steps[i].Close? }

  /** What the calls alone say about the pool. */
  ghost predicate Told(maxsize: nat, steps: seq<Step>, s: State) {
    && s.enqueued == Entered(maxsize, steps) && |s.fates| == Gets(steps) && s.rejected == Shed(maxsize, steps)
    && (s.closed <==> HasClose(steps))
    && forall p: nat :: (p in s.blocked <==> Waits(maxsize, steps, p)) &&
                        (p in s.blocked ==> Asked(steps, p) == Some(s.blocked[p]))
  }

  lemma ClosedNow(before: seq<Step>, step: Step, steps: seq<Step>)
    requires steps == before + [step]
    ensures HasClose(steps) <==> HasClose(before) || step.Close?
  {
    assert steps[|before|] == step;
    assert forall i | 0 <= i < |before| :: steps[i] == before[i];
  }

  lemma StepIsTold(maxsize: nat, before: seq<Step>, s: State, step: Step)
    requires Told(maxsize, before, s) && Queued(s) && s.maxsize == maxsize && Enabled(s, step)
    ensures Told(maxsize, before + [step], Next(s, step))
  {
    var steps, n := before + [step], Next(s, step);
    assert steps[..|before|] == before && steps[|before|] == step;
    assert s.Full() <==> !HasRoom(maxsize, before);
    ClosedNow(before, step, steps);
    assert n.closed <==> s.closed || step.Close?;
    assert n.enqueued == Entered(maxsize, steps) && |n.fates| == Gets(steps);
    forall p: nat
      ensures p in n.blocked <==> Waits(maxsize, steps, p)
      ensures p in n.blocked ==> Asked(steps, p) == Some(n.blocked[p])
    {
      assert p in s.blocked <==> Waits(maxsize, before, p);
    }
  }

  /** The queue holds, in order, the items that entered and were not taken, never more than
      `maxsize`. `submit` waits, and `try_submit` sheds its item, exactly when it holds `maxsize`
      of them; a blocked put gets its own item in once there is room. The pool is closed exactly
      from the first close on. */
  lemma {:induction false} BackpressureIsExact(maxsize: nat, steps: seq<Step>)
    requires Runs(Fresh(maxsize), steps)
    ensures Told(maxsize, steps, Exec(Fresh(maxsize), steps))
    ensures Gets(steps) <= |Entered(maxsize, steps)| <= Gets(steps) + maxsize
    ensures Exec(Fresh(maxsize), steps).queue == Entered(maxsize, steps)[Gets(steps)..]
  {
    var start := Fresh(maxsize);
    RunKeepsInv(start, steps);
    RunKeepsSize(start, steps);
    if steps == [] {
    } else {
      var before, step := steps[..|steps| - 1], steps[|steps| - 1];
      assert steps == before + [step];
      RunFront(start, before, step);
      BackpressureIsExact(maxsize, before);
      RunKeepsInv(start, before);
      RunKeepsSize(start, before);
      StepIsTold(maxsize, before, Exec(start, before), step);
    }
  }

  // ----- When the counter can come back to zero -------------------------------------------

  function Active(workers: map<nat, Worker>): set<nat> {
    set w | w in workers && workers[w] != Stopped
  }

  predicate WorkerStep(step: Step) { step.Get? || Settles(step) || step.StopIdle? }

  /** How many steps the workers have left. */
  function Weight(s: State): nat { 2 * |s.queue| + Count(s.fates, KHand) + |Active(s.workers)| }

  lemma SettleSpends(s: State, w: nat, f: Fate, x: Worker)
    requires Linked(s) && s.Busy(w) && !f.InHand? && !x.Handling?
    ensures Weight(s.Settle(w, f, x)) < Weight(s)
  {
    SettleMovesCounts(s, w, f, x);
    SubsetSize(Active(s.Settle(w, f, x).workers), Active(s.workers));
  }

  lemma SettleStepSpends(s: State, step: Step)
    requires Linked(s) && Enabled(s, step) && Settles(step)
    ensures Weight(Next(s, step)) < Weight(s)
  {
    match step
    case Complete(w, r) => SettleSpends(s, w, Completed(r), Idle);
    case CallbackRaises(w, r) => SettleSpends(s, w, Escaped(r), Stopped);
    case Fail(w, e) => SettleSpends(s, w, Failed(e), Idle);
    case Drop(w) => SettleSpends(s, w, Dropped, Stopped);
    case Die(w) => SettleSpends(s, w, Lost, Stopped);
  }

  lemma GetSpends(s: State, w: nat)
    requires Enabled(s, Get(w))
    ensures Weight(Next(s, Get(w))) < Weight(s)
  {
    CountSnoc(s.fates, InHand(w), KHand);
    assert Active(Next(s, Get(w)).workers) == Active(s.workers);
  }

  lemma StopSpends(s: State, w: nat)
    requires Enabled(s, StopIdle(w))
    ensures Weight(Next(s, StopIdle(w))) < Weight(s)
  {
    assert Active(Next(s, StopIdle(w)).workers) == Active(s.workers) - {w};
    assert w in Active(s.workers);
  }

  lemma WorkerStepSpends(s: State, step: Step)
    requires Linked(s) && Enabled(s, step) && WorkerStep(step)
    ensures Weight(Next(s, step)) < Weight(s)
  {
    if step.Get? {
      GetSpends(s, step.w);
    } else if step.StopIdle? {
      StopSpends(s, step.w);
    } else {
      SettleStepSpends(s, step);
    }
  }

  lemma {:induction false} WorkIsBounded(s: State, steps: seq<Step>)
    requires Inv(s) && Runs(s, steps) && forall i | 0 <= i < |steps| :: WorkerStep(steps[i])
    ensures |steps| + Weight(Exec(s, steps)) <= Weight(s)
    decreases |steps|
  {
    if steps == [] {
    } else {
      StepKeepsInv(s, steps[0]);
      WorkerStepSpends(s, steps[0]);
      WorkIsBounded(Next(s, steps[0]), steps[1..]);
    }
  }

  /** No worker has anything left to do. */
  ghost predicate AtRest(s: State) {
    forall step :: Enabled(s, step) ==> !step.Get? && !Settles(step)
  }

  /** Left to themselves the workers come to rest within `Weight` steps; they have then emptied
      the queue unless all of them died, and the counter is at zero exactly when the queue is
      empty and nothing ever leaked. */
  lemma WorkersComeToRest(s: State, steps: seq<Step>)
    requires Inv(s) && Runs(s, steps) && forall i | 0 <= i < |steps| :: WorkerStep(steps[i])
    ensures |steps| <= Weight(s)
    ensures var n := Exec(s, steps); AtRest(n) ==>
              && (n.queue == [] || Active(n.workers) == {})
              && (n.unfinished == 0 <==>
                  n.queue == [] && Leaked(s.fates) == 0 && Leaks(steps) == 0)
  {
    WorkIsBounded(s, steps);
    RunKeepsInv(s, steps);
    LeaksAreSteps(s, steps);
    var n := Exec(s, steps);
    ZeroExactly(n);
    if AtRest(n) {
      forall w | w in n.workers ensures !n.workers[w].Handling? {
        assert Enabled(n, Drop(w)) == n.Busy(w);
      }
      forall w | w in Active(n.workers) ensures n.queue == [] {
        assert n.Has(w, Idle) ==> n.queue == [] || Enabled(n, Get(w));
      }
    }
  }

  /** While somebody waits in `join` the pool is neither started nor retired. */
  predicate WhileJoining(steps: seq<Step>) {
    forall i | 0 <= i < |steps| :: !steps[i].Start? && !steps[i].Retire?
  }

  lemma SomeWork(s: State, v: Value) returns (step: Step)
    requires Inv(s) && s.unfinished > 0
    requires Leaked(s.fates) == 0 && (s.queue == [] || Active(s.workers) != {})
    ensures Enabled(s, step) && (step.Get? || step.Complete?) && Active(Next(s, step).workers) != {}
  {
    ZeroExactly(s);
    if w :| w in s.workers && s.workers[w].Handling? {
      step := Complete(w, v);
      assert w in Active(s.workers[w := Idle]);
    } else {
      var w :| w in Active(s.workers);
      step := Get(w);
      assert w in Active(s.workers[w := Handling(|s.fates|)]);
    }
  }

  lemma UsefulStep(s: State, v: Value) returns (step: Step, n: State)
    requires Inv(s) && s.unfinished > 0
    requires Leaked(s.fates) == 0 && (s.queue == [] || Active(s.workers) != {})
    ensures Enabled(s, step) && !step.Start? && !step.Retire? && n == Next(s, step)
    ensures Inv(n) && Leaked(n.fates) == 0 && Active(n.workers) != {} && Weight(n) < Weight(s)
  {
    step := SomeWork(s, v);
    n := Next(s, step);
    StepKeepsInv(s, step);
    StepBringsFate(s, step, KEscaped);
    StepBringsFate(s, step, KLost);
    WorkerStepSpends(s, step);
  }

  /** `steps` lead from `s` to a counter at zero. */
  ghost predicate Finishes(s: State, steps: seq<Step>) {
    Runs(s, steps) && WhileJoining(steps) && Exec(s, steps).unfinished == 0
  }

  lemma FinishesLater(s: State, step: Step, rest: seq<Step>)
    requires Enabled(s, step) && !step.Start? && !step.Retire? && Finishes(Next(s, step), rest)
    ensures Finishes(s, [step] + rest)
  {
    Unfold(s, step, rest);
  }

  /** Workers that still live can finish what there is, if nothing escaped. */
  lemma {:induction false} WorkersCanFinish(s: State, v: Value) returns (steps: seq<Step>)
    requires Inv(s) && Leaked(s.fates) == 0 && (s.queue == [] || Active(s.workers) != {})
    ensures Finishes(s, steps)
    decreases Weight(s)
  {
    ZeroExactly(s);
    if s.unfinished == 0 {
      steps := [];
    } else {
      var step, n := UsefulStep(s, v);
      var rest := WorkersCanFinish(n, v);
      FinishesLater(s, step, rest);
      steps := [step] + rest;
    }
  }

  ghost predicate Dead(s: State) {
    s.queue != [] && Active(s.workers) == {}
  }

  lemma AllStopped(s: State)
    requires Active(s.workers) == {}
    ensures forall w | w in s.workers :: s.workers[w] == Stopped
  {
    forall w | w in s.workers ensures s.workers[w] == Stopped {
      assert w !in Active(s.workers);
    }
  }

  lemma {:induction false} DeadStaysDead(s: State, steps: seq<Step>)
    requires Dead(s) && Runs(s, steps) && WhileJoining(steps)
    ensures Dead(Exec(s, steps))
    decreases |steps|
  {
    if steps == [] {
    } else {
      var step := steps[0];
      AllStopped(s);
      DeadStaysDead(Next(s, step), steps[1..]);
    }
  }

  /** When a `join` that is waited for can still return: exactly when nothing ever leaked,
      and the queue is empty or some worker is alive. A pool whose workers all died with items
      queued never drains. */
  lemma JoinCanReturnExactly(s: State, v: Value)
    requires Inv(s)
    ensures (exists steps :: Finishes(s, steps))
            <==> Leaked(s.fates) == 0 && (s.queue == [] || Active(s.workers) != {})
  {
    if Leaked(s.fates) == 0 && !Dead(s) {
      var steps := WorkersCanFinish(s, v);
    }
    forall steps | Finishes(s, steps)
      ensures Leaked(s.fates) == 0 && !Dead(s)
    {
      RunKeepsInv(s, steps);
      LeaksAreSteps(s, steps);
      ZeroExactly(Exec(s, steps));
      if Dead(s) {
        DeadStaysDead(s, steps);
      }
    }
  }

  lemma CanBeRescued(s: State, v: Value) returns (more: seq<Step>)
    requires Inv(s) && Leaked(s.fates) == 0
    ensures Runs(s, more) && Exec(s, more).unfinished == 0
  {
    if !Dead(s) {
      more := WorkersCanFinish(s, v);
    } else {
      AllStopped(s);
      var retired := Next(s, Retire);
      var started := Next(retired, Start(1));
      StepKeepsInv(s, Retire);
      StepKeepsInv(retired, Start(1));
      assert 0 in Active(started.workers);
      var rest := WorkersCanFinish(started, v);
      var again := [Start(1)] + rest;
      more := [Retire] + again;
      assert again[1..] == rest && more[1..] == again;
    }
  }

  lemma LeakHangs(s: State)
    requires Inv(s) && Leaked(s.fates) > 0
    ensures forall more | Runs(s, more) :: Exec(s, more).unfinished > 0
  {
    forall more | Runs(s, more) ensures Exec(s, more).unfinished > 0 {
      RunKeepsInv(s, more);
      LeaksAreSteps(s, more);
    }
  }

  /** One callback that raised, or one handler that died, keeps the counter above zero for good,
      whatever is done to the pool afterwards; and nothing else does: a pool whose workers all
      stopped can be retired and started again. */
  lemma HangsForGoodExactly(maxsize: nat, steps: seq<Step>, v: Value)
    requires Runs(Fresh(maxsize), steps)
    ensures var s := Exec(Fresh(maxsize), steps);
            (forall more | Runs(s, more) :: Exec(s, more).unfinished > 0) <==> Leaks(steps) > 0
  {
    var s := Exec(Fresh(maxsize), steps);
    RunKeepsInv(Fresh(maxsize), steps);
    LeaksAreSteps(Fresh(maxsize), steps);
    if Leaks(steps) > 0 {
      LeakHangs(s);
    } else {
      var more := CanBeRescued(s, v);
    }
  }

  // ----- A close that is cancelled -------------------------------------------------------

  /** What ends the task of worker `w`. */
  predicate Ends(step: Step, w: nat) {
    (step.StopIdle? || step.Drop? || step.Die? || step.CallbackRaises?) && step.w == w
  }

  predicate Alive(s: State, w: nat) { w in s.workers && s.workers[w] != Stopped }

  lemma AliveAfterStep(s: State, step: Step, w: nat)
    requires Enabled(s, step) && !step.Start? && !step.Retire?
    ensures Alive(Next(s, step), w) <==> Alive(s, w) && !Ends(step, w)
  {
  }

  lemma {:induction false} AliveExactly(s: State, steps: seq<Step>, w: nat)
    requires Runs(s, steps) && WhileJoining(steps)
    ensures Alive(Exec(s, steps), w) <==> Alive(s, w) && forall i | 0 <= i < |steps| :: !Ends(steps[i], w)
    decreases |steps|
  {
    if steps == [] {
    } else {
      var step, rest := steps[0], steps[1..];
      AliveAfterStep(s, step, w);
      AliveExactly(Next(s, step), rest, w);
      assert forall i | 0 <= i < |rest| :: rest[i] == steps[i + 1];
    }
  }

  lemma {:induction false} ClosedForGood(s: State, steps: seq<Step>)
    requires s.closed && Runs(s, steps)
    ensures Exec(s, steps).closed
    decreases |steps|
  {
    if steps == [] {
    } else {
      ClosedForGood(Next(s, steps[0]), steps[1..]);
    }
  }

  /** `aclose(drain=True)` cancels the workers after its join. When its own caller is cancelled
      inside the join it has only set the flag: the pool is closed for good, still counts as
      started, and exactly those workers live on that nothing else ended. */
  lemma WorkersOutliveCancelledClose(s: State, steps: seq<Step>, w: nat)
    requires s.closed && Runs(s, steps) && WhileJoining(steps)
    ensures var n := Exec(s, steps);
            && n.closed
            && (Alive(n, w) <==> Alive(s, w) && forall i | 0 <= i < |steps| :: !Ends(steps[i], w))
  {
    ClosedForGood(s, steps);
    AliveExactly(s, steps, w);
  }

  lemma {:induction false} WorkersStay(s: State, steps: seq<Step>)
    requires Runs(s, steps) && WhileJoining(steps)
    ensures Exec(s, steps).workers.Keys == s.workers.Keys
    decreases |steps|
  {
    if steps == [] {
    } else {
      var n := Next(s, steps[0]);
      assert n.workers.Keys == s.workers.Keys;
      WorkersStay(n, steps[1..]);
    }
  }

  lemma {:induction false} NumberOfWorkers(n: nat)
    ensures |IdleWorkers(n)| == n
  {
    if n == 0 {
    } else {
      NumberOfWorkers(n - 1);
      assert IdleWorkers(n).Keys == IdleWorkers(n - 1).Keys + {n - 1};
    }
  }

  /** `start` brings exactly its n workers to life. Until the pool is retired they stay the
      workers, each alive until something ends it. */
  lemma StartsExactly(s: State, n: nat, steps: seq<Step>)
    requires Runs(s, [Start(n)] + steps) && WhileJoining(steps)
    ensures var ws := Exec(s, [Start(n)] + steps).workers;
            && (forall w: nat :: w in ws <==> w < n) && |ws| == n
            && forall w | w in ws :: ws[w] != Stopped <==> forall i | 0 <= i < |steps| :: !Ends(steps[i], w)
  {
    var started := Next(s, Start(n));
    Unfold(s, Start(n), steps);
    WorkersStay(started, steps);
    NumberOfWorkers(n);
    forall w | w in started.workers
      ensures Exec(started, steps).workers[w] != Stopped <==> forall i | 0 <= i < |steps| :: !Ends(steps[i], w)
    {
      AliveExactly(started, steps, w);
    }
  }

  // ----- Runs that go wrong --------------------------------------------------------------

  lemma CountOfOne(f: Fate, k: Kind)
    ensures Count([f], k) == Bit(KindOf(f) == k)
  {
    CountSnoc([], f, k);
  }

  /** A pool of size 1 comes to `s` by `steps`. */
  ghost predicate Leads(steps: seq<Step>, s: State) {
    Runs(Fresh(1), steps) && Exec(Fresh(1), steps) == s
  }

  lemma Then(steps: seq<Step>, s: State, step: Step, longer: seq<Step>, n: State)
    requires Leads(steps, s) && Enabled(s, step) && n == Next(s, step) && longer == steps + [step]
    ensures Leads(longer, n)
  {
    Extend(1, steps, s, step);
  }

  lemma LeadsKeepsInv(steps: seq<Step>, s: State)
    requires Leads(steps, s)
    ensures Inv(s)
  {
    NewPoolIsSound(1);
    RunKeepsInv(Fresh(1), steps);
    assert s == Exec(Fresh(1), steps);
  }

  /** One worker and one item in the queue. */
  function OneQueued(x: Item): State {
    Fresh(1).(workers := map[0 := Idle], queue := [x], unfinished := 1, submitted := 1, enqueued := [x])
  }

  lemma OneQueuedIsReached(x: Item)
    ensures Leads([Start(1), TrySubmit(x)], OneQueued(x))
  {
    assert IdleWorkers(1) == map[0 := Idle];
    var none: seq<Step> := [];
    var started := Fresh(1).(workers := map[0 := Idle]);
    Then(none, Fresh(1), Start(1), [Start(1)], started);
    Then([Start(1)], started, TrySubmit(x), [Start(1), TrySubmit(x)], OneQueued(x));
  }

  function AfterRaise(x: Item, v: Value): State {
    OneQueued(x).(queue := [], workers := map[0 := Stopped], completed := 1, results := [v], fates := [Escaped(v)])
  }

  lemma RaiseIsReached(x: Item, v: Value)
    ensures Leads([Start(1), TrySubmit(x), Get(0), CallbackRaises(0, v)], AfterRaise(x, v))
  {
    OneQueuedIsReached(x);
    var held := OneQueued(x).(queue := [], workers := map[0 := Handling(0)], fates := [InHand(0)]);
    Then([Start(1), TrySubmit(x)], OneQueued(x), Get(0), [Start(1), TrySubmit(x), Get(0)], held);
    assert held.fates[0 := Escaped(v)] == [Escaped(v)];
    Then([Start(1), TrySubmit(x), Get(0)], held, CallbackRaises(0, v),
         [Start(1), TrySubmit(x), Get(0), CallbackRaises(0, v)], AfterRaise(x, v));
  }

  /** One item, one worker, one callback that raises: the item is processed and counted, nobody
      is at work, and `join` waits for ever. */
  lemma OneRaiseHangsJoin(x: Item, v: Value)
    ensures Leads([Start(1), TrySubmit(x), Get(0), CallbackRaises(0, v)], AfterRaise(x, v))
    ensures var s := AfterRaise(x, v);
            && s.queue == [] && s.completed == s.submitted == 1
            && forall more | Runs(s, more) :: Exec(s, more).unfinished > 0
  {
    RaiseIsReached(x, v);
    LeadsKeepsInv([Start(1), TrySubmit(x), Get(0), CallbackRaises(0, v)], AfterRaise(x, v));
    CountOfOne(Escaped(v), KEscaped);
    LeakHangs(AfterRaise(x, v));
  }

  function AfterDeath(x: Item): State {
    OneQueued(x).(queue := [], workers := map[0 := Stopped], fates := [Lost])
  }

  lemma DeathIsReached(x: Item)
    ensures Leads([Start(1), TrySubmit(x), Get(0), Die(0)], AfterDeath(x))
  {
    OneQueuedIsReached(x);
    var held := OneQueued(x).(queue := [], workers := map[0 := Handling(0)], fates := [InHand(0)]);
    Then([Start(1), TrySubmit(x)], OneQueued(x), Get(0), [Start(1), TrySubmit(x), Get(0)], held);
    assert held.fates[0 := Lost] == [Lost];
    Then([Start(1), TrySubmit(x), Get(0)], held, Die(0), [Start(1), TrySubmit(x), Get(0), Die(0)], AfterDeath(x));
  }

  /** One item, one worker, one handler that raises what is neither CancelledError nor an Exception:
      the item is in no counter, and `join` waits for ever. */
  lemma OneDeathHangsJoin(x: Item)
    ensures Leads([Start(1), TrySubmit(x), Get(0), Die(0)], AfterDeath(x))
    ensures var s := AfterDeath(x);
            && s.queue == [] && s.submitted == 1 && s.completed == s.failed == 0
            && forall more | Runs(s, more) :: Exec(s, more).unfinished > 0
  {
    DeathIsReached(x);
    LeadsKeepsInv([Start(1), TrySubmit(x), Get(0), Die(0)], AfterDeath(x));
    CountOfOne(Lost, KLost);
    LeakHangs(AfterDeath(x));
  }

  /** The second item waits in `put` when the pool closes. */
  function ClosedWithBlockedPut(x: Item, y: Item): State {
    OneQueued(x).(closed := true, submitted := 2, blocked := map[0 := y])
  }

  lemma ClosedWithBlockedPutIsReached(x: Item, y: Item)
    ensures Leads([Start(1), TrySubmit(x), Submit(0, y), Close], ClosedWithBlockedPut(x, y))
  {
    OneQueuedIsReached(x);
    var waiting := OneQueued(x).(submitted := 2, blocked := map[0 := y]);
    Then([Start(1), TrySubmit(x)], OneQueued(x), Submit(0, y), [Start(1), TrySubmit(x), Submit(0, y)], waiting);
    Then([Start(1), TrySubmit(x), Submit(0, y)], waiting, Close,
         [Start(1), TrySubmit(x), Submit(0, y), Close], ClosedWithBlockedPut(x, y));
  }

  /** The counter is back at zero, so that the join returns. */
  function Joined(x: Item, y: Item, v: Value): State {
    ClosedWithBlockedPut(x, y).(queue := [], unfinished := 0, completed := 1, results := [v], fates := [Completed(v)])
  }

  lemma JoinedIsReached(x: Item, y: Item, v: Value)
    ensures Leads([Start(1), TrySubmit(x), Submit(0, y), Close, Get(0), Complete(0, v)], Joined(x, y, v))
  {
    ClosedWithBlockedPutIsReached(x, y);
    var closed := [Start(1), TrySubmit(x), Submit(0, y), Close];
    var held := ClosedWithBlockedPut(x, y).(queue := [], workers := map[0 := Handling(0)], fates := [InHand(0)]);
    Then(closed, ClosedWithBlockedPut(x, y), Get(0), closed + [Get(0)], held);
    assert held.fates[0 := Completed(v)] == [Completed(v)];
    Then(closed + [Get(0)], held, Complete(0, v), closed + [Get(0)] + [Complete(0, v)], Joined(x, y, v));
    assert closed + [Get(0)] + [Complete(0, v)] ==
           [Start(1), TrySubmit(x), Submit(0, y), Close, Get(0), Complete(0, v)];
  }

  /** A `put` that was blocked when the pool closed: the join returns, and only then the item
      enters the queue of a pool that is about to lose its workers. */
  lemma LatePutIsStranded(x: Item, y: Item, v: Value)
    ensures Leads([Start(1), TrySubmit(x), Submit(0, y), Close, Get(0), Complete(0, v)], Joined(x, y, v))
    ensures Joined(x, y, v).closed && Joined(x, y, v).unfinished == 0
    ensures Enabled(Joined(x, y, v), Unblock(0))
    ensures var late := Next(Joined(x, y, v), Unblock(0)); late.queue == [y] && late.unfinished == 1
  {
    JoinedIsReached(x, y, v);
  }

  // ----- The pool object -----------------------------------------------------------------

  datatype PoolError = TooFewWorkers | UnboundedQueue | PoolClosed | AlreadyStarted

  function CheckPool(workers: int, maxsize: int): (r: Result<nat, PoolError>)
    ensures r.Ok? <==> workers >= 1 && maxsize >= 1
    ensures r == Err(TooFewWorkers) <==> workers < 1
  {
    if workers < 1 then Err(TooFewWorkers)
    else if maxsize < 1 then Err(UnboundedQueue)
    else Ok(maxsize)
  }

  /** The fields that the source updates in place, with the queue as `asyncio.Queue` keeps it.
      Every method is tied to a step of the machine above, so what a pool comes to is always
      reachable there, and everything proved about runs holds of the object. */
  class WorkerPool {
    const nWorkers: nat
    const maxsize: nat
    var queue: seq<Item>
    var unfinished: int
    var started: bool
    var closed: bool
    var submitted: int
    var completed: int
    var failed: int
    var rejected: int
    var results: seq<Value>
    var errors: seq<Error>
    ghost var workers: map<nat, Worker>
    ghost var blocked: map<nat, Item>
    ghost var lostPuts: int
    ghost var enqueued: seq<Item>
    ghost var fates: seq<Fate>

    ghost function Abs(): State
      reads this
    {
      State(maxsize, closed, queue, unfinished, workers, submitted, completed, failed, rejected,
            results, errors, blocked, lostPuts, enqueued, fates)
    }

    ghost predicate Valid()
      reads this
    {
      started == (workers != map[]) && nWorkers >= 1 && maxsize >= 1 && Reachable(maxsize, Abs())
    }

    /** What the counters of any pool object say. */
    lemma Books()
      requires Valid()
      ensures submitted == completed + failed + Count(fates, KDropped) + Count(fates, KLost)
                           + Count(fates, KHand) + |queue| + |blocked| + lostPuts
      ensures unfinished == |queue| + Count(fates, KHand) + Leaked(fates)
      ensures |results| == completed && |errors| == failed && |queue| <= maxsize
    {
      var steps :| Runs(Fresh(maxsize), steps) && Exec(Fresh(maxsize), steps) == Abs();
      Accounting(maxsize, steps);
    }

    constructor (workers: int, maxsize: int)
      requires CheckPool(workers, maxsize).Ok?
      ensures Valid() && Abs() == Fresh(maxsize) && nWorkers == workers
    {
      this.nWorkers, this.maxsize := workers, maxsize;
      queue, unfinished, started, closed := [], 0, false, false;
      submitted, completed, failed, rejected := 0, 0, 0, 0;
      results, errors := [], [];
      this.workers, blocked, lostPuts, enqueued, fates := map[], map[], 0, [], [];
      ghost var none: seq<Step> := [];
      assert Runs(Fresh(maxsize), none);
    }

    method StartWorkers() returns (r: Result<(), PoolError>)
      requires Valid()
      modifies this
      ensures Valid()
      ensures if old(started) then r == Err(AlreadyStarted) && Abs() == old(Abs())
              else r == Ok(()) && Abs() == Next(old(Abs()), Start(nWorkers))
    {
      if started {
        return Err(AlreadyStarted);
      }
      StaysReachable(maxsize, Abs(), Start(nWorkers));
      started := true;
      workers := IdleWorkers(nWorkers);
      assert 0 in workers;
      return Ok(());
    }

    /** What `put_nowait` does to a queue that has room. */
    method Enqueue(item: Item)
      modifies this`queue, this`unfinished, this`enqueued
      ensures Abs() == old(Abs()).Put(item)
    {
      queue, unfinished, enqueued := queue + [item], unfinished + 1, enqueued + [item];
    }

    /** `submit` up to its return (`Ok(true)`) or to its suspension in `put` (`Ok(false)`). */
    method SubmitItem(ghost p: nat, item: Item) returns (r: Result<bool, PoolError>)
      requires Valid() && p !in blocked
      modifies this
      ensures Valid()
      ensures if old(closed) then r == Err(PoolClosed) && Abs() == old(Abs())
              else r == Ok(p !in blocked) && Abs() == Next(old(Abs()), Submit(p, item))
    {
      if closed {
        return Err(PoolClosed);
      }
      StaysReachable(maxsize, Abs(), Submit(p, item));
      submitted := submitted + 1;
      if |queue| >= maxsize {
        blocked := blocked[p := item];
        r := Ok(false);
      } else {
        Enqueue(item);
        r := Ok(true);
      }
    }

    method TrySubmitItem(item: Item) returns (r: Result<bool, PoolError>)
      requires Valid()
      modifies this
      ensures Valid()
      ensures if old(closed) then r == Err(PoolClosed) && Abs() == old(Abs())
              else r == Ok(|old(queue)| < maxsize) && Abs() == Next(old(Abs()), TrySubmit(item))
    {
      if closed {
        return Err(PoolClosed);
      }
      StaysReachable(maxsize, Abs(), TrySubmit(item));
      if |queue| >= maxsize {
        rejected := rejected + 1;
        r := Ok(false);
      } else {
        Enqueue(item);
        submitted := submitted + 1;
        r := Ok(true);
      }
    }

    /** A `put` that was blocked runs again: it enqueues its item, or finds the queue full once more.
        It does not look at the closed flag. */
    method ResumePut(ghost p: nat, item: Item)
      requires Valid() && p in blocked && blocked[p] == item
      modifies this
      ensures Valid() && Abs() == Next(old(Abs()), Unblock(p))
    {
      StaysReachable(maxsize, Abs(), Unblock(p));
      if |queue| < maxsize {
        blocked := blocked - {p};
        Enqueue(item);
      }
    }

    /** A `put` that was blocked is cancelled: the item was counted, and never enters the queue. */
    ghost method PutCancelled(p: nat)
      requires Valid() && p in blocked
      modifies this`blocked, this`lostPuts
      ensures Valid() && Abs() == Next(old(Abs()), CancelPut(p))
    {
      StaysReachable(maxsize, Abs(), CancelPut(p));
      blocked, lostPuts := blocked - {p}, lostPuts + 1;
    }

    /** An idle worker is cancelled at its `get`. */
    ghost method WorkerStopped(w: nat)
      requires Valid() && Abs().Has(w, Idle)
      modifies this`workers
      ensures Valid() && Abs() == Next(old(Abs()), StopIdle(w))
    {
      StaysReachable(maxsize, Abs(), StopIdle(w));
      workers := workers[w := Stopped];
      assert w in workers;
    }

    /** The head of a worker's loop: `queue.get()` hands it the oldest item. */
    method WorkerTakes(ghost w: nat) returns (item: Item)
      requires Valid() && Abs().Has(w, Idle) && queue != []
      modifies this
      ensures Valid() && Abs() == Next(old(Abs()), Get(w))
      ensures item == old(queue[0])
    {
      StaysReachable(maxsize, Abs(), Get(w));
      item := queue[0];
      queue := queue[1..];
      workers := workers[w := Handling(|fates|)];
      fates := fates + [InHand(w)];
      assert w in workers;
    }

    ghost method Settle(w: nat, fate: Fate, x: Worker)
      requires Abs().Busy(w)
      modifies this`workers, this`fates
      ensures Abs() == old(Abs()).Settle(w, fate, x)
      ensures workers != map[]
    {
      fates := fates[workers[w].item := fate];
      workers := workers[w := x];
      assert w in workers;
    }

    /** The handler was cancelled: the item is marked done although nobody processed it. */
    method HandlerCancelled(ghost w: nat)
      requires Valid() && Abs().Busy(w)
      modifies this
      ensures Valid() && Abs() == Next(old(Abs()), Drop(w))
    {
      StaysReachable(maxsize, Abs(), Drop(w));
      Settle(w, Dropped, Stopped);
      unfinished := unfinished - 1;
    }

    /** The handler raised what is neither CancelledError nor an Exception: nobody catches it, the
        worker's task ends, and the item is neither counted nor marked done. */
    ghost method HandlerDied(w: nat)
      requires Valid() && Abs().Busy(w)
      modifies this`workers, this`fates
      ensures Valid() && Abs() == Next(old(Abs()), Die(w))
    {
      StaysReachable(maxsize, Abs(), Die(w));
      Settle(w, Lost, Stopped);
    }

    /** The handler raised: the failure is recorded and the worker goes on. */
    method HandlerRaised(ghost w: nat, e: Error)
      requires Valid() && Abs().Busy(w)
      modifies this
      ensures Valid() && Abs() == Next(old(Abs()), Fail(w, e))
    {
      StaysReachable(maxsize, Abs(), Fail(w, e));
      Settle(w, Failed(e), Idle);
      failed := failed + 1;
      errors := errors + [e];
      unfinished := unfinished - 1;
    }

    /** The handler returned. A callback that raises skips `task_done`. */
    method HandlerReturned(ghost w: nat, r: Value, callbackRaises: bool)
      requires Valid() && Abs().Busy(w)
      modifies this
      ensures Valid()
      ensures Abs() == Next(old(Abs()), if callbackRaises then CallbackRaises(w, r) else Complete(w, r))
    {
      StaysReachable(maxsize, Abs(), if callbackRaises then CallbackRaises(w, r) else Complete(w, r));
      completed := completed + 1;
      results := results + [r];
      if callbackRaises {
        Settle(w, Escaped(r), Stopped);
      } else {
        Settle(w, Completed(r), Idle);
        unfinished := unfinished - 1;
      }
    }

    /** The first line of `aclose`. */
    method BeginClose()
      requires Valid()
      modifies this
      ensures Valid() && Abs() == Next(old(Abs()), Close)
    {
      StaysReachable(maxsize, Abs(), Close);
      closed := true;
    }

    /** The last lines of `aclose`, once every cancelled worker has stopped. */
    method EndClose()
      requires Valid() && forall w | w in workers :: workers[w] == Stopped
      modifies this
      ensures Valid() && Abs() == Next(old(Abs()), Retire)
    {
      StaysReachable(maxsize, Abs(), Retire);
      started := false;
      workers := map[];
    }
  }
}
