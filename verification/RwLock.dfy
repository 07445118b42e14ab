/** The writer-preferring lock of sync.py as a state machine driven by an arbitrary scheduler.

    The mutex of the condition variable is never held across a suspension, so every entry,
    re-check, release and cancellation runs as one atomic step. A cancellation takes two:
    `Cancel` marks the waiter (its future can no longer be notified), and only when the
    scheduler runs it again (`ResumeCancelled`) does it leave the queue. */
module RwLock {
  import opened Basics

  /** One id per call of `acquire_read` or `acquire_write`. */
  type Ticket = nat

  datatype Kind = Read | Write

  /** Where a waiter stands in the condition variable. */
  datatype Wait = Asleep | Notified | Doomed

  datatype Phase = Waiting(kind: Kind, wait: Wait) | Holding(kind: Kind)

  type Tickets = map<Ticket, Phase>

  function Queued(m: Tickets, k: Kind): set<Ticket> {
    set t | t in m && m[t].Waiting? && m[t].kind == k
  }

  function Holders(m: Tickets, k: Kind): set<Ticket> {
    set t | t in m && m[t] == Holding(k)
  }

  function NotifyAll(m: Tickets): Tickets {
    map t | t in m :: if m[t].Waiting? && m[t].wait == Asleep then Waiting(m[t].kind, Notified) else m[t]
  }

  function NotifyHeir(m: Tickets, heir: Option<Ticket>): Tickets {
    if heir.Some? && heir.value in m && m[heir.value].Waiting?
    then m[heir.value := Waiting(m[heir.value].kind, Notified)] else m
  }

  datatype State = State(readers: int, writer: bool, waitingWriters: int, tickets: Tickets) {
    predicate Held() { writer || readers != 0 }
    predicate ReadAllowed() { !writer && waitingWriters == 0 }
    predicate WriteAllowed() { !writer && readers == 0 }
    predicate Is(t: Ticket, p: Phase) { t in tickets && tickets[t] == p }
    function Put(t: Ticket, p: Phase): State { this.(tickets := tickets[t := p]) }
    function Drop(t: Ticket): State { this.(tickets := tickets - {t}) }
  }

  const FREE := State(0, false, 0, map[])

  datatype Step =
    | AcquireRead(t: Ticket)
    | AcquireWrite(t: Ticket)
    | Rerun(t: Ticket)
    | Cancel(t: Ticket)
    | ResumeCancelled(t: Ticket, heir: Option<Ticket>)
    | ReleaseRead(t: Ticket)
    | ReleaseWrite(t: Ticket)
  {
    predicate Arrival() { AcquireRead? || AcquireWrite? }
  }

  predicate IsQueued(m: Tickets, t: Ticket, k: Kind) { t in m && m[t].Waiting? && m[t].kind == k }
  predicate IsAsleep(m: Tickets, t: Ticket) { t in m && m[t].Waiting? && m[t].wait == Asleep }
  predicate IsDoomed(m: Tickets, t: Ticket) { t in m && m[t].Waiting? && m[t].wait == Doomed }

  /** `passOn` distinguishes two behaviours of the condition variable: whether a waiter that
      leaves with CancelledError notifies one other sleeper in its place. */
  ghost predicate HeirAllowed(m: Tickets, heir: Option<Ticket>, passOn: bool) {
    if passOn && exists t :: IsAsleep(m, t) then heir.Some? && IsAsleep(m, heir.value) else heir.None?
  }

  ghost predicate Enabled(s: State, step: Step, passOn: bool) {
    match step
    case AcquireRead(t) => t !in s.tickets
    case AcquireWrite(t) => t !in s.tickets
    case Rerun(t) => s.Is(t, Waiting(Read, Notified)) || s.Is(t, Waiting(Write, Notified))
    case Cancel(t) => t in s.tickets && s.tickets[t].Waiting? && s.tickets[t].wait != Doomed
    case ResumeCancelled(t, heir) => IsDoomed(s.tickets, t) && HeirAllowed(s.tickets, heir, passOn)
    case ReleaseRead(t) => s.Is(t, Holding(Read))
    case ReleaseWrite(t) => s.Is(t, Holding(Write))
  }

  function Next(s: State, step: Step): State {
    match step
    case AcquireRead(t) =>
      if s.ReadAllowed() then s.(readers := s.readers + 1).Put(t, Holding(Read))
      else s.Put(t, Waiting(Read, Asleep))
    case AcquireWrite(t) =>
      if s.WriteAllowed() then s.(writer := true).Put(t, Holding(Write))
      else s.(waitingWriters := s.waitingWriters + 1).Put(t, Waiting(Write, Asleep))
    case Rerun(t) =>
      if s.Is(t, Waiting(Read, Notified)) then
        if s.ReadAllowed() then s.(readers := s.readers + 1).Put(t, Holding(Read))
        else s.Put(t, Waiting(Read, Asleep))
      else
        if s.WriteAllowed()
        then s.(waitingWriters := s.waitingWriters - 1, writer := true).Put(t, Holding(Write))
        else s.Put(t, Waiting(Write, Asleep))
    case Cancel(t) =>
      s.Put(t, Waiting(if IsQueued(s.tickets, t, Write) then Write else Read, Doomed))
    case ResumeCancelled(t, heir) =>
      var left := if s.Is(t, Waiting(Write, Doomed)) then s.(waitingWriters := s.waitingWriters - 1) else s;
      left.(tickets := NotifyHeir(s.tickets - {t}, heir))
    case ReleaseRead(t) =>
      var left := s.(readers := s.readers - 1).Drop(t);
      if left.readers == 0 then left.(tickets := NotifyAll(left.tickets)) else left
    case ReleaseWrite(t) =>
      s.(writer := false, tickets := NotifyAll(s.tickets - {t}))
  }

  ghost predicate Runs(s: State, steps: seq<Step>, passOn: bool)
    decreases |steps|
  {
    steps == [] || (Enabled(s, steps[0], passOn) && Runs(Next(s, steps[0]), steps[1..], passOn))
  }

  function Exec(s: State, steps: seq<Step>): State
    decreases |steps|
  {
    if steps == [] then s else Exec(Next(s, steps[0]), steps[1..])
  }

  // ----- Exclusion and exact counters ------------------------------------------------

  /** The counters say exactly who holds and who queues, and a writer excludes everybody. */
  ghost predicate Inv(s: State) {
    && s.readers == |Holders(s.tickets, Read)|
    && s.waitingWriters == |Queued(s.tickets, Write)|
    && |Holders(s.tickets, Write)| == (if s.writer then 1 else 0)
    && (s.writer ==> s.readers == 0)
    && (forall t | t in s.tickets :: s.tickets[t] == Waiting(Write, Asleep) ==> s.Held())
  }

  lemma CountOne(before: set<Ticket>, after: set<Ticket>, t: Ticket)
    requires forall u | u != t :: u in before <==> u in after
    ensures |after| == |before| - Bit(t in before) + Bit(t in after)
  {
    assert before - {t} == after - {t};
    assert |before| == |before - {t}| + Bit(t in before);
    assert |after| == |after - {t}| + Bit(t in after);
  }

  lemma CountPut(m: Tickets, t: Ticket, p: Phase, k: Kind)
    ensures |Holders(m[t := p], k)| ==
            |Holders(m, k)| - Bit(t in m && m[t] == Holding(k)) + Bit(p == Holding(k))
    ensures |Queued(m[t := p], k)| ==
            |Queued(m, k)| - Bit(IsQueued(m, t, k)) + Bit(p.Waiting? && p.kind == k)
  {
    CountOne(Holders(m, k), Holders(m[t := p], k), t);
    CountOne(Queued(m, k), Queued(m[t := p], k), t);
  }

  lemma CountDrop(m: Tickets, t: Ticket, k: Kind)
    ensures |Holders(m - {t}, k)| == |Holders(m, k)| - Bit(t in m && m[t] == Holding(k))
    ensures |Queued(m - {t}, k)| == |Queued(m, k)| - Bit(IsQueued(m, t, k))
  {
    CountOne(Holders(m, k), Holders(m - {t}, k), t);
    CountOne(Queued(m, k), Queued(m - {t}, k), t);
  }

  lemma CountNotify(m: Tickets, heir: Option<Ticket>, k: Kind)
    ensures Holders(NotifyAll(m), k) == Holders(m, k) == Holders(NotifyHeir(m, heir), k)
    ensures Queued(NotifyAll(m), k) == Queued(m, k) == Queued(NotifyHeir(m, heir), k)
  {
  }

  lemma PutKeepsInv(s: State, step: Step, passOn: bool)
    requires Inv(s) && Enabled(s, step, passOn)
    requires step.Arrival() || step.Rerun? || step.Cancel?
    ensures Inv(Next(s, step))
  {
    var p := Next(s, step).tickets[step.t];
    CountPut(s.tickets, step.t, p, Read);
    CountPut(s.tickets, step.t, p, Write);
  }

  lemma DropKeepsInv(s: State, step: Step, passOn: bool)
    requires Inv(s) && Enabled(s, step, passOn)
    requires step.ResumeCancelled? || step.ReleaseRead? || step.ReleaseWrite?
    ensures Inv(Next(s, step))
  {
    CountDrop(s.tickets, step.t, Read);
    CountDrop(s.tickets, step.t, Write);
    var heir := if step.ResumeCancelled? then step.heir else None;
    CountNotify(s.tickets - {step.t}, heir, Read);
    CountNotify(s.tickets - {step.t}, heir, Write);
  }

  lemma StepKeepsInv(s: State, step: Step, passOn: bool)
    requires Inv(s) && Enabled(s, step, passOn)
    ensures Inv(Next(s, step))
  {
    if step.ResumeCancelled? || step.ReleaseRead? || step.ReleaseWrite? {
      DropKeepsInv(s, step, passOn);
    } else {
      PutKeepsInv(s, step, passOn);
    }
  }

  lemma {:induction false} RunKeepsInv(s: State, steps: seq<Step>, passOn: bool)
    requires Inv(s) && Runs(s, steps, passOn)
    ensures Inv(Exec(s, steps))
    decreases |steps|
  {
    if steps == [] {
    } else {
      StepKeepsInv(s, steps[0], passOn);
      RunKeepsInv(Next(s, steps[0]), steps[1..], passOn);
    }
  }

  /** Whatever was scheduled and cancelled: a writer is alone, and the counters are exact. */
  lemma Exclusion(steps: seq<Step>, passOn: bool, a: Ticket, b: Ticket)
    requires Runs(FREE, steps, passOn)
    ensures var s := Exec(FREE, steps);
            && (s.Is(a, Holding(Write)) && (s.Is(b, Holding(Write)) || s.Is(b, Holding(Read))) ==> a == b)
            && s.readers == |Holders(s.tickets, Read)|
            && s.waitingWriters == |Queued(s.tickets, Write)|
  {
    RunKeepsInv(FREE, steps, passOn);
    var s := Exec(FREE, steps);
    var w := Holders(s.tickets, Write);
    if s.Is(a, Holding(Write)) && a != b {
      assert a in w && |w - {a}| == 0;
      assert s.Is(b, Holding(Write)) ==> b in w - {a};
      assert s.Is(b, Holding(Read)) ==> b in Holders(s.tickets, Read);
    }
  }

  // ----- Who is admitted -----------------------------------------------------------------

  predicate NobodyWrites(m: Tickets) { Holders(m, Write) == {} && Queued(m, Write) == {} }

  predicate NobodyHolds(m: Tickets) { Holders(m, Write) == {} && Holders(m, Read) == {} }

  /** The lock comes free with this step: the writer leaves, or the last reader does. */
  predicate Frees(m: Tickets, step: Step) {
    step.ReleaseWrite? || (step.ReleaseRead? && Holders(m, Read) == {step.t})
  }

  lemma FieldsFromTickets(s: State)
    requires Inv(s)
    ensures s.ReadAllowed() <==> NobodyWrites(s.tickets)
    ensures s.WriteAllowed() <==> NobodyHolds(s.tickets)
  {
  }

  /** Admission, told from who holds and who queues: a reader is let in exactly when nobody writes or
      queues to write, a writer exactly when nobody holds the lock; everybody else goes to sleep. */
  lemma AdmittedExactly(s: State, step: Step, passOn: bool)
    requires Inv(s) && Enabled(s, step, passOn) && (step.Arrival() || step.Rerun?)
    ensures var kind := if step.AcquireRead? || IsQueued(s.tickets, step.t, Read) then Read else Write;
            var free := if kind == Read then NobodyWrites(s.tickets) else NobodyHolds(s.tickets);
            Next(s, step).Is(step.t, if free then Holding(kind) else Waiting(kind, Asleep))
  {
    FieldsFromTickets(s);
  }

  /** A cancellation reaches a waiter that keeps its place until it runs again; a release, and a
      cancelled waiter that runs, give up their place. */
  lemma LeavesExactly(s: State, step: Step, passOn: bool)
    requires Enabled(s, step, passOn) && !step.Arrival() && !step.Rerun?
    ensures step.Cancel? ==>
              s.tickets[step.t].Waiting? && Next(s, step).Is(step.t, Waiting(s.tickets[step.t].kind, Doomed))
    ensures !step.Cancel? ==> step.t !in Next(s, step).tickets
  {
    assert step.Cancel? ==> s.tickets[step.t].kind == Read || s.tickets[step.t].kind == Write;
  }

  /** Nobody else moves, except that the sleepers are notified when the lock comes free, and the
      heir of a cancelled waiter is. */
  lemma OthersMoveExactly(s: State, step: Step, passOn: bool, u: Ticket)
    requires Inv(s) && Enabled(s, step, passOn) && u != step.t
    ensures u in Next(s, step).tickets <==> u in s.tickets
    ensures u in s.tickets ==>
              var woken := IsAsleep(s.tickets, u)
                           && (Frees(s.tickets, step) || (step.ResumeCancelled? && step.heir == Some(u)));
              Next(s, step).tickets[u] == if woken then Waiting(s.tickets[u].kind, Notified) else s.tickets[u]
  {
    if step.ReleaseRead? {
      var h := Holders(s.tickets, Read);
      assert step.t in h && |h - {step.t}| == s.readers - 1;
      assert s.readers == 1 <==> h - {step.t} == {};
    }
  }

  predicate Departs(step: Step, t: Ticket) {
    (step.ReleaseRead? || step.ReleaseWrite? || step.ResumeCancelled?) && step.t == t
  }

  /** A call that has arrived stays, inside or queued, until it leaves by itself. */
  lemma {:induction false} StaysUntilItLeaves(s: State, steps: seq<Step>, passOn: bool, t: Ticket)
    requires Inv(s) && Runs(s, steps, passOn)
    requires t in s.tickets || (steps != [] && steps[0].Arrival() && steps[0].t == t)
    requires forall i | 0 <= i < |steps| :: !Departs(steps[i], t)
    ensures t in Exec(s, steps).tickets
    decreases |steps|
  {
    if steps == [] {
    } else {
      var step := steps[0];
      StepKeepsInv(s, step, passOn);
      if step.t != t {
        OthersMoveExactly(s, step, passOn, t);
      } else if step.Arrival() || step.Rerun? {
        AdmittedExactly(s, step, passOn);
      } else {
        LeavesExactly(s, step, passOn);
      }
      StaysUntilItLeaves(Next(s, step), steps[1..], passOn, t);
    }
  }

  // ----- No lost wakeup ------------------------------------------------------------------

  /** A queued task that the event loop will run by itself, and whose turn helps a sleeper:
      any such task when leavers pass notifications on, otherwise only a writer. */
  predicate Relieves(p: Phase, passOn: bool) {
    p.Waiting? && p.wait != Asleep && (passOn || p.kind == Write)
  }

  ghost predicate ReliefDue(m: Tickets, passOn: bool) {
    exists t :: t in m && Relieves(m[t], passOn)
  }

  ghost predicate NoLostWakeup(s: State, passOn: bool) {
    (exists t :: IsAsleep(s.tickets, t)) ==> s.Held() || ReliefDue(s.tickets, passOn)
  }

  /** The one step that loses a wakeup, told by the three fields before it: with the lock free, the
      only writer still counted leaves with CancelledError, and a reader sleeps behind it. */
  ghost predicate Strands(s: State, step: Step) {
    && step.ResumeCancelled?
    && s.Is(step.t, Waiting(Write, Doomed))
    && !s.writer && s.readers == 0 && s.waitingWriters == 1
    && exists t :: s.Is(t, Waiting(Read, Asleep))
  }

  lemma FreeHasWriterDue(s: State)
    requires Inv(s) && !s.Held() && s.waitingWriters > 0
    ensures ReliefDue(s.tickets, false) && ReliefDue(s.tickets, true)
  {
    assert Queued(s.tickets, Write) != {};
    var w :| w in Queued(s.tickets, Write);
    assert Relieves(s.tickets[w], false) && Relieves(s.tickets[w], true);
  }

  lemma OnlyLeavingStrands(s: State, step: Step, passOn: bool)
    requires Inv(s) && NoLostWakeup(s, passOn) && Enabled(s, step, passOn) && !step.ResumeCancelled?
    ensures NoLostWakeup(Next(s, step), passOn)
  {
    var n := Next(s, step);
    StepKeepsInv(s, step, passOn);
    if !n.Held() && exists t :: IsAsleep(n.tickets, t) {
      if step.Cancel? {
        var sleeper :| IsAsleep(n.tickets, sleeper);
        assert IsAsleep(s.tickets, sleeper);
        var r :| r in s.tickets && Relieves(s.tickets[r], passOn);
        assert Relieves(n.tickets[r], passOn);
      } else {
        assert n.waitingWriters > 0;
        FreeHasWriterDue(n);
      }
    }
  }

  lemma LoneWriter(s: State, w: Ticket)
    requires Inv(s) && IsQueued(s.tickets, w, Write)
    ensures s.waitingWriters == 1 <==> forall u :: IsQueued(s.tickets, u, Write) ==> u == w
  {
    var q := Queued(s.tickets, Write);
    assert w in q && |q - {w}| == s.waitingWriters - 1;
    if s.waitingWriters == 1 {
      assert q - {w} == {};
      assert forall u :: IsQueued(s.tickets, u, Write) ==> u in q;
    } else {
      var u :| u in q - {w};
      assert IsQueued(s.tickets, u, Write);
    }
  }

  /** The last writer to leave a free lock relieves nobody, and leaves nobody to relieve. */
  lemma LastWriterStrands(s: State, step: Step)
    requires Inv(s) && Enabled(s, step, false) && Strands(s, step)
    ensures !NoLostWakeup(Next(s, step), false)
  {
    var n := Next(s, step);
    LoneWriter(s, step.t);
    var r :| s.Is(r, Waiting(Read, Asleep));
    assert IsAsleep(n.tickets, r);
    assert forall t :: t in n.tickets && Relieves(n.tickets[t], false) ==> IsQueued(s.tickets, t, Write);
  }

  lemma OtherLeaversDoNot(s: State, step: Step)
    requires Inv(s) && NoLostWakeup(s, false) && Enabled(s, step, false) && step.ResumeCancelled?
    requires !Strands(s, step)
    ensures NoLostWakeup(Next(s, step), false)
  {
    var n := Next(s, step);
    assert n.tickets == s.tickets - {step.t} && n.Held() == s.Held();
    if t :| IsAsleep(n.tickets, t) && !s.Held() {
      assert IsAsleep(s.tickets, t);
      assert s.Is(t, Waiting(Read, Asleep)) || s.Is(t, Waiting(Write, Asleep));
      StepKeepsInv(s, step, false);
      if s.Is(step.t, Waiting(Write, Doomed)) {
        assert |Queued(s.tickets, Write) - {step.t}| == s.waitingWriters - 1;
        FreeHasWriterDue(n);
      } else {
        var r :| r in s.tickets && Relieves(s.tickets[r], false);
        assert r in n.tickets && Relieves(n.tickets[r], false);
      }
    }
  }

  lemma LeavingPassesOn(s: State, step: Step)
    requires Enabled(s, step, true) && step.ResumeCancelled?
    ensures NoLostWakeup(Next(s, step), true)
  {
    var n := Next(s, step);
    if step.heir.Some? {
      assert Relieves(n.tickets[step.heir.value], true);
    } else {
      assert forall t :: IsAsleep(n.tickets, t) ==> IsAsleep(s.tickets, t);
    }
  }

  /** Exactly which steps lose a wakeup: with notifications passed on none does, otherwise
      `Strands` tells it from the state before the step. */
  lemma StrandingIsExact(s: State, step: Step, passOn: bool)
    requires Inv(s) && NoLostWakeup(s, passOn) && Enabled(s, step, passOn)
    ensures NoLostWakeup(Next(s, step), passOn) <==> passOn || !Strands(s, step)
  {
    if !step.ResumeCancelled? {
      OnlyLeavingStrands(s, step, passOn);
    } else if passOn {
      LeavingPassesOn(s, step);
    } else {
      if Strands(s, step) {
        LastWriterStrands(s, step);
      } else {
        OtherLeaversDoNot(s, step);
      }
    }
  }

  ghost predicate NeverStrands(s: State, steps: seq<Step>)
    decreases |steps|
  {
    steps != [] ==> !Strands(s, steps[0]) && NeverStrands(Next(s, steps[0]), steps[1..])
  }

  lemma {:induction false} RunLosesNoWakeup(s: State, steps: seq<Step>, passOn: bool)
    requires Inv(s) && NoLostWakeup(s, passOn) && Runs(s, steps, passOn)
    requires passOn || NeverStrands(s, steps)
    ensures NoLostWakeup(Exec(s, steps), passOn)
    decreases |steps|
  {
    if steps == [] {
    } else {
      StepKeepsInv(s, steps[0], passOn);
      StrandingIsExact(s, steps[0], passOn);
      RunLosesNoWakeup(Next(s, steps[0]), steps[1..], passOn);
    }
  }

  predicate CancelsWriter(s: State, step: Step) {
    step.Cancel? && IsQueued(s.tickets, step.t, Write)
  }

  ghost predicate NoWriterCancelled(s: State, steps: seq<Step>)
    decreases |steps|
  {
    steps != [] ==> !CancelsWriter(s, steps[0]) && NoWriterCancelled(Next(s, steps[0]), steps[1..])
  }

  /** Readers may be cancelled at will: only the cancellation of a queued writer can lose a wakeup. */
  lemma {:induction false} NoWriterCancelledNoStrand(s: State, steps: seq<Step>, passOn: bool)
    requires Runs(s, steps, passOn) && NoWriterCancelled(s, steps)
    requires forall t :: !s.Is(t, Waiting(Write, Doomed))
    ensures NeverStrands(s, steps)
    decreases |steps|
  {
    if steps == [] {
    } else {
      var n := Next(s, steps[0]);
      forall t ensures !n.Is(t, Waiting(Write, Doomed)) {
        assert !s.Is(t, Waiting(Write, Doomed));
      }
      NoWriterCancelledNoStrand(n, steps[1..], passOn);
    }
  }

  /** In every reachable state a sleeping writer means the lock is held, and any sleeper
      means the lock is held or somebody is about to run: a quiet free lock has no sleepers. */
  lemma NoSleeperOnQuietFreeLock(steps: seq<Step>, passOn: bool, t: Ticket)
    requires Runs(FREE, steps, passOn)
    requires passOn || NeverStrands(FREE, steps)
    ensures var s := Exec(FREE, steps);
            && (s.Is(t, Waiting(Write, Asleep)) ==> s.Held())
            && (IsAsleep(s.tickets, t) ==> s.Held() || ReliefDue(s.tickets, passOn))
  {
    RunKeepsInv(FREE, steps, passOn);
    RunLosesNoWakeup(FREE, steps, passOn);
  }

  /** Reader 1 queues before writer 2, both are notified, the reader goes back to sleep behind
      the writer, and the writer is cancelled before it runs. */
  const CANCELLED_WHEN_NOTIFIED := [
    AcquireWrite(0), AcquireRead(1), AcquireWrite(2), ReleaseWrite(0), Rerun(1), Cancel(2), ResumeCancelled(2, None)]

  /** Writer 2 is cancelled while asleep; before it runs again the lock comes free, and reader
      1 arrives and sleeps behind a count that is about to be taken back. */
  const CANCELLED_WHEN_ASLEEP := [
    AcquireWrite(0), AcquireWrite(2), Cancel(2), ReleaseWrite(0), AcquireRead(1), ResumeCancelled(2, None)]

  const STUCK := State(0, false, 0, map[1 := Waiting(Read, Asleep)])

  lemma Unfold(s: State, step: Step, rest: seq<Step>, n: State)
    requires Enabled(s, step, false) && Next(s, step) == n
    ensures Runs(s, [step] + rest, false) == Runs(n, rest, false)
    ensures Exec(s, [step] + rest) == Exec(n, rest)
  {
    assert ([step] + rest)[1..] == rest;
  }

  lemma LostOnLeaving(s: State)
    requires s == State(0, false, 1, map[1 := Waiting(Read, Asleep), 2 := Waiting(Write, Doomed)])
    ensures Runs(s, [ResumeCancelled(2, None)], false) && Exec(s, [ResumeCancelled(2, None)]) == STUCK
  {
    Unfold(s, ResumeCancelled(2, None), [], STUCK);
    assert [ResumeCancelled(2, None)] + [] == [ResumeCancelled(2, None)];
  }

  lemma LostOnCancel(s: State, steps: seq<Step>)
    requires s == State(0, false, 1, map[1 := Waiting(Read, Asleep), 2 := Waiting(Write, Notified)])
    requires steps == [Cancel(2), ResumeCancelled(2, None)]
    ensures Runs(s, steps, false) && Exec(s, steps) == STUCK
  {
    var s6 := State(0, false, 1, map[1 := Waiting(Read, Asleep), 2 := Waiting(Write, Doomed)]);
    Unfold(s, Cancel(2), steps[1..], s6);
    LostOnLeaving(s6);
  }

  lemma LostAfterRerun(s: State, steps: seq<Step>)
    requires s == State(0, false, 1, map[1 := Waiting(Read, Notified), 2 := Waiting(Write, Notified)])
    requires steps == [Rerun(1), Cancel(2), ResumeCancelled(2, None)]
    ensures Runs(s, steps, false) && Exec(s, steps) == STUCK
  {
    var s5 := State(0, false, 1, map[1 := Waiting(Read, Asleep), 2 := Waiting(Write, Notified)]);
    Unfold(s, Rerun(1), steps[1..], s5);
    LostOnCancel(s5, steps[1..]);
  }

  lemma LostAfterRelease(s: State, steps: seq<Step>)
    requires s == State(0, true, 1,
                        map[0 := Holding(Write), 1 := Waiting(Read, Asleep), 2 := Waiting(Write, Asleep)])
    requires steps == [ReleaseWrite(0), Rerun(1), Cancel(2), ResumeCancelled(2, None)]
    ensures Runs(s, steps, false) && Exec(s, steps) == STUCK
  {
    var s4 := State(0, false, 1, map[1 := Waiting(Read, Notified), 2 := Waiting(Write, Notified)]);
    Unfold(s, ReleaseWrite(0), steps[1..], s4);
    LostAfterRerun(s4, steps[1..]);
  }

  lemma LostWhenNotified()
    ensures Runs(FREE, CANCELLED_WHEN_NOTIFIED, false) && Exec(FREE, CANCELLED_WHEN_NOTIFIED) == STUCK
  {
    var s1 := State(0, true, 0, map[0 := Holding(Write)]);
    var s2 := State(0, true, 0, map[0 := Holding(Write), 1 := Waiting(Read, Asleep)]);
    var s3 := State(0, true, 1, map[0 := Holding(Write), 1 := Waiting(Read, Asleep), 2 := Waiting(Write, Asleep)]);
    Unfold(FREE, AcquireWrite(0), CANCELLED_WHEN_NOTIFIED[1..], s1);
    Unfold(s1, AcquireRead(1), CANCELLED_WHEN_NOTIFIED[2..], s2);
    Unfold(s2, AcquireWrite(2), CANCELLED_WHEN_NOTIFIED[3..], s3);
    LostAfterRelease(s3, CANCELLED_WHEN_NOTIFIED[3..]);
  }

  lemma LostToArrival(s: State, steps: seq<Step>)
    requires s == State(0, true, 1, map[0 := Holding(Write), 2 := Waiting(Write, Doomed)])
    requires steps == [ReleaseWrite(0), AcquireRead(1), ResumeCancelled(2, None)]
    ensures Runs(s, steps, false) && Exec(s, steps) == STUCK
  {
    var s4 := State(0, false, 1, map[2 := Waiting(Write, Doomed)]);
    var s5 := State(0, false, 1, map[1 := Waiting(Read, Asleep), 2 := Waiting(Write, Doomed)]);
    Unfold(s, ReleaseWrite(0), steps[1..], s4);
    Unfold(s4, AcquireRead(1), steps[2..], s5);
    LostOnLeaving(s5);
  }

  lemma LostWhenAsleep()
    ensures Runs(FREE, CANCELLED_WHEN_ASLEEP, false) && Exec(FREE, CANCELLED_WHEN_ASLEEP) == STUCK
  {
    var s1 := State(0, true, 0, map[0 := Holding(Write)]);
    var s2 := State(0, true, 1, map[0 := Holding(Write), 2 := Waiting(Write, Asleep)]);
    var s3 := State(0, true, 1, map[0 := Holding(Write), 2 := Waiting(Write, Doomed)]);
    Unfold(FREE, AcquireWrite(0), CANCELLED_WHEN_ASLEEP[1..], s1);
    Unfold(s1, AcquireWrite(2), CANCELLED_WHEN_ASLEEP[2..], s2);
    Unfold(s2, Cancel(2), CANCELLED_WHEN_ASLEEP[3..], s3);
    LostToArrival(s3, CANCELLED_WHEN_ASLEEP[3..]);
  }

  /** Without notifications passed on both traces end with reader 1 asleep in front of a free
      lock, where only a new arrival, or the reader's own cancellation, can happen. */
  lemma WakeupCanBeLost()
    ensures Runs(FREE, CANCELLED_WHEN_NOTIFIED, false) && Exec(FREE, CANCELLED_WHEN_NOTIFIED) == STUCK
    ensures Runs(FREE, CANCELLED_WHEN_ASLEEP, false) && Exec(FREE, CANCELLED_WHEN_ASLEEP) == STUCK
    ensures !STUCK.Held() && !NoLostWakeup(STUCK, false)
    ensures forall step | Enabled(STUCK, step, false) :: step.Arrival() || step.Cancel?
  {
    LostWhenNotified();
    LostWhenAsleep();
    assert IsAsleep(STUCK.tickets, 1);
  }

  // ----- Writer preference ---------------------------------------------------------------

  ghost predicate QueuedThroughout(s: State, steps: seq<Step>, w: Ticket)
    decreases |steps|
  {
    IsQueued(s.tickets, w, Write) && (steps != [] ==> QueuedThroughout(Next(s, steps[0]), steps[1..], w))
  }

  function ReadReleases(steps: seq<Step>): nat {
    if steps == [] then 0 else (if steps[0].ReleaseRead? then 1 else 0) + ReadReleases(steps[1..])
  }

  lemma NoReaderPassesWriter(s: State, step: Step, passOn: bool, w: Ticket)
    requires Inv(s) && Enabled(s, step, passOn) && IsQueued(s.tickets, w, Write)
    ensures Holders(Next(s, step).tickets, Read) ==
            if step.ReleaseRead? then Holders(s.tickets, Read) - {step.t} else Holders(s.tickets, Read)
  {
    assert w in Queued(s.tickets, Write);
    assert !s.ReadAllowed();
  }

  /** While a writer is queued no reader is admitted, so the readers inside only ever leave:
      at most as many releases can happen as there were readers when it queued. */
  lemma {:induction false} WriterPreference(s: State, steps: seq<Step>, passOn: bool, w: Ticket)
    requires Inv(s) && Runs(s, steps, passOn) && QueuedThroughout(s, steps, w)
    ensures var n := Exec(s, steps);
            && Holders(n.tickets, Read) <= Holders(s.tickets, Read)
            && s.readers == n.readers + ReadReleases(steps)
            && n.readers >= 0
    decreases |steps|
  {
    if steps == [] {
    } else {
      NoReaderPassesWriter(s, steps[0], passOn, w);
      StepKeepsInv(s, steps[0], passOn);
      WriterPreference(Next(s, steps[0]), steps[1..], passOn, w);
    }
  }

  // ----- Everybody gets served -----------------------------------------------------------

  function Live(m: Tickets): set<Ticket> { set t | t in m && m[t].Waiting? && m[t].wait != Doomed }
  function NotifiedOf(m: Tickets): set<Ticket> { set t | t in m && m[t].Waiting? && m[t].wait == Notified }
  function DoomedOf(m: Tickets): set<Ticket> { set t | t in m && IsDoomed(m, t) }
  function Inside(m: Tickets): set<Ticket> { set t | t in m && m[t].Holding? }

  function Weight(m: Tickets): nat { 3 * |Live(m)| + 2 * |DoomedOf(m)| + |Inside(m)| }

  function Potential(m: Tickets, bound: nat): nat { Weight(m) * (bound + 1) + |NotifiedOf(m)| }

  function PhaseWeight(p: Phase): nat {
    match p
    case Holding(_) => 1
    case Waiting(_, wait) => if wait == Doomed then 2 else 3
  }

  lemma WeightPut(m: Tickets, t: Ticket, p: Phase)
    requires t in m
    ensures Weight(m[t := p]) == Weight(m) - PhaseWeight(m[t]) + PhaseWeight(p)
    ensures |Live(m[t := p])| == |Live(m)| - Bit(m[t].Waiting? && m[t].wait != Doomed)
                                 + Bit(p.Waiting? && p.wait != Doomed)
  {
    CountOne(Live(m), Live(m[t := p]), t);
    CountOne(DoomedOf(m), DoomedOf(m[t := p]), t);
    CountOne(Inside(m), Inside(m[t := p]), t);
  }

  lemma WeightDrop(m: Tickets, t: Ticket)
    requires t in m
    ensures Weight(m - {t}) == Weight(m) - PhaseWeight(m[t])
    ensures |Live(m - {t})| == |Live(m)| - Bit(m[t].Waiting? && m[t].wait != Doomed)
  {
    CountOne(Live(m), Live(m - {t}), t);
    CountOne(DoomedOf(m), DoomedOf(m - {t}), t);
    CountOne(Inside(m), Inside(m - {t}), t);
  }

  lemma WeightNotify(m: Tickets, heir: Option<Ticket>)
    requires heir.Some? ==> IsAsleep(m, heir.value)
    ensures Weight(NotifyAll(m)) == Weight(m) == Weight(NotifyHeir(m, heir))
    ensures |Live(NotifyAll(m))| == |Live(m)| == |Live(NotifyHeir(m, heir))|
  {
    var all, one := NotifyAll(m), NotifyHeir(m, heir);
    assert Live(all) == Live(m) == Live(one);
    assert DoomedOf(all) == DoomedOf(m) == DoomedOf(one);
    assert Inside(all) == Inside(m) == Inside(one);
  }

  lemma NotifiedAreLive(m: Tickets)
    ensures |NotifiedOf(m)| <= |Live(m)|
  {
    SubsetSize(NotifiedOf(m), Live(m));
  }

  /** Every step but an arrival moves some ticket towards the exit, or sends a notified one
      back to sleep without changing anything else. */
  lemma StepWeighs(s: State, step: Step, passOn: bool)
    requires Enabled(s, step, passOn) && !step.Arrival()
    ensures var n := Next(s, step);
            && |Live(n.tickets)| <= |Live(s.tickets)|
            && (Weight(n.tickets) < Weight(s.tickets)
                || (Weight(n.tickets) == Weight(s.tickets) && |NotifiedOf(n.tickets)| < |NotifiedOf(s.tickets)|))
  {
    var n := Next(s, step);
    if step.Rerun? || step.Cancel? {
      WeightPut(s.tickets, step.t, n.tickets[step.t]);
      CountOne(NotifiedOf(s.tickets), NotifiedOf(n.tickets), step.t);
    } else {
      WeightDrop(s.tickets, step.t);
      WeightNotify(s.tickets - {step.t}, if step.ResumeCancelled? then step.heir else None);
    }
  }

  lemma Spend(w: nat, w': nat, k: nat, k': nat, bound: nat)
    requires k' <= bound
    requires w' < w || (w' == w && k' < k)
    ensures w' * (bound + 1) + k' < w * (bound + 1) + k
  {
    if w' < w {
      assert w' * (bound + 1) <= (w - 1) * (bound + 1);
    }
  }

  lemma {:induction false} RunsAreShort(s: State, steps: seq<Step>, passOn: bool, bound: nat)
    requires Runs(s, steps, passOn) && |Live(s.tickets)| <= bound
    requires forall i | 0 <= i < |steps| :: !steps[i].Arrival()
    ensures |steps| <= Potential(s.tickets, bound)
    decreases |steps|
  {
    if steps == [] {
    } else {
      var n := Next(s, steps[0]);
      StepWeighs(s, steps[0], passOn);
      NotifiedAreLive(n.tickets);
      Spend(Weight(s.tickets), Weight(n.tickets), |NotifiedOf(s.tickets)|, |NotifiedOf(n.tickets)|, bound);
      RunsAreShort(n, steps[1..], passOn, bound);
    }
  }

  /** Nothing is left to do: nobody inside, nobody notified, nobody leaving. */
  ghost predicate Settled(s: State, passOn: bool) {
    forall step :: Enabled(s, step, passOn) ==> step.Arrival() || step.Cancel?
  }

  lemma SomebodyMoves(s: State, t: Ticket, passOn: bool)
    requires t in s.tickets && !IsAsleep(s.tickets, t)
    ensures !Settled(s, passOn)
  {
    var heir: Option<Ticket> := if u :| passOn && IsAsleep(s.tickets, u) then Option.Some(u) else None;
    var step := match s.tickets[t]
                case Holding(Read) => Step.ReleaseRead(t)
                case Holding(Write) => Step.ReleaseWrite(t)
                case Waiting(_, wait) => if wait == Doomed then ResumeCancelled(t, heir) else Rerun(t);
    assert s.tickets[t].Waiting? ==> s.tickets[t].kind == Read || s.tickets[t].kind == Write;
    assert Enabled(s, step, passOn);
  }

  lemma SettledIsFree(s: State, passOn: bool)
    requires Inv(s) && NoLostWakeup(s, passOn) && Settled(s, passOn)
    ensures s == FREE
  {
    forall t | t in s.tickets ensures IsAsleep(s.tickets, t) {
      if !IsAsleep(s.tickets, t) {
        SomebodyMoves(s, t, passOn);
      }
    }
    assert Holders(s.tickets, Read) == {} == Holders(s.tickets, Write);
    assert !s.Held() && !ReliefDue(s.tickets, passOn);
    assert forall t :: !IsAsleep(s.tickets, t);
    assert s.tickets == map[];
    assert Queued(s.tickets, Write) == {};
  }

  /** Once arrivals stop, every run is bounded by `Potential`, and when nothing is left to do
      no task is still queued: everyone was admitted and left, or was cancelled. */
  lemma EveryoneIsServed(s: State, steps: seq<Step>, passOn: bool)
    requires Inv(s) && NoLostWakeup(s, passOn) && Runs(s, steps, passOn)
    requires passOn || NeverStrands(s, steps)
    requires forall i | 0 <= i < |steps| :: !steps[i].Arrival()
    ensures |steps| <= Potential(s.tickets, |Live(s.tickets)|)
    ensures Settled(Exec(s, steps), passOn) ==> Exec(s, steps) == FREE
  {
    RunsAreShort(s, steps, passOn, |Live(s.tickets)|);
    RunKeepsInv(s, steps, passOn);
    RunLosesNoWakeup(s, steps, passOn);
    var n := Exec(s, steps);
    if Settled(n, passOn) {
      SettledIsFree(n, passOn);
    }
  }

  // ----- The lock object -----------------------------------------------------------------

  /** The lock as the source writes it: three fields updated in place. `tickets` is the ghost
      record of who waits and who holds; the methods decide from the three fields alone. */
  class ReadWriteLock {
    var readers: int
    var writer: bool
    var waitingWriters: int
    ghost var tickets: Tickets

    ghost function Abs(): State
      reads this
    {
      State(readers, writer, waitingWriters, tickets)
    }

    ghost predicate Valid()
      reads this
    {
      Inv(Abs())
    }

    constructor ()
      ensures Valid() && Abs() == FREE
    {
      readers, writer, waitingWriters, tickets := 0, false, 0, map[];
    }

    /** `acquire_read` up to its return or its first suspension. */
    method AcquireRead(ghost t: Ticket) returns (admitted: bool)
      requires Valid() && t !in tickets
      modifies this
      ensures Valid() && Abs() == Next(old(Abs()), Step.AcquireRead(t))
      ensures admitted == NobodyWrites(old(tickets)) == Abs().Is(t, Holding(Read))
    {
      ghost var before := Abs();
      FieldsFromTickets(before);
      admitted := !writer && waitingWriters == 0;
      if admitted {
        readers := readers + 1;
        tickets := tickets[t := Holding(Read)];
      } else {
        tickets := tickets[t := Waiting(Read, Asleep)];
      }
      StepKeepsInv(before, Step.AcquireRead(t), false);
    }

    /** A notified reader runs again and re-checks its predicate. */
    method RerunRead(ghost t: Ticket) returns (admitted: bool)
      requires Valid() && Abs().Is(t, Waiting(Read, Notified))
      modifies this
      ensures Valid() && Abs() == Next(old(Abs()), Rerun(t))
      ensures admitted == NobodyWrites(old(tickets)) == Abs().Is(t, Holding(Read))
    {
      ghost var before := Abs();
      FieldsFromTickets(before);
      admitted := !writer && waitingWriters == 0;
      if admitted {
        readers := readers + 1;
        tickets := tickets[t := Holding(Read)];
      } else {
        tickets := tickets[t := Waiting(Read, Asleep)];
      }
      StepKeepsInv(before, Rerun(t), false);
    }

    method ReleaseRead(ghost t: Ticket)
      requires Valid() && Abs().Is(t, Holding(Read))
      modifies this
      ensures Valid() && Abs() == Next(old(Abs()), Step.ReleaseRead(t))
    {
      ghost var before := Abs();
      readers := readers - 1;
      tickets := tickets - {t};
      if readers == 0 {
        tickets := NotifyAll(tickets);
      }
      StepKeepsInv(before, Step.ReleaseRead(t), false);
    }

    /** `acquire_write` up to its return or its first suspension: the count goes up before the
        predicate is tested and comes down in `finally` when the wait is over at once. */
    method AcquireWrite(ghost t: Ticket) returns (admitted: bool)
      requires Valid() && t !in tickets
      modifies this
      ensures Valid() && Abs() == Next(old(Abs()), Step.AcquireWrite(t))
      ensures admitted == NobodyHolds(old(tickets)) == Abs().Is(t, Holding(Write))
    {
      ghost var before := Abs();
      FieldsFromTickets(before);
      waitingWriters := waitingWriters + 1;
      admitted := !writer && readers == 0;
      if admitted {
        waitingWriters := waitingWriters - 1;
        writer := true;
        tickets := tickets[t := Holding(Write)];
      } else {
        tickets := tickets[t := Waiting(Write, Asleep)];
      }
      StepKeepsInv(before, Step.AcquireWrite(t), false);
    }

    method RerunWrite(ghost t: Ticket) returns (admitted: bool)
      requires Valid() && Abs().Is(t, Waiting(Write, Notified))
      modifies this
      ensures Valid() && Abs() == Next(old(Abs()), Rerun(t))
      ensures admitted == NobodyHolds(old(tickets)) == Abs().Is(t, Holding(Write))
    {
      ghost var before := Abs();
      FieldsFromTickets(before);
      admitted := !writer && readers == 0;
      if admitted {
        waitingWriters := waitingWriters - 1;
        writer := true;
        tickets := tickets[t := Holding(Write)];
      } else {
        tickets := tickets[t := Waiting(Write, Asleep)];
      }
      StepKeepsInv(before, Rerun(t), false);
    }

    /** A cancelled waiter leaves with CancelledError; a writer's `finally` takes its count back. */
    method LeaveCancelled(ghost t: Ticket, write: bool, ghost heir: Option<Ticket>, ghost passOn: bool)
      requires Valid() && Abs().Is(t, Waiting(if write then Write else Read, Doomed))
      requires HeirAllowed(tickets, heir, passOn)
      modifies this
      ensures Valid() && Abs() == Next(old(Abs()), ResumeCancelled(t, heir))
    {
      ghost var before := Abs();
      if write {
        waitingWriters := waitingWriters - 1;
      }
      tickets := NotifyHeir(tickets - {t}, heir);
      StepKeepsInv(before, ResumeCancelled(t, heir), passOn);
    }

    method ReleaseWrite(ghost t: Ticket)
      requires Valid() && Abs().Is(t, Holding(Write))
      modifies this
      ensures Valid() && Abs() == Next(old(Abs()), Step.ReleaseWrite(t))
    {
      ghost var before := Abs();
      writer := false;
      tickets := NotifyAll(tickets - {t});
      StepKeepsInv(before, Step.ReleaseWrite(t), false);
    }
  }
}
