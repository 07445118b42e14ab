/** The composition of examples/pipeline_demo.py: `batched(take_until(amap(source, fn), stop))`
    with the ordered map, as one machine. Each stage only moves while the next one asks. */
module Pipeline {
  import opened Basics
  import Amap = ConcurrentMap
  import Take = Stopping
  import Batch = Batching

  type Value(!new)

  /** `handed` results went from the map to `take_until`, `taken` items on to `batched`. */
  datatype State = State(
    mapper: Amap.State, take: Take.State<Value>, batch: Batch.State<Value>, handed: nat, taken: nat)

  datatype Setup = Setup(concurrency: nat, size: nat, fn: Amap.Item -> Value)

  function Cfg(c: Setup): Amap.Config { Amap.Config(c.concurrency, true) }

  datatype Step =
    | Work(m: Amap.Step)
    | HandOver
    | MapEnds
    | StopMap
    | SetEvent
    | TakeRuns(t: Take.Step<Value>)
    | TakeYields
    | TakeEnds
    | Timeout

  function Start(isSet: bool): State {
    State(Amap.Start(), Take.Start(isSet), Batch.Start(), 0, 0)
  }

  /** Neither `fn` nor the source fails, and the map is only abandoned by `take_until`. */
  predicate Ordinary(step: Amap.Step) {
    !step.Abort? && (step.TaskDone? ==> step.ok)
  }

  ghost predicate Enabled(s: State, step: Step, c: Setup) {
    match step
    case Work(m) =>
      && Ordinary(m) && Amap.Enabled(s.mapper, m, Cfg(c))
      && (m.TaskDone? || m.Finish? || Take.Asking(s.take))
      && (m.Resume? ==> s.handed == |s.mapper.out|)
    case HandOver =>
      && s.mapper.at.AtYield? && Take.Asking(s.take) && s.handed < |s.mapper.out|
      && s.mapper.out[s.handed] < |s.mapper.read|
    case MapEnds => s.mapper.at == Amap.Over(true) && Take.Asking(s.take)
    // `take_until` cancels the `__anext__` it has outstanding. That reaches the map only while the map
    // runs: suspended at its yield, it is not resumed to learn of it.
    case StopMap =>
      && s.take.at == Take.Over(Take.Stopped(true)) && !s.mapper.at.AtYield?
      && Amap.Enabled(s.mapper, Amap.Abort, Cfg(c))
    case SetEvent => true
    case TakeRuns(t) =>
      && s.batch.exit == Batch.Running && Take.Enabled(s.take, t) && (t.TopOfLoop? || t.Wake? || t.Resume?)
      && (t.Resume? ==> s.taken == |s.take.out|)
    case TakeYields => s.batch.exit == Batch.Running && s.take.at == Take.AtYield && s.taken < |s.take.out|
    case TakeEnds => s.batch.exit == Batch.Running && s.take.at.Over?
    case Timeout => s.batch.exit == Batch.Running
  }

  ghost function Next(s: State, step: Step, c: Setup): State
    requires Enabled(s, step, c)
  {
    match step
    case Work(m) => s.(mapper := Amap.Next(s.mapper, m, Cfg(c)))
    case HandOver =>
      var y := c.fn(s.mapper.read[s.mapper.out[s.handed]]);
      s.(take := Take.Next(s.take, Take.Answer(Take.Item(y))), handed := s.handed + 1)
    case MapEnds => s.(take := Take.Next(s.take, Take.Answer(Take.End)))
    case StopMap => s.(mapper := Amap.Next(s.mapper, Amap.Abort, Cfg(c)))
    case SetEvent => s.(take := Take.Next(s.take, Take.SetEvent))
    case TakeRuns(t) => s.(take := Take.Next(s.take, t))
    case TakeYields =>
      s.(batch := Batch.Step(s.batch, Batch.Item(s.take.out[s.taken]), c.size), taken := s.taken + 1)
    case TakeEnds => s.(batch := Batch.Step(s.batch, Batch.End, c.size))
    case Timeout => s.(batch := Batch.Step(s.batch, Batch.Timeout, c.size))
  }

  ghost predicate Runs(s: State, steps: seq<Step>, c: Setup)
    decreases |steps|
  {
    steps == [] || (Enabled(s, steps[0], c) && Runs(Next(s, steps[0], c), steps[1..], c))
  }

  ghost function Exec(s: State, steps: seq<Step>, c: Setup): State
    requires Runs(s, steps, c)
    decreases |steps|
  {
    if steps == [] then s else Exec(Next(s, steps[0], c), steps[1..], c)
  }

  // ----- The invariant -------------------------------------------------------------------

  /** The map's outputs, whatever became of them. */
  function Mapped(s: State, c: Setup): seq<Value>
    requires Amap.OutInRange(s.mapper)
  {
    Amap.Yields(s.mapper, c.fn)
  }

  /** The map is at a yield, or was never asked: only its tasks can move. */
  predicate Suspended(m: Amap.State) {
    m.at.AtYield? || (m.at == Amap.Filling && m.read == [] && !m.exhausted)
  }

  predicate NotAsking(t: Take.State<Value>) {
    || t.at == Take.Top || t.at == Take.AtYield || t.at == Take.Over(Take.Stopped(false))
    || (t.reply.Some? && t.reply.value.Item?)
  }

  /** While `take_until` does not ask, the map is suspended; so it is when the event is seen at the
      loop test. */
  ghost predicate Parked(s: State) {
    NotAsking(s.take) ==> Suspended(s.mapper)
  }

  /** First seam: `take_until` was answered with exactly the results handed over so far, and
      with the end only when the map was over. */
  ghost predicate MapSeam(s: State, c: Setup) {
    && Amap.OutInRange(s.mapper) && s.mapper.failed == {}
    && s.handed <= |s.mapper.out| <= s.handed + 1
    && (|s.mapper.out| == s.handed + 1 ==> s.mapper.at.AtYield? || Amap.Aborted(s.mapper.at))
    && Take.Answered(s.take) == Mapped(s, c)[..s.handed]
    && (s.take.reply == Some(Take.End) || s.take.at == Take.Over(Take.Ended) ==> s.mapper.at == Amap.Over(true))
    && s.take.reply != Some(Take.Raise) && s.take.at != Take.Over(Take.Broken)
    && (Amap.Aborted(s.mapper.at) ==> s.take.at == Take.Over(Take.Stopped(true)))
  }

  /** Second seam: `batched` received exactly the items taken so far. */
  ghost predicate TakeSeam(s: State, c: Setup) {
    && s.taken <= |s.take.out| <= s.taken + 1
    && (|s.take.out| == s.taken + 1 ==> s.take.at == Take.AtYield)
    && Batch.Inv(s.batch, s.take.out[..s.taken], c.size)
    && (s.batch.exit == Batch.Running || (s.batch.exit == Batch.Ended && s.take.at.Over?)) && s.batch.dropped == []
  }

  ghost predicate Sound(s: State, c: Setup) {
    && Amap.Inv(s.mapper, Cfg(c)) && c.size >= 1
    && Take.Inv(s.take) && MapSeam(s, c) && TakeSeam(s, c)
  }

  ghost predicate Inv(s: State, c: Setup) {
    Sound(s, c) && Parked(s)
  }

  lemma WorkKeepsSound(s: State, m: Amap.Step, c: Setup)
    requires Sound(s, c) && Enabled(s, Work(m), c)
    ensures Sound(Next(s, Work(m), c), c)
  {
    var n := Next(s, Work(m), c);
    Amap.StepKeepsInv(s.mapper, m, Cfg(c));
    Amap.CoversInRange(n.mapper, Cfg(c));
    assert s.mapper.out <= n.mapper.out && s.mapper.read <= n.mapper.read;
    assert Mapped(n, c)[..s.handed] == Mapped(s, c)[..s.handed];
  }

  lemma MapStepKeepsSound(s: State, step: Step, c: Setup)
    requires Sound(s, c) && Enabled(s, step, c) && (step.HandOver? || step.MapEnds? || step.StopMap?)
    ensures Sound(Next(s, step, c), c)
  {
    var n := Next(s, step, c);
    match step
    case HandOver =>
      assert Mapped(s, c)[..n.handed] == Mapped(s, c)[..s.handed] + [Mapped(s, c)[s.handed]];
    case StopMap =>
      Amap.StepKeepsInv(s.mapper, Amap.Abort, Cfg(c));
    case MapEnds =>
  }

  lemma TakeStepKeepsSound(s: State, step: Step, c: Setup)
    requires Sound(s, c) && Enabled(s, step, c) && (step.SetEvent? || step.TakeRuns?)
    ensures Sound(Next(s, step, c), c)
  {
    var n := Next(s, step, c);
    assert n.take.out[..s.taken] == s.take.out[..s.taken];
    assert Take.Answered(n.take) == Take.Answered(s.take);
  }

  predicate FeedsBatch(step: Step) { step.TakeYields? || step.TakeEnds? || step.Timeout? }

  lemma TakeYieldsKeepsSeam(s: State, c: Setup)
    requires c.size >= 1 && TakeSeam(s, c) && Enabled(s, TakeYields, c)
    ensures TakeSeam(Next(s, TakeYields, c), c)
  {
    var received, x := s.take.out[..s.taken], s.take.out[s.taken];
    assert s.take.out[..s.taken + 1] == received + [x];
    Batch.ItemKeepsInv(s.batch, received, x, c.size);
  }

  lemma BatchStepKeepsSeam(s: State, step: Step, c: Setup)
    requires c.size >= 1 && TakeSeam(s, c) && Enabled(s, step, c) && FeedsBatch(step)
    ensures TakeSeam(Next(s, step, c), c)
  {
    match step
    case TakeYields => TakeYieldsKeepsSeam(s, c);
    case TakeEnds => Batch.StepKeepsInv(s.batch, s.take.out[..s.taken], Batch.End, c.size);
    case Timeout => Batch.StepKeepsInv(s.batch, s.take.out[..s.taken], Batch.Timeout, c.size);
  }

  lemma BatchStepKeepsSound(s: State, step: Step, c: Setup)
    requires Sound(s, c) && Enabled(s, step, c) && FeedsBatch(step)
    ensures Sound(Next(s, step, c), c)
  {
    BatchStepKeepsSeam(s, step, c);
    var n := Next(s, step, c);
    assert n.mapper == s.mapper && n.take == s.take && n.handed == s.handed;
    assert MapSeam(n, c);
  }

  lemma WorkKeepsParked(s: State, m: Amap.Step, c: Setup)
    requires Parked(s) && Enabled(s, Work(m), c)
    ensures Parked(Next(s, Work(m), c))
  {
    if NotAsking(s.take) {
      assert m.TaskDone?;
    }
  }

  lemma StepKeepsParked(s: State, step: Step, c: Setup)
    requires Take.Inv(s.take) && Parked(s) && Enabled(s, step, c)
    ensures Parked(Next(s, step, c))
  {
    if step.Work? {
      WorkKeepsParked(s, step.m, c);
    } else if step.TakeRuns? {
      assert NotAsking(Next(s, step, c).take) ==> NotAsking(s.take);
    }
  }

  lemma StepKeepsInv(s: State, step: Step, c: Setup)
    requires Inv(s, c) && Enabled(s, step, c)
    ensures Inv(Next(s, step, c), c)
  {
    StepKeepsParked(s, step, c);
    if step.Work? {
      WorkKeepsSound(s, step.m, c);
    } else if step.HandOver? || step.MapEnds? || step.StopMap? {
      MapStepKeepsSound(s, step, c);
    } else if step.SetEvent? || step.TakeRuns? {
      TakeStepKeepsSound(s, step, c);
    } else {
      BatchStepKeepsSound(s, step, c);
    }
  }

  lemma {:induction false} RunKeepsInv(s: State, steps: seq<Step>, c: Setup)
    requires Inv(s, c) && Runs(s, steps, c)
    ensures Inv(Exec(s, steps, c), c)
    decreases |steps|
  {
    if steps == [] {
    } else {
      StepKeepsInv(s, steps[0], c);
      RunKeepsInv(Next(s, steps[0], c), steps[1..], c);
    }
  }

  // ----- The theorem ---------------------------------------------------------------------

  lemma MappedIsPrefix(s: State, c: Setup)
    requires Inv(s, c)
    ensures Mapped(s, c) <= Map(c.fn, s.mapper.read)
    ensures s.mapper.at == Amap.Over(true) ==> s.mapper.exhausted && Mapped(s, c) == Map(c.fn, s.mapper.read)
  {
    var m := s.mapper;
    assert m.out <= Upto(|m.read|);
    if m.at == Amap.Over(true) {
      assert m.out == m.out + Amap.Owed(m);
    }
  }

  lemma BatchedIsPrefix(s: State, c: Setup)
    requires TakeSeam(s, c) && MapSeam(s, c)
    ensures Flatten(s.batch.batches) <= Mapped(s, c)
  {
    assert Flatten(s.batch.batches) + s.batch.batch == s.take.out[..s.taken];
    assert Flatten(s.batch.batches) <= s.take.out[..s.taken] <= s.take.out;
    assert s.take.out <= Take.Answered(s.take) <= Mapped(s, c);
  }

  lemma UnstoppedIsWhole(s: State, c: Setup)
    requires Inv(s, c) && s.batch.exit == Batch.Ended && !s.take.isSet
    ensures s.mapper.at == Amap.Over(true)
    ensures Flatten(s.batch.batches) == Mapped(s, c)
  {
    assert !s.take.at.exit.Stopped? && !s.take.at.exit.Broken?;
    assert s.take.at == Take.Over(Take.Ended);
    assert Flatten(s.batch.batches) == Flatten(s.batch.batches) + s.batch.batch == s.take.out[..s.taken] == s.take.out;
    assert s.take.out == Take.Answered(s.take) == Mapped(s, c)[..s.handed] == Mapped(s, c);
  }

  lemma StartIsGood(isSet: bool, c: Setup)
    requires c.concurrency >= 1 && c.size >= 1
    ensures Inv(Start(isSet), c)
  {
  }

  /** For every timing of reads, completions, timeouts and the stop event: what was batched so
      far is a prefix of `map(fn, source)`, and all of it once the pipeline ends without a stop. */
  lemma BatchesAreMapOfSource(isSet: bool, steps: seq<Step>, c: Setup)
    requires c.concurrency >= 1 && c.size >= 1 && Runs(Start(isSet), steps, c)
    ensures var s := Exec(Start(isSet), steps, c);
            && Flatten(s.batch.batches) <= Map(c.fn, s.mapper.read)
            && Batch.WellSized(s.batch.batches, c.size)
            && (s.batch.exit == Batch.Ended && !s.take.isSet ==>
                  s.mapper.exhausted && Flatten(s.batch.batches) == Map(c.fn, s.mapper.read))
  {
    StartIsGood(isSet, c);
    RunKeepsInv(Start(isSet), steps, c);
    var s := Exec(Start(isSet), steps, c);
    MappedIsPrefix(s, c);
    BatchedIsPrefix(s, c);
    if s.batch.exit == Batch.Ended && !s.take.isSet {
      UnstoppedIsWhole(s, c);
    }
  }

  ghost function MapProgress(s: State, c: Setup): Step {
    var m := s.mapper;
    match m.at
    case Filling => if Amap.MoreToFill(m, Cfg(c)) then Work(Amap.SourceEnds) else Work(Amap.Proceed)
    case Awaiting(h) => if h in m.live then Work(Amap.TaskDone(h, true)) else Work(Amap.HeadIsDone)
    case AtYield(_) => if s.handed < |m.out| then HandOver else Work(Amap.Resume)
    case Unwinding(_) =>
      if Amap.NoneLive(m) then Work(Amap.Finish)
      else
        var i :| 0 <= i < |m.inFlight| && m.inFlight[i] in m.live;
        Work(Amap.TaskDone(m.inFlight[i], true))
    case _ => MapEnds
  }

  /** Which step brings an unfinished pipeline forward. */
  ghost function Progress(s: State, c: Setup): Step
    requires Inv(s, c) && s.batch.exit == Batch.Running
  {
    match s.take.at
    case Top => TakeRuns(Take.TopOfLoop)
    case AtYield => if s.taken < |s.take.out| then TakeYields else TakeRuns(Take.Resume)
    case Over(_) => TakeEnds
    case Waiting => if s.take.reply.Some? then TakeRuns(Take.Wake) else MapProgress(s, c)
  }

  /** Everything but the passing of time and the outside: timeouts may come at any time, and so may
      the event. */
  predicate Moves(step: Step) { !step.Timeout? && !step.SetEvent? }

  lemma MapCanMove(s: State, c: Setup)
    requires Amap.Inv(s.mapper, Cfg(c)) && MapSeam(s, c) && s.take.at == Take.Waiting && s.take.reply.None?
    ensures Enabled(s, MapProgress(s, c), c) && Moves(MapProgress(s, c))
  {
  }

  /** The stages never wait for each other in a circle: until the last batch is out, some stage
      can move, with no help from a timeout or from the stop event. */
  lemma NeverStuck(s: State, c: Setup)
    requires Inv(s, c) && s.batch.exit == Batch.Running
    ensures Enabled(s, Progress(s, c), c) && Moves(Progress(s, c))
  {
    if s.take.at == Take.Waiting && s.take.reply.None? {
      MapCanMove(s, c);
    }
  }

  // ----- Termination ---------------------------------------------------------------------

  function MapRank(at: Amap.Place): nat {
    match at
    case Awaiting(_) => 10
    case AtYield(_) => 3
    case Filling => 2
    case Unwinding(_) => 1
    case _ => 0
  }

  /** What the map can still do, for a source of `total` items. */
  function MapWork(m: Amap.State, handed: nat, total: nat): int {
    11 * (total - |m.read|) + 9 * |m.inFlight| + |m.live| + Bit(!m.exhausted) + 6 * (|m.out| - handed) + MapRank(m.at)
  }

  function TakeWork(s: Take.State<Value>, taken: nat): int {
    match s.at
    case Top => 4
    case Waiting => if s.reply.None? then 3 else if s.reply.value.Item? then 8 else 2
    case AtYield => 6 + (|s.out| - taken)
    case Over(_) => 1
  }

  /** An upper bound for the moves that are left, for a source of `total` items. */
  function Remaining(s: State, total: nat): int {
    MapWork(s.mapper, s.handed, total) + TakeWork(s.take, s.taken) + Bit(s.batch.exit == Batch.Running)
  }

  lemma RemainingIsNotNegative(s: State, c: Setup, total: nat)
    requires Inv(s, c) && |s.mapper.read| <= total
    ensures Remaining(s, total) >= 0
  {
  }

  lemma ReadSpends(m: Amap.State, item: Amap.Item, c: Setup, handed: nat, total: nat)
    requires Amap.Enabled(m, Amap.Read(item), Cfg(c))
    ensures MapWork(Amap.Next(m, Amap.Read(item), Cfg(c)), handed, total) < MapWork(m, handed, total)
  {
    assert |m.live + {|m.read|}| <= |m.live| + 1;
  }

  lemma TaskDoneSpends(m: Amap.State, t: nat, ok: bool, c: Setup, handed: nat, total: nat)
    requires Amap.Enabled(m, Amap.TaskDone(t, ok), Cfg(c))
    ensures MapWork(Amap.Next(m, Amap.TaskDone(t, ok), Cfg(c)), handed, total) < MapWork(m, handed, total)
  {
    assert |m.live - {t}| == |m.live| - 1;
  }

  lemma MapMoveSpends(m: Amap.State, step: Amap.Step, c: Setup, handed: nat, total: nat)
    requires Amap.Placed(m, Cfg(c)) && Amap.Enabled(m, step, Cfg(c)) && Ordinary(step)
    ensures MapWork(Amap.Next(m, step, Cfg(c)), handed, total) < MapWork(m, handed, total)
  {
    match step
    case Read(item) => ReadSpends(m, item, c, handed, total);
    case TaskDone(t, ok) => TaskDoneSpends(m, t, ok, c, handed, total);
    case VisitNext => assert false;
    case _ =>
  }

  lemma SeamMoveSpends(s: State, step: Step, c: Setup, total: nat)
    requires Amap.Placed(s.mapper, Cfg(c)) && Enabled(s, step, c)
    requires step.HandOver? || step.MapEnds? || step.StopMap?
    ensures Remaining(Next(s, step, c), total) < Remaining(s, total)
  {
  }

  lemma TakeMoveSpends(s: State, step: Step, c: Setup, total: nat)
    requires Take.Inv(s.take) && TakeSeam(s, c) && Enabled(s, step, c)
    requires step.TakeRuns? || step.TakeYields? || step.TakeEnds?
    ensures Remaining(Next(s, step, c), total) < Remaining(s, total)
  {
    var n := Next(s, step, c);
    assert n.mapper == s.mapper && n.handed == s.handed;
  }

  lemma MoveSpends(s: State, step: Step, c: Setup, total: nat)
    requires Inv(s, c) && Enabled(s, step, c) && Moves(step)
    ensures Remaining(Next(s, step, c), total) < Remaining(s, total)
  {
    if step.Work? {
      MapMoveSpends(s.mapper, step.m, c, s.handed, total);
    } else if step.HandOver? || step.MapEnds? || step.StopMap? {
      SeamMoveSpends(s, step, c, total);
    } else {
      TakeMoveSpends(s, step, c, total);
    }
  }

  lemma OutsideKeepsWork(s: State, step: Step, c: Setup, total: nat)
    requires Enabled(s, step, c) && !Moves(step)
    ensures Remaining(Next(s, step, c), total) == Remaining(s, total)
  {
  }

  function CountMoves(steps: seq<Step>): nat {
    if steps == [] then 0 else Bit(Moves(steps[0])) + CountMoves(steps[1..])
  }

  lemma {:induction false} MovesAreSpent(s: State, steps: seq<Step>, c: Setup, total: nat)
    requires Inv(s, c) && Runs(s, steps, c)
    ensures CountMoves(steps) + Remaining(Exec(s, steps, c), total) <= Remaining(s, total)
    decreases |steps|
  {
    if steps == [] {
    } else {
      StepKeepsInv(s, steps[0], c);
      if Moves(steps[0]) {
        MoveSpends(s, steps[0], c, total);
      } else {
        OutsideKeepsWork(s, steps[0], c, total);
      }
      MovesAreSpent(Next(s, steps[0], c), steps[1..], c, total);
    }
  }

  /** A pipeline over a source of `total` items makes at most 11 * total + 8 moves, however timeouts
      and the event fall, and one that can move no further has sent its last batch. */
  lemma PipelineTerminates(isSet: bool, steps: seq<Step>, c: Setup, total: nat)
    requires c.concurrency >= 1 && c.size >= 1 && Runs(Start(isSet), steps, c)
    requires |Exec(Start(isSet), steps, c).mapper.read| <= total
    ensures CountMoves(steps) <= 11 * total + 8
    ensures var s := Exec(Start(isSet), steps, c);
            (forall step | Enabled(s, step, c) :: !Moves(step)) ==> s.batch.exit == Batch.Ended
  {
    StartIsGood(isSet, c);
    RunKeepsInv(Start(isSet), steps, c);
    MovesAreSpent(Start(isSet), steps, c, total);
    var s := Exec(Start(isSet), steps, c);
    RemainingIsNotNegative(s, c, total);
    if s.batch.exit == Batch.Running {
      NeverStuck(s, c);
    }
  }

  // ----- After a stop --------------------------------------------------------------------

  predicate IsStopped(s: State) { s.take.at.Over? && s.take.at.exit.Stopped? }

  /** The stop does not reach the map: it was seen at the loop test, or while the map was at its
      yield. */
  predicate LeftAlone(s: State) {
    IsStopped(s) && (s.mapper.at.AtYield? || !s.take.at.exit.asking)
  }

  ghost predicate AtRest(s: State, c: Setup) {
    forall step | Enabled(s, step, c) :: !Moves(step)
  }

  lemma StopStays(s: State, step: Step, c: Setup)
    requires Inv(s, c) && IsStopped(s) && Enabled(s, step, c)
    ensures var n := Next(s, step, c);
            && n.take.at == s.take.at && (LeftAlone(n) <==> LeftAlone(s))
            && (LeftAlone(s) ==> n.mapper.at == s.mapper.at && n.mapper.inFlight == s.mapper.inFlight)
  {
  }

  lemma ReachedMapEnds(s: State, c: Setup)
    requires Inv(s, c) && IsStopped(s) && !LeftAlone(s) && AtRest(s, c)
    ensures s.mapper.at.Over? && s.mapper.live == {}
  {
    var m := s.mapper;
    if !m.at.Over? {
      var step := match m.at
                  case Awaiting(h) => if h in m.live then Work(Amap.TaskDone(h, true)) else StopMap
                  case Unwinding(_) => MapProgress(s, c)
                  case _ => StopMap;
      assert Enabled(s, step, c);
      assert false;
    }
  }

  /** Who is left after a stop. A map that runs when the event is seen unwinds, and cancels and
      awaits its tasks. A map that is suspended stays so for good, and its tasks in flight are
      neither cancelled nor awaited by anybody. */
  lemma {:induction false} StopReapsExactly(s: State, steps: seq<Step>, c: Setup)
    requires Inv(s, c) && IsStopped(s) && Runs(s, steps, c)
    ensures var n := Exec(s, steps, c);
            && (LeftAlone(s) ==> n.mapper.at == s.mapper.at && n.mapper.inFlight == s.mapper.inFlight)
            && (AtRest(n, c) ==> (n.mapper.at.Over? <==> !LeftAlone(s)))
            && (n.mapper.at.Over? ==> n.mapper.live == {})
    decreases |steps|
  {
    if steps == [] {
      if AtRest(s, c) && !LeftAlone(s) {
        ReachedMapEnds(s, c);
      }
    } else {
      StopStays(s, steps[0], c);
      StepKeepsInv(s, steps[0], c);
      StopReapsExactly(Next(s, steps[0], c), steps[1..], c);
    }
  }
}
