/** `take_until` of streams.py: a stream that stops at an item boundary once an event is set. */
module Stopping {
  import opened Basics

  datatype Reply<T> = Item(value: T) | End | Raise

  /** By the event, seen at the loop test or during a wait for the source (`asking`); by the end of
      the source; or by an error of the source, a cancelled caller or a consumer that closed the
      generator. */
  datatype Exit = Stopped(asking: bool) | Ended | Broken

  /** At the top of the loop, waiting for the source or the event, suspended at the yield, or over. */
  datatype Place = Top | Waiting | AtYield | Over(exit: Exit)

  /** `reply` is what the outstanding `__anext__` came to, once it is done. */
  datatype State<T> = State(isSet: bool, at: Place, reply: Option<Reply<T>>, out: seq<T>)

  datatype Step<T> =
    | SetEvent
    | TopOfLoop
    | Answer(reply: Reply<T>)
    | Wake
    | Resume
    | Abort

  function Start<T>(isSet: bool): State<T> { State(isSet, Top, None, []) }

  predicate Asking<T>(s: State<T>) { s.at == Waiting && s.reply.None? }

  predicate Enabled<T>(s: State<T>, step: Step<T>) {
    match step
    case SetEvent => true
    case TopOfLoop => s.at == Top
    case Answer(_) => Asking(s)
    case Wake => s.at == Waiting && (s.isSet || s.reply.Some?)
    case Resume => s.at == AtYield
    case Abort => s.at == Waiting || s.at == AtYield
  }

  function Next<T>(s: State<T>, step: Step<T>): State<T>
    requires Enabled(s, step)
  {
    match step
    case SetEvent => s.(isSet := true)
    case TopOfLoop => if s.isSet then s.(at := Over(Stopped(false))) else s.(at := Waiting, reply := None)
    case Answer(r) => s.(reply := Some(r))
    case Wake =>
      (match s.reply
       case None => s.(at := Over(Stopped(true)))
       case Some(End) => s.(at := Over(Ended), reply := None)
       case Some(Raise) => s.(at := Over(Broken), reply := None)
       case Some(Item(x)) => s.(at := AtYield, reply := None, out := s.out + [x]))
    case Resume => s.(at := Top)
    case Abort => s.(at := Over(Broken))
  }

  /** The values the source has answered with: those yielded, and one that may still wait to be
      looked at. */
  function Answered<T>(s: State<T>): seq<T> {
    s.out + (if s.reply.Some? && s.reply.value.Item? then [s.reply.value.value] else [])
  }

  ghost predicate Runs<T>(s: State<T>, steps: seq<Step<T>>)
    decreases |steps|
  {
    |steps| == 0 || (Enabled(s, steps[0]) && Runs(Next(s, steps[0]), steps[1..]))
  }

  ghost function Exec<T>(s: State<T>, steps: seq<Step<T>>): State<T>
    requires Runs(s, steps)
    decreases |steps|
  {
    if |steps| == 0 then s else Exec(Next(s, steps[0]), steps[1..])
  }

  /** The item that a step brings in as an answer, if it does. */
  function ItemOf<T>(step: Step<T>): seq<T> {
    if step.Answer? && step.reply.Item? then [step.reply.value] else []
  }

  /** The items among the answers, in order. */
  function ItemsOf<T>(steps: seq<Step<T>>): seq<T> {
    if |steps| == 0 then []
    else ItemOf(steps[0]) + ItemsOf(steps[1..])
  }

  ghost predicate Inv<T>(s: State<T>) {
    && (s.reply.Some? ==> s.at == Waiting || s.at == Over(Broken))
    && (s.at.Over? && s.at.exit.Stopped? ==> s.isSet)
  }

  lemma StepAnswers<T>(s: State<T>, step: Step<T>)
    requires Inv(s) && Enabled(s, step)
    ensures Inv(Next(s, step)) && Answered(Next(s, step)) == Answered(s) + ItemOf(step)
  {
  }

  /** Nothing the source answered is dropped or reordered, and the generator gives up early
      only when the event was set. */
  lemma {:induction false} AnswersAreYielded<T>(s: State<T>, steps: seq<Step<T>>)
    requires Inv(s) && Runs(s, steps)
    ensures Inv(Exec(s, steps)) && Answered(Exec(s, steps)) == Answered(s) + ItemsOf(steps)
    decreases |steps|
  {
    if |steps| == 0 {
      assert Answered(s) + [] == Answered(s);
    } else {
      var n := Next(s, steps[0]);
      StepAnswers(s, steps[0]);
      AnswersAreYielded(n, steps[1..]);
      assert Answered(n) + ItemsOf(steps[1..]) == Answered(s) + (ItemOf(steps[0]) + ItemsOf(steps[1..]));
    }
  }

  /** From a fresh generator: the output is a prefix of what the source answered, short of it by
      at most the one answer that nobody has looked at yet; a generator that the event or the end
      of the source has stopped has yielded all of it. */
  lemma PrefixOfTheSource<T>(isSet: bool, steps: seq<Step<T>>)
    requires Runs(Start(isSet), steps)
    ensures var s := Exec(Start(isSet), steps);
            && s.out <= ItemsOf(steps)
            && |ItemsOf(steps)| <= |s.out| + 1
            && (s.at.Over? && !s.at.exit.Broken? ==> s.out == ItemsOf(steps))
            && (s.at.Over? && s.at.exit.Stopped? ==> s.isSet)
  {
    var z: State<T> := Start(isSet);
    AnswersAreYielded(z, steps);
    assert Answered(z) + ItemsOf(steps) == ItemsOf(steps);
  }

  /** At the loop test the source is asked for the next item exactly when the event is not set. */
  lemma AskedExactly<T>(s: State<T>)
    requires Inv(s) && s.at == Top
    ensures Asking(Next(s, TopOfLoop)) <==> !s.isSet
  {
  }

  /** Once the event is set and no request is out, the source is never asked again: nothing more
      comes in or out, unless an answer is already at hand. */
  lemma {:induction false} NeverAskedAgain<T>(s: State<T>, steps: seq<Step<T>>)
    requires Inv(s) && s.isSet && !Asking(s) && Runs(s, steps)
    ensures var n := Exec(s, steps);
            && Inv(n) && n.isSet && !Asking(n) && ItemsOf(steps) == []
            && forall i | 0 <= i < |steps| :: !steps[i].Answer?
    decreases |steps|
  {
    if |steps| == 0 {
    } else {
      StepAnswers(s, steps[0]);
      NeverAskedAgain(Next(s, steps[0]), steps[1..]);
      assert forall i | 0 < i < |steps| :: steps[i] == steps[1..][i - 1];
    }
  }

  /** How many steps a generator whose event is set still takes at most. */
  function Remaining<T>(s: State<T>): nat {
    match s.at
    case Over(_) => 0
    case Top => 1
    case AtYield => 2
    case Waiting => if s.reply.Some? then 3 else 4
  }

  /** Once the event is set it comes to its end by itself, whatever the source does: within four
      steps, and as long as it is not over it can move without an answer. */
  lemma {:induction false} StopsSoon<T>(s: State<T>, steps: seq<Step<T>>)
    requires Inv(s) && s.isSet && Runs(s, steps) && forall i | 0 <= i < |steps| :: !steps[i].SetEvent?
    ensures var n := Exec(s, steps);
            && |steps| + Remaining(n) <= Remaining(s) <= 4
            && (n.at.Over? || Enabled(n, TopOfLoop) || Enabled(n, Wake) || Enabled(n, Resume))
    decreases |steps|
  {
    if |steps| == 0 {
    } else {
      StepAnswers(s, steps[0]);
      assert Remaining(Next(s, steps[0])) < Remaining(s);
      StopsSoon(Next(s, steps[0]), steps[1..]);
    }
  }

  datatype Cause = EventSet | GivenUp | SourceEnded | SourceRaised

  predicate Brings<T>(step: Step<T>, cause: Cause) {
    match cause
    case EventSet => step.SetEvent?
    case GivenUp => step.Abort?
    case SourceEnded => step.Answer? && step.reply.End?
    case SourceRaised => step.Answer? && step.reply.Raise?
  }

  predicate Happened<T>(steps: seq<Step<T>>, cause: Cause) {
    |steps| > 0 && (Happened(steps[..|steps| - 1], cause) || Brings(steps[|steps| - 1], cause))
  }

  /** The event, and the exit or what the outstanding request came to, as the steps so far have it. */
  ghost predicate Told<T>(s: State<T>, isSet: bool, steps: seq<Step<T>>) {
    && (s.isSet <==> isSet || Happened(steps, EventSet))
    && match s.at
       case Over(Broken) => Happened(steps, GivenUp) || Happened(steps, SourceRaised)
       case Over(exit) =>
         !Happened(steps, GivenUp) && !Happened(steps, SourceRaised) && (exit.Ended? <==> Happened(steps, SourceEnded))
       case _ =>
         && !Happened(steps, GivenUp)
         && (Happened(steps, SourceEnded) <==> s.reply.Some? && s.reply.value.End?)
         && (Happened(steps, SourceRaised) <==> s.reply.Some? && s.reply.value.Raise?)
  }

  lemma StepIsTold<T>(s: State<T>, isSet: bool, before: seq<Step<T>>, step: Step<T>)
    requires Inv(s) && Told(s, isSet, before) && Enabled(s, step)
    ensures Told(Next(s, step), isSet, before + [step])
  {
    var steps := before + [step];
    assert steps[..|before|] == before && steps[|before|] == step;
    assert forall cause :: Happened(steps, cause) <==> Happened(before, cause) || Brings(step, cause);
  }

  lemma {:induction false} RunIsTold<T>(s: State<T>, isSet: bool, before: seq<Step<T>>, steps: seq<Step<T>>)
    requires Inv(s) && Told(s, isSet, before) && Runs(s, steps)
    ensures Told(Exec(s, steps), isSet, before + steps)
    decreases |steps|
  {
    if |steps| == 0 {
      assert before + steps == before;
    } else {
      StepAnswers(s, steps[0]);
      StepIsTold(s, isSet, before, steps[0]);
      RunIsTold(Next(s, steps[0]), isSet, before + [steps[0]], steps[1..]);
      assert before + steps == before + [steps[0]] + steps[1..];
    }
  }

  /** The event is set exactly when it was at the start or was set since. */
  lemma EventIsRemembered<T>(isSet: bool, steps: seq<Step<T>>)
    requires Runs(Start(isSet), steps)
    ensures Exec(Start(isSet), steps).isSet <==> isSet || Happened(steps, EventSet)
  {
    var z: State<T> := Start(isSet);
    RunIsTold(z, isSet, [], steps);
    assert [] + steps == steps;
  }

  /** How it ends: badly exactly when it was given up or the source raised, otherwise with the
      source exactly when the source ended, and by the event, which was set, if not. */
  lemma EndsExactly<T>(isSet: bool, steps: seq<Step<T>>)
    requires Runs(Start(isSet), steps) && Exec(Start(isSet), steps).at.Over?
    ensures var exit := Exec(Start(isSet), steps).at.exit;
            && (exit.Stopped? ==> isSet || Happened(steps, EventSet))
            && (exit.Broken? <==> Happened(steps, GivenUp) || Happened(steps, SourceRaised))
            && (exit.Ended? <==> !exit.Broken? && Happened(steps, SourceEnded))
  {
    var z: State<T> := Start(isSet);
    AnswersAreYielded(z, steps);
    RunIsTold(z, isSet, [], steps);
    assert [] + steps == steps;
  }

  /** The generator's variables. `stop` is done exactly when the event is set. */
  class Taker<T> {
    var nxt: Option<Reply<T>>
    ghost var isSet: bool
    ghost var at: Place
    ghost var out: seq<T>

    ghost function Abs(): State<T>
      reads this
    {
      State(isSet, at, nxt, out)
    }

    constructor (isSet: bool)
      ensures Abs() == Start(isSet)
    {
      nxt, this.isSet, at, out := None, isSet, Top, [];
    }

    /** The loop test, and the request that follows it. */
    method LoopTest(eventIsSet: bool) returns (asks: bool)
      requires at == Top && eventIsSet == isSet
      modifies this
      ensures Abs() == Next(old(Abs()), TopOfLoop) && asks == (at == Waiting)
    {
      asks := !eventIsSet;
      if asks {
        nxt := None;
        at := Waiting;
      } else {
        at := Over(Stopped(false));
      }
    }

    /** After the wait: the item goes out even when the event was set meanwhile, and only a wait
        that ended without it returns. */
    method AfterWait() returns (yielded: Option<T>)
      requires Enabled(Abs(), Wake)
      modifies this
      ensures Abs() == Next(old(Abs()), Wake)
      ensures if yielded.Some? then out == old(out) + [yielded.value] else out == old(out) && at.Over?
    {
      match nxt {
        case None =>
          at := Over(Stopped(true));
          yielded := None;
        case Some(End) =>
          at := Over(Ended);
          nxt := None;
          yielded := None;
        case Some(Raise) =>
          at := Over(Broken);
          nxt := None;
          yielded := None;
        case Some(Item(x)) =>
          at := AtYield;
          out := out + [x];
          nxt := None;
          yielded := Some(x);
      }
    }
  }
}
