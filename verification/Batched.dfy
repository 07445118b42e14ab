/** `batched` of queues.py: grouping a stream by size, or by whatever arrived before a timeout. */
module Batching {
  import opened Basics

  /** What one wait of the loop ends with, or one stay at a `yield`. The reads themselves survive a
      timeout. `Raise` is an error of the source, `OwnTimeout` a TimeoutError that the source itself
      raised, which the loop takes for its own. `Cancel` is a caller cancelled at the wait, and
      `Close` a consumer that closes the generator at its latest yield; `arrived` is what the
      outstanding read had already delivered then, if there was one and it had. */
  datatype Event<T> =
    | Item(value: T)
    | Timeout
    | End
    | Raise
    | OwnTimeout
    | Cancel(arrived: Option<T>)
    | Close(arrived: Option<T>)

  /** Spinning: the failed read is never replaced, so every further wait on it ends at once with
      the same TimeoutError. */
  datatype Exit = Running | Ended | Broken | Closed | Spinning

  /** The generator at the top of its loop: what it yielded, and its variables. `requests`
      counts the `__anext__` calls it made, `pending` says that one is still outstanding, and
      `dropped` is an item that such a read had delivered when the generator gave it up. */
  datatype State<T> = State(
    batches: seq<seq<T>>, batch: seq<T>, pending: bool, requests: nat, dropped: seq<T>, exit: Exit)

  datatype BatchError = SizeTooSmall

  function Start<T>(): State<T> { State([], [], false, 0, [], Running) }

  function Flush<T>(s: State<T>): State<T> {
    if |s.batch| == 0 then s else s.(batches := s.batches + [s.batch], batch := [])
  }

  function Held<T>(arrived: Option<T>): seq<T> { if arrived.Some? then [arrived.value] else [] }

  function Step<T>(s: State<T>, e: Event<T>, size: nat): State<T> {
    if s.exit != Running then s
    else
      var asked := if s.pending then s else s.(pending := true, requests := s.requests + 1);
      match e
      case Timeout => Flush(asked)
      case End => Flush(asked).(pending := false, exit := Ended)
      case Raise => asked.(pending := false, exit := Broken)
      case Cancel(arrived) => asked.(pending := false, dropped := Held(arrived), exit := Broken)
      case Close(arrived) =>
        s.(pending := false, dropped := if s.pending then Held(arrived) else [], exit := Closed)
      case OwnTimeout => Flush(asked).(pending := false, exit := Spinning)
      case Item(x) =>
        var more := asked.(pending := false, batch := asked.batch + [x]);
        if |more.batch| >= size then Flush(more) else more
  }

  function Feed<T>(es: seq<Event<T>>, size: nat): State<T> {
    if |es| == 0 then Start() else Step(Feed(es[..|es| - 1], size), es[|es| - 1], size)
  }

  /** After such an event the loop reads nothing more. */
  predicate Final<T>(e: Event<T>) { !e.Item? && !e.Timeout? }

  predicate Over<T>(es: seq<Event<T>>) {
    exists i :: 0 <= i < |es| && Final(es[i])
  }

  predicate Plain<T>(es: seq<Event<T>>) {
    forall i | 0 <= i < |es| :: es[i].Item?
  }

  /** A read is outstanding at a yield exactly when a timeout brought the loop there. */
  predicate Outstanding<T>(es: seq<Event<T>>) { |es| > 0 && es[|es| - 1].Timeout? }

  /** What an event brings in, when a read is outstanding before it or not. */
  function Arrives<T>(pending: bool, e: Event<T>): seq<T> {
    match e
    case Item(x) => [x]
    case Cancel(arrived) => Held(arrived)
    case Close(arrived) => if pending then Held(arrived) else []
    case _ => []
  }

  /** The items that the source delivered to a read of the loop. */
  function Received<T>(es: seq<Event<T>>): seq<T> {
    if |es| == 0 then []
    else
      var before := es[..|es| - 1];
      Received(before) + (if Over(before) then [] else Arrives(Outstanding(before), es[|es| - 1]))
  }

  ghost predicate WellSized<T>(batches: seq<seq<T>>, size: nat) {
    forall i | 0 <= i < |batches| :: 1 <= |batches[i]| <= size
  }

  /** Batches and buffer together, and what was dropped at the end, are what was received; every
      batch is nonempty and no larger than `size`; at most one read is outstanding. */
  ghost predicate Inv<T>(s: State<T>, received: seq<T>, size: nat) {
    && Flatten(s.batches) + s.batch + s.dropped == received
    && WellSized(s.batches, size) && |s.batch| < size
    && (s.exit == Running ==> s.dropped == [] && s.requests == |received| + Bit(s.pending))
    && (s.exit != Running ==> !s.pending && |received| <= s.requests <= |received| + 1)
    && (s.exit == Ended || s.exit == Spinning ==> s.batch == [] && s.dropped == [])
    && (s.exit == Ended || s.exit == Spinning || (s.exit == Broken && s.dropped == []) ==>
          s.requests == |received| + 1)
  }

  lemma FlushKeeps<T>(s: State<T>, received: seq<T>, size: nat)
    requires Flatten(s.batches) + s.batch == received
    requires WellSized(s.batches, size) && |s.batch| <= size
    ensures Flatten(Flush(s).batches) + [] + [] == received && WellSized(Flush(s).batches, size) && Flush(s).batch == []
  {
    FlattenSnoc(s.batches, s.batch);
  }

  lemma NothingDropped<T>(s: State<T>, received: seq<T>, size: nat)
    requires Inv(s, received, size) && s.exit == Running
    ensures Flatten(s.batches) + s.batch == received
  {
    assert Flatten(s.batches) + s.batch + [] == Flatten(s.batches) + s.batch;
  }

  lemma ItemKeepsInv<T>(s: State<T>, received: seq<T>, x: T, size: nat)
    requires size >= 1 && Inv(s, received, size) && s.exit == Running
    ensures Inv(Step(s, Item(x), size), received + [x], size) && Step(s, Item(x), size).exit == Running
  {
    var requests := if s.pending then s.requests else s.requests + 1;
    var more := s.(pending := false, requests := requests, batch := s.batch + [x]);
    NothingDropped(s, received, size);
    assert Flatten(more.batches) + more.batch == received + [x];
    if |more.batch| < size {
      assert Step(s, Item(x), size) == more;
      assert Flatten(more.batches) + more.batch + [] == received + [x];
    } else {
      assert Step(s, Item(x), size) == Flush(more);
      FlushKeeps(more, received + [x], size);
    }
  }

  /** The loop is given up, by a cancelled caller or a consumer that closes it. */
  lemma GivingUpKeepsInv<T>(s: State<T>, received: seq<T>, e: Event<T>, size: nat)
    requires Inv(s, received, size) && s.exit == Running && (e.Cancel? || e.Close?)
    ensures Inv(Step(s, e, size), received + Arrives(s.pending, e), size)
  {
    var n := Step(s, e, size);
    NothingDropped(s, received, size);
    assert n.batches == s.batches && n.batch == s.batch && n.dropped == Arrives(s.pending, e);
    assert Flatten(n.batches) + n.batch + n.dropped == received + Arrives(s.pending, e);
  }

  lemma StepKeepsInv<T>(s: State<T>, received: seq<T>, e: Event<T>, size: nat)
    requires size >= 1 && Inv(s, received, size)
    ensures Inv(Step(s, e, size), received + (if s.exit == Running then Arrives(s.pending, e) else []), size)
  {
    assert received + [] == received;
    if s.exit == Running {
      match e
      case Item(x) => ItemKeepsInv(s, received, x, size);
      case Cancel(_) => GivingUpKeepsInv(s, received, e, size);
      case Close(_) => GivingUpKeepsInv(s, received, e, size);
      case _ =>
        NothingDropped(s, received, size);
        FlushKeeps(s, received, size);
    }
  }

  lemma OverSnoc<T>(before: seq<Event<T>>, e: Event<T>, es: seq<Event<T>>)
    requires es == before + [e]
    ensures Over(es) == (Over(before) || Final(e))
  {
    assert es[|before|] == e;
    assert forall i | 0 <= i < |before| :: es[i] == before[i];
  }

  lemma StepRuns<T>(s: State<T>, e: Event<T>, size: nat)
    ensures Step(s, e, size).exit == Running <==> s.exit == Running && !Final(e)
  {
  }

  lemma {:induction false} RunningExactly<T>(es: seq<Event<T>>, size: nat)
    ensures Feed(es, size).exit == Running <==> !Over(es)
  {
    if |es| == 0 {
    } else {
      var before, e := es[..|es| - 1], es[|es| - 1];
      RunningExactly(before, size);
      OverSnoc(before, e, es);
      StepRuns(Feed(before, size), e, size);
      assert Feed(es, size) == Step(Feed(before, size), e, size);
    }
  }

  lemma PendingExactly<T>(es: seq<Event<T>>, size: nat)
    requires !Over(es)
    ensures Feed(es, size).pending <==> Outstanding(es)
  {
    if |es| == 0 {
    } else {
      var before, e := es[..|es| - 1], es[|es| - 1];
      OverSnoc(before, e, es);
      RunningExactly(before, size);
    }
  }

  /** Nothing is lost or reordered, whatever the timing of items and timeouts and whatever ends
      the loop: what is not in a batch is in the buffer, or was dropped at the very end. */
  lemma {:induction false} NothingIsLost<T>(es: seq<Event<T>>, size: nat)
    requires size >= 1
    ensures Inv(Feed(es, size), Received(es), size)
    ensures Feed(es, size).exit == Running <==> !Over(es)
  {
    RunningExactly(es, size);
    if |es| == 0 {
    } else {
      var before, e := es[..|es| - 1], es[|es| - 1];
      NothingIsLost(before, size);
      if !Over(before) {
        PendingExactly(before, size);
      }
      StepKeepsInv(Feed(before, size), Received(before), e, size);
    }
  }

  lemma {:induction false} FinishedStays<T>(es: seq<Event<T>>, i: nat, size: nat)
    requires i <= |es| && Feed(es[..i], size).exit != Running
    ensures Feed(es, size) == Feed(es[..i], size)
  {
    if i < |es| {
      var before := es[..|es| - 1];
      assert before[..i] == es[..i];
      FinishedStays(before, i, size);
    } else {
      assert es[..i] == es;
    }
  }

  lemma {:induction false} ReceivedStays<T>(es: seq<Event<T>>, i: nat)
    requires i <= |es| && Over(es[..i])
    ensures Received(es) == Received(es[..i])
  {
    if i < |es| {
      var before := es[..|es| - 1];
      assert before[..i] == es[..i];
      ReceivedStays(before, i);
      var k :| 0 <= k < i && Final(es[..i][k]);
      assert Final(before[k]);
    } else {
      assert es[..i] == es;
    }
  }

  /** How many items came in since the latest timeout. */
  function SinceTimeout<T>(es: seq<Event<T>>): nat {
    if |es| == 0 || es[|es| - 1].Timeout? then 0
    else SinceTimeout(es[..|es| - 1]) + (if es[|es| - 1].Item? then 1 else 0)
  }

  lemma AtLeastOnce(d: int, size: int)
    requires d >= 1 && size >= 0
    ensures d * size >= size
  {
    assert (d - 1) * size >= 0;
  }

  lemma SameRemainder(q1: int, r1: int, q2: int, r2: int, size: int)
    requires 0 <= r1 < size && 0 <= r2 < size && q1 * size + r1 == q2 * size + r2
    ensures r1 == r2
  {
    if q1 > q2 {
      AtLeastOnce(q1 - q2, size);
    } else if q1 < q2 {
      AtLeastOnce(q2 - q1, size);
    }
  }

  lemma NextRemainder(n: nat, size: nat)
    requires size >= 1
    ensures (n + 1) % size == if n % size + 1 == size then 0 else n % size + 1
  {
    var q, r, next := n / size, n % size, (n + 1) / size;
    assert n == q * size + r && n + 1 == next * size + (n + 1) % size;
    if r + 1 == size {
      assert (q + 1) * size == q * size + size;
      SameRemainder(next, (n + 1) % size, q + 1, 0, size);
    } else {
      SameRemainder(next, (n + 1) % size, q, r + 1, size);
    }
  }

  /** The remainder of n, counted up one by one. */
  function Remainder(n: nat, size: nat): (r: nat)
    requires size >= 1
    ensures r < size
  {
    if n == 0 then 0
    else
      var r := Remainder(n - 1, size);
      if r + 1 == size then 0 else r + 1
  }

  lemma {:induction false} RemainderIsMod(n: nat, size: nat)
    requires size >= 1
    ensures Remainder(n, size) == n % size
  {
    if n == 0 {
    } else {
      RemainderIsMod(n - 1, size);
      NextRemainder(n - 1, size);
    }
  }

  lemma StepBuffer<T>(s: State<T>, e: Event<T>, size: nat)
    requires s.exit == Running && |s.batch| < size && !Final(e)
    ensures |Step(s, e, size).batch| == if e.Timeout? || |s.batch| + 1 == size then 0 else |s.batch| + 1
  {
  }

  /** The buffer of a running loop, told from the events alone. */
  lemma {:induction false} BufferIsRemainder<T>(es: seq<Event<T>>, size: nat)
    requires size >= 1 && !Over(es)
    ensures |Feed(es, size).batch| == Remainder(SinceTimeout(es), size)
  {
    if |es| == 0 {
    } else {
      var before, e := es[..|es| - 1], es[|es| - 1];
      OverSnoc(before, e, es);
      BufferIsRemainder(before, size);
      NothingIsLost(before, size);
      StepBuffer(Feed(before, size), e, size);
      assert !Final(e);
    }
  }

  /** What came in before the end fills whole batches, or was flushed. */
  predicate BufferEmpty<T>(pre: seq<Event<T>>, size: nat)
    requires size >= 1
  {
    SinceTimeout(pre) % size == 0
  }

  /** Whether an end loses nothing: the end of the source and its own TimeoutError flush the buffer;
      an error drops it; a cancellation and a closing consumer drop it too, and with it an item
      that the outstanding read had delivered. */
  predicate Harmless<T>(pre: seq<Event<T>>, e: Event<T>, size: nat)
    requires size >= 1
  {
    e.End? || e.OwnTimeout? || (BufferEmpty(pre, size) && Arrives(Outstanding(pre), e) == [])
  }

  lemma LeftOver<T>(s: State<T>, received: seq<T>, size: nat)
    requires Inv(s, received, size)
    ensures Flatten(s.batches) == received <==> s.batch == [] && s.dropped == []
  {
    assert |Flatten(s.batches)| + |s.batch| + |s.dropped| == |received|;
    if s.batch == [] && s.dropped == [] {
      assert Flatten(s.batches) + [] + [] == Flatten(s.batches);
    }
  }

  /** How a run ends: its first final event `e` decides. Whether the batches hold everything that
      was received is told from the events alone; a run whose source raised a TimeoutError never
      returns. */
  lemma LostExactly<T>(pre: seq<Event<T>>, e: Event<T>, post: seq<Event<T>>, size: nat)
    requires size >= 1 && !Over(pre) && Final(e)
    ensures var s := Feed(pre + [e] + post, size);
            && Received(pre + [e] + post) == Received(pre) + Arrives(Outstanding(pre), e)
            && (Flatten(s.batches) == Received(pre + [e] + post) <==> Harmless(pre, e, size))
            && (s.exit == Ended <==> e.End?) && (s.exit == Spinning <==> e.OwnTimeout?)
  {
    var es := pre + [e] + post;
    var stopped := pre + [e];
    assert es[..|stopped|] == stopped && stopped[..|pre|] == pre;
    OverSnoc(pre, e, stopped);
    BufferIsRemainder(pre, size);
    RemainderIsMod(SinceTimeout(pre), size);
    NothingIsLost(pre, size);
    NothingIsLost(stopped, size);
    PendingExactly(pre, size);
    FinishedStays(es, |stopped|, size);
    ReceivedStays(es, |stopped|);
    LeftOver(Feed(stopped, size), Received(stopped), size);
  }

  lemma ClosedTooEarly<T>(x: T, y: T)
    ensures var es := [Item(x), Timeout, Close(Some(y))];
            Received(es) == [x, y] && Feed(es, 2) == State([[x]], [], false, 2, [y], Closed)
  {
    var es := [Item(x), Timeout, Close(Some(y))];
    var two: seq<Event<T>> := [Item(x), Timeout];
    var one: seq<Event<T>> := [Item(x)];
    assert es[..2] == two && two[..1] == one && one[..0] == [];
    assert Received(one) == [x] && Feed(one, 2) == State([], [x], false, 1, [], Running);
    assert Received(two) == [x] && Feed(two, 2) == State([[x]], [], true, 2, [], Running);
  }

  /** One item buffered, then an error of the source: the item is gone. A source that raises a
      TimeoutError, with nothing buffered, leaves the loop spinning. And an item that arrives while
      the consumer looks at a batch that a timeout sent is gone when the consumer then closes. */
  lemma LossAndSpin<T>(x: T, y: T)
    ensures var s := Feed([Item(x), Raise], 2);
            s.batches == [] && s.exit == Broken && Received([Item(x), Raise]) == [x]
    ensures forall later: seq<Event<T>> :: Feed([OwnTimeout] + later, 2) == State([], [], false, 1, [], Spinning)
    ensures var es := [Item(x), Timeout, Close(Some(y))];
            Received(es) == [x, y] && Feed(es, 2) == State([[x]], [], false, 2, [y], Closed)
  {
    var lost := [Item(x), Raise];
    assert lost[..1] == [Item(x)] && lost[..1][..0] == [];
    assert Received(lost[..1]) == Received(lost[..1][..0]) + [x] == [x];
    var none: seq<Event<T>> := [];
    var spin: seq<Event<T>> := [OwnTimeout];
    assert spin[..0] == none;
    assert Feed(spin, 2) == State([], [], false, 1, [], Spinning);
    forall later: seq<Event<T>>
      ensures Feed([OwnTimeout] + later, 2) == State([], [], false, 1, [], Spinning)
    {
      assert (spin + later)[..1] == spin;
      FinishedStays(spin + later, 1, 2);
    }
    ClosedTooEarly(x, y);
  }

  // ----- The batches: chunks of what came in between the timeouts ------------------------

  function Chunks<T>(xs: seq<T>, size: nat): seq<seq<T>>
    requires size >= 1
  {
    if |xs| == 0 then [] else if |xs| <= size then [xs] else [xs[..size]] + Chunks(xs[size..], size)
  }

  /** The latest chunk is still short of `size`. */
  predicate Open<T>(cs: seq<seq<T>>, size: nat) { cs != [] && |cs[|cs| - 1]| < size }

  lemma {:induction false} ChunksSnoc<T>(xs: seq<T>, x: T, size: nat)
    requires size >= 1
    ensures var cs := Chunks(xs, size);
            Chunks(xs + [x], size) ==
              if Open(cs, size) then cs[..|cs| - 1] + [cs[|cs| - 1] + [x]] else cs + [[x]]
    decreases |xs|
  {
    if |xs| <= size {
      if |xs| == 0 {
        assert xs + [x] == [x];
      } else if |xs| < size {
        assert [xs][..0] + [xs + [x]] == [xs + [x]];
      } else {
        assert (xs + [x])[..size] == xs && (xs + [x])[size..] == [x];
      }
    } else {
      var rest := Chunks(xs[size..], size);
      assert (xs + [x])[..size] == xs[..size] && (xs + [x])[size..] == xs[size..] + [x];
      ChunksSnoc(xs[size..], x, size);
      assert Chunks(xs, size) == [xs[..size]] + rest;
    }
  }

  /** What came in before the first timeout, between each two, and since the latest one. */
  function Segments<T>(es: seq<Event<T>>): (r: seq<seq<T>>)
    ensures r != []
  {
    if |es| == 0 then [[]]
    else
      var segments := Segments(es[..|es| - 1]);
      var n := |segments| - 1;
      match es[|es| - 1]
      case Timeout => segments + [[]]
      case Item(x) => segments[..n] + [segments[n] + [x]]
      case _ => segments
  }

  function AllChunks<T>(segments: seq<seq<T>>, size: nat): seq<seq<T>>
    requires size >= 1
  {
    if segments == [] then []
    else AllChunks(segments[..|segments| - 1], size) + Chunks(segments[|segments| - 1], size)
  }

  lemma AllChunksSnoc<T>(segments: seq<seq<T>>, segment: seq<T>, size: nat)
    requires size >= 1
    ensures AllChunks(segments + [segment], size) == AllChunks(segments, size) + Chunks(segment, size)
  {
    assert (segments + [segment])[..|segments|] == segments;
  }

  /** The chunks `cs` of the latest segment come after the batches `done`; the last of them is in
      the buffer as long as it is short of `size`. */
  predicate Cut<T(==)>(s: State<T>, done: seq<seq<T>>, cs: seq<seq<T>>, size: nat) {
    if Open(cs, size) then s.batch == cs[|cs| - 1] && s.batches == done + cs[..|cs| - 1]
    else s.batch == [] && s.batches == done + cs
  }

  lemma FlushCut<T>(s: State<T>, done: seq<seq<T>>, cs: seq<seq<T>>, size: nat)
    requires size >= 1 && Cut(s, done, cs, size) && (Open(cs, size) ==> s.batch != [])
    ensures Flush(s).batches == done + cs && Flush(s).batch == []
  {
    if Open(cs, size) {
      assert cs == cs[..|cs| - 1] + [cs[|cs| - 1]];
    }
  }

  lemma {:induction false} NoEmptyChunk<T>(xs: seq<T>, size: nat)
    requires size >= 1
    ensures WellSized(Chunks(xs, size), size)
    decreases |xs|
  {
    if |xs| <= size {
    } else {
      NoEmptyChunk(xs[size..], size);
    }
  }

  lemma ItemCut<T>(s: State<T>, done: seq<seq<T>>, xs: seq<T>, x: T, size: nat)
    requires size >= 1 && s.exit == Running && Cut(s, done, Chunks(xs, size), size)
    ensures Cut(Step(s, Item(x), size), done, Chunks(xs + [x], size), size)
  {
    var cs := Chunks(xs, size);
    ChunksSnoc(xs, x, size);
    NoEmptyChunk(xs, size);
    if Open(cs, size) {
      assert done + cs[..|cs| - 1] + [s.batch + [x]] == done + (cs[..|cs| - 1] + [s.batch + [x]]);
    } else {
      assert done + cs + [[x]] == done + (cs + [[x]]) && [] + [x] == [x];
    }
  }

  lemma {:induction false} RunIsCut<T>(es: seq<Event<T>>, size: nat)
    requires size >= 1 && !Over(es)
    ensures var segments := Segments(es);
            var n := |segments| - 1;
            Cut(Feed(es, size), AllChunks(segments[..n], size), Chunks(segments[n], size), size)
  {
    if |es| == 0 {
    } else {
      var before, e := es[..|es| - 1], es[|es| - 1];
      OverSnoc(before, e, es);
      RunIsCut(before, size);
      RunningExactly(before, size);
      var segments := Segments(before);
      var n := |segments| - 1;
      var s, done := Feed(before, size), AllChunks(segments[..n], size);
      if e.Item? {
        ItemCut(s, done, segments[n], e.value, size);
        assert Segments(es)[..n] == segments[..n];
      } else {
        NoEmptyChunk(segments[n], size);
        FlushCut(s, done, Chunks(segments[n], size), size);
        assert Segments(es)[..n + 1] == segments;
      }
    }
  }

  /** Every timeout sends what is in the buffer as one batch, and so does the end of the source: the
      batches are the chunks of the items between the timeouts, for as long as the loop runs too,
      when what is in the buffer is the last of them. */
  lemma BatchesAreChunks<T>(es: seq<Event<T>>, size: nat)
    requires size >= 1 && !Over(es)
    ensures var s, all := Feed(es, size), AllChunks(Segments(es), size);
            && s.batches + (if s.batch == [] then [] else [s.batch]) == all
            && Feed(es + [Timeout], size).batches == Feed(es + [End], size).batches == all
  {
    var s := Feed(es, size);
    var segments := Segments(es);
    var n := |segments| - 1;
    assert (es + [End])[..|es|] == es && (es + [Timeout])[..|es|] == es;
    RunIsCut(es, size);
    RunningExactly(es, size);
    NoEmptyChunk(segments[n], size);
    FlushCut(s, AllChunks(segments[..n], size), Chunks(segments[n], size), size);
    assert Flush(s).batches == s.batches + (if s.batch == [] then [] else [s.batch]);
  }

  lemma {:induction false} OneSegment<T>(es: seq<Event<T>>)
    requires Plain(es)
    ensures Segments(es) == [Received(es)]
  {
    if es == [] {
    } else {
      var before := es[..|es| - 1];
      OneSegment(before);
      assert !Over(before);
    }
  }

  /** With no timeouts the batches are the source cut into pieces of `size`. */
  lemma ExactChunks<T>(es: seq<Event<T>>, size: nat)
    requires size >= 1 && Plain(es)
    ensures Feed(es + [End], size).batches == Chunks(Received(es), size)
  {
    BatchesAreChunks(es, size);
    OneSegment(es);
    AllChunksSnoc([], Received(es), size);
  }

  /** The generator's loop, run on whatever its waits end with. */
  method Batched<T>(es: seq<Event<T>>, size: int) returns (r: Result<State<T>, BatchError>)
    ensures size < 1 <==> r == Err(SizeTooSmall)
    ensures size >= 1 ==> r == Ok(Feed(es, size))
  {
    if size < 1 {
      return Err(SizeTooSmall);
    }
    var batches: seq<seq<T>> := [];
    var batch: seq<T> := [];
    var pending, requests := false, 0;
    var exit := Running;
    var dropped: seq<T> := [];
    var i := 0;
    while i < |es|
      invariant 0 <= i <= |es|
      invariant exit == Running && dropped == []
      invariant Feed(es[..i], size) == State(batches, batch, pending, requests, [], Running)
    {
      assert es[..i + 1][..i] == es[..i];
      assert Feed(es[..i + 1], size) == Step(State(batches, batch, pending, requests, [], Running), es[i], size);
      if es[i].Close? {
        FinishedStays(es, i + 1, size);
        return Ok(State(batches, batch, false, requests, if pending then Held(es[i].arrived) else [], Closed));
      }
      if !pending {
        pending := true;
        requests := requests + 1;
      }
      match es[i] {
        case Timeout =>
          if |batch| > 0 {
            batches := batches + [batch];
            batch := [];
          }
        case Raise =>
          exit := Broken;
        case Cancel(arrived) =>
          exit, dropped := Broken, Held(arrived);
        case Close(_) =>
          assert false;
        case OwnTimeout =>
          exit := Spinning;
          if |batch| > 0 {
            batches := batches + [batch];
            batch := [];
          }
        case End =>
          exit := Ended;
          if |batch| > 0 {
            batches := batches + [batch];
            batch := [];
          }
        case Item(x) =>
          pending := false;
          batch := batch + [x];
          if |batch| >= size {
            batches := batches + [batch];
            batch := [];
          }
      }
      i := i + 1;
      if exit != Running {
        FinishedStays(es, i, size);
        return Ok(State(batches, batch, false, requests, dropped, exit));
      }
    }
    assert es[..|es|] == es;
    return Ok(State(batches, batch, pending, requests, [], Running));
  }
}
