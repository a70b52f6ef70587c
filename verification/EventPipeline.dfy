/**
  One subscription from polling to acknowledgement: the poll loop (internal/events/subscription.go), the channel to the
  dispatcher, the batches of the stream, which other subscriptions share (internal/events/eventstream.go), and the
  high-water mark (internal/events/logprocessor.go).
 */
module EventPipeline {
  import opened Options
  import opened HighWaterMarks
  import opened EventBatches
  import Subs = Subscriptions

  /** `stream.marks` holds the marks of the other subscriptions; that of `sub` is in `world`. */
  datatype Pipeline = Pipeline(sub: string, world: Subs.World, channel: seq<Event>, stream: Stream)

  datatype Move =
    | PollOnce(ans: Subs.PollAnswers)
    | OtherDispatches(event: Event)       // another subscription puts an event into the channel
    | Receive                             // the dispatcher takes an event from the channel
    | TimeOut
    | TakeNext
    | Finish                              // a batch has been delivered, and the callbacks of its newest events run

  /** The blocks of the events of one subscription, in order. */
  function Of(events: seq<Event>, sub: string): seq<int> {
    if events == [] then []
    else
      var last := |events| - 1;
      Of(events[..last], sub) + if events[last].sub == sub then [events[last].block] else []
  }

  function Tagged(blocks: seq<int>, sub: string): seq<Event> {
    seq(|blocks|, i requires 0 <= i < |blocks| => Event(sub, blocks[i]))
  }

  /** Everything dispatched and not acknowledged, oldest first. */
  function Outstanding(p: Pipeline): seq<Event> {
    InProcess(p.stream) + (Waiting(p.stream) + p.channel)
  }

  /** No later event of the subscription lies in the block of the batch's newest one. */
  predicate KeepsBlocksWhole(p: Pipeline) {
    p.stream.processing.Some? ==>
      forall i :: 0 <= i < |Waiting(p.stream) + p.channel| && (Waiting(p.stream) + p.channel)[i].sub == p.sub ==>
        BeyondNewest(p.stream.processing.value, (Waiting(p.stream) + p.channel)[i])
  }

  predicate CanMove(p: Pipeline, conf: Subs.Config, m: Move) {
    match m
    case PollOnce(ans) => Subs.Possible(p.world, conf, Subs.PollStep(ans))
    case OtherDispatches(e) => e.sub != p.sub
    case Receive => p.channel != []
    case TimeOut => Possible(p.stream, BatchTimeout)
    case TakeNext => Possible(p.stream, TakeBatch)
    case Finish => Possible(p.stream, FinishBatch) && KeepsBlocksWhole(p)
  }

  /** What the callback of the newest event of a batch does to the subscription's mark. */
  function Acknowledged(w: Subs.World, batch: seq<Event>, sub: string): Subs.World {
    var newest := NewestOf(batch, sub);
    if newest.None? then w
    else
      w.(acked := w.acked + |Of(batch, sub)|, sub := w.sub.(marks := PastBatch(w.sub.marks, newest.value.block)))
  }

  function Moved(p: Pipeline, conf: Subs.Config, m: Move): Pipeline
    requires CanMove(p, conf, m)
  {
    match m
    case PollOnce(ans) =>
      var r := Subs.Poll(p.world.sub, Some(p.world.stored), conf, ans);
      p.(world := Subs.Next(p.world, conf, Subs.PollStep(ans)), channel := p.channel + Tagged(r.dispatched, p.sub))
    case OtherDispatches(e) => p.(channel := p.channel + [e])
    case Receive => p.(channel := p.channel[1..], stream := AfterArrival(p.stream, p.channel[0]))
    case TimeOut => p.(stream := AfterTimeout(p.stream))
    case TakeNext => p.(stream := AfterTake(p.stream))
    case Finish =>
      p.(world := Acknowledged(p.world, p.stream.processing.value, p.sub), stream := AfterFinish(p.stream))
  }

  predicate CanRun(p: Pipeline, conf: Subs.Config, moves: seq<Move>)
    decreases |moves|
  {
    moves != [] ==> CanMove(p, conf, moves[0]) && CanRun(Moved(p, conf, moves[0]), conf, moves[1..])
  }

  function Ran(p: Pipeline, conf: Subs.Config, moves: seq<Move>): Pipeline
    requires CanRun(p, conf, moves)
    decreases |moves|
  {
    if moves == [] then p else Ran(Moved(p, conf, moves[0]), conf, moves[1..])
  }

  // ------------------------------------------------------------------ the stream inside

  /** What a move is for the stream. */
  function StepsOf(p: Pipeline, m: Move): seq<Step>
    requires m.Receive? ==> p.channel != []
  {
    match m
    case PollOnce(_) => []
    case OtherDispatches(_) => []
    case Receive => [Arrive(p.channel[0])]
    case TimeOut => [BatchTimeout]
    case TakeNext => [TakeBatch]
    case Finish => [FinishBatch]
  }

  function StepsThrough(p: Pipeline, conf: Subs.Config, moves: seq<Move>): seq<Step>
    requires CanRun(p, conf, moves)
    decreases |moves|
  {
    if moves == [] then [] else StepsOf(p, moves[0]) + StepsThrough(Moved(p, conf, moves[0]), conf, moves[1..])
  }

  /** In every run of the pipeline the stream goes through a run of its own, with the events of the channel in order. */
  lemma {:induction false} StreamRunsTheBatchModel(p: Pipeline, conf: Subs.Config, moves: seq<Move>)
    requires CanRun(p, conf, moves)
    ensures var steps := StepsThrough(p, conf, moves);
            PossibleRun(p.stream, steps) && Ran(p, conf, moves).stream == After(p.stream, steps)
    decreases |moves|
  {
    if moves != [] {
      var p' := Moved(p, conf, moves[0]);
      StreamRunsTheBatchModel(p', conf, moves[1..]);
      var first, rest := StepsOf(p, moves[0]), StepsThrough(p', conf, moves[1..]);
      if first == [] {
        assert first + rest == rest;
      } else {
        assert (first + rest)[1..] == rest;
      }
    }
  }

  /** What a move puts into the channel. */
  function PutBy(p: Pipeline, conf: Subs.Config, m: Move): seq<Event> {
    match m
    case PollOnce(ans) => Tagged(Subs.Poll(p.world.sub, Some(p.world.stored), conf, ans).dispatched, p.sub)
    case OtherDispatches(e) => [e]
    case _ => []
  }

  function PutThrough(p: Pipeline, conf: Subs.Config, moves: seq<Move>): seq<Event>
    requires CanRun(p, conf, moves)
    decreases |moves|
  {
    if moves == [] then [] else PutBy(p, conf, moves[0]) + PutThrough(Moved(p, conf, moves[0]), conf, moves[1..])
  }

  lemma ReceivedFirst(step: Step, rest: seq<Step>)
    ensures Received([step] + rest) == (if step.Arrive? then [step.event] else []) + Received(rest)
  {
    assert ([step] + rest)[1..] == rest;
  }

  lemma ReceivedInTwo(p: Pipeline, m: Move, rest: seq<Step>)
    requires m.Receive? ==> p.channel != []
    ensures Received(StepsOf(p, m) + rest) == (if m.Receive? then [p.channel[0]] else []) + Received(rest)
  {
    if StepsOf(p, m) == [] {
      assert StepsOf(p, m) + rest == rest;
    } else {
      ReceivedFirst(StepsOf(p, m)[0], rest);
    }
  }

  lemma MoveKeepsOrder(p: Pipeline, conf: Subs.Config, m: Move)
    requires CanMove(p, conf, m)
    ensures (if m.Receive? then [p.channel[0]] else []) + Moved(p, conf, m).channel == p.channel + PutBy(p, conf, m)
  {
  }

  lemma Regroup(taken: seq<Event>, received: seq<Event>, left: seq<Event>, now: seq<Event>, put: seq<Event>,
                before: seq<Event>, first: seq<Event>)
    requires received + left == now + put && taken + now == before + first
    ensures taken + received + left == before + (first + put)
  {
    assert taken + received + left == taken + (received + left);
    assert taken + (now + put) == taken + now + put;
    assert before + first + put == before + (first + put);
  }

  /** Whoever puts an event into the channel, the stream receives all of them in that order. */
  lemma {:induction false} ChannelKeepsOrder(p: Pipeline, conf: Subs.Config, moves: seq<Move>)
    requires CanRun(p, conf, moves)
    ensures Received(StepsThrough(p, conf, moves)) + Ran(p, conf, moves).channel
            == p.channel + PutThrough(p, conf, moves)
    decreases |moves|
  {
    if moves != [] {
      var p', rest := Moved(p, conf, moves[0]), moves[1..];
      ChannelKeepsOrder(p', conf, rest);
      ReceivedInTwo(p, moves[0], StepsThrough(p', conf, rest));
      MoveKeepsOrder(p, conf, moves[0]);
      Regroup(if moves[0].Receive? then [p.channel[0]] else [], Received(StepsThrough(p', conf, rest)),
              Ran(p', conf, rest).channel, p'.channel, PutThrough(p', conf, rest), p.channel, PutBy(p, conf, moves[0]));
    }
  }

  // ------------------------------------------------------------------ events of one subscription

  lemma {:induction false} OfConcatenation(a: seq<Event>, b: seq<Event>, sub: string)
    ensures Of(a + b, sub) == Of(a, sub) + Of(b, sub)
    decreases |b|
  {
    if b == [] {
      assert a + b == a;
    } else {
      var last := |b| - 1;
      assert (a + b)[..|a + b| - 1] == a + b[..last];
      OfConcatenation(a, b[..last], sub);
    }
  }

  lemma {:induction false} OfTagged(blocks: seq<int>, sub: string)
    ensures Of(Tagged(blocks, sub), sub) == blocks
    decreases |blocks|
  {
    if blocks != [] {
      var last := |blocks| - 1;
      assert Tagged(blocks, sub)[..last] == Tagged(blocks[..last], sub);
      OfTagged(blocks[..last], sub);
      assert blocks[..last] + [blocks[last]] == blocks;
    }
  }

  /** The event whose callback runs is the last one of the subscription in the batch. */
  lemma {:induction false} NewestIsLast(batch: seq<Event>, sub: string)
    ensures NewestOf(batch, sub).Some? <==> Of(batch, sub) != []
    ensures NewestOf(batch, sub).Some? ==> NewestOf(batch, sub).value.block == Of(batch, sub)[|Of(batch, sub)| - 1]
    decreases |batch|
  {
    if batch != [] {
      NewestIsLast(batch[..|batch| - 1], sub);
    }
  }

  /** The first of these blocks belongs to one of these events. */
  lemma {:induction false} FirstOf(events: seq<Event>, sub: string) returns (i: nat)
    requires Of(events, sub) != []
    ensures i < |events| && events[i] == Event(sub, Of(events, sub)[0])
    decreases |events|
  {
    var last := |events| - 1;
    if Of(events[..last], sub) != [] {
      i := FirstOf(events[..last], sub);
    } else {
      i := last;
    }
  }

  lemma {:induction false} OfContains(events: seq<Event>, sub: string, i: nat) returns (j: nat)
    requires i < |events| && events[i].sub == sub
    ensures j < |Of(events, sub)| && Of(events, sub)[j] == events[i].block
    decreases |events|
  {
    var last := |events| - 1;
    if i == last {
      j := |Of(events[..last], sub)|;
    } else {
      j := OfContains(events[..last], sub, i);
    }
  }

  // ------------------------------------------------------------------ the pipeline follows the subscription

  /** `done` and `rest` are the acknowledged and the unacknowledged part of what was dispatched. */
  predicate Splits(dispatched: seq<int>, acked: nat, done: seq<int>, rest: seq<int>) {
    acked <= |dispatched| && done == dispatched[..acked] && rest == dispatched[acked..]
  }

  lemma SplitGrows(dispatched: seq<int>, acked: nat, done: seq<int>, rest: seq<int>, more: seq<int>)
    requires Splits(dispatched, acked, done, rest)
    ensures Splits(dispatched + more, acked, done, rest + more)
  {
  }

  lemma SplitMoves(dispatched: seq<int>, acked: nat, done: seq<int>, mine: seq<int>, rest: seq<int>)
    requires Splits(dispatched, acked, done, mine + rest)
    ensures Splits(dispatched, acked + |mine|, done + mine, rest)
  {
    assert dispatched == done + (mine + rest);
  }

  /** What has been acknowledged and what is outstanding, in order, is what the subscription has dispatched. */
  predicate Aligned(p: Pipeline) {
    Splits(p.world.dispatched, p.world.acked, Of(p.stream.done, p.sub), Of(Outstanding(p), p.sub))
  }

  ghost predicate Sound(p: Pipeline, conf: Subs.Config, received: seq<Event>) {
    Aligned(p) && Conserves(p.stream, received) && Subs.RunSafe(p.world, conf)
  }

  lemma OutstandingGrows(p: Pipeline, p': Pipeline, more: seq<Event>)
    requires p'.stream == p.stream && p'.channel == p.channel + more && p'.sub == p.sub
    ensures Of(Outstanding(p'), p.sub) == Of(Outstanding(p), p.sub) + Of(more, p.sub)
  {
    var now, before := InProcess(p.stream), Waiting(p.stream);
    assert now + (before + (p.channel + more)) == (now + (before + p.channel)) + more;
    OfConcatenation(Outstanding(p), more, p.sub);
  }

  lemma DispatchKeepsAligned(p: Pipeline, p': Pipeline, more: seq<Event>)
    requires Aligned(p) && p'.stream == p.stream && p'.channel == p.channel + more && p'.sub == p.sub
    requires p'.world.dispatched == p.world.dispatched + Of(more, p.sub) && p'.world.acked == p.world.acked
    ensures Aligned(p')
  {
    OutstandingGrows(p, p', more);
    SplitGrows(p.world.dispatched, p.world.acked, Of(p.stream.done, p.sub), Of(Outstanding(p), p.sub),
               Of(more, p.sub));
  }

  lemma PollKeepsAligned(p: Pipeline, conf: Subs.Config, ans: Subs.PollAnswers)
    requires Aligned(p) && CanMove(p, conf, PollOnce(ans))
    ensures Aligned(Moved(p, conf, PollOnce(ans)))
  {
    var blocks := Subs.Poll(p.world.sub, Some(p.world.stored), conf, ans).dispatched;
    OfTagged(blocks, p.sub);
    DispatchKeepsAligned(p, Moved(p, conf, PollOnce(ans)), Tagged(blocks, p.sub));
  }

  lemma OtherKeepsAligned(p: Pipeline, e: Event)
    requires Aligned(p) && e.sub != p.sub
    ensures Aligned(p.(channel := p.channel + [e]))
  {
    OfSingle(e, p.sub);
    assert p.world.dispatched + [] == p.world.dispatched;
    DispatchKeepsAligned(p, p.(channel := p.channel + [e]), [e]);
  }

  lemma OfSingle(e: Event, sub: string)
    ensures Of([e], sub) == if e.sub == sub then [e.block] else []
  {
    assert [e][..0] == [];
  }

  /** The stream's own steps hand events on without losing or reordering any. */
  lemma StreamStepKeepsOutstanding(p: Pipeline, conf: Subs.Config, m: Move)
    requires CanMove(p, conf, m) && (m.Receive? || m.TimeOut? || m.TakeNext?)
    ensures Outstanding(Moved(p, conf, m)) == Outstanding(p) && Moved(p, conf, m).stream.done == p.stream.done
  {
    match m
    case Receive =>
      ArrivalWaits(p.stream, p.channel[0]);
      assert p.channel == [p.channel[0]] + p.channel[1..];
      assert Waiting(AfterArrival(p.stream, p.channel[0])) + p.channel[1..] == Waiting(p.stream) + p.channel;
    case TimeOut =>
      FlattenAppend(p.stream.queue, p.stream.current);
      assert Waiting(AfterTimeout(p.stream)) == Waiting(p.stream);
    case TakeNext =>
      var s' := AfterTake(p.stream);
      assert Waiting(p.stream) == InProcess(s') + Waiting(s');
      Associative(InProcess(s'), Waiting(s'), p.channel);
  }

  lemma StreamStepKeepsAligned(p: Pipeline, conf: Subs.Config, m: Move)
    requires Aligned(p) && CanMove(p, conf, m) && (m.Receive? || m.TimeOut? || m.TakeNext?)
    ensures Aligned(Moved(p, conf, m))
  {
    StreamStepKeepsOutstanding(p, conf, m);
  }

  /** The events of the subscription that are acknowledged next, and those after them. */
  lemma OutstandingSplits(p: Pipeline)
    requires p.stream.processing.Some?
    ensures Of(Outstanding(p), p.sub) ==
            Of(p.stream.processing.value, p.sub) + Of(Waiting(p.stream) + p.channel, p.sub)
  {
    OfConcatenation(p.stream.processing.value, Waiting(p.stream) + p.channel, p.sub);
  }

  lemma FinishKeepsAligned(p: Pipeline)
    requires Aligned(p) && p.stream.processing.Some?
    ensures Aligned(p.(world := Acknowledged(p.world, p.stream.processing.value, p.sub),
                       stream := AfterFinish(p.stream)))
  {
    var batch, later := p.stream.processing.value, Waiting(p.stream) + p.channel;
    OutstandingSplits(p);
    SplitMoves(p.world.dispatched, p.world.acked, Of(p.stream.done, p.sub), Of(batch, p.sub), Of(later, p.sub));
    OfConcatenation(p.stream.done, batch, p.sub);
    AcknowledgedCounts(p.world, batch, p.sub);
    FinishLeaves(p);
  }

  lemma FinishLeaves(p: Pipeline)
    requires p.stream.processing.Some?
    ensures InProcess(AfterFinish(p.stream)) + (Waiting(AfterFinish(p.stream)) + p.channel) ==
            Waiting(p.stream) + p.channel
    ensures AfterFinish(p.stream).done == p.stream.done + p.stream.processing.value
  {
  }

  lemma AcknowledgedCounts(w: Subs.World, batch: seq<Event>, sub: string)
    ensures Acknowledged(w, batch, sub).acked == w.acked + |Of(batch, sub)|
    ensures Acknowledged(w, batch, sub).dispatched == w.dispatched
  {
    NewestIsLast(batch, sub);
  }

  /** The next unacknowledged block of the subscription lies beyond its newest one in the batch. */
  lemma NextBlockIsBeyond(p: Pipeline)
    requires p.stream.processing.Some? && KeepsBlocksWhole(p)
    ensures var mine := Of(p.stream.processing.value, p.sub);
            var rest := Of(Waiting(p.stream) + p.channel, p.sub);
            mine != [] && rest != [] ==> mine[|mine| - 1] < rest[0]
  {
    var batch, later := p.stream.processing.value, Waiting(p.stream) + p.channel;
    NewestIsLast(batch, p.sub);
    if Of(later, p.sub) != [] {
      var i := FirstOf(later, p.sub);
      assert NewestOf(batch, p.sub).Some? ==> BeyondNewest(batch, later[i]);
    }
  }

  lemma SplitAt(dispatched: seq<int>, acked: nat, done: seq<int>, mine: seq<int>, rest: seq<int>)
    requires Splits(dispatched, acked, done, mine + rest)
    ensures acked + |mine| <= |dispatched|
    ensures mine != [] ==> dispatched[acked + |mine| - 1] == mine[|mine| - 1]
    ensures rest != [] ==> acked + |mine| < |dispatched| && dispatched[acked + |mine|] == rest[0]
    ensures rest == [] ==> acked + |mine| == |dispatched|
  {
    assert forall i :: 0 <= i < |mine + rest| ==> dispatched[acked + i] == (mine + rest)[i];
    assert mine != [] ==> (mine + rest)[|mine| - 1] == mine[|mine| - 1];
    assert rest != [] ==> (mine + rest)[|mine|] == rest[0];
  }

  /** The acknowledgement of a batch is the subscription's own acknowledgement of its events in the batch. */
  lemma FinishIsAck(p: Pipeline, conf: Subs.Config)
    requires Aligned(p) && p.stream.processing.Some? && KeepsBlocksWhole(p)
    ensures var batch := p.stream.processing.value;
            var n := |Of(batch, p.sub)|;
            if n == 0 then Acknowledged(p.world, batch, p.sub) == p.world
            else
              && Subs.Possible(p.world, conf, Subs.Ack(n))
              && Acknowledged(p.world, batch, p.sub) == Subs.Next(p.world, conf, Subs.Ack(n))
  {
    var batch, later := p.stream.processing.value, Waiting(p.stream) + p.channel;
    OutstandingSplits(p);
    SplitAt(p.world.dispatched, p.world.acked, Of(p.stream.done, p.sub), Of(batch, p.sub), Of(later, p.sub));
    NextBlockIsBeyond(p);
    NewestIsLast(batch, p.sub);
  }

  lemma FinishKeepsRunSafe(p: Pipeline, conf: Subs.Config)
    requires Subs.Sane(conf) && Subs.RunSafe(p.world, conf)
    requires Aligned(p) && p.stream.processing.Some? && KeepsBlocksWhole(p)
    ensures Subs.RunSafe(Acknowledged(p.world, p.stream.processing.value, p.sub), conf)
  {
    FinishIsAck(p, conf);
    var n := |Of(p.stream.processing.value, p.sub)|;
    if n > 0 {
      Subs.StepKeepsRunSafe(p.world, conf, Subs.Ack(n));
    }
  }

  lemma MoveKeepsSound(p: Pipeline, conf: Subs.Config, m: Move, received: seq<Event>)
    requires Subs.Sane(conf) && Sound(p, conf, received) && CanMove(p, conf, m)
    ensures Sound(Moved(p, conf, m), conf, received + if m.Receive? then [p.channel[0]] else [])
  {
    assert received + [] == received;
    match m
    case PollOnce(ans) =>
      PollKeepsAligned(p, conf, ans);
      Subs.StepKeepsRunSafe(p.world, conf, Subs.PollStep(ans));
    case OtherDispatches(e) => OtherKeepsAligned(p, e);
    case Receive =>
      StreamStepKeepsAligned(p, conf, m);
      ArrivalConserves(p.stream, p.channel[0], received);
    case TimeOut =>
      StreamStepKeepsAligned(p, conf, m);
      TimeoutConserves(p.stream, received);
    case TakeNext =>
      StreamStepKeepsAligned(p, conf, m);
      TakeConserves(p.stream, received);
    case Finish =>
      FinishKeepsAligned(p);
      FinishConserves(p.stream, received);
      FinishKeepsRunSafe(p, conf);
  }

  lemma {:induction false} SoundThroughout(p: Pipeline, conf: Subs.Config, moves: seq<Move>, received: seq<Event>)
    returns (all: seq<Event>)
    requires Subs.Sane(conf) && Sound(p, conf, received) && CanRun(p, conf, moves)
    ensures Sound(Ran(p, conf, moves), conf, all)
    decreases |moves|
  {
    if moves == [] {
      all := received;
    } else {
      MoveKeepsSound(p, conf, moves[0], received);
      all := SoundThroughout(Moved(p, conf, moves[0]), conf, moves[1..],
                             received + if moves[0].Receive? then [p.channel[0]] else []);
    }
  }

  function Begin(sub: string, start: int, batchSize: nat): Pipeline {
    Pipeline(sub, Subs.Begin(start), [], Stream(batchSize, 0, [], [], None, [], map[]))
  }

  lemma BeginIsSound(sub: string, start: int, batchSize: nat, conf: Subs.Config)
    requires start > 0 && batchSize > 0
    ensures Sound(Begin(sub, start, batchSize), conf, [])
  {
    assert Outstanding(Begin(sub, start, batchSize)) == [];
  }

  /** Every outstanding event of the subscription is at or above its mark and its stored checkpoint. */
  ghost predicate Recoverable(p: Pipeline) {
    forall i :: 0 <= i < |Outstanding(p)| && Outstanding(p)[i].sub == p.sub ==>
      p.world.stored <= p.world.sub.marks.hwm <= Outstanding(p)[i].block
  }

  lemma RestAt(dispatched: seq<int>, acked: nat, done: seq<int>, rest: seq<int>, hwm: int)
    requires Splits(dispatched, acked, done, rest) && Subs.Separates(hwm, dispatched, acked)
    ensures done + rest == dispatched && forall j :: 0 <= j < |rest| ==> hwm <= rest[j]
  {
    forall j | 0 <= j < |rest| ensures hwm <= rest[j] {
      assert rest[j] == dispatched[acked + j];
    }
  }

  lemma AlignedIsRecoverable(p: Pipeline, conf: Subs.Config)
    requires Aligned(p) && Subs.RunSafe(p.world, conf)
    ensures Recoverable(p) && Of(p.stream.done, p.sub) + Of(Outstanding(p), p.sub) == p.world.dispatched
  {
    RestAt(p.world.dispatched, p.world.acked, Of(p.stream.done, p.sub), Of(Outstanding(p), p.sub),
           p.world.sub.marks.hwm);
    forall i | 0 <= i < |Outstanding(p)| && Outstanding(p)[i].sub == p.sub
      ensures p.world.stored <= p.world.sub.marks.hwm <= Outstanding(p)[i].block
    {
      var j := OfContains(Outstanding(p), p.sub, i);
    }
  }

  /**
    End to end, in every run from a usable checkpoint, with any interleaving of polls, other subscriptions, batching,
    delivery and acknowledgement, and as long as no block is split across two batches: what has been acknowledged
    followed by what is outstanding is exactly what was dispatched, in order, and every outstanding event of the
    subscription is at or above both the mark and the stored checkpoint.
   */
  lemma OutstandingEventsAreReread(sub: string, start: int, batchSize: nat, conf: Subs.Config, moves: seq<Move>)
    requires Subs.Sane(conf) && start > 0 && batchSize > 0 && CanRun(Begin(sub, start, batchSize), conf, moves)
    ensures var p := Ran(Begin(sub, start, batchSize), conf, moves);
            Recoverable(p) && Of(p.stream.done, p.sub) + Of(Outstanding(p), p.sub) == p.world.dispatched
  {
    BeginIsSound(sub, start, batchSize, conf);
    var received := SoundThroughout(Begin(sub, start, batchSize), conf, moves, []);
    AlignedIsRecoverable(Ran(Begin(sub, start, batchSize), conf, moves), conf);
  }
}
