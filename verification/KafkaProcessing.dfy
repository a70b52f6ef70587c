/**
  The Kafka bridge and the transaction processor together (internal/kafka/kafkabridge.go, internal/tx/txnprocessor.go):
  a message that enters the in-flight table of the bridge is handed to the processor, the reply of the processor is what
  the producer confirms, and the confirmation is what removes the message. Deliveries have the same number on both
  sides.
 */
module KafkaProcessing {
  import opened Options
  import opened Nonces
  import Bridge = KafkaOffsets
  import Tx = Lifecycle

  datatype World = World(bridge: Bridge.World, processor: Tx.World)

  datatype Event =
    | Take(k: Bridge.Key, msg: Tx.Message)   // the consumer loop takes a message and, unless it is listed, hands it on
    | Process(e: Tx.Event)                   // a step of the processor, which may send the one reply of a delivery
    | Confirm(i: nat)                        // the producer reports that reply as written

  /** The delivery whose reply is sent by a step. */
  function RepliesTo(e: Tx.Event): Option<nat> {
    match e
    case Answer(d) => Some(d)
    case ReplyError(d) => Some(d)
    case Notify(d) => Some(d)
    case _ => None
  }

  predicate Possible(w: World, e: Event) {
    match e
    case Take(k, _) => Bridge.Possible(w.bridge, Bridge.Receive(k))
    case Process(step) => !step.Deliver? && Tx.Possible(w.processor, step)
    case Confirm(i) => Bridge.Possible(w.bridge, Bridge.Confirm(i))
  }

  ghost function Next(w: World, e: Event): World
    requires Possible(w, e)
  {
    match e
    case Take(k, msg) =>
      if k in w.bridge.table then w
      else
        World(Bridge.Next(w.bridge, Bridge.Receive(k)),
              Tx.Update(w.processor, |w.bridge.log|, Tx.Delivery(msg, Tx.Received, 0, 0, 0)))
    case Process(step) =>
      var d := RepliesTo(step);
      World(if d.Some? then w.bridge.(replied := w.bridge.replied + {d.value}) else w.bridge,
            Tx.Next(w.processor, step))
    case Confirm(i) => w.(bridge := Bridge.Next(w.bridge, Bridge.Confirm(i)))
  }

  ghost predicate PossibleRun(w: World, events: seq<Event>)
    decreases |events|
  {
    events != [] ==> Possible(w, events[0]) && PossibleRun(Next(w, events[0]), events[1..])
  }

  ghost function After(w: World, events: seq<Event>): World
    requires PossibleRun(w, events)
    decreases |events|
  {
    if events == [] then w else After(Next(w, events[0]), events[1..])
  }

  function Start(maxInFlight: nat, store: map<string, string>): World {
    World(Bridge.Start(maxInFlight), Tx.Start(store))
  }

  lemma Prepend(w: World, e: Event, rest: seq<Event>)
    requires Possible(w, e) && PossibleRun(Next(w, e), rest)
    ensures PossibleRun(w, [e] + rest) && After(w, [e] + rest) == After(Next(w, e), rest)
  {
    assert ([e] + rest)[1..] == rest;
  }

  // ------------------------------------------------------------------ how the two sides agree

  /** Both sides know the same deliveries and agree on which have replied. */
  ghost predicate Agree(w: World) {
    && (forall d :: d in w.processor.deliveries <==> 0 <= d < |w.bridge.log|)
    && (forall d :: d in w.processor.deliveries ==> (d in w.bridge.replied <==> w.processor.deliveries[d].replies > 0))
  }

  ghost predicate Linked(w: World) {
    Bridge.Inv(w.bridge) && Tx.AllAccounted(w.processor) && Agree(w)
  }

  /** The processor's reply is a step of the bridge. */
  lemma ReplyIsPossible(w: World, step: Tx.Event)
    requires Linked(w) && Possible(w, Process(step)) && RepliesTo(step).Some?
    ensures Bridge.Possible(w.bridge, Bridge.Reply(RepliesTo(step).value))
    ensures Next(w, Process(step)).bridge == Bridge.Next(w.bridge, Bridge.Reply(RepliesTo(step).value))
  {
    var d := RepliesTo(step).value;
    assert Tx.Accounted(w.processor.deliveries[d]);
  }

  lemma StepAgrees(w: World, e: Event)
    requires Linked(w) && Possible(w, e)
    ensures Agree(Next(w, e)) && Tx.AllAccounted(Next(w, e).processor)
  {
    match e
    case Take(k, msg) =>
      assert Bridge.RepliesOK(w.bridge);
    case Process(step) =>
      ProcessAgrees(w, step);
    case Confirm(i) =>
      assert Next(w, e).bridge.log == w.bridge.log && Next(w, e).bridge.replied == w.bridge.replied;
  }

  lemma ProcessAgrees(w: World, step: Tx.Event)
    requires Linked(w) && Possible(w, Process(step))
    ensures Agree(Next(w, Process(step))) && Tx.AllAccounted(Next(w, Process(step)).processor)
  {
    var w' := Next(w, Process(step));
    forall d | d in w'.processor.deliveries
      ensures d in w.processor.deliveries && Tx.Accounted(w'.processor.deliveries[d])
      ensures d in w'.bridge.replied <==> w'.processor.deliveries[d].replies > 0
    {
      SameDeliveries(w.processor, step, d);
      ProcessAccounts(w.processor, step, d);
    }
    forall d | d in w.processor.deliveries ensures d in w'.processor.deliveries {
      SameDeliveries(w.processor, step, d);
    }
  }

  lemma SameDeliveries(p: Tx.World, step: Tx.Event, d: nat)
    requires Tx.Possible(p, step) && !step.Deliver?
    ensures d in Tx.Next(p, step).deliveries <==> d in p.deliveries
  {
  }

  /** A delivery stays accounted for, and the step that raises its replies from none is the one that replies to it. */
  lemma ProcessAccounts(p: Tx.World, step: Tx.Event, d: nat)
    requires Tx.Possible(p, step) && d in p.deliveries && Tx.Accounted(p.deliveries[d])
    ensures d in Tx.Next(p, step).deliveries && Tx.Accounted(Tx.Next(p, step).deliveries[d])
    ensures Tx.Next(p, step).deliveries[d].replies > 0 <==> p.deliveries[d].replies > 0 || RepliesTo(step) == Some(d)
  {
  }

  lemma StepKeepsLinked(w: World, e: Event)
    requires Linked(w) && Possible(w, e)
    ensures Linked(Next(w, e))
  {
    StepAgrees(w, e);
    match e
    case Take(k, _) => Bridge.StepKeepsInv(w.bridge, Bridge.Receive(k));
    case Process(step) =>
      if RepliesTo(step).Some? {
        ReplyIsPossible(w, step);
        Bridge.StepKeepsInv(w.bridge, Bridge.Reply(RepliesTo(step).value));
      }
    case Confirm(i) => Bridge.StepKeepsInv(w.bridge, Bridge.Confirm(i));
  }

  lemma {:induction false} LinkedThroughout(w: World, events: seq<Event>)
    requires Linked(w) && PossibleRun(w, events)
    ensures Linked(After(w, events))
    decreases |events|
  {
    if events != [] {
      StepKeepsLinked(w, events[0]);
      LinkedThroughout(Next(w, events[0]), events[1..]);
    }
  }

  // ------------------------------------------------------------------ entries that never go

  predicate Skipped(w: World, d: nat) {
    d in w.processor.deliveries && w.processor.deliveries[d].stage == Tx.Done(true)
  }

  /** The message is in the table for a delivery that the processor has skipped. */
  predicate Stuck(w: World, k: Bridge.Key) {
    k in w.bridge.table && Skipped(w, w.bridge.table[k].delivery)
  }

  lemma SkippedStays(w: World, e: Event, d: nat)
    requires Linked(w) && Possible(w, e) && Skipped(w, d)
    ensures Skipped(Next(w, e), d) && d !in Next(w, e).bridge.replied
  {
    StepAgrees(w, e);
    if e.Process? {
      Tx.OwnStepsMakeProgress(w.processor, e.e, d);
    }
    assert Tx.Accounted(Next(w, e).processor.deliveries[d]);
  }

  lemma ReadyIsBelowIncomplete(t: Bridge.Table, k: Bridge.Key, top: Bridge.Key)
    requires k in t && !t[k].complete && Bridge.Ready(t, top)
    ensures top.partition == k.partition ==> top.offset < k.offset
  {
    assert Bridge.AtOrBelow(t, k, top) <==> top.partition == k.partition && k.offset <= top.offset;
  }

  /** Confirming another delivery neither completes nor removes the entry, and marks nothing from it on. */
  lemma ConfirmLeavesStuck(w: World, k: Bridge.Key, i: nat)
    requires Linked(w) && Stuck(w, k) && Possible(w, Confirm(i))
    ensures var b := Next(w, Confirm(i)).bridge;
            && k in b.table && b.table[k].delivery == w.bridge.table[k].delivery
            && (|b.marks| > |w.bridge.marks| ==>
                  |b.marks| == |w.bridge.marks| + 1 &&
                  (b.marks[|w.bridge.marks|].partition == k.partition ==> b.marks[|w.bridge.marks|].offset < k.offset))
  {
    var t, j := w.bridge.table, w.bridge.log[i];
    var d := t[k].delivery;
    assert Tx.Accounted(w.processor.deliveries[d]) && d !in w.bridge.replied;
    Bridge.ConfirmFindsItsEntry(w.bridge, i);
    assert Bridge.EntryOK(w.bridge, k) && !t[k].complete && j != k;
    var t1 := Bridge.MarkComplete(t, j);
    Bridge.IncompleteStays(t1, j.partition, k);
    if Bridge.MarkOf(t, j).Some? {
      var top := Bridge.MarkIsReady(t, j);
      ReadyIsBelowIncomplete(t1, k, top);
    }
  }

  lemma StuckStays(w: World, e: Event, k: Bridge.Key)
    requires Linked(w) && Stuck(w, k) && Possible(w, e)
    ensures Stuck(Next(w, e), k) && Next(w, e).bridge.table[k].delivery == w.bridge.table[k].delivery
  {
    SkippedStays(w, e, w.bridge.table[k].delivery);
    if e.Confirm? {
      ConfirmLeavesStuck(w, k, e.i);
    }
  }

  /** From the entry on, its partition is not marked again. */
  predicate MarkedBefore(marks: seq<Bridge.Key>, from: nat, k: Bridge.Key) {
    forall m :: from <= m < |marks| && marks[m].partition == k.partition ==> marks[m].offset < k.offset
  }

  lemma StuckStep(w: World, e: Event, k: Bridge.Key)
    requires Linked(w) && Stuck(w, k) && Possible(w, e)
    ensures Linked(Next(w, e)) && Stuck(Next(w, e), k)
    ensures w.bridge.marks <= Next(w, e).bridge.marks && MarkedBefore(Next(w, e).bridge.marks, |w.bridge.marks|, k)
  {
    StuckStays(w, e, k);
    StepKeepsLinked(w, e);
    if e.Confirm? {
      ConfirmLeavesStuck(w, k, e.i);
    }
  }

  lemma MarkedBeforeGrows(a: seq<Bridge.Key>, b: seq<Bridge.Key>, c: seq<Bridge.Key>, k: Bridge.Key)
    requires a <= b <= c && MarkedBefore(b, |a|, k) && MarkedBefore(c, |b|, k)
    ensures a <= c && MarkedBefore(c, |a|, k)
  {
    forall m | |a| <= m < |c| && c[m].partition == k.partition ensures c[m].offset < k.offset {
      assert m < |b| ==> b[m] == c[m];
    }
  }

  /** A stuck entry stays in the table in every continuation, and no mark in its partition ever reaches it. */
  lemma {:induction false} StuckBlocksItsPartition(w: World, events: seq<Event>, k: Bridge.Key)
    requires Linked(w) && Stuck(w, k) && PossibleRun(w, events)
    ensures Stuck(After(w, events), k)
    ensures w.bridge.marks <= After(w, events).bridge.marks
    ensures MarkedBefore(After(w, events).bridge.marks, |w.bridge.marks|, k)
    decreases |events|
  {
    if events != [] {
      var w1 := Next(w, events[0]);
      StuckStep(w, events[0], k);
      StuckBlocksItsPartition(w1, events[1..], k);
      MarkedBeforeGrows(w.bridge.marks, w1.bridge.marks, After(w1, events[1..]).bridge.marks, k);
    }
  }

  // ------------------------------------------------------------------ emptying the table

  /** The delivery has ended and, unless it was skipped, its reply has been confirmed. */
  predicate Settled(w: World, d: nat) {
    && d in w.processor.deliveries && w.processor.deliveries[d].stage.Done?
    && (Skipped(w, d) || d in w.bridge.confirmed)
  }

  /** Nothing enters the table, nothing is skipped, and no delivery has more to do than before. */
  ghost predicate Clears(w: World, w': World) {
    && w'.bridge.log == w.bridge.log
    && (forall k :: Stuck(w', k) ==> Stuck(w, k))
    && (forall d :: 0 <= d < |w.bridge.log| && d in w.processor.deliveries ==> Left(w', d) <= Left(w, d))
  }

  /** How much a delivery has left to do: its own steps and the confirmation. */
  function Left(w: World, d: nat): nat {
    if d in w.processor.deliveries then
      Tx.Remaining(w.processor.deliveries[d].stage) + if d in w.bridge.confirmed then 0 else 1
    else 8
  }

  function TotalLeft(w: World, n: nat): nat {
    if n == 0 then 0 else TotalLeft(w, n - 1) + Left(w, n - 1)
  }

  lemma {:induction false} TotalShrinks(w: World, w': World, n: nat, d: nat)
    requires forall o :: 0 <= o < n ==> Left(w', o) <= Left(w, o)
    ensures TotalLeft(w', n) <= TotalLeft(w, n)
    ensures d < n && Left(w', d) < Left(w, d) ==> TotalLeft(w', n) < TotalLeft(w, n)
  {
    if n > 0 {
      TotalShrinks(w, w', n - 1, d);
    }
  }

  /** A step of a delivery that is not its admission. */
  lemma ProcessClears(w: World, step: Tx.Event, d: nat)
    requires Linked(w) && Possible(w, Process(step)) && Tx.Subject(step) == Some(d) && !step.AdmitNow?
    ensures Clears(w, Next(w, Process(step))) && Left(Next(w, Process(step)), d) < Left(w, d)
  {
    var w' := Next(w, Process(step));
    forall o | o in w.processor.deliveries
      ensures Left(w', o) <= Left(w, o) && (o == d ==> Left(w', o) < Left(w, o)) && (Skipped(w', o) ==> Skipped(w, o))
    {
      ProcessMovesOn(w.processor, step, d, o);
    }
    forall k | Stuck(w', k) ensures Stuck(w, k) {
      SameDeliveries(w.processor, step, w.bridge.table[k].delivery);
    }
    assert d in w.processor.deliveries;
  }

  lemma ProcessMovesOn(p: Tx.World, step: Tx.Event, d: nat, o: nat)
    requires Tx.Possible(p, step) && Tx.Subject(step) == Some(d) && !step.AdmitNow? && o in p.deliveries
    ensures var p' := Tx.Next(p, step);
            && o in p'.deliveries
            && Tx.Remaining(p'.deliveries[o].stage) <= Tx.Remaining(p.deliveries[o].stage)
            && (o == d ==> Tx.Remaining(p'.deliveries[o].stage) < Tx.Remaining(p.deliveries[o].stage))
            && (p'.deliveries[o].stage == Tx.Done(true) ==> p.deliveries[o].stage == Tx.Done(true))
  {
    Tx.OwnStepsMakeProgress(p, step, o);
  }

  lemma ConfirmClears(w: World, i: nat)
    requires Linked(w) && Possible(w, Confirm(i))
    ensures Clears(w, Next(w, Confirm(i))) && Left(Next(w, Confirm(i)), i) < Left(w, i)
  {
    Bridge.ConfirmFindsItsEntry(w.bridge, i);
  }

  /** A delivery that is not settled can take a step or have its reply confirmed. */
  lemma StepToSettle(w: World, d: nat) returns (e: Event)
    requires Linked(w) && d in w.processor.deliveries && !Settled(w, d)
    ensures Possible(w, e) && Clears(w, Next(w, e)) && Left(Next(w, e), d) < Left(w, d)
  {
    assert Tx.Accounted(w.processor.deliveries[d]);
    if w.processor.deliveries[d].stage.Done? {
      e := Confirm(d);
      ConfirmClears(w, d);
    } else {
      var step := Tx.OwnStep(w.processor, d);
      e := Process(step);
      ProcessClears(w, step, d);
    }
  }

  lemma {:induction false} UnstuckCanBeEmptied(w: World) returns (events: seq<Event>)
    requires Linked(w) && forall k :: !Stuck(w, k)
    ensures PossibleRun(w, events) && After(w, events).bridge.table == map[]
    decreases TotalLeft(w, |w.bridge.log|)
  {
    if d :| 0 <= d < |w.bridge.log| && !Settled(w, d) {
      var e := StepToSettle(w, d);
      var w1 := Next(w, e);
      StepKeepsLinked(w, e);
      TotalShrinks(w, w1, |w.bridge.log|, d);
      forall k ensures !Stuck(w1, k) {
        assert !Stuck(w, k);
      }
      var rest := UnstuckCanBeEmptied(w1);
      Prepend(w, e, rest);
      events := [e] + rest;
    } else {
      AllSettledIsEmpty(w);
      events := [];
    }
  }

  lemma AllSettledIsEmpty(w: World)
    requires Linked(w) && (forall d :: 0 <= d < |w.bridge.log| ==> Settled(w, d))
    requires forall k :: !Stuck(w, k)
    ensures w.bridge.table == map[]
  {
    var t := w.bridge.table;
    forall k | k in t ensures t[k].complete {
      assert Bridge.EntryOK(w.bridge, k) && !Stuck(w, k);
      assert Settled(w, t[k].delivery);
    }
    assert forall k :: k in t ==> Bridge.Ready(t, k);
  }

  ghost predicate CanBeEmptied(w: World) {
    exists events :: PossibleRun(w, events) && After(w, events).bridge.table == map[]
  }

  /**
    In every state of every run, the table of the bridge can still be emptied if and only if none of its messages is
    there for a delivery that the processor has skipped.
   */
  lemma TableCanBeEmptiedIff(maxInFlight: nat, store: map<string, string>, events: seq<Event>)
    requires PossibleRun(Start(maxInFlight, store), events)
    ensures var w := After(Start(maxInFlight, store), events);
            CanBeEmptied(w) <==> forall k :: !Stuck(w, k)
  {
    var w := After(Start(maxInFlight, store), events);
    LinkedThroughout(Start(maxInFlight, store), events);
    if k :| Stuck(w, k) {
      StuckIsNeverEmpty(w, k);
    } else {
      var more := UnstuckCanBeEmptied(w);
    }
  }

  lemma StuckIsNeverEmpty(w: World, k: Bridge.Key)
    requires Linked(w) && Stuck(w, k)
    ensures !CanBeEmptied(w)
  {
    forall more | PossibleRun(w, more) ensures k in After(w, more).bridge.table {
      StuckBlocksItsPartition(w, more, k);
    }
  }

  // ------------------------------------------------------------------ how an entry gets stuck

  /** One message, taken, processed up to its confirmed reply, taken again before its entry goes, and skipped. */
  function Redelivered(k: Bridge.Key, msg: Tx.Message, node: NodeAnswers, hash: string): seq<Event> {
    [Take(k, msg)] + UpToReply(node, hash, Again(k, msg, node))
  }

  /** The processor's steps for the first delivery, and what follows. */
  function UpToReply(node: NodeAnswers, hash: string, rest: seq<Event>): seq<Event> {
    [Process(Tx.AdmitNow(0, true, node))] +
    ([Process(Tx.SendOk(0, hash))] + ([Process(Tx.RecordHash(0, true))] + ([Process(Tx.Answer(0))] + rest)))
  }

  function Again(k: Bridge.Key, msg: Tx.Message, node: NodeAnswers): seq<Event> {
    [Confirm(0)] + ([Take(k, msg)] + ([Process(Tx.AdmitNow(1, true, node))] + []))
  }

  function TxnOf(msg: Tx.Message, n: nat): Inflight {
    Inflight(1000000, msg.id, n, Managed)
  }

  /** The processor while it holds the one entry, with the second delivery or without. */
  function Holding(msg: Tx.Message, n: nat, phase: Tx.Phase, replies: nat, nextID: nat, accepted: seq<string>)
    : Tx.World
  {
    Tx.World(map[msg.from := AddrState([TxnOf(msg, n)], n)], nextID, map[],
             map[0 := Tx.Delivery(msg, Tx.Active(TxnOf(msg, n), phase), replies, 1, 0)], accepted)
  }

  /** The processor's side of the first delivery. */
  lemma FirstIsProcessed(msg: Tx.Message, n: nat, hash: string)
    requires msg.req == ManagedRequest && hash != ""
    ensures var p1 := Tx.World(map[], 1000000, map[], map[0 := Tx.Delivery(msg, Tx.Received, 0, 0, 0)], []);
            var p2 := Holding(msg, n, Tx.Unsent, 0, 1000001, []);
            var p3 := Holding(msg, n, Tx.Tracking(hash), 0, 1000001, [msg.id]);
            var p4 := Holding(msg, n, Tx.Phase.Recorded(hash), 0, 1000001, [msg.id]);
            var p5 := Holding(msg, n, Tx.Answered(hash), 1, 1000001, [msg.id]);
            var admit := Tx.AdmitNow(0, true, NodeAnswers(None, Some(n)));
            && Tx.Possible(p1, admit) && Tx.Next(p1, admit) == p2
            && Tx.Possible(p2, Tx.SendOk(0, hash)) && Tx.Next(p2, Tx.SendOk(0, hash)) == p3
            && Tx.Possible(p3, Tx.RecordHash(0, true)) && Tx.Next(p3, Tx.RecordHash(0, true)) == p4
            && Tx.Possible(p4, Tx.Answer(0)) && Tx.Next(p4, Tx.Answer(0)) == p5
  {
    assert [] + [TxnOf(msg, n)] == [TxnOf(msg, n)];
  }

  /** A step of the processor that sends no reply leaves the bridge alone. */
  lemma ProcessThen(b: Bridge.World, p: Tx.World, step: Tx.Event, p': Tx.World, rest: seq<Event>)
    requires !step.Deliver? && Tx.Possible(p, step) && p' == Tx.Next(p, step) && RepliesTo(step).None?
    requires PossibleRun(World(b, p'), rest)
    ensures PossibleRun(World(b, p), [Process(step)] + rest)
    ensures After(World(b, p), [Process(step)] + rest) == After(World(b, p'), rest)
  {
    Prepend(World(b, p), Process(step), rest);
  }

  /** Up to the reply: the processor holds the entry, the bridge waits for the confirmation. */
  lemma FirstDelivery(maxInFlight: nat, k: Bridge.Key, msg: Tx.Message, n: nat, hash: string, rest: seq<Event>)
    requires msg.req == ManagedRequest && hash != "" && PossibleRun(Awaiting(maxInFlight, k, msg, n, hash), rest)
    ensures var w, events := Taken(maxInFlight, k, msg), UpToReply(NodeAnswers(None, Some(n)), hash, rest);
            PossibleRun(w, events) && After(w, events) == After(Awaiting(maxInFlight, k, msg, n, hash), rest)
  {
    var bridge := Bridge.World(map[k := Bridge.Ctx(0, false)], maxInFlight, [k], {}, {}, [], false);
    var p1 := Tx.World(map[], 1000000, map[], map[0 := Tx.Delivery(msg, Tx.Received, 0, 0, 0)], []);
    var p2 := Holding(msg, n, Tx.Unsent, 0, 1000001, []);
    var p3 := Holding(msg, n, Tx.Tracking(hash), 0, 1000001, [msg.id]);
    var p4 := Holding(msg, n, Tx.Phase.Recorded(hash), 0, 1000001, [msg.id]);
    FirstIsProcessed(msg, n, hash);
    var rest4 := [Process(Tx.Answer(0))] + rest;
    var rest3 := [Process(Tx.RecordHash(0, true))] + rest4;
    var rest2 := [Process(Tx.SendOk(0, hash))] + rest3;
    Prepend(World(bridge, p4), Process(Tx.Answer(0)), rest);
    ProcessThen(bridge, p3, Tx.RecordHash(0, true), p4, rest4);
    ProcessThen(bridge, p2, Tx.SendOk(0, hash), p3, rest3);
    ProcessThen(bridge, p1, Tx.AdmitNow(0, true, NodeAnswers(None, Some(n))), p2, rest2);
  }

  function Taken(maxInFlight: nat, k: Bridge.Key, msg: Tx.Message): World {
    World(Bridge.World(map[k := Bridge.Ctx(0, false)], maxInFlight, [k], {}, {}, [], false),
          Tx.World(map[], 1000000, map[], map[0 := Tx.Delivery(msg, Tx.Received, 0, 0, 0)], []))
  }

  lemma FirstIsTaken(maxInFlight: nat, k: Bridge.Key, msg: Tx.Message)
    requires maxInFlight >= 1
    ensures Possible(Start(maxInFlight, map[]), Take(k, msg))
    ensures Next(Start(maxInFlight, map[]), Take(k, msg)) == Taken(maxInFlight, k, msg)
  {
    var w' := Next(Start(maxInFlight, map[]), Take(k, msg));
    assert w'.bridge.log == [] + [k] == [k];
    assert w'.bridge.table == map[k := Bridge.Ctx(0, false)];
    assert w'.processor.deliveries == map[0 := Tx.Delivery(msg, Tx.Received, 0, 0, 0)];
  }

  /** The reply is sent and not yet confirmed. */
  function Awaiting(maxInFlight: nat, k: Bridge.Key, msg: Tx.Message, n: nat, hash: string): World {
    World(Bridge.World(map[k := Bridge.Ctx(0, false)], maxInFlight, [k], {0}, {}, [], false),
          Holding(msg, n, Tx.Answered(hash), 1, 1000001, [msg.id]))
  }

  lemma SecondIsSkipped(p: Tx.World, msg: Tx.Message, n: nat, node: NodeAnswers)
    requires msg.check && msg.from in p.table && p.table[msg.from].txns == [TxnOf(msg, n)]
    requires Tx.At(p, 1, Tx.Received) && p.deliveries[1].msg == msg
    ensures Tx.At(Tx.Next(p, Tx.AdmitNow(1, true, node)), 1, Tx.Done(true))
  {
    assert MessageListed([TxnOf(msg, n)], msg.id) by {
      assert [TxnOf(msg, n)][0].msgID == msg.id;
    }
  }

  /** From there: confirmed, taken again, and skipped because the processor still holds the entry. */
  lemma SecondDelivery(maxInFlight: nat, k: Bridge.Key, msg: Tx.Message, n: nat, hash: string)
    requires maxInFlight >= 1 && msg.check
    ensures var w, events := Awaiting(maxInFlight, k, msg, n, hash), Again(k, msg, NodeAnswers(None, Some(n)));
            PossibleRun(w, events) && Stuck(After(w, events), k)
  {
    var node := NodeAnswers(None, Some(n));
    var w5 := Awaiting(maxInFlight, k, msg, n, hash);
    var last := Process(Tx.AdmitNow(1, true, node));
    var w6 := Next(w5, Confirm(0));
    OnlyEntryGoes(k);
    assert w6.bridge.table == map[] && w6.processor == w5.processor;
    var w7 := Next(w6, Take(k, msg));
    assert w7.bridge.table == map[k := Bridge.Ctx(1, false)];
    SecondIsSkipped(w7.processor, msg, n, node);
    assert Stuck(Next(w7, last), k);
    Prepend(w7, last, []);
    Prepend(w6, Take(k, msg), [last] + []);
    Prepend(w5, Confirm(0), [Take(k, msg)] + ([last] + []));
  }

  lemma OnlyEntryGoes(k: Bridge.Key)
    ensures Bridge.Confirmed(map[k := Bridge.Ctx(0, false)], k) == map[]
  {
    var t1 := Bridge.MarkComplete(map[k := Bridge.Ctx(0, false)], k);
    assert Bridge.Ready(t1, k);
    assert k in Bridge.ReadyIn(t1, k.partition);
  }

  /**
    Any managed message with the redelivery check on can get stuck: its offset comes again after its reply was confirmed
    and before its entry left the processor's table.
   */
  lemma RedeliveryGetsStuck(maxInFlight: nat, k: Bridge.Key, msg: Tx.Message, n: nat, hash: string)
    requires maxInFlight >= 1 && msg.check && msg.req == ManagedRequest && hash != ""
    ensures var events := Redelivered(k, msg, NodeAnswers(None, Some(n)), hash);
            && PossibleRun(Start(maxInFlight, map[]), events)
            && Stuck(After(Start(maxInFlight, map[]), events), k)
  {
    var node := NodeAnswers(None, Some(n));
    SecondDelivery(maxInFlight, k, msg, n, hash);
    FirstDelivery(maxInFlight, k, msg, n, hash, Again(k, msg, node));
    FirstIsTaken(maxInFlight, k, msg);
    Prepend(Start(maxInFlight, map[]), Take(k, msg), UpToReply(node, hash, Again(k, msg, node)));
  }
}
