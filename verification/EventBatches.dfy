/**
  Batching in an event stream (internal/events/eventstream.go) in steady state: no update, suspend or stop in the
  middle of a run. The dispatcher fills a current batch, full or timed-out batches queue up, and the processor
  takes them one at a time.
 */
module EventBatches {
  import opened Options
  import opened HighWaterMarks

  datatype Event = Event(sub: string, block: int)

  datatype Stream = Stream(batchSize: nat, inFlight: int, current: seq<Event>, queue: seq<seq<Event>>,
                           processing: Option<seq<Event>>, done: seq<Event>, marks: map<string, int>)

  const MaxBatchSize: nat := 1000

  /** The batch size a new stream ends up with. */
  function NormalBatchSize(configured: nat): (size: nat)
    ensures 1 <= size <= 1000
    ensures 1 <= configured <= 1000 ==> size == configured
    ensures configured > 1000 ==> size == 1000
  {
    if configured == 0 then 1 else if configured > MaxBatchSize then MaxBatchSize else configured
  }

  datatype Step = Arrive(event: Event) | BatchTimeout | TakeBatch | FinishBatch

  predicate Possible(s: Stream, step: Step) {
    match step
    case Arrive(_) => true
    case BatchTimeout => s.current != []
    case TakeBatch => s.processing.None? && s.queue != []
    case FinishBatch => s.processing.Some?
  }

  /** An event joins the current batch; a full batch goes onto the queue. The count goes up either way. */
  function AfterArrival(s: Stream, event: Event): Stream {
    var batch := s.current + [event];
    if |batch| == s.batchSize then s.(inFlight := s.inFlight + 1, queue := s.queue + [batch], current := [])
    else s.(inFlight := s.inFlight + 1, current := batch)
  }

  /** A batch that timed out goes onto the queue; its events have been counted already. */
  function AfterTimeout(s: Stream): Stream {
    s.(queue := s.queue + [s.current], current := [])
  }

  function AfterTake(s: Stream): Stream
    requires s.queue != []
  {
    s.(processing := Some(s.queue[0]), queue := s.queue[1..])
  }

  /** The last event of a subscription in a batch, which is the one whose callback runs. */
  function NewestOf(batch: seq<Event>, sub: string): Option<Event> {
    if batch == [] then None
    else
      var last := |batch| - 1;
      if batch[last].sub == sub then Some(batch[last]) else NewestOf(batch[..last], sub)
  }

  /** Each subscription with an event in the batch moves its mark past its newest one. */
  function Acknowledge(marks: map<string, int>, batch: seq<Event>): map<string, int> {
    map sub | sub in marks ::
      var newest := NewestOf(batch, sub);
      if newest.Some? then PastBatch(Marks(marks[sub], 0), newest.value.block).hwm else marks[sub]
  }

  function AfterFinish(s: Stream): Stream
    requires s.processing.Some?
  {
    var batch := s.processing.value;
    s.(inFlight := s.inFlight - |batch|, processing := None, done := s.done + batch,
       marks := Acknowledge(s.marks, batch))
  }

  function Next(s: Stream, step: Step): Stream
    requires Possible(s, step)
  {
    match step
    case Arrive(event) => AfterArrival(s, event)
    case BatchTimeout => AfterTimeout(s)
    case TakeBatch => AfterTake(s)
    case FinishBatch => AfterFinish(s)
  }

  predicate PossibleRun(s: Stream, steps: seq<Step>)
    decreases |steps|
  {
    steps != [] ==> Possible(s, steps[0]) && PossibleRun(Next(s, steps[0]), steps[1..])
  }

  function After(s: Stream, steps: seq<Step>): Stream
    requires PossibleRun(s, steps)
    decreases |steps|
  {
    if steps == [] then s else After(Next(s, steps[0]), steps[1..])
  }

  /** The events a run of steps hands to the stream, in order. */
  function Received(steps: seq<Step>): seq<Event> {
    if steps == [] then []
    else (if steps[0].Arrive? then [steps[0].event] else []) + Received(steps[1..])
  }

  // ------------------------------------------------------------------ conservation

  function Flatten(batches: seq<seq<Event>>): seq<Event> {
    if batches == [] then [] else batches[0] + Flatten(batches[1..])
  }

  lemma {:induction false} FlattenAppend(batches: seq<seq<Event>>, batch: seq<Event>)
    ensures Flatten(batches + [batch]) == Flatten(batches) + batch
  {
    if batches == [] {
      assert [batch][1..] == [];
    } else {
      assert (batches + [batch])[1..] == batches[1..] + [batch];
      FlattenAppend(batches[1..], batch);
    }
  }

  function InProcess(s: Stream): seq<Event> {
    if s.processing.Some? then s.processing.value else []
  }

  /** What has arrived and is not yet acknowledged, oldest first. */
  function Waiting(s: Stream): seq<Event> {
    Flatten(s.queue) + s.current
  }

  predicate GoodBatch(batch: seq<Event>, batchSize: nat) {
    1 <= |batch| <= batchSize
  }

  predicate Conserves(s: Stream, received: seq<Event>) {
    && s.inFlight == |InProcess(s)| + |Waiting(s)|
    && s.done + (InProcess(s) + Waiting(s)) == received
    && (forall i :: 0 <= i < |s.queue| ==> GoodBatch(s.queue[i], s.batchSize))
    && (s.processing.Some? ==> GoodBatch(s.processing.value, s.batchSize))
    && |s.current| < s.batchSize
  }

  /** An event that arrives waits behind all others. */
  lemma ArrivalWaits(s: Stream, event: Event)
    ensures Waiting(AfterArrival(s, event)) == Waiting(s) + [event]
    ensures InProcess(AfterArrival(s, event)) == InProcess(s)
  {
    FlattenAppend(s.queue, s.current + [event]);
  }

  lemma ArrivalConserves(s: Stream, event: Event, received: seq<Event>)
    requires Conserves(s, received)
    ensures Conserves(AfterArrival(s, event), received + [event])
  {
    ArrivalWaits(s, event);
    assert s.done + (InProcess(s) + (Waiting(s) + [event])) == s.done + (InProcess(s) + Waiting(s)) + [event];
  }

  lemma TimeoutConserves(s: Stream, received: seq<Event>)
    requires Conserves(s, received) && s.current != []
    ensures Conserves(AfterTimeout(s), received)
  {
    FlattenAppend(s.queue, s.current);
    assert Waiting(AfterTimeout(s)) == Waiting(s);
  }

  lemma TakeConserves(s: Stream, received: seq<Event>)
    requires Conserves(s, received) && s.processing.None? && s.queue != []
    ensures Conserves(AfterTake(s), received)
  {
    var s' := AfterTake(s);
    assert InProcess(s') + Waiting(s') == Waiting(s) == InProcess(s) + Waiting(s);
  }

  lemma FinishConserves(s: Stream, received: seq<Event>)
    requires Conserves(s, received) && s.processing.Some?
    ensures Conserves(AfterFinish(s), received)
  {
    AfterFinishWaiting(s);
    Associative(s.done, InProcess(s), Waiting(s));
  }

  lemma StepConserves(s: Stream, step: Step, received: seq<Event>)
    requires Conserves(s, received) && Possible(s, step)
    ensures Conserves(Next(s, step), received + if step.Arrive? then [step.event] else [])
  {
    assert received + [] == received;
    match step
    case Arrive(event) => ArrivalConserves(s, event, received);
    case BatchTimeout => TimeoutConserves(s, received);
    case TakeBatch => TakeConserves(s, received);
    case FinishBatch => FinishConserves(s, received);
  }

  /**
    In every run the in-flight count is exactly what is current, queued and in process, so it never underflows;
    every batch has between 1 and the configured number of events; and processed, in-process, queued and current
    events concatenate to exactly what was received.
   */
  lemma {:induction false} NothingIsLostOrReordered(s: Stream, steps: seq<Step>, received: seq<Event>)
    requires Conserves(s, received) && PossibleRun(s, steps)
    ensures Conserves(After(s, steps), received + Received(steps))
    decreases |steps|
  {
    if steps == [] {
      assert received + [] == received;
    } else {
      var arrived := if steps[0].Arrive? then [steps[0].event] else [];
      StepConserves(s, steps[0], received);
      NothingIsLostOrReordered(Next(s, steps[0]), steps[1..], received + arrived);
      assert Received(steps) == arrived + Received(steps[1..]);
      Associative(received, arrived, Received(steps[1..]));
    }
  }

  lemma Associative(a: seq<Event>, b: seq<Event>, c: seq<Event>)
    ensures a + (b + c) == a + b + c
  {
  }

  /** A timeout leaves nothing behind: whatever waits is then in a batch that can be taken. */
  lemma TimeoutFlushes(s: Stream)
    ensures AfterTimeout(s).current == [] && Flatten(AfterTimeout(s).queue) == Waiting(s)
  {
    FlattenAppend(s.queue, s.current);
  }

  /** Steps that are left until everything that is here has been delivered. */
  function StepsLeft(s: Stream): nat {
    (if s.processing.Some? then 1 else 0) + 2 * |s.queue| + if s.current == [] then 0 else 3
  }

  /**
    From every state, without further arrivals, everything that is here can be delivered and acknowledged, in order, in
    no more steps than are left.
   */
  lemma {:induction false} StreamCanBeDrained(s: Stream) returns (steps: seq<Step>)
    ensures PossibleRun(s, steps) && Received(steps) == [] && |steps| <= StepsLeft(s)
    ensures var s' := After(s, steps);
            s'.done == s.done + (InProcess(s) + Waiting(s)) && InProcess(s') == [] && Waiting(s') == []
    decreases StepsLeft(s)
  {
    steps := [];
    if StepsLeft(s) > 0 {
      var step := if s.processing.Some? then FinishBatch else if s.queue != [] then TakeBatch else BatchTimeout;
      StepHandsOn(s, step);
      var rest := StreamCanBeDrained(Next(s, step));
      steps := [step] + rest;
      assert steps[1..] == rest;
    }
  }

  lemma StepHandsOn(s: Stream, step: Step)
    requires Possible(s, step) && !step.Arrive? && (step.BatchTimeout? ==> s.queue == [])
    ensures var s' := Next(s, step);
            && s'.done + (InProcess(s') + Waiting(s')) == s.done + (InProcess(s) + Waiting(s))
            && StepsLeft(s') < StepsLeft(s)
  {
    if step.TakeBatch? {
      assert s.queue[0] + Flatten(s.queue[1..]) == Flatten(s.queue);
    } else if step.BatchTimeout? {
      FlattenAppend(s.queue, s.current);
    }
  }

  predicate AllFull(s: Stream) {
    && (forall i :: 0 <= i < |s.queue| ==> |s.queue[i]| == s.batchSize)
    && (s.processing.Some? ==> |s.processing.value| == s.batchSize)
  }

  /** Without timeouts every batch that is queued is full, in every run. */
  lemma {:induction false} OnlyTimeoutsCutBatchesShort(s: Stream, steps: seq<Step>)
    requires AllFull(s) && PossibleRun(s, steps) && forall i :: 0 <= i < |steps| ==> !steps[i].BatchTimeout?
    ensures AllFull(After(s, steps)) && After(s, steps).batchSize == s.batchSize
    decreases |steps|
  {
    if steps != [] {
      assert !steps[0].BatchTimeout?;
      OnlyTimeoutsCutBatchesShort(Next(s, steps[0]), steps[1..]);
    }
  }

  /** Finishing a batch never takes the unsigned counter below zero. */
  lemma CounterNeverUnderflows(s: Stream, received: seq<Event>)
    requires Conserves(s, received) && s.processing.Some?
    ensures 0 <= AfterFinish(s).inFlight < s.inFlight
  {
    assert GoodBatch(s.processing.value, s.batchSize);
  }

  // ------------------------------------------------------------------ checkpoints

  predicate NotPassed(marks: map<string, int>, e: Event) {
    e.sub in marks ==> marks[e.sub] <= e.block
  }

  predicate AtOrAbove(marks: map<string, int>, events: seq<Event>) {
    forall i :: 0 <= i < |events| ==> NotPassed(marks, events[i])
  }

  /** Every received event that is not acknowledged is at or above the mark of its subscription. */
  predicate CheckpointSafe(s: Stream) {
    AtOrAbove(s.marks, InProcess(s) + Waiting(s))
  }

  /** An event lies in a later block than the batch's newest one of the same subscription. */
  predicate BeyondNewest(batch: seq<Event>, e: Event) {
    var newest := NewestOf(batch, e.sub);
    newest.Some? ==> newest.value.block < e.block
  }

  predicate NotSplit(batch: seq<Event>, later: seq<Event>) {
    forall i :: 0 <= i < |later| ==> BeyondNewest(batch, later[i])
  }

  /** The mark of every subscription only ever moves forward. */
  lemma MarksNeverMoveBack(marks: map<string, int>, batch: seq<Event>)
    ensures forall sub :: sub in marks ==>
              sub in Acknowledge(marks, batch) && marks[sub] <= Acknowledge(marks, batch)[sub]
  {
  }

  /** An acknowledgement leaves an event alone exactly when the event is beyond the batch's newest one. */
  lemma AcknowledgePasses(marks: map<string, int>, batch: seq<Event>, e: Event)
    requires NotPassed(marks, e)
    ensures BeyondNewest(batch, e) ==> NotPassed(Acknowledge(marks, batch), e)
    ensures e.sub in marks && NotPassed(Acknowledge(marks, batch), e) ==> BeyondNewest(batch, e)
  {
  }

  lemma LaterNotPassed(s: Stream, i: nat)
    requires CheckpointSafe(s) && i < |Waiting(s)|
    ensures NotPassed(s.marks, Waiting(s)[i])
  {
    assert (InProcess(s) + Waiting(s))[|InProcess(s)| + i] == Waiting(s)[i];
  }

  lemma AfterFinishWaiting(s: Stream)
    requires s.processing.Some?
    ensures InProcess(AfterFinish(s)) + Waiting(AfterFinish(s)) == Waiting(s)
  {
  }

  /**
    Acknowledging a batch keeps the checkpoint safe if and only if no block of a subscription in it continues in a
    later event. With a split block the mark passes an event that was never delivered.
   */
  lemma AcknowledgeIsSafeIffNotSplit(s: Stream)
    requires CheckpointSafe(s) && s.processing.Some?
    requires forall i :: 0 <= i < |Waiting(s)| ==> Waiting(s)[i].sub in s.marks
    ensures CheckpointSafe(AfterFinish(s)) <==> NotSplit(s.processing.value, Waiting(s))
  {
    var later, batch := Waiting(s), s.processing.value;
    AfterFinishWaiting(s);
    forall i | 0 <= i < |later|
      ensures NotPassed(Acknowledge(s.marks, batch), later[i]) <==> BeyondNewest(batch, later[i])
    {
      LaterNotPassed(s, i);
      AcknowledgePasses(s.marks, batch, later[i]);
    }
  }

  /** The event arrives at or above its subscription's mark: it has not been acknowledged before. */
  predicate ArrivesAhead(s: Stream, step: Step) {
    && (step.Arrive? && step.event.sub in s.marks ==> s.marks[step.event.sub] <= step.event.block)
    && (step.FinishBatch? && s.processing.Some? ==> NotSplit(s.processing.value, Waiting(s)))
  }

  predicate WholeBlocks(s: Stream, steps: seq<Step>)
    requires PossibleRun(s, steps)
    decreases |steps|
  {
    steps != [] ==> ArrivesAhead(s, steps[0]) && WholeBlocks(Next(s, steps[0]), steps[1..])
  }

  lemma StepKeepsCheckpointSafe(s: Stream, step: Step)
    requires CheckpointSafe(s) && Possible(s, step) && ArrivesAhead(s, step)
    ensures CheckpointSafe(Next(s, step))
  {
    var s' := Next(s, step);
    match step
    case Arrive(event) =>
      FlattenAppend(s.queue, s.current + [event]);
      assert InProcess(s') + Waiting(s') == InProcess(s) + Waiting(s) + [event];
    case BatchTimeout =>
      FlattenAppend(s.queue, s.current);
      assert InProcess(s') + Waiting(s') == InProcess(s) + Waiting(s);
    case TakeBatch =>
      assert InProcess(s') + Waiting(s') == InProcess(s) + Waiting(s);
    case FinishBatch =>
      AfterFinishWaiting(s);
      forall i | 0 <= i < |Waiting(s)| ensures NotPassed(s'.marks, Waiting(s)[i]) {
        LaterNotPassed(s, i);
        AcknowledgePasses(s.marks, s.processing.value, Waiting(s)[i]);
      }
  }

  /**
    When events arrive in block order per subscription and no block is split across two batches, every event that
    is not acknowledged stays at or above its subscription's mark, in every run.
   */
  lemma {:induction false} CheckpointStaysSafe(s: Stream, steps: seq<Step>)
    requires CheckpointSafe(s) && PossibleRun(s, steps) && WholeBlocks(s, steps)
    ensures CheckpointSafe(After(s, steps))
    decreases |steps|
  {
    if steps != [] {
      StepKeepsCheckpointSafe(s, steps[0]);
      CheckpointStaysSafe(Next(s, steps[0]), steps[1..]);
    }
  }

  /**
    From an empty stream with batches of one event: two events of one block arrive and the first batch is taken. The
    checkpoint is safe; acknowledging that batch puts the mark past the second event, which was never delivered.
   */
  lemma SplitBlockLosesAnEvent()
    ensures var e := Event("s", 10);
            var empty := Stream(1, 0, [], [], None, [], map["s" := 10]);
            var steps := [Arrive(e), Arrive(e), TakeBatch];
            && Conserves(empty, []) && PossibleRun(empty, steps)
            && var s := After(empty, steps);
               CheckpointSafe(s) && Possible(s, FinishBatch) && !CheckpointSafe(Next(s, FinishBatch))
  {
    var e := Event("s", 10);
    var empty := Stream(1, 0, [], [], None, [], map["s" := 10]);
    var s1 := Next(empty, Arrive(e));
    var s2 := Next(s1, Arrive(e));
    assert [] + [e] == [e] && [] + [[e]] == [[e]] && [[e]] + [[e]] == [[e], [e]];
    assert s2 == Stream(1, 2, [], [[e], [e]], None, [], map["s" := 10]);
    assert [[e], [e]][1..] == [[e]];
    var s3 := Next(s2, TakeBatch);
    assert s3 == Stream(1, 2, [], [[e]], Some([e]), [], map["s" := 10]);
    RunOfThree(empty, Arrive(e), Arrive(e), TakeBatch);
    assert [[e]][1..] == [];
    assert Flatten([[e]]) == [e] + [] == [e];
    assert Waiting(s3) == [e] + [] == [e];
    var s4 := Next(s3, FinishBatch);
    assert NewestOf([e], "s") == Some(e);
    assert s4.marks["s"] == 11;
    assert (InProcess(s4) + Waiting(s4))[0] == e;
  }

  lemma RunOfThree(s: Stream, a: Step, b: Step, c: Step)
    requires Possible(s, a) && Possible(Next(s, a), b) && Possible(Next(Next(s, a), b), c)
    ensures PossibleRun(s, [a, b, c]) && After(s, [a, b, c]) == Next(Next(Next(s, a), b), c)
  {
    var s2 := Next(Next(s, a), b);
    assert [a, b, c][1..] == [b, c] && [b, c][1..] == [c] && [c][1..] == [];
    assert PossibleRun(Next(s2, c), []) && After(Next(s2, c), []) == Next(s2, c);
    assert PossibleRun(s2, [c]) && After(s2, [c]) == Next(s2, c);
    assert PossibleRun(Next(s, a), [b, c]) && After(Next(s, a), [b, c]) == Next(s2, c);
  }

  // ------------------------------------------------------------------ the stream object

  class EventStream {
    const batchSize: nat
    const skipOnError: bool
    var inFlight: int
    var currentBatch: seq<Event>
    var batchQueue: seq<seq<Event>>
    var inProcess: Option<seq<Event>>
    var batchCount: nat
    var marks: map<string, int>
    ghost var done: seq<Event>
    ghost var received: seq<Event>

    ghost function State(): Stream
      reads this
    {
      Stream(batchSize, inFlight, currentBatch, batchQueue, inProcess, done, marks)
    }

    ghost predicate Valid()
      reads this
    {
      Conserves(State(), received)
    }

    constructor (configuredBatchSize: nat, skipOnError: bool, marks: map<string, int>)
      ensures Valid() && received == [] && this.marks == marks
      ensures batchSize == NormalBatchSize(configuredBatchSize)
    {
      batchSize := NormalBatchSize(configuredBatchSize);
      this.skipOnError := skipOnError;
      inFlight, currentBatch, batchQueue, inProcess, batchCount := 0, [], [], None, 0;
      this.marks := marks;
      done, received := [], [];
    }

    /** One turn of the dispatcher loop that received an event. */
    method Dispatch(event: Event)
      requires Valid()
      modifies this`currentBatch, this`inFlight, this`batchQueue, this`received
      ensures Valid() && received == old(received) + [event]
      ensures State() == AfterArrival(old(State()), event)
    {
      StepConserves(State(), Arrive(event), received);
      currentBatch := currentBatch + [event];
      inFlight := inFlight + 1;
      if |currentBatch| == batchSize {
        batchQueue := batchQueue + [currentBatch];
        currentBatch := [];
      }
      received := received + [event];
    }

    /** One turn of the dispatcher loop whose batch timed out. */
    method DispatchOnTimeout()
      requires Valid() && currentBatch != []
      modifies this`currentBatch, this`batchQueue
      ensures Valid() && State() == AfterTimeout(old(State()))
    {
      StepConserves(State(), BatchTimeout, received);
      assert received + [] == received;
      batchQueue := batchQueue + [currentBatch];
      currentBatch := [];
    }

    /** The locked part of the processor loop. */
    method NextBatch()
      requires Valid() && batchQueue != [] && inProcess.None?
      modifies this`batchQueue, this`inProcess, this`batchCount
      ensures Valid() && State() == AfterTake(old(State())) && batchCount == old(batchCount) + 1
    {
      StepConserves(State(), TakeBatch, received);
      assert received + [] == received;
      inProcess := Some(batchQueue[0]);
      batchCount := batchCount + 1;
      batchQueue := batchQueue[1..];
    }

    /**
      `processBatch` over the attempts that are made while the stream stays up. With skip the first attempt
      settles the batch, with block only a success does; until then nothing changes.
     */
    method ProcessBatch(attempts: seq<bool>) returns (processed: bool)
      requires Valid() && inProcess.Some?
      modifies this`inFlight, this`inProcess, this`marks, this`done
      ensures Valid()
      ensures processed <==> (true in attempts || (skipOnError && attempts != []))
      ensures State() == if processed then AfterFinish(old(State())) else old(State())
    {
      processed := false;
      var attempt := 0;
      while !processed && attempt < |attempts|
        invariant attempt <= |attempts|
        invariant processed <==> (true in attempts[..attempt] || (skipOnError && attempt > 0))
      {
        processed := attempts[attempt] || skipOnError;
        assert attempts[..attempt + 1] == attempts[..attempt] + [attempts[attempt]];
        attempt := attempt + 1;
      }
      assert processed ==> true in attempts || (skipOnError && attempts != []);
      assert !processed ==> attempts[..attempt] == attempts;
      if processed {
        AcknowledgeBatch();
      }
    }

    /** The end of `processBatch`: the count goes down and the callbacks move the marks. */
    method AcknowledgeBatch()
      requires Valid() && inProcess.Some?
      modifies this`inFlight, this`inProcess, this`marks, this`done
      ensures Valid() && State() == AfterFinish(old(State()))
    {
      FinishConserves(State(), received);
      var events := inProcess.value;
      inFlight := inFlight - |events|;
      var newest := NewestPerSubscription(events);
      marks := map sub | sub in marks ::
        if sub in newest && newest[sub].block + 1 > marks[sub] then newest[sub].block + 1 else marks[sub];
      inProcess := None;
      done := done + events;
    }

    /** The stream takes no more events while a full batch or more is in flight. */
    method IsBlocked() returns (blocked: bool)
      requires Valid()
      ensures blocked <==> |InProcess(State())| + |Waiting(State())| >= batchSize
    {
      blocked := inFlight >= batchSize;
    }
  }

  /** The callback table of `processBatch`: later events of a subscription replace earlier ones. */
  method NewestPerSubscription(events: seq<Event>) returns (newest: map<string, Event>)
    ensures forall sub :: sub in newest <==> NewestOf(events, sub).Some?
    ensures forall sub :: sub in newest ==> newest[sub] == NewestOf(events, sub).value
  {
    newest := map[];
    for i := 0 to |events|
      invariant forall sub :: sub in newest <==> NewestOf(events[..i], sub).Some?
      invariant forall sub :: sub in newest ==> newest[sub] == NewestOf(events[..i], sub).value
    {
      assert events[..i + 1][..i] == events[..i];
      newest := newest[events[i].sub := events[i]];
    }
    assert events[..|events|] == events;
  }
}
