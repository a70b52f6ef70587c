/** Whole runs of the block confirmation manager: what it hands to the event streams, by blocks and by walks. */
module ConfirmationRuns {
  import opened Sorting
  import opened Confirmations
  import opened ConfirmationManagers

  /** The table of pending events, and the history of events added and events dispatched on either path. */
  datatype World = World(pending: map<EventKey, Pending>, added: seq<LogEvent>, fromBlocks: seq<Pending>,
                         fromWalks: seq<Pending>)

  const Initial := World(map[], [], [], [])

  /** `out` is the order in which an arriving block dispatches the events that are due. */
  datatype Event =
    | NewBlock(block: Block, out: seq<Pending>)
    | Rewalk(key: EventKey, highestSeen: nat, cache: map<nat, Block>, node: nat -> Answer)
    | Add(event: LogEvent)
    | Remove(event: LogEvent)
    | StreamStopped(stream: string)

  ghost predicate Possible(w: World, required: int, ev: Event) {
    match ev
    case NewBlock(b, out) => ListsDue(out, PlaceInAll(w.pending, b), required) && Sorted(out, DispatchLeq)
    case Rewalk(k, _, cache, node) => k in w.pending && HonestNumbers(node) && NumbersMatch(cache)
    case _ => true
  }

  function Walked(w: World, required: int, ev: Event): (seq<Block>, WalkEnd)
    requires ev.Rewalk? && ev.key in w.pending
  {
    Walk(w.pending[ev.key].event, [], required, ev.highestSeen, ev.cache, ev.node)
  }

  ghost function Next(w: World, required: int, ev: Event): World
    requires Possible(w, required, ev)
  {
    match ev
    case NewBlock(b, out) =>
      var placed := PlaceInAll(w.pending, b);
      w.(pending := placed - Due(placed, required), fromBlocks := w.fromBlocks + out)
    case Rewalk(k, _, _, _) =>
      var (confs, end) := Walked(w, required, ev);
      var p := Pending(w.pending[k].event, confs);
      w.(pending := w.pending[k := p], fromWalks := w.fromWalks + if end.ThresholdReached? then [p] else [])
    case Add(e) => w.(pending := w.pending[KeyOf(e) := Pending(e, [])], added := w.added + [e])
    case Remove(e) => w.(pending := w.pending - {KeyOf(e)})
    case StreamStopped(s) => w.(pending := map k | k in w.pending && w.pending[k].event.stream != s :: w.pending[k])
  }

  ghost predicate PossibleRun(w: World, required: int, run: seq<Event>)
    decreases |run|
  {
    run != [] ==> Possible(w, required, run[0]) && PossibleRun(Next(w, required, run[0]), required, run[1..])
  }

  ghost function After(w: World, required: int, run: seq<Event>): World
    requires PossibleRun(w, required, run)
    decreases |run|
  {
    if run == [] then w else After(Next(w, required, run[0]), required, run[1..])
  }

  // ------------------------------------------------------------------ every dispatch is confirmed

  ghost predicate GoodDispatch(p: Pending, required: int, added: seq<LogEvent>) {
    Confirmed(p, required) && p.event in added
  }

  ghost predicate Sound(w: World, required: int) {
    && PendingOK(w.pending)
    && (forall k :: k in w.pending ==> w.pending[k].event in w.added)
    && (forall p :: p in w.fromBlocks ==> GoodDispatch(p, required, w.added))
    && (forall p :: p in w.fromWalks ==> GoodDispatch(p, required, w.added))
  }

  lemma StepKeepsSound(w: World, required: int, ev: Event)
    requires Sound(w, required) && Possible(w, required, ev)
    ensures Sound(Next(w, required, ev), required)
  {
    match ev
    case NewBlock(b, out) =>
      PlaceInAllKeepsOK(w.pending, b);
      forall p | p in out ensures GoodDispatch(p, required, w.added) {
        assert KeyOf(p.event) in Due(PlaceInAll(w.pending, b), required);
      }
    case Rewalk(k, highestSeen, cache, node) =>
      WalkIsLinkedAndBounded(w.pending[k].event, [], required, highestSeen, cache, node);
    case _ =>
  }

  /**
    In every run, whatever blocks arrive, reorganise or are walked again, every event handed to a stream was added
    before and carries at least the required number of confirmations, linked to the event's block and to each other.
   */
  lemma {:induction false} EveryDispatchIsConfirmed(w: World, required: int, run: seq<Event>)
    requires Sound(w, required) && PossibleRun(w, required, run)
    ensures Sound(After(w, required, run), required)
    decreases |run|
  {
    if run != [] {
      StepKeepsSound(w, required, run[0]);
      EveryDispatchIsConfirmed(Next(w, required, run[0]), required, run[1..]);
    }
  }

  // ------------------------------------------------------------------ nothing that was added is lost

  ghost predicate IsPending(w: World, e: LogEvent) {
    exists k :: k in w.pending && w.pending[k].event == e
  }

  ghost predicate DispatchedByBlocks(ps: seq<Pending>, e: LogEvent) {
    exists i :: 0 <= i < |ps| && ps[i].event == e
  }

  /** The step neither removes this log, nor adds it again, nor stops the stream that waits for it. */
  predicate Spares(ev: Event, e: LogEvent) {
    match ev
    case Add(other) => !SameLog(other, e)
    case Remove(other) => !SameLog(other, e)
    case StreamStopped(s) => s != e.stream
    case _ => true
  }

  ghost predicate AlwaysSpares(run: seq<Event>, e: LogEvent) {
    forall i :: 0 <= i < |run| ==> Spares(run[i], e)
  }

  /** After any step that spares it, a pending event is pending still or was dispatched by that step. */
  lemma StepLosesNothing(w: World, required: int, ev: Event, e: LogEvent)
    requires Sound(w, required) && Possible(w, required, ev) && Spares(ev, e) && IsPending(w, e)
    ensures IsPending(Next(w, required, ev), e) || DispatchedByBlocks(Next(w, required, ev).fromBlocks, e)
  {
    var k :| k in w.pending && w.pending[k].event == e;
    var w' := Next(w, required, ev);
    match ev
    case NewBlock(b, out) =>
      var placed := PlaceInAll(w.pending, b);
      if k in Due(placed, required) {
        var i :| 0 <= i < |out| && out[i] == placed[k];
        assert w'.fromBlocks[|w.fromBlocks| + i] == placed[k];
      } else {
        assert k in w'.pending && w'.pending[k].event == e;
      }
    case Rewalk(key, _, _, _) => assert k in w'.pending && w'.pending[k].event == e;
    case Add(other) => assert k in w'.pending && w'.pending[k].event == e;
    case Remove(other) => assert k in w'.pending && w'.pending[k].event == e;
    case StreamStopped(s) => assert k in w'.pending && w'.pending[k].event == e;
  }

  lemma DispatchedStays(w: World, required: int, ev: Event, e: LogEvent)
    requires Possible(w, required, ev) && DispatchedByBlocks(w.fromBlocks, e)
    ensures DispatchedByBlocks(Next(w, required, ev).fromBlocks, e)
  {
    var i :| 0 <= i < |w.fromBlocks| && w.fromBlocks[i].event == e;
    assert Next(w, required, ev).fromBlocks[i].event == e;
  }

  /**
    In every run, an event that is pending stays pending until a block dispatches it, unless its log is removed or added
    again or its stream stops.
   */
  lemma {:induction false} NothingAddedIsLost(w: World, required: int, run: seq<Event>, e: LogEvent)
    requires Sound(w, required) && PossibleRun(w, required, run) && AlwaysSpares(run, e)
    requires IsPending(w, e) || DispatchedByBlocks(w.fromBlocks, e)
    ensures IsPending(After(w, required, run), e) || DispatchedByBlocks(After(w, required, run).fromBlocks, e)
    decreases |run|
  {
    if run != [] {
      assert Spares(run[0], e);
      StepKeepsSound(w, required, run[0]);
      if DispatchedByBlocks(w.fromBlocks, e) {
        DispatchedStays(w, required, run[0], e);
      } else {
        StepLosesNothing(w, required, run[0], e);
      }
      NothingAddedIsLost(Next(w, required, run[0]), required, run[1..], e);
    }
  }

  /** From its addition on, an event is pending or has been dispatched by a block. */
  lemma AddedIsPendingOrDispatched(w: World, required: int, e: LogEvent, run: seq<Event>)
    requires Sound(w, required) && PossibleRun(Next(w, required, Add(e)), required, run) && AlwaysSpares(run, e)
    ensures var w' := After(Next(w, required, Add(e)), required, run);
            IsPending(w', e) || DispatchedByBlocks(w'.fromBlocks, e)
  {
    var w1 := Next(w, required, Add(e));
    StepKeepsSound(w, required, Add(e));
    assert KeyOf(e) in w1.pending && w1.pending[KeyOf(e)].event == e;
    NothingAddedIsLost(w1, required, run, e);
  }

  // ------------------------------------------------------------------ the calls of the manager are steps of a run

  /** A walk is one step: the event keeps what was collected, and what reached its threshold was dispatched. */
  lemma WalkIsAStep(w: World, required: int, highestSeen: nat, k: EventKey, cache: map<nat, Block>, node: nat -> Answer,
                    goesOn: bool, before: Effect, after: Effect)
    requires before.pending == w.pending && HonestNumbers(node) && NumbersMatch(cache)
    requires EventWalked(before, required, highestSeen, k, cache, node, after, goesOn)
    ensures var ev := Rewalk(k, highestSeen, cache, node);
            && Possible(w, required, ev) && after.pending == Next(w, required, ev).pending
            && after.dispatched == before.dispatched + Next(w, required, ev).fromWalks[|w.fromWalks|..]
            && (goesOn <==> !Walked(w, required, ev).1.RpcFailed?)
  {
  }

  /** A new log is added and walked, two steps; a removed one leaves, one step. */
  lemma NotificationIsSteps(w: World, required: int, highestSeen: nat, n: Notification, cache: map<nat, Block>,
                            node: nat -> Answer, goesOn: bool, before: Effect, after: Effect)
    requires before.pending == w.pending && HonestNumbers(node) && NumbersMatch(cache)
    requires Notified(before, required, highestSeen, n, cache, node, after, goesOn)
    ensures match n
            case NewLog(e) =>
              var w1 := Next(w, required, Add(e));
              var walk := Rewalk(KeyOf(e), highestSeen, cache, node);
              && Possible(w1, required, walk) && after.pending == Next(w1, required, walk).pending
              && after.dispatched == before.dispatched + Next(w1, required, walk).fromWalks[|w1.fromWalks|..]
            case RemovedLog(e) =>
              after.pending == Next(w, required, Remove(e)).pending && after.dispatched == before.dispatched && goesOn
  {
    match n
    case NewLog(e) =>
      WalkIsAStep(Next(w, required, Add(e)), required, highestSeen, KeyOf(e), cache, node, goesOn,
                  before.(pending := before.pending[KeyOf(e) := Pending(e, [])]), after);
    case RemovedLog(e) =>
  }

  /** A processed block is one step. */
  lemma BlockIsAStep(w: World, required: int, b: Block, before: Effect, after: Effect)
    requires before.pending == w.pending && BlockProcessed(before, b, required, after)
    ensures exists out ::
              && Possible(w, required, NewBlock(b, out))
              && after.pending == Next(w, required, NewBlock(b, out)).pending
              && after.dispatched == before.dispatched + out
  {
    var placed := PlaceInAll(before.pending, b);
    var out :| && after.dispatched == before.dispatched + out
               && Sorted(out, DispatchLeq) && ListsDue(out, placed, required);
    assert Possible(w, required, NewBlock(b, out));
  }

  // ------------------------------------------------------------------ blocks dispatch an addition once

  function Times(ps: seq<Pending>, k: EventKey): nat {
    if ps == [] then 0 else Times(ps[..|ps| - 1], k) + if KeyOf(ps[|ps| - 1].event) == k then 1 else 0
  }

  function TimesAdded(es: seq<LogEvent>, k: EventKey): nat {
    if es == [] then 0 else TimesAdded(es[..|es| - 1], k) + if KeyOf(es[|es| - 1]) == k then 1 else 0
  }

  lemma {:induction false} TimesOfConcatenation(a: seq<Pending>, b: seq<Pending>, k: EventKey)
    ensures Times(a + b, k) == Times(a, k) + Times(b, k)
    decreases |b|
  {
    if b == [] {
      assert a + b == a;
    } else {
      assert (a + b)[..|a + b| - 1] == a + b[..|b| - 1];
      TimesOfConcatenation(a, b[..|b| - 1], k);
    }
  }

  lemma {:induction false} DueListedOnce(ps: seq<Pending>, pending: map<EventKey, Pending>, k: EventKey)
    requires forall p :: p in ps ==> KeyOf(p.event) in pending && pending[KeyOf(p.event)] == p
    requires forall i, j :: 0 <= i < j < |ps| ==> ps[i] != ps[j]
    ensures Times(ps, k) == if k in pending && pending[k] in ps && KeyOf(pending[k].event) == k then 1 else 0
    decreases |ps|
  {
    if ps != [] {
      var last := |ps| - 1;
      DueListedOnce(ps[..last], pending, k);
      assert ps == ps[..last] + [ps[last]];
      assert ps[last] in ps && ps[last] !in ps[..last];
    }
  }

  /** Dispatches by blocks, plus one while the event is pending, never exceed the additions. */
  ghost predicate Accounted(w: World, k: EventKey) {
    Times(w.fromBlocks, k) + (if k in w.pending then 1 else 0) <= TimesAdded(w.added, k)
  }

  lemma StepKeepsAccounted(w: World, required: int, ev: Event, k: EventKey)
    requires PendingOK(w.pending) && Possible(w, required, ev) && Accounted(w, k)
    ensures Accounted(Next(w, required, ev), k)
  {
    match ev
    case NewBlock(b, out) =>
      var placed := PlaceInAll(w.pending, b);
      PlaceInAllKeepsOK(w.pending, b);
      DueListedOnce(out, placed, k);
      TimesOfConcatenation(w.fromBlocks, out, k);
    case Add(e) =>
      assert (w.added + [e])[..|w.added|] == w.added;
    case _ =>
  }

  /** Arriving blocks dispatch each addition of an event at most once, in every run. */
  lemma {:induction false} BlocksDispatchAnAdditionOnce(w: World, required: int, run: seq<Event>, k: EventKey)
    requires Sound(w, required) && PossibleRun(w, required, run) && Accounted(w, k)
    ensures Times(After(w, required, run).fromBlocks, k) <= TimesAdded(After(w, required, run).added, k)
    decreases |run|
  {
    if run != [] {
      StepKeepsSound(w, required, run[0]);
      StepKeepsAccounted(w, required, run[0], k);
      BlocksDispatchAnAdditionOnce(Next(w, required, run[0]), required, run[1..], k);
    }
  }

  /** Not so with walks: an addition can be dispatched by a walk and then by a block. */
  lemma WalkThenBlockDispatchesTwice(e: LogEvent, first: Block, second: Block)
    requires first.number == NumberAt(e, 0) && first.parent == e.blockHash
    requires second.number == NumberAt(e, 1) && second.parent == first.hash
    ensures exists run :: PossibleRun(Initial, 1, run) &&
              var w := After(Initial, 1, run);
              w.added == [e] && w.fromWalks == [Pending(e, [first])] && w.fromBlocks == [Pending(e, [first, second])]
  {
    var k := KeyOf(e);
    var node := (n: nat) => if n == first.number then Found(first) else Unknown;
    var p := Pending(e, [first, second]);
    var events := [Add(e), Rewalk(k, 0, map[], node), NewBlock(second, [p])];
    AddedAndWalked(e, first, node);
    BlockAfterWalk(e, first, second, World(map[k := Pending(e, [first])], [e], [], [Pending(e, [first])]));
    TwoStepsAndOne(Initial, 1, events);
  }

  /** Added and walked against a node that knows one block, with one confirmation required. */
  lemma AddedAndWalked(e: LogEvent, first: Block, node: nat -> Answer)
    requires first.number == NumberAt(e, 0) && first.parent == e.blockHash
    requires node(first.number) == Found(first) && HonestNumbers(node)
    ensures var w1 := Next(Initial, 1, Add(e));
            var walk := Rewalk(KeyOf(e), 0, map[], node);
            && Possible(Initial, 1, Add(e)) && Possible(w1, 1, walk)
            && Next(w1, 1, walk) == World(map[KeyOf(e) := Pending(e, [first])], [e], [], [Pending(e, [first])])
  {
    var w1 := Next(Initial, 1, Add(e));
    assert w1.pending[KeyOf(e)] == Pending(e, []);
    WalkTakes(e, [], 1, 0, map[], node, first);
    assert Walk(e, [], 1, 0, map[], node) == ([first], ThresholdReached) by {
      assert [] + [first] == [first];
    }
  }

  lemma BlockAfterWalk(e: LogEvent, first: Block, second: Block, w: World)
    requires first.number == NumberAt(e, 0) && first.parent == e.blockHash
    requires second.number == NumberAt(e, 1) && second.parent == first.hash
    requires w.pending == map[KeyOf(e) := Pending(e, [first])]
    ensures var p := Pending(e, [first, second]);
            && Possible(w, 1, NewBlock(second, [p]))
            && Next(w, 1, NewBlock(second, [p])) == World(map[], w.added, w.fromBlocks + [p], w.fromWalks)
  {
    var p := Pending(e, [first, second]);
    assert Place(e, [first], second) == [first, second];
    assert PlaceInAll(w.pending, second) == map[KeyOf(e) := p];
  }

  lemma TwoStepsAndOne(w: World, required: int, run: seq<Event>)
    requires |run| == 3 && Possible(w, required, run[0]) && Possible(Next(w, required, run[0]), required, run[1])
    requires Possible(Next(Next(w, required, run[0]), required, run[1]), required, run[2])
    ensures PossibleRun(w, required, run)
    ensures After(w, required, run) == Next(Next(Next(w, required, run[0]), required, run[1]), required, run[2])
  {
    assert run[1..][0] == run[1] && run[1..][1..] == [run[2]];
    var w2 := Next(Next(w, required, run[0]), required, run[1]);
    assert PossibleRun(w2, required, [run[2]]) by {
      assert PossibleRun(Next(w2, required, run[2]), required, []);
    }
    assert After(w2, required, [run[2]]) == Next(w2, required, run[2]);
  }
}
