/**
  What becomes of a confirmation list after it was dispatched (internal/events/block_confirmations.go). The list of a
  pending event is a Go slice, written in place as long as its array has room, and a dispatched event carries that
  slice, not a copy. An event that a walk dispatched stays pending, so later blocks and walks write into what was handed
  out.
 */
module SharedConfirmations {
  import opened Confirmations

  /** What the dispatched event carries: the first `len` cells of the same array, or an array nobody writes any more. */
  datatype Payload = NotDispatched | SameArray(len: nat) | OtherArray(list: seq<Block>)

  /** The array behind the list of a pending event, as far as it was ever written, and how much of it is the list. */
  datatype Tracked = Tracked(event: LogEvent, cells: seq<Block>, cap: nat, len: nat, payload: Payload, pending: bool)

  predicate Valid(t: Tracked) {
    t.len <= |t.cells| <= t.cap && (t.payload.SameArray? ==> t.payload.len <= |t.cells|)
  }

  function List(t: Tracked): seq<Block>
    requires Valid(t)
  {
    t.cells[..t.len]
  }

  /** The confirmations a reader of the dispatched event finds. */
  function Shown(t: Tracked): seq<Block>
    requires Valid(t)
  {
    match t.payload
    case NotDispatched => []
    case SameArray(len) => t.cells[..len]
    case OtherArray(list) => list
  }

  /** `addEvent`: an array with room for the required confirmations. */
  function Added(e: LogEvent, required: nat): (t: Tracked)
    ensures Valid(t)
  {
    Tracked(e, [], required, 0, NotDispatched, true)
  }

  function Overwrite(cells: seq<Block>, i: nat, b: Block): seq<Block>
    requires i <= |cells|
  {
    if i < |cells| then cells[i := b] else cells + [b]
  }

  /** `append(confirmations[0:i], b)`: in place if there is room, otherwise in a new, larger array. */
  function AppendAt(t: Tracked, i: nat, b: Block, room: nat): (t': Tracked)
    requires Valid(t) && i <= t.len
    ensures Valid(t')
  {
    if i < t.cap then t.(cells := Overwrite(t.cells, i, b), len := i + 1)
    else
      t.(cells := t.cells[..i] + [b], cap := i + 1 + room, len := i + 1,
         payload := if t.payload.SameArray? then OtherArray(t.cells[..t.payload.len]) else t.payload)
  }

  /** `dispatchConfirmed`, with the list in the payload. */
  function Dispatch(t: Tracked): (t': Tracked)
    requires Valid(t)
    ensures Valid(t')
  {
    t.(payload := SameArray(t.len))
  }

  // ------------------------------------------------------------------ the two ways to write

  /** The block goes into the list at this position. */
  predicate PlacedAt(t: Tracked, b: Block, i: nat)
    requires Valid(t)
  {
    i <= t.len && b.number == NumberAt(t.event, i) && b.parent == ParentAt(t.event, List(t), i)
  }

  /** The part of `processBlock` for one pending event; an event that is due is dispatched and leaves the table. */
  function AfterBlock(t: Tracked, b: Block, required: nat, room: nat): (t': Tracked)
    requires Valid(t)
    ensures Valid(t')
  {
    if !t.pending then t
    else
      var i := b.number - NumberAt(t.event, 0);
      var placed := if 0 <= i && PlacedAt(t, b, i) then AppendAt(t, i, b, room) else t;
      if placed.len >= required then Dispatch(placed).(pending := false) else placed
  }

  function AppendAll(t: Tracked, blocks: seq<Block>, room: nat): (t': Tracked)
    requires Valid(t)
    ensures Valid(t')
    decreases |blocks|
  {
    if blocks == [] then t else AppendAll(AppendAt(t, t.len, blocks[0], room), blocks[1..], room)
  }

  /** `walkChainForEvent`, which collects `blocks` from the first position on. */
  function AfterWalk(t: Tracked, blocks: seq<Block>, reached: bool, room: nat): (t': Tracked)
    requires Valid(t)
    ensures Valid(t')
  {
    if !t.pending then t
    else
      var walked := AppendAll(t.(len := 0), blocks, room);
      if reached then Dispatch(walked) else walked
  }

  // ------------------------------------------------------------------ the list is the list of the value model

  lemma AppendedList(t: Tracked, i: nat, b: Block, room: nat)
    requires Valid(t) && i <= t.len
    ensures List(AppendAt(t, i, b, room)) == List(t)[..i] + [b]
  {
  }

  lemma BlockIsPlaced(t: Tracked, b: Block, required: nat, room: nat)
    requires Valid(t) && t.pending
    ensures List(AfterBlock(t, b, required, room)) == Place(t.event, List(t), b)
    ensures !AfterBlock(t, b, required, room).pending <==> |Place(t.event, List(t), b)| >= required
  {
    var i := b.number - NumberAt(t.event, 0);
    if 0 <= i && PlacedAt(t, b, i) {
      AppendedList(t, i, b, room);
    }
  }

  lemma {:induction false} AppendedAll(t: Tracked, blocks: seq<Block>, room: nat)
    requires Valid(t)
    ensures List(AppendAll(t, blocks, room)) == List(t) + blocks
    ensures AppendAll(t, blocks, room).pending == t.pending && AppendAll(t, blocks, room).event == t.event
    decreases |blocks|
  {
    if blocks == [] {
      assert List(t) + blocks == List(t);
    } else {
      AppendedList(t, t.len, blocks[0], room);
      AppendedAll(AppendAt(t, t.len, blocks[0], room), blocks[1..], room);
      assert List(t) + [blocks[0]] + blocks[1..] == List(t) + blocks;
    }
  }

  lemma WalkIsCollected(t: Tracked, blocks: seq<Block>, reached: bool, room: nat)
    requires Valid(t) && t.pending
    ensures List(AfterWalk(t, blocks, reached, room)) == blocks && AfterWalk(t, blocks, reached, room).pending
    ensures reached ==> Shown(AfterWalk(t, blocks, reached, room)) == blocks
  {
    AppendedAll(t.(len := 0), blocks, room);
    assert List(t.(len := 0)) + blocks == blocks;
  }

  // ------------------------------------------------------------------ what a reader sees

  /** Writing at position `i` reaches the dispatched list. */
  predicate Reaches(t: Tracked, i: nat) {
    t.payload.SameArray? && i < t.payload.len && i < t.cap
  }

  lemma AppendShows(t: Tracked, i: nat, b: Block, room: nat)
    requires Valid(t) && i <= t.len
    ensures Shown(AppendAt(t, i, b, room)) == if Reaches(t, i) then Shown(t)[i := b] else Shown(t)
  {
  }

  /** A list that has outgrown its array is written elsewhere from then on: no later write reaches the reader. */
  lemma GrownListIsApart(t: Tracked, b: Block, room: nat, i: nat, later: Block, more: nat)
    requires Valid(t) && t.len == t.cap && i <= t.cap + 1
    ensures var grown := AppendAt(t, t.len, b, room);
            Shown(grown) == Shown(t) && Shown(AppendAt(grown, i, later, more)) == Shown(t)
  {
    AppendShows(t, t.len, b, room);
  }

  /** The dispatched list with the first blocks replaced, as far as it goes. */
  function Overlaid(shown: seq<Block>, blocks: seq<Block>): seq<Block> {
    if |blocks| <= |shown| then blocks + shown[|blocks|..] else blocks[..|shown|]
  }

  /** What the event carries before and after a step that does not dispatch it again. */
  lemma BlockChangesShownIff(t: Tracked, b: Block, required: nat, room: nat)
    requires Valid(t) && t.pending && |Place(t.event, List(t), b)| < required
    ensures var t' := AfterBlock(t, b, required, room);
            var i := b.number - NumberAt(t.event, 0);
            Shown(t') != Shown(t) <==> 0 <= i && PlacedAt(t, b, i) && Reaches(t, i) && b != Shown(t)[i]
  {
    BlockIsPlaced(t, b, required, room);
    var i := b.number - NumberAt(t.event, 0);
    if 0 <= i && PlacedAt(t, b, i) {
      AppendShows(t, i, b, room);
      AppendedList(t, i, b, room);
    }
  }

  /** With room for all of them, blocks appended from position `t.len` on are laid over the dispatched list. */
  lemma {:induction false} AppendAllShows(t: Tracked, blocks: seq<Block>, room: nat)
    requires Valid(t) && t.payload.SameArray? && t.len + |blocks| <= t.cap && t.len <= t.payload.len
    ensures var t' := AppendAll(t, blocks, room);
            t'.payload == t.payload && Shown(t') == Shown(t)[..t.len] + Overlaid(Shown(t)[t.len..], blocks)
    decreases |blocks|
  {
    if blocks == [] {
      assert Shown(t) == Shown(t)[..t.len] + Shown(t)[t.len..];
    } else if t.len == t.payload.len {
      BeyondShown(t, blocks, room);
      assert Shown(t)[t.len..] == [];
    } else {
      var t1 := AppendAt(t, t.len, blocks[0], room);
      AppendShows(t, t.len, blocks[0], room);
      AppendAllShows(t1, blocks[1..], room);
      OverlaidOneByOne(Shown(t), t.len, blocks);
    }
  }

  lemma OverlaidOneByOne(s: seq<Block>, n: nat, blocks: seq<Block>)
    requires n < |s| && blocks != []
    ensures var s1 := s[n := blocks[0]];
            s1[..n + 1] + Overlaid(s1[n + 1..], blocks[1..]) == s[..n] + Overlaid(s[n..], blocks)
  {
    var s1 := s[n := blocks[0]];
    assert s1[..n + 1] == s[..n] + [blocks[0]] && s1[n + 1..] == s[n + 1..];
    assert s[n..][1..] == s[n + 1..];
    OverlaidFirst(s[n..], blocks);
  }

  lemma OverlaidFirst(s: seq<Block>, blocks: seq<Block>)
    requires s != [] && blocks != []
    ensures Overlaid(s, blocks) == [blocks[0]] + Overlaid(s[1..], blocks[1..])
  {
    assert blocks == [blocks[0]] + blocks[1..];
    assert |blocks| <= |s| ==> s[|blocks|..] == s[1..][|blocks| - 1..];
  }

  lemma {:induction false} BeyondShown(t: Tracked, blocks: seq<Block>, room: nat)
    requires Valid(t) && t.payload.SameArray? && t.len + |blocks| <= t.cap && t.len >= t.payload.len
    ensures AppendAll(t, blocks, room).payload == t.payload && Shown(AppendAll(t, blocks, room)) == Shown(t)
    decreases |blocks|
  {
    if blocks != [] {
      AppendShows(t, t.len, blocks[0], room);
      BeyondShown(AppendAt(t, t.len, blocks[0], room), blocks[1..], room);
    }
  }

  /** A walk that falls short of the threshold lays what it collected over the list that was handed out. */
  lemma WalkChangesShownIff(t: Tracked, blocks: seq<Block>, room: nat)
    requires Valid(t) && t.pending && t.payload.SameArray? && |blocks| <= t.cap
    ensures var t' := AfterWalk(t, blocks, false, room);
            && Shown(t') == Overlaid(Shown(t), blocks)
            && (Shown(t') != Shown(t) <==>
                  exists i :: 0 <= i < |blocks| && i < |Shown(t)| && blocks[i] != Shown(t)[i])
  {
    var t0 := t.(len := 0);
    AppendAllShows(t0, blocks, room);
    var s := Shown(t);
    assert s[..0] == [] && s[0..] == s && [] + Overlaid(s, blocks) == Overlaid(s, blocks);
    if forall i :: 0 <= i < |blocks| && i < |s| ==> blocks[i] == s[i] {
      assert Overlaid(s, blocks) == s;
    } else {
      var i :| 0 <= i < |blocks| && i < |s| && blocks[i] != s[i];
      assert Overlaid(s, blocks)[i] == blocks[i];
    }
  }

  // ------------------------------------------------------------------ whole runs

  datatype Step = NewBlock(b: Block, room: nat) | Rewalk(blocks: seq<Block>, reached: bool, room: nat)

  /** A walk collects no more than there is room for, as it stops at the required number of confirmations. */
  predicate Possible(t: Tracked, step: Step) {
    step.Rewalk? && t.pending ==> |step.blocks| <= t.cap
  }

  function Next(t: Tracked, required: nat, step: Step): (t': Tracked)
    requires Valid(t)
    ensures Valid(t')
  {
    match step
    case NewBlock(b, room) => AfterBlock(t, b, required, room)
    case Rewalk(blocks, reached, room) => AfterWalk(t, blocks, reached, room)
  }

  predicate PossibleRun(t: Tracked, required: nat, steps: seq<Step>)
    requires Valid(t)
    decreases |steps|
  {
    steps != [] ==> Possible(t, steps[0]) && PossibleRun(Next(t, required, steps[0]), required, steps[1..])
  }

  /** The step writes another block into the dispatched list, or dispatches the event again with another list. */
  ghost predicate Disturbs(t: Tracked, required: nat, step: Step)
    requires Valid(t)
  {
    t.pending &&
    match step
    case NewBlock(b, _) =>
      var i := b.number - NumberAt(t.event, 0);
      if |Place(t.event, List(t), b)| >= required then Place(t.event, List(t), b) != Shown(t)
      else 0 <= i && PlacedAt(t, b, i) && Reaches(t, i) && b != Shown(t)[i]
    case Rewalk(blocks, reached, _) =>
      if reached then blocks != Shown(t)
      else exists i :: 0 <= i < |blocks| && i < |Shown(t)| && blocks[i] != Shown(t)[i]
  }

  ghost predicate NeverDisturbed(t: Tracked, required: nat, steps: seq<Step>)
    requires Valid(t)
    decreases |steps|
  {
    steps != [] ==>
      !Disturbs(t, required, steps[0]) && NeverDisturbed(Next(t, required, steps[0]), required, steps[1..])
  }

  /** A reader finds this list in every state of the run. */
  predicate AlwaysShows(t: Tracked, required: nat, steps: seq<Step>, list: seq<Block>)
    requires Valid(t)
    decreases |steps|
  {
    Shown(t) == list && (steps != [] ==> AlwaysShows(Next(t, required, steps[0]), required, steps[1..], list))
  }

  /** Dispatched by a walk and still pending, or dispatched for good. */
  predicate HandedOut(t: Tracked, required: nat) {
    t.pending ==> t.payload.SameArray? && required <= t.cap
  }

  lemma StepShowsIff(t: Tracked, required: nat, step: Step)
    requires Valid(t) && HandedOut(t, required) && Possible(t, step)
    ensures Shown(Next(t, required, step)) != Shown(t) <==> Disturbs(t, required, step)
    ensures HandedOut(Next(t, required, step), required)
  {
    if t.pending {
      match step
      case NewBlock(b, room) =>
        BlockIsPlaced(t, b, required, room);
        if |Place(t.event, List(t), b)| < required {
          BlockChangesShownIff(t, b, required, room);
        }
      case Rewalk(blocks, reached, room) =>
        WalkIsCollected(t, blocks, reached, room);
        KeepsRoom(t.(len := 0), blocks, room);
        AppendAllShows(t.(len := 0), blocks, room);
        if !reached {
          WalkChangesShownIff(t, blocks, room);
        }
    }
  }

  /**
    Over every run after an event was handed out, a reader finds the same confirmations in every state if and only if no
    step writes another block into the list or dispatches the event again with another one.
   */
  lemma {:induction false} ShownStaysIff(t: Tracked, required: nat, steps: seq<Step>)
    requires Valid(t) && HandedOut(t, required) && PossibleRun(t, required, steps)
    ensures AlwaysShows(t, required, steps, Shown(t)) <==> NeverDisturbed(t, required, steps)
    decreases |steps|
  {
    if steps != [] {
      var t1 := Next(t, required, steps[0]);
      StepShowsIff(t, required, steps[0]);
      if Shown(t1) == Shown(t) {
        ShownStaysIff(t1, required, steps[1..]);
      }
    }
  }

  /** With one block replaced by a sibling, a linked list stays so exactly if it was the last or has the same hash. */
  lemma ReplacedIsLinkedIff(e: LogEvent, s: seq<Block>, i: nat, b: Block)
    requires Linked(e, s) && i < |s| && b.number == NumberAt(e, i) && b.parent == ParentAt(e, s, i)
    ensures Linked(e, s[i := b]) <==> i == |s| - 1 || b.hash == s[i].hash
  {
    var s' := s[i := b];
    if i == |s| - 1 || b.hash == s[i].hash {
      forall j | 0 <= j < |s'| ensures LinkedAt(e, s', j) {
        assert LinkedAt(e, s, j);
      }
    } else {
      assert LinkedAt(e, s, i + 1) && !LinkedAt(e, s', i + 1);
    }
  }

  /**
    A walk dispatches a linked list. Any sibling, of another hash, of any of its blocks but the last then arrives: what
    was handed out is no longer linked.
   */
  lemma SiblingBreaksDispatchedList(e: LogEvent, required: nat, s: seq<Block>, i: nat, b: Block, room: nat)
    requires Linked(e, s) && |s| == required && i < required - 1
    requires b.number == NumberAt(e, i) && b.parent == ParentAt(e, s, i) && b.hash != s[i].hash
    ensures var t := AfterWalk(Added(e, required), s, true, room);
            Shown(t) == s && !Linked(e, Shown(AfterBlock(t, b, required, room)))
  {
    var t := AfterWalk(Added(e, required), s, true, room);
    WalkHandsOut(e, required, s, room);
    BlockOverwrites(t, b, i, required, room);
    ReplacedIsLinkedIff(e, s, i, b);
  }

  lemma WalkHandsOut(e: LogEvent, required: nat, s: seq<Block>, room: nat)
    requires |s| == required
    ensures var t := AfterWalk(Added(e, required), s, true, room);
            && t.event == e && t.pending && t.cap == t.len == required && t.payload == SameArray(required)
            && List(t) == Shown(t) == s
  {
    var t0 := Added(e, required);
    WalkIsCollected(t0, s, true, room);
    KeepsRoom(t0.(len := 0), s, room);
    AppendedAll(t0.(len := 0), s, room);
  }

  lemma BlockOverwrites(t: Tracked, b: Block, i: nat, required: nat, room: nat)
    requires Valid(t) && t.pending && PlacedAt(t, b, i) && Reaches(t, i) && i + 1 < required
    ensures Shown(AfterBlock(t, b, required, room)) == Shown(t)[i := b]
  {
    AppendShows(t, i, b, room);
  }

  lemma {:induction false} KeepsRoom(t: Tracked, blocks: seq<Block>, room: nat)
    requires Valid(t) && t.len + |blocks| <= t.cap
    ensures AppendAll(t, blocks, room).cap == t.cap
    decreases |blocks|
  {
    if blocks != [] {
      KeepsRoom(AppendAt(t, t.len, blocks[0], room), blocks[1..], room);
    }
  }
}
