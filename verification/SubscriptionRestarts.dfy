/**
  One subscription across losses of its filter (internal/events/subscription.go, internal/events/eventstream.go,
  internal/events/logprocessor.go): what was dispatched before a loss stays under way while the subscription starts over
  from its checkpoint, so events are dispatched again, acknowledged twice or in a different place. The node answers from
  one fixed chain; any call may fail and the filter may be lost at any poll. One step is one lock-protected region of
  the log processor, so batches can be acknowledged between any two of them, also in the middle of a poll.
 */
module SubscriptionRestarts {
  import opened Options
  import opened HighWaterMarks
  import Subs = Subscriptions

  /** An event of the subscription, by its place in the chain. */
  datatype ChainEvent = ChainEvent(block: int, index: nat)

  type Chain = iset<ChainEvent>

  predicate Before(a: ChainEvent, b: ChainEvent) {
    a.block < b.block || (a.block == b.block && a.index < b.index)
  }

  function Blocks(events: seq<ChainEvent>): seq<int> {
    seq(|events|, i requires 0 <= i < |events| => events[i].block)
  }

  /**
    Where the poll loop is: between polls; with events to dispatch, and perhaps an empty page to pass, before the
    subscription is in the state `target`, its marks aside; or about to record the checkpoint.
   */
  datatype Turn =
    | Resting
    | Reading(rest: seq<ChainEvent>, emptyPage: Option<int>, target: Subs.Sub, filter: Option<int>)
    | Recording

  /**
    `start` is the first checkpoint, `stored` the one last recorded. `events` is everything ever dispatched, in order
    and with repetitions; the first `acked` of it have been acknowledged. `filterFrom` is where the filter starts.
   */
  datatype World = World(start: int, sub: Subs.Sub, stored: int, events: seq<ChainEvent>, acked: nat,
                         filterFrom: Option<int>, turn: Turn)

  datatype Step =
    | BeginPoll(ans: Subs.PollAnswers, events: seq<ChainEvent>)   // up to and including the restored checkpoint
    | DispatchNext
    | PassPage                                                    // `markNoEvents`
    | EndPoll
    | Record                                                      // the poll loop notes the mark as the new checkpoint
    | Ack(n: nat)                                                 // `batchComplete` for the next `n` events

  function Begin(start: int): World {
    World(start, Subs.Begin(start).sub, start, [], 0, None, Resting)
  }

  function Polled(w: World, conf: Subs.Config, ans: Subs.PollAnswers): Subs.PollResult {
    Subs.Poll(w.sub, Some(w.stored), conf, ans)
  }

  function FilterStart(w: World, r: Subs.PollResult): Option<int> {
    if r.filterFrom.Some? then r.filterFrom else w.filterFrom
  }

  ghost predicate InOrder(events: seq<ChainEvent>) {
    forall i, j :: 0 <= i < j < |events| ==> Before(events[i], events[j])
  }

  /** Everything in the chain before `e`, from block `low` on, has been seen. */
  ghost predicate Preceded(chain: Chain, low: int, seen: seq<ChainEvent>, e: ChainEvent) {
    forall x :: x in chain && low <= x.block && Before(x, e) ==> x in seen
  }

  /** The filter leaves nothing out between where it starts and what it reports. */
  ghost predicate FromFilter(chain: Chain, low: int, seen: seq<ChainEvent>, events: seq<ChainEvent>) {
    forall j :: 0 <= j < |events| ==> Preceded(chain, low, seen + events[..j], events[j])
  }

  /** What is reported comes from the chain: all of a page in order, and nothing left out by the filter. */
  ghost predicate Honest(chain: Chain, w: World, conf: Subs.Config, ans: Subs.PollAnswers, events: seq<ChainEvent>) {
    var r := Polled(w, conf, ans);
    && Blocks(events) == r.dispatched
    && (r.page.Some? ==>
          && InOrder(events)
          && forall e :: e in events <==> e in chain && r.page.value.from <= e.block <= r.page.value.to)
    && (r.page.None? && FilterStart(w, r).Some? ==> FromFilter(chain, FilterStart(w, r).value, w.events, events))
  }

  /** The marks a poll starts with: a restart goes back to the checkpoint. */
  function MarksFrom(s: Subs.Sub, stored: int): Marks {
    if s.filterStale && s.catchupBlock.None? then s.marks.(hwm := stored) else s.marks
  }

  function WithMarks(w: World, m: Marks): World {
    w.(sub := w.sub.(marks := m))
  }

  /** The end of a page for which the node returned no log at all. */
  function EmptyPage(r: Subs.PollResult, ans: Subs.PollAnswers): Option<int> {
    if r.page.Some? && ans.logs == Some([]) then Some(r.page.value.to) else None
  }

  ghost predicate Possible(chain: Chain, w: World, conf: Subs.Config, step: Step) {
    match step
    case BeginPoll(ans, events) => w.turn.Resting? && Honest(chain, w, conf, ans, events)
    case DispatchNext => w.turn.Reading? && w.turn.rest != []
    case PassPage => w.turn.Reading? && w.turn.rest == [] && w.turn.emptyPage.Some?
    case EndPoll => w.turn.Reading? && w.turn.rest == [] && w.turn.emptyPage.None?
    case Record => w.turn.Recording?
    case Ack(n) => 1 <= n && w.acked + n <= |w.events|
  }

  ghost function Next(chain: Chain, w: World, conf: Subs.Config, step: Step): World
    requires Possible(chain, w, conf, step)
  {
    match step
    case BeginPoll(ans, events) =>
      var r := Polled(w, conf, ans);
      WithMarks(w, MarksFrom(w.sub, w.stored)).(turn := Reading(events, EmptyPage(r, ans), r.sub, FilterStart(w, r)))
    case DispatchNext =>
      var e := w.turn.rest[0];
      WithMarks(w, WithDispatched(w.sub.marks, e.block)).(events := w.events + [e],
        turn := w.turn.(rest := w.turn.rest[1..]))
    case PassPage =>
      WithMarks(w, PastEmptyPage(w.sub.marks, w.turn.emptyPage.value)).(turn := w.turn.(emptyPage := None))
    case EndPoll =>
      w.(sub := w.turn.target.(marks := w.sub.marks), filterFrom := w.turn.filter, turn := Recording)
    case Record => w.(stored := w.sub.marks.hwm, turn := Resting)
    case Ack(n) =>
      WithMarks(w, PastBatch(w.sub.marks, w.events[w.acked + n - 1].block)).(acked := w.acked + n)
  }

  ghost predicate PossibleRun(chain: Chain, w: World, conf: Subs.Config, steps: seq<Step>)
    decreases |steps|
  {
    steps != [] ==>
      Possible(chain, w, conf, steps[0]) && PossibleRun(chain, Next(chain, w, conf, steps[0]), conf, steps[1..])
  }

  // ------------------------------------------------------------------ what is safe

  /** Every event of the chain from `start` on and below `end` is among these. */
  ghost predicate Covered(chain: Chain, start: int, end: int, seen: seq<ChainEvent>) {
    forall e :: e in chain && start <= e.block < end ==> e in seen
  }

  function Acked(w: World): seq<ChainEvent>
    requires w.acked <= |w.events|
  {
    w.events[..w.acked]
  }

  /** No event of the chain below the mark or below the stored checkpoint has never been acknowledged. */
  ghost predicate Safe(chain: Chain, w: World) {
    && w.acked <= |w.events|
    && Covered(chain, w.start, w.sub.marks.hwm, Acked(w)) && Covered(chain, w.start, w.stored, Acked(w))
  }

  /** The acknowledgement leaves no event of the block it ends in behind. */
  ghost predicate EndsWithBlock(chain: Chain, w: World, n: nat)
    requires 1 <= n && w.acked + n <= |w.events|
  {
    forall e :: e in chain && w.start <= e.block == w.events[w.acked + n - 1].block ==> e in w.events[..w.acked + n]
  }

  ghost predicate AlwaysSafe(chain: Chain, w: World, conf: Subs.Config, steps: seq<Step>)
    requires PossibleRun(chain, w, conf, steps)
    decreases |steps|
  {
    Safe(chain, w) && (steps != [] ==> AlwaysSafe(chain, Next(chain, w, conf, steps[0]), conf, steps[1..]))
  }

  ghost predicate AcksWholeBlocks(chain: Chain, w: World, conf: Subs.Config, steps: seq<Step>)
    requires PossibleRun(chain, w, conf, steps)
    decreases |steps|
  {
    steps != [] ==>
      && (steps[0].Ack? ==> EndsWithBlock(chain, w, steps[0].n))
      && AcksWholeBlocks(chain, Next(chain, w, conf, steps[0]), conf, steps[1..])
  }

  // ------------------------------------------------------------------ the invariant

  /** The subscription has read everything up to where it reads next. */
  ghost predicate Reads(chain: Chain, start: int, s: Subs.Sub, filterFrom: Option<int>, events: seq<ChainEvent>) {
    && (s.catchupBlock.Some? ==>
          start <= s.catchupBlock.value && Covered(chain, start, s.catchupBlock.value, events))
    && (!s.filterStale ==>
          s.catchupBlock.None? && filterFrom.Some? && Covered(chain, start, filterFrom.value, events))
  }

  /** What is still to be dispatched goes on from what was, and the rest of the poll leaves nothing out. */
  ghost predicate TurnOK(chain: Chain, w: World) {
    match w.turn
    case Reading(rest, emptyPage, target, filter) =>
      && FromFilter(chain, w.start, w.events, rest)
      && (emptyPage.Some? ==>
            rest == [] && w.start <= emptyPage.value + 1 && Covered(chain, w.start, emptyPage.value + 1, w.events))
      && Reads(chain, w.start, target, filter, w.events + rest)
    case _ => Reads(chain, w.start, w.sub, w.filterFrom, w.events)
  }

  /** Nothing was dispatched before everything that comes before it in the chain. */
  ghost predicate NothingSkipped(chain: Chain, start: int, events: seq<ChainEvent>) {
    forall i :: 0 <= i < |events| ==> Preceded(chain, start, events[..i], events[i])
  }

  predicate AllUpTo(events: seq<ChainEvent>, highest: int) {
    forall i :: 0 <= i < |events| ==> events[i].block <= highest
  }

  ghost predicate Sound(chain: Chain, w: World) {
    && 0 < w.start <= w.stored && w.start <= w.sub.marks.hwm
    && Safe(chain, w) && TurnOK(chain, w) && NothingSkipped(chain, w.start, w.events)
    && AllUpTo(w.events, w.sub.marks.highestDispatched)
  }

  lemma BeginIsSound(chain: Chain, start: int)
    requires start > 0
    ensures Sound(chain, Begin(start))
  {
  }

  // ------------------------------------------------------------------ acknowledgements

  /** Safe afterwards if and only if no event of the block it ends in is left behind. */
  lemma AckIsSafeIff(chain: Chain, w: World, conf: Subs.Config, n: nat)
    requires Sound(chain, w) && Possible(chain, w, conf, Ack(n))
    ensures Safe(chain, Next(chain, w, conf, Ack(n))) <==> EndsWithBlock(chain, w, n)
  {
    var w' := Next(chain, w, conf, Ack(n));
    assert Acked(w) <= Acked(w');
    var newest := w.events[w.acked + n - 1];
    if EndsWithBlock(chain, w, n) {
      AckCovers(chain, w, n);
    }
    if Safe(chain, w') {
      assert newest.block < w'.sub.marks.hwm;
    }
  }

  lemma AckCovers(chain: Chain, w: World, n: nat)
    requires Sound(chain, w) && 1 <= n && w.acked + n <= |w.events| && EndsWithBlock(chain, w, n)
    ensures Covered(chain, w.start, w.events[w.acked + n - 1].block + 1, w.events[..w.acked + n])
  {
    var last := w.acked + n - 1;
    var newest := w.events[last];
    assert Preceded(chain, w.start, w.events[..last], newest);
    assert w.events[..last] <= w.events[..last + 1];
    forall e | e in chain && w.start <= e.block < newest.block + 1 ensures e in w.events[..last + 1] {
      if e.block < newest.block {
        assert Before(e, newest);
      }
    }
  }

  lemma AckKeepsSound(chain: Chain, w: World, conf: Subs.Config, n: nat)
    requires Sound(chain, w) && Possible(chain, w, conf, Ack(n)) && EndsWithBlock(chain, w, n)
    ensures Sound(chain, Next(chain, w, conf, Ack(n)))
  {
    AckIsSafeIff(chain, w, conf, n);
  }

  // ------------------------------------------------------------------ the beginning of a poll

  /** The poll reads a page from where the subscription is. */
  predicate PageRead(s: Subs.Sub, stored: int, ans: Subs.PollAnswers, r: Subs.PollResult)
    requires r.page.Some?
  {
    var page := r.page.value;
    var m := MarksFrom(s, stored);
    && s.filterStale && r.sub.filterStale && ans.logs.Some?
    && page.from == Subs.Since(s, stored) <= page.to && r.sub.catchupBlock == Some(page.to + 1)
    && (if ans.logs.value == [] then r.sub.marks == PastEmptyPage(m, page.to) && r.dispatched == []
        else r.sub.marks == Subs.DispatchAll(m, r.dispatched))
  }

  /** The poll reads the filter or nothing, and may lose the filter. */
  predicate NoPageRead(s: Subs.Sub, stored: int, r: Subs.PollResult) {
    && r.sub.marks == Subs.DispatchAll(MarksFrom(s, stored), r.dispatched)
    && (s.filterStale && r.filterFrom.None? ==> r.sub.filterStale && r.dispatched == [])
    && (r.filterFrom.Some? ==> s.filterStale && r.filterFrom.value == Subs.Since(s, stored))
    && (r.sub.catchupBlock.Some? ==> s.filterStale && r.sub.catchupBlock.value == Subs.Since(s, stored))
    && (!r.sub.filterStale ==> r.sub.catchupBlock.None?)
  }

  lemma PageCase(s: Subs.Sub, stored: int, conf: Subs.Config, ans: Subs.PollAnswers)
    requires Subs.Sane(conf) && stored > 0 && (!s.filterStale ==> s.catchupBlock.None?)
    requires Subs.Poll(s, Some(stored), conf, ans).page.Some?
    ensures PageRead(s, stored, ans, Subs.Poll(s, Some(stored), conf, ans))
  {
    assert s.filterStale;
  }

  lemma NoPageCase(s: Subs.Sub, stored: int, conf: Subs.Config, ans: Subs.PollAnswers)
    requires Subs.Sane(conf) && stored > 0 && (!s.filterStale ==> s.catchupBlock.None?)
    requires Subs.Poll(s, Some(stored), conf, ans).page.None?
    ensures NoPageRead(s, stored, Subs.Poll(s, Some(stored), conf, ans))
  {
    if s.filterStale {
      RestartCase(s, stored, conf, ans);
    } else {
      FilterCase(s, conf, 0, ans);
    }
  }

  /** What reading the filter leaves behind. */
  lemma FilterCase(s: Subs.Sub, conf: Subs.Config, head: int, ans: Subs.PollAnswers)
    requires s.catchupBlock.None?
    ensures var r := Subs.ProcessNewEvents(s, conf, head, ans);
            && r.page.None? && r.filterFrom.None? && r.sub.catchupBlock.None?
            && r.sub.marks == Subs.DispatchAll(s.marks, r.dispatched)
  {
  }

  lemma RestartCase(s: Subs.Sub, stored: int, conf: Subs.Config, ans: Subs.PollAnswers)
    requires Subs.Sane(conf) && stored > 0 && s.filterStale && Subs.Poll(s, Some(stored), conf, ans).page.None?
    ensures NoPageRead(s, stored, Subs.Poll(s, Some(stored), conf, ans))
  {
    var s0 := s.(marks := MarksFrom(s, stored));
    assert Subs.StartFrom(s, Some(stored), ans) == Some((s0, stored));
    var (s1, filterFrom, ok) := Subs.RestartFilter(s0, stored, conf, ans);
    if ok && s1.catchupBlock.None? {
      FilterCase(s1, conf, ans.head.value, ans);
    }
  }

  /** Where the subscription reads next, and that everything before has been dispatched. */
  lemma SinceIsCovered(chain: Chain, w: World)
    requires Sound(chain, w) && w.turn.Resting? && w.sub.filterStale
    ensures w.start <= Subs.Since(w.sub, w.stored)
    ensures Covered(chain, w.start, Subs.Since(w.sub, w.stored), w.events)
  {
    assert Acked(w) <= w.events;
  }

  /** The mark a poll starts with covers acknowledged events only. */
  lemma MarksFromAreSafe(chain: Chain, w: World)
    requires Sound(chain, w)
    ensures var m := MarksFrom(w.sub, w.stored);
            w.start <= m.hwm && Covered(chain, w.start, m.hwm, Acked(w)) && AllUpTo(w.events, m.highestDispatched)
  {
  }

  /** More events, each after everything that comes before it, keep the order of dispatch. */
  lemma SkipsNothing(chain: Chain, start: int, events: seq<ChainEvent>, more: seq<ChainEvent>)
    requires NothingSkipped(chain, start, events) && FromFilter(chain, start, events, more)
    ensures NothingSkipped(chain, start, events + more)
  {
    var all := events + more;
    forall i | 0 <= i < |all| ensures Preceded(chain, start, all[..i], all[i]) {
      if i < |events| {
        assert all[..i] == events[..i];
      } else {
        assert all[..i] == events + more[..i - |events|];
      }
    }
  }

  /** What the filter reports is preceded by everything from the start on. */
  lemma FilterGoesOn(chain: Chain, start: int, low: int, events: seq<ChainEvent>, more: seq<ChainEvent>)
    requires Covered(chain, start, low, events) && FromFilter(chain, low, events, more)
    ensures FromFilter(chain, start, events, more)
  {
    forall j | 0 <= j < |more| ensures Preceded(chain, start, events + more[..j], more[j]) {
      assert Preceded(chain, low, events + more[..j], more[j]);
    }
  }

  /** So is what a page reports. */
  lemma PageGoesOn(chain: Chain, start: int, page: Subs.Page, events: seq<ChainEvent>, more: seq<ChainEvent>)
    requires Covered(chain, start, page.from, events) && InOrder(more)
    requires forall e :: e in more <==> e in chain && page.from <= e.block <= page.to
    ensures FromFilter(chain, start, events, more)
    ensures Covered(chain, start, page.to + 1, events + more)
  {
    forall j | 0 <= j < |more| ensures Preceded(chain, start, events + more[..j], more[j]) {
      assert more[j] in more;
      forall x | x in chain && start <= x.block && Before(x, more[j]) ensures x in events + more[..j] {
        if page.from <= x.block {
          var i :| 0 <= i < |more| && more[i] == x;
          assert i < j;
          assert more[..j][i] == x;
        }
      }
    }
  }

  /** A poll that reads a page has everything in it to dispatch, in order, or an empty page to pass. */
  lemma PageBegins(chain: Chain, w: World, conf: Subs.Config, ans: Subs.PollAnswers, events: seq<ChainEvent>)
    requires Subs.Sane(conf) && Sound(chain, w) && w.turn.Resting? && Honest(chain, w, conf, ans, events)
    requires Polled(w, conf, ans).page.Some?
    ensures TurnOK(chain, Next(chain, w, conf, BeginPoll(ans, events)))
  {
    var page := Polled(w, conf, ans).page.value;
    PageCase(w.sub, w.stored, conf, ans);
    SinceIsCovered(chain, w);
    PageGoesOn(chain, w.start, page, w.events, events);
    if ans.logs == Some([]) {
      assert |Blocks(events)| == |events|;
      assert w.events + events == w.events;
    }
  }

  /** Any other poll has what the filter reports to dispatch, or nothing, and may lose the filter. */
  lemma OtherPollBegins(chain: Chain, w: World, conf: Subs.Config, ans: Subs.PollAnswers, events: seq<ChainEvent>)
    requires Subs.Sane(conf) && Sound(chain, w) && w.turn.Resting? && Honest(chain, w, conf, ans, events)
    requires Polled(w, conf, ans).page.None?
    ensures TurnOK(chain, Next(chain, w, conf, BeginPoll(ans, events)))
  {
    var r := Polled(w, conf, ans);
    NoPageCase(w.sub, w.stored, conf, ans);
    if w.sub.filterStale {
      SinceIsCovered(chain, w);
    }
    if w.sub.filterStale && r.filterFrom.None? {
      assert |Blocks(events)| == |events| == 0;
    } else {
      FilterGoesOn(chain, w.start, FilterStart(w, r).value, w.events, events);
    }
    assert w.events <= w.events + events;
  }

  lemma BeginKeepsSound(chain: Chain, w: World, conf: Subs.Config, ans: Subs.PollAnswers, events: seq<ChainEvent>)
    requires Subs.Sane(conf) && Sound(chain, w) && Possible(chain, w, conf, BeginPoll(ans, events))
    ensures Sound(chain, Next(chain, w, conf, BeginPoll(ans, events)))
  {
    MarksFromAreSafe(chain, w);
    if Polled(w, conf, ans).page.Some? {
      PageBegins(chain, w, conf, ans, events);
    } else {
      OtherPollBegins(chain, w, conf, ans, events);
    }
  }

  // ------------------------------------------------------------------ the rest of a poll

  lemma DispatchKeepsSound(chain: Chain, w: World, conf: Subs.Config)
    requires Sound(chain, w) && Possible(chain, w, conf, DispatchNext)
    ensures Sound(chain, Next(chain, w, conf, DispatchNext))
  {
    var w' := Next(chain, w, conf, DispatchNext);
    var rest := w.turn.rest;
    assert Acked(w') == Acked(w);
    assert w'.events + w'.turn.rest == w.events + rest;
    FirstIsNext(chain, w.start, w.events, rest);
    SkipsNothing(chain, w.start, w.events, [rest[0]]);
  }

  lemma FirstIsNext(chain: Chain, start: int, events: seq<ChainEvent>, rest: seq<ChainEvent>)
    requires FromFilter(chain, start, events, rest) && rest != []
    ensures FromFilter(chain, start, events, [rest[0]])
    ensures FromFilter(chain, start, events + [rest[0]], rest[1..])
  {
    assert Preceded(chain, start, events + rest[..0], rest[0]);
    assert [rest[0]][..0] == rest[..0];
    forall j | 0 <= j < |rest[1..]| ensures Preceded(chain, start, events + [rest[0]] + rest[1..][..j], rest[1..][j]) {
      assert Preceded(chain, start, events + rest[..j + 1], rest[j + 1]);
      assert events + [rest[0]] + rest[1..][..j] == events + rest[..j + 1];
    }
  }

  /**
    `markNoEvents`, however many restarts there were and whatever was acknowledged meanwhile: the empty page moves the
    mark only when nothing is under way, so only over acknowledged events.
   */
  lemma EmptyPageIsSafe(chain: Chain, w: World, conf: Subs.Config)
    requires Sound(chain, w) && Possible(chain, w, conf, PassPage)
    ensures Sound(chain, Next(chain, w, conf, PassPage))
  {
    var m := w.sub.marks;
    var end := w.turn.emptyPage.value;
    if m.highestDispatched < m.hwm {
      forall e | e in chain && w.start <= e.block < end + 1 ensures e in Acked(w) {
        var i :| 0 <= i < |w.events| && w.events[i] == e;
      }
    }
  }

  lemma EndKeepsSound(chain: Chain, w: World, conf: Subs.Config)
    requires Sound(chain, w) && Possible(chain, w, conf, EndPoll)
    ensures Sound(chain, Next(chain, w, conf, EndPoll))
  {
    assert w.events + w.turn.rest == w.events;
  }

  /** Every step of a poll keeps mark and checkpoint safe and leaves no event of the chain out. */
  lemma PollKeepsSound(chain: Chain, w: World, conf: Subs.Config, step: Step)
    requires Subs.Sane(conf) && Sound(chain, w) && Possible(chain, w, conf, step) && !step.Ack?
    ensures Sound(chain, Next(chain, w, conf, step))
  {
    match step
    case BeginPoll(ans, events) => BeginKeepsSound(chain, w, conf, ans, events);
    case DispatchNext => DispatchKeepsSound(chain, w, conf);
    case PassPage => EmptyPageIsSafe(chain, w, conf);
    case EndPoll => EndKeepsSound(chain, w, conf);
    case Record =>
  }

  // ------------------------------------------------------------------ whole runs

  lemma {:induction false} SafeIffWholeBlocks(chain: Chain, w: World, conf: Subs.Config, steps: seq<Step>)
    requires Subs.Sane(conf) && Sound(chain, w) && PossibleRun(chain, w, conf, steps)
    ensures AlwaysSafe(chain, w, conf, steps) <==> AcksWholeBlocks(chain, w, conf, steps)
    decreases |steps|
  {
    if steps != [] {
      var w' := Next(chain, w, conf, steps[0]);
      if !steps[0].Ack? {
        PollKeepsSound(chain, w, conf, steps[0]);
        SafeIffWholeBlocks(chain, w', conf, steps[1..]);
      } else {
        var n := steps[0].n;
        AckIsSafeIff(chain, w, conf, n);
        if EndsWithBlock(chain, w, n) {
          AckKeepsSound(chain, w, conf, n);
          SafeIffWholeBlocks(chain, w', conf, steps[1..]);
        } else {
          assert !Safe(chain, w');
        }
      }
    }
  }

  /**
    Over every run from a usable checkpoint, with RPC errors and losses of the filter anywhere and batches acknowledged
    between any two locked regions, every event of the
    chain below the mark or the stored checkpoint has been acknowledged, in every state of the run, if and only if no
    acknowledgement left an event of the block it ended in behind.
   */
  lemma CheckpointSurvivesFilterLoss(chain: Chain, start: int, conf: Subs.Config, steps: seq<Step>)
    requires Subs.Sane(conf) && start > 0 && PossibleRun(chain, Begin(start), conf, steps)
    ensures AlwaysSafe(chain, Begin(start), conf, steps) <==> AcksWholeBlocks(chain, Begin(start), conf, steps)
  {
    BeginIsSound(chain, start);
    SafeIffWholeBlocks(chain, Begin(start), conf, steps);
  }

  // ------------------------------------------------------------------ a poll without interruption

  lemma {:induction false} DispatchAllFromFront(m: Marks, blocks: seq<int>)
    requires blocks != []
    ensures Subs.DispatchAll(m, blocks) == Subs.DispatchAll(WithDispatched(m, blocks[0]), blocks[1..])
    decreases |blocks|
  {
    if |blocks| > 1 {
      var last := |blocks| - 1;
      DispatchAllFromFront(m, blocks[..last]);
      assert blocks[..last][1..] == blocks[1..][..last - 1];
    }
  }

  /** The steps that dispatch what there is to dispatch. */
  function Dispatches(n: nat): seq<Step> {
    if n == 0 then [] else [DispatchNext] + Dispatches(n - 1)
  }

  ghost function After(chain: Chain, w: World, conf: Subs.Config, steps: seq<Step>): World
    requires PossibleRun(chain, w, conf, steps)
    decreases |steps|
  {
    if steps == [] then w else After(chain, Next(chain, w, conf, steps[0]), conf, steps[1..])
  }

  lemma Prepend(chain: Chain, w: World, conf: Subs.Config, step: Step, rest: seq<Step>)
    requires Possible(chain, w, conf, step) && PossibleRun(chain, Next(chain, w, conf, step), conf, rest)
    ensures PossibleRun(chain, w, conf, [step] + rest)
    ensures After(chain, w, conf, [step] + rest) == After(chain, Next(chain, w, conf, step), conf, rest)
  {
    assert ([step] + rest)[1..] == rest;
  }

  /** All that is to be dispatched has been. */
  function Dispatched(w: World): World
    requires w.turn.Reading?
  {
    WithMarks(w, Subs.DispatchAll(w.sub.marks, Blocks(w.turn.rest))).(events := w.events + w.turn.rest,
      turn := w.turn.(rest := []))
  }

  lemma {:induction false} DispatchesThen(chain: Chain, w: World, conf: Subs.Config, rest: seq<Step>)
    requires w.turn.Reading? && PossibleRun(chain, Dispatched(w), conf, rest)
    ensures PossibleRun(chain, w, conf, Dispatches(|w.turn.rest|) + rest)
    ensures After(chain, w, conf, Dispatches(|w.turn.rest|) + rest) == After(chain, Dispatched(w), conf, rest)
    decreases |w.turn.rest|
  {
    var n := |w.turn.rest|;
    if n == 0 {
      NothingToDispatch(w);
      assert Dispatches(0) + rest == rest;
    } else {
      DispatchedOneByOne(chain, w, conf);
      DispatchesThen(chain, Next(chain, w, conf, DispatchNext), conf, rest);
      Prepend(chain, w, conf, DispatchNext, Dispatches(n - 1) + rest);
      assert [DispatchNext] + (Dispatches(n - 1) + rest) == Dispatches(n) + rest;
    }
  }

  lemma NothingToDispatch(w: World)
    requires w.turn.Reading? && w.turn.rest == []
    ensures Dispatched(w) == w
  {
    assert w.events + w.turn.rest == w.events && Blocks(w.turn.rest) == [];
  }

  lemma DispatchedOneByOne(chain: Chain, w: World, conf: Subs.Config)
    requires Possible(chain, w, conf, DispatchNext)
    ensures var w1 := Next(chain, w, conf, DispatchNext);
            w1.turn.Reading? && |w1.turn.rest| == |w.turn.rest| - 1 && Dispatched(w1) == Dispatched(w)
  {
    var todo := w.turn.rest;
    DispatchAllFromFront(w.sub.marks, Blocks(todo));
    assert Blocks(todo)[1..] == Blocks(todo[1..]);
    assert w.events + [todo[0]] + todo[1..] == w.events + todo;
  }

  function Last(emptyPage: Option<int>): seq<Step> {
    if emptyPage.Some? then [PassPage, EndPoll, Record] else [EndPoll, Record]
  }

  /** Uninterrupted, the steps of a poll amount to the poll of the subscription as one step. */
  lemma UninterruptedPollIsPoll(chain: Chain, w: World, conf: Subs.Config, ans: Subs.PollAnswers,
                                events: seq<ChainEvent>)
    requires Subs.Sane(conf) && Sound(chain, w) && Possible(chain, w, conf, BeginPoll(ans, events))
    ensures var r := Polled(w, conf, ans);
            var steps := [BeginPoll(ans, events)] + (Dispatches(|events|) + Last(EmptyPage(r, ans)));
            && PossibleRun(chain, w, conf, steps)
            && After(chain, w, conf, steps) ==
               w.(sub := r.sub, stored := r.sub.marks.hwm, events := w.events + events, filterFrom := FilterStart(w, r))
  {
    var r := Polled(w, conf, ans);
    var w1 := Next(chain, w, conf, BeginPoll(ans, events));
    var last := Last(EmptyPage(r, ans));
    PollMarksAre(w, conf, ans, events);
    LastSteps(chain, Dispatched(w1), conf);
    DispatchesThen(chain, w1, conf, last);
    Prepend(chain, w, conf, BeginPoll(ans, events), Dispatches(|events|) + last);
  }

  lemma PollMarksAre(w: World, conf: Subs.Config, ans: Subs.PollAnswers, events: seq<ChainEvent>)
    requires Subs.Sane(conf) && w.stored > 0 && (!w.sub.filterStale ==> w.sub.catchupBlock.None?)
    requires Blocks(events) == Polled(w, conf, ans).dispatched
    ensures var r := Polled(w, conf, ans);
            var m := Subs.DispatchAll(MarksFrom(w.sub, w.stored), Blocks(events));
            r.sub.marks == if EmptyPage(r, ans).Some? then PastEmptyPage(m, EmptyPage(r, ans).value) else m
  {
    if Polled(w, conf, ans).page.Some? {
      PageCase(w.sub, w.stored, conf, ans);
    } else {
      NoPageCase(w.sub, w.stored, conf, ans);
    }
  }

  lemma LastSteps(chain: Chain, w: World, conf: Subs.Config)
    requires w.turn.Reading? && w.turn.rest == []
    ensures PossibleRun(chain, w, conf, Last(w.turn.emptyPage))
    ensures var m := if w.turn.emptyPage.Some? then PastEmptyPage(w.sub.marks, w.turn.emptyPage.value)
                     else w.sub.marks;
            After(chain, w, conf, Last(w.turn.emptyPage)) ==
            w.(sub := w.turn.target.(marks := m), stored := m.hwm, filterFrom := w.turn.filter, turn := Resting)
  {
    var w1 := if w.turn.emptyPage.Some? then Next(chain, w, conf, PassPage) else w;
    var w2 := Next(chain, w1, conf, EndPoll);
    Prepend(chain, w2, conf, Record, []);
    Prepend(chain, w1, conf, EndPoll, [Record]);
    if w.turn.emptyPage.Some? {
      Prepend(chain, w, conf, PassPage, [EndPoll, Record]);
    }
  }
}
