/**
  Catch-up paging and the checkpoint of one subscription (internal/events/subscription.go, the poll loop of
  internal/events/eventstream.go). Runs start from a usable checkpoint, without a confirmation manager, and end at a
  reset or at the loss of the filter, after which the subscription starts over from its checkpoint; the module
  SubscriptionRestarts goes on from there. Block numbers are plain integers.
 */
module Subscriptions {
  import opened Options
  import opened HighWaterMarks

  datatype Config = Config(blockGap: int, pageSize: int)

  const DefaultBlockGap := 250
  const DefaultPageSize := 250

  /** What the subscription manager makes of the configured values. */
  function Normalize(conf: Config): (r: Config)
    ensures r.pageSize >= 1 && r.blockGap >= r.pageSize
    ensures r.pageSize == if conf.pageSize > 0 then conf.pageSize else 250
    ensures var gap := if conf.blockGap > 0 then conf.blockGap else 250;
            r.blockGap == gap || (gap < r.pageSize && r.blockGap == r.pageSize)
  {
    var gap := if conf.blockGap <= 0 then DefaultBlockGap else conf.blockGap;
    var page := if conf.pageSize <= 0 then DefaultPageSize else conf.pageSize;
    Config(if gap < page then page else gap, page)
  }

  predicate Sane(conf: Config) {
    conf.pageSize >= 1 && conf.blockGap >= conf.pageSize
  }

  /** One log of a reply; an entry that cannot be decoded is reported and skipped. */
  datatype LogItem = LogItem(block: int, decodes: bool)

  /**
    What the node answers during one poll; None is an RPC error. `filterLost` says that a failing filter poll reports
    the filter as not found, `initial` is the block height a subscription without a checkpoint starts from.
   */
  datatype PollAnswers = PollAnswers(head: Option<int>, newFilterOK: bool, logs: Option<seq<LogItem>>,
                                     filterLost: bool, initial: Option<int>)

  datatype Sub = Sub(catchupBlock: Option<int>, filterStale: bool, filteredOnce: bool, synchronized: bool,
                     marks: Marks)

  /** A successful getLogs page, with the head observed in the same poll. */
  datatype Page = Page(from: int, to: int, head: int)

  /** What a poll leaves behind: the new state, the page read, the filter created and the blocks dispatched. */
  datatype PollResult = PollResult(sub: Sub, page: Option<Page>, filterFrom: Option<int>, dispatched: seq<int>)

  // ------------------------------------------------------------------ one poll

  /** `restartFilter` and `createFilter`. */
  function RestartFilter(s: Sub, checkpoint: int, conf: Config, ans: PollAnswers): (Sub, Option<int>, bool) {
    var since := if s.catchupBlock.Some? then s.catchupBlock.value else checkpoint;
    if ans.head.None? then (s, None, false)
    else if conf.blockGap > 0 && ans.head.value - since > conf.blockGap then
      (s.(catchupBlock := Some(since), synchronized := false), None, true)
    else if !ans.newFilterOK then (s, None, false)
    else (s.(catchupBlock := None, filteredOnce := false, filterStale := false), Some(since), true)
  }

  function Decoded(logs: seq<LogItem>): seq<int> {
    if logs == [] then []
    else
      var last := |logs| - 1;
      Decoded(logs[..last]) + if logs[last].decodes then [logs[last].block] else []
  }

  function DispatchAll(m: Marks, blocks: seq<int>): Marks {
    if blocks == [] then m
    else WithDispatched(DispatchAll(m, blocks[..|blocks| - 1]), blocks[|blocks| - 1])
  }

  /** `processCatchupBlocks`: an empty page may move the mark, any page moves the position. */
  function ProcessPage(s: Sub, conf: Config, logs: seq<LogItem>): Sub
    requires s.catchupBlock.Some?
  {
    var end := s.catchupBlock.value + conf.pageSize - 1;
    s.(catchupBlock := Some(end + 1),
       marks := if logs == [] then PastEmptyPage(s.marks, end) else DispatchAll(s.marks, Decoded(logs)))
  }

  /** `markFilterStale`: the next poll starts over from the last checkpoint. */
  function MarkFilterStale(s: Sub): Sub {
    if s.filterStale then s else s.(filterStale := true, catchupBlock := None, synchronized := false)
  }

  /** `processNewEvents`. */
  function ProcessNewEvents(s: Sub, conf: Config, head: int, ans: PollAnswers): PollResult {
    if s.catchupBlock.Some? then
      if ans.logs.None? then PollResult(s, None, None, [])
      else
        PollResult(ProcessPage(s, conf, ans.logs.value),
                   Some(Page(s.catchupBlock.value, s.catchupBlock.value + conf.pageSize - 1, head)), None,
                   Decoded(ans.logs.value))
    else
      var s' := if s.filteredOnce then s.(synchronized := true) else s;
      if ans.logs.None? then
        PollResult(if ans.filterLost then MarkFilterStale(s') else s', None, None, [])
      else
        PollResult(s'.(filteredOnce := true, marks := DispatchAll(s'.marks, Decoded(ans.logs.value))), None, None,
                   Decoded(ans.logs.value))
  }

  /** The checkpoint is there and positive. */
  predicate Usable(checkpoint: Option<int>) {
    checkpoint.Some? && checkpoint.value > 0
  }

  /** Where a stale subscription is to start, and its state then; None if that cannot be found out. */
  function StartFrom(s: Sub, checkpoint: Option<int>, ans: PollAnswers): Option<(Sub, int)> {
    if !Usable(checkpoint) then
      if ans.initial.None? then None
      else Some((s.(marks := s.marks.(hwm := ans.initial.value)), ans.initial.value))
    else
      Some((if s.catchupBlock.Some? then s else s.(marks := s.marks.(hwm := checkpoint.value)), checkpoint.value))
  }

  /** One turn of the poll loop for a subscription. */
  function Poll(s: Sub, checkpoint: Option<int>, conf: Config, ans: PollAnswers): PollResult {
    if !s.filterStale then ProcessNewEvents(s, conf, 0, ans)
    else
      match StartFrom(s, checkpoint, ans)
      case None => PollResult(s, None, None, [])
      case Some((s0, blockHeight)) =>
        var (s1, filterFrom, ok) := RestartFilter(s0, blockHeight, conf, ans);
        if !ok then PollResult(s1, None, None, [])
        else ProcessNewEvents(s1, conf, ans.head.value, ans).(filterFrom := filterFrom)
  }

  // ------------------------------------------------------------------ what one poll does, case by case

  /** What `restartFilter` decides: an error, catch-up from `since`, or a new filter from there. */
  lemma RestartDecides(s: Sub, checkpoint: int, conf: Config, ans: PollAnswers)
    ensures var (s', filterFrom, ok) := RestartFilter(s, checkpoint, conf, ans);
            var since := if s.catchupBlock.Some? then s.catchupBlock.value else checkpoint;
            var far := ans.head.Some? && conf.blockGap > 0 && ans.head.value > since + conf.blockGap;
            && (ok <==> ans.head.Some? && (far || ans.newFilterOK))
            && (!ok ==> s' == s && filterFrom.None?)
            && (ok && far ==>
                  filterFrom.None? && s'.catchupBlock == Some(since) && !s'.synchronized &&
                  s'.filterStale == s.filterStale && s'.filteredOnce == s.filteredOnce)
            && (ok && !far ==>
                  filterFrom == Some(since) && s'.catchupBlock.None? && !s'.filterStale && !s'.filteredOnce &&
                  s'.synchronized == s.synchronized)
            && s'.marks == s.marks
  {
  }

  /** A filter that is lost leaves nothing but the mark: catch-up and synchronization start over. */
  lemma StaleStartsOver(s: Sub)
    ensures var r := MarkFilterStale(s);
            && r.filterStale && r.marks == s.marks && r.filteredOnce == s.filteredOnce
            && (if s.filterStale then r == s else r.catchupBlock.None? && !r.synchronized)
  {
  }

  /** Where a stale subscription starts: its checkpoint if it has one, otherwise the height it is configured with. */
  lemma StartsFrom(s: Sub, checkpoint: Option<int>, ans: PollAnswers)
    ensures checkpoint.Some? && checkpoint.value > 0 ==>
              && StartFrom(s, checkpoint, ans).Some? && StartFrom(s, checkpoint, ans).value.1 == checkpoint.value
              && StartFrom(s, checkpoint, ans).value.0.marks.hwm ==
                 if s.catchupBlock.Some? then s.marks.hwm else checkpoint.value
    ensures !(checkpoint.Some? && checkpoint.value > 0) ==>
              && (StartFrom(s, checkpoint, ans).Some? <==> ans.initial.Some?)
              && (ans.initial.Some? ==>
                    StartFrom(s, checkpoint, ans).value
                    == (s.(marks := s.marks.(hwm := ans.initial.value)), ans.initial.value))
    ensures StartFrom(s, checkpoint, ans).Some? ==>
              StartFrom(s, checkpoint, ans).value.0 ==
              s.(marks := s.marks.(hwm := StartFrom(s, checkpoint, ans).value.0.marks.hwm))
  {
  }

  /** A stale subscription without a usable checkpoint reads its first page, or starts its filter, at that height. */
  lemma FirstPollStartsAtInitialHeight(s: Sub, checkpoint: Option<int>, conf: Config, ans: PollAnswers)
    requires Sane(conf) && s.filterStale && s.catchupBlock.None? && !Usable(checkpoint)
    ensures var r := Poll(s, checkpoint, conf, ans);
            && (r.page.Some? ==> ans.initial == Some(r.page.value.from))
            && (r.filterFrom.Some? ==> ans.initial == r.filterFrom)
            && (ans.initial.None? ==> r == PollResult(s, None, None, []))
            && (ans.initial.Some? && ans.head.None? ==>
                  r == PollResult(s.(marks := s.marks.(hwm := ans.initial.value)), None, None, []))
  {
  }

  /** The subscription counts as synchronized once a filter has been polled for the second time, until it is lost. */
  lemma SynchronizedBySecondPoll(s: Sub, conf: Config, head: int, ans: PollAnswers)
    requires s.catchupBlock.None?
    ensures var r := ProcessNewEvents(s, conf, head, ans).sub;
            && (ans.logs.Some? ==> r.filteredOnce && r.synchronized == (s.synchronized || s.filteredOnce))
            && (ans.logs.None? && ans.filterLost && !s.filterStale ==> !r.synchronized && r.filterStale)
            && (ans.logs.None? && !ans.filterLost ==>
                  r == s.(synchronized := s.synchronized || s.filteredOnce))
  {
  }

  /** What is dispatched is what was decoded, in the order of the reply. */
  lemma {:induction false} DecodedInOrder(logs: seq<LogItem>, i: nat)
    requires i < |logs|
    ensures logs[i].decodes ==>
              CountDecoded(logs, i) < |Decoded(logs)| && Decoded(logs)[CountDecoded(logs, i)] == logs[i].block
    ensures |Decoded(logs)| == CountDecoded(logs, |logs|)
    decreases |logs|
  {
    var last := |logs| - 1;
    var init := logs[..last];
    CountInPart(logs, last, last);
    if i < last {
      assert init[i] == logs[i];
      DecodedInOrder(init, i);
      CountInPart(logs, last, i);
    } else if last > 0 {
      DecodedInOrder(init, 0);
    }
  }

  /** How many of the first `n` logs decode. */
  function CountDecoded(logs: seq<LogItem>, n: nat): nat
    requires n <= |logs|
  {
    if n == 0 then 0 else CountDecoded(logs, n - 1) + if logs[n - 1].decodes then 1 else 0
  }

  lemma {:induction false} CountInPart(logs: seq<LogItem>, m: nat, n: nat)
    requires n <= m <= |logs|
    ensures CountDecoded(logs[..m], n) == CountDecoded(logs, n)
  {
    if n > 0 {
      CountInPart(logs, m, n - 1);
    }
  }

  // ------------------------------------------------------------------ runs

  /** `start` is the checkpoint the run begins from, `stored` the one last recorded by the poll loop. */
  datatype World = World(start: int, sub: Sub, stored: int, dispatched: seq<int>, acked: nat, pages: seq<Page>,
                         filterFrom: Option<int>)

  datatype Step = PollStep(ans: PollAnswers) | Ack(n: nat)

  function Begin(start: int): World {
    World(start, Sub(None, true, false, false, Marks(start, -1)), start, [], 0, [], None)
  }

  /** The next block nobody has read: the position of catch-up, or where the filter starts. */
  function Position(w: World): int {
    if w.filterFrom.Some? then w.filterFrom.value
    else if w.sub.catchupBlock.Some? then w.sub.catchupBlock.value
    else w.start
  }

  function LastDispatched(w: World): int {
    if w.dispatched == [] then w.start else w.dispatched[|w.dispatched| - 1]
  }

  predicate Ordered(blocks: seq<int>) {
    forall i, j :: 0 <= i < j < |blocks| ==> blocks[i] <= blocks[j]
  }

  predicate Within(blocks: seq<int>, low: int, high: int) {
    forall i :: 0 <= i < |blocks| ==> low <= blocks[i] <= high
  }

  /**
    The node's replies are in block order and inside what was asked for; a filter never goes back, nor on with a
    block that has been acknowledged.
   */
  predicate HonestLogs(w: World, conf: Config, ans: PollAnswers) {
    ans.logs.Some? ==>
      var blocks := Decoded(ans.logs.value);
      var r := Poll(w.sub, Some(w.stored), conf, ans);
      && Ordered(blocks)
      && (r.page.Some? ==> Within(blocks, r.page.value.from, r.page.value.to))
      && (r.page.None? && blocks != [] ==>
            && Position(w) <= blocks[0] && LastDispatched(w) <= blocks[0]
            && (w.acked > 0 && w.acked <= |w.dispatched| ==> w.dispatched[w.acked - 1] < blocks[0]))
  }

  /** A batch acknowledgement covers whole blocks. */
  predicate WholeBlocks(w: World, n: nat) {
    1 <= n <= |w.dispatched| - w.acked &&
    (w.acked + n < |w.dispatched| ==> w.dispatched[w.acked + n - 1] < w.dispatched[w.acked + n])
  }

  predicate Possible(w: World, conf: Config, step: Step) {
    match step
    case PollStep(ans) => !ans.filterLost && HonestLogs(w, conf, ans)
    case Ack(n) => WholeBlocks(w, n)
  }

  function Next(w: World, conf: Config, step: Step): World
    requires Possible(w, conf, step)
  {
    match step
    case PollStep(ans) =>
      var r := Poll(w.sub, Some(w.stored), conf, ans);
      w.(sub := r.sub, stored := r.sub.marks.hwm, dispatched := w.dispatched + r.dispatched,
         pages := if r.page.Some? then w.pages + [r.page.value] else w.pages,
         filterFrom := if r.filterFrom.Some? then r.filterFrom else w.filterFrom)
    case Ack(n) =>
      w.(acked := w.acked + n, sub := w.sub.(marks := PastBatch(w.sub.marks, w.dispatched[w.acked + n - 1])))
  }

  predicate PossibleRun(w: World, conf: Config, steps: seq<Step>)
    decreases |steps|
  {
    steps != [] ==> Possible(w, conf, steps[0]) && PossibleRun(Next(w, conf, steps[0]), conf, steps[1..])
  }

  function After(w: World, conf: Config, steps: seq<Step>): World
    requires PossibleRun(w, conf, steps)
    decreases |steps|
  {
    if steps == [] then w else After(Next(w, conf, steps[0]), conf, steps[1..])
  }

  // ------------------------------------------------------------------ tiling

  /** The pages follow one another without gap or overlap from `start` up to but not including `end`. */
  predicate Tiles(pages: seq<Page>, start: int, end: int) {
    if pages == [] then start == end
    else
      var last := |pages| - 1;
      pages[last].to + 1 == end && pages[last].from <= pages[last].to && Tiles(pages[..last], start, pages[last].from)
  }

  predicate PagesInSight(pages: seq<Page>, conf: Config) {
    forall i :: 0 <= i < |pages| ==> pages[i].to < pages[i].head && pages[i].to - pages[i].from + 1 == conf.pageSize
  }

  predicate Idle(w: World) {
    w.sub.catchupBlock.None? && w.filterFrom.None?
  }

  predicate Tiled(w: World, conf: Config) {
    && w.start > 0 && w.stored > 0 && w.sub.marks.hwm > 0
    && Tiles(w.pages, w.start, Position(w))
    && PagesInSight(w.pages, conf)
    && (w.filterFrom.Some? <==> !w.sub.filterStale)
    && (w.filterFrom.Some? ==> w.sub.catchupBlock.None?)
    && (Idle(w) ==> w.stored == w.start && w.sub.marks.hwm == w.start && w.dispatched == [] && w.acked == 0)
  }

  function Since(s: Sub, checkpoint: int): int {
    if s.catchupBlock.Some? then s.catchupBlock.value else checkpoint
  }

  /** A poll reads one page, or starts the filter, or does neither; a page stays short of the head. */
  lemma PollShape(s: Sub, checkpoint: int, conf: Config, ans: PollAnswers)
    requires Sane(conf) && !ans.filterLost && (s.filterStale ==> checkpoint > 0)
    ensures var r := Poll(s, Some(checkpoint), conf, ans);
            var since := Since(s, checkpoint);
            && (s.filterStale && r.page.Some? ==>
                  && ans.head.Some? && since + conf.pageSize - 1 < ans.head.value
                  && r.page.value == Page(since, since + conf.pageSize - 1, ans.head.value)
                  && r.sub.catchupBlock == Some(since + conf.pageSize)
                  && r.sub.filterStale && r.filterFrom.None?)
            && (s.filterStale && r.filterFrom.Some? ==>
                  r.filterFrom.value == since && r.sub.catchupBlock.None? && !r.sub.filterStale && r.page.None?)
            && (s.filterStale && r.page.None? && r.filterFrom.None? ==>
                  && r.sub.filterStale && r.dispatched == []
                  && (r.sub.catchupBlock == s.catchupBlock || r.sub.catchupBlock == Some(since))
                  && (s.catchupBlock.None? ==> r.sub.marks.hwm == checkpoint))
            && (!s.filterStale && s.catchupBlock.None? ==>
                  r.page.None? && r.filterFrom.None? && r.sub.catchupBlock.None? && !r.sub.filterStale)
  {
  }

  lemma PollKeepsTiled(w: World, conf: Config, ans: PollAnswers)
    requires Sane(conf) && Tiled(w, conf) && Possible(w, conf, PollStep(ans))
    ensures Tiled(Next(w, conf, PollStep(ans)), conf)
  {
    PollKeepsPositive(w, conf, ans);
    if Poll(w.sub, Some(w.stored), conf, ans).page.Some? {
      PageKeepsTiled(w, conf, ans);
    } else {
      OtherPollKeepsTiled(w, conf, ans);
    }
  }

  lemma PageKeepsTiled(w: World, conf: Config, ans: PollAnswers)
    requires Sane(conf) && Tiled(w, conf) && Possible(w, conf, PollStep(ans))
    requires var r := Poll(w.sub, Some(w.stored), conf, ans); r.page.Some? && r.sub.marks.hwm > 0
    ensures Tiled(Next(w, conf, PollStep(ans)), conf)
  {
    PollShape(w.sub, w.stored, conf, ans);
    assert w.sub.filterStale ==> Position(w) == Since(w.sub, w.stored);
    TilesAppend(w.pages, w.start, Poll(w.sub, Some(w.stored), conf, ans).page.value);
  }

  lemma OtherPollKeepsTiled(w: World, conf: Config, ans: PollAnswers)
    requires Sane(conf) && Tiled(w, conf) && Possible(w, conf, PollStep(ans))
    requires var r := Poll(w.sub, Some(w.stored), conf, ans); r.page.None? && r.sub.marks.hwm > 0
    ensures Tiled(Next(w, conf, PollStep(ans)), conf)
  {
    PollShape(w.sub, w.stored, conf, ans);
    assert w.sub.filterStale ==> Position(w) == Since(w.sub, w.stored);
  }

  lemma {:induction false} TilesForward(pages: seq<Page>, start: int, end: int)
    requires Tiles(pages, start, end)
    ensures start <= end
    decreases |pages|
  {
    if pages != [] {
      TilesForward(pages[..|pages| - 1], start, pages[|pages| - 1].from);
    }
  }

  lemma {:induction false} DispatchAllKeepsMark(m: Marks, blocks: seq<int>)
    ensures DispatchAll(m, blocks).hwm == m.hwm
    decreases |blocks|
  {
    if blocks != [] {
      DispatchAllKeepsMark(m, blocks[..|blocks| - 1]);
    }
  }

  /** The mark stays positive, so the recorded checkpoint stays usable. */
  lemma PollKeepsPositive(w: World, conf: Config, ans: PollAnswers)
    requires Sane(conf) && Tiled(w, conf) && !ans.filterLost
    ensures Poll(w.sub, Some(w.stored), conf, ans).sub.marks.hwm > 0
  {
    TilesForward(w.pages, w.start, Position(w));
    if ans.logs.Some? {
      DispatchAllKeepsMark(w.sub.marks, Decoded(ans.logs.value));
      DispatchAllKeepsMark(w.sub.marks.(hwm := w.stored), Decoded(ans.logs.value));
    }
  }

  lemma TilesAppend(pages: seq<Page>, start: int, page: Page)
    requires Tiles(pages, start, page.from) && page.from <= page.to
    ensures Tiles(pages + [page], start, page.to + 1)
  {
    assert (pages + [page])[..|pages|] == pages;
  }

  /**
    From a checkpoint, for any head growth and any RPC errors, the successful pages and the start of the filter
    cover everything from the checkpoint on with no gap and no overlap, and no page reaches the head it saw.
   */
  lemma {:induction false} CatchUpTiles(w: World, conf: Config, steps: seq<Step>)
    requires Sane(conf) && Tiled(w, conf) && PossibleRun(w, conf, steps)
    ensures Tiled(After(w, conf, steps), conf)
    decreases |steps|
  {
    if steps != [] {
      if steps[0].PollStep? {
        PollKeepsTiled(w, conf, steps[0].ans);
      }
      CatchUpTiles(Next(w, conf, steps[0]), conf, steps[1..]);
    }
  }

  /** Any block of the run is read by exactly one page, or lies at or beyond the position. */
  lemma {:induction false} EveryBlockReadOnce(pages: seq<Page>, start: int, end: int, block: int)
    requires Tiles(pages, start, end) && start <= block
    ensures block >= end <==> forall i :: 0 <= i < |pages| ==> !(pages[i].from <= block <= pages[i].to)
    ensures forall i, j :: 0 <= i < j < |pages| ==>
              !(pages[i].from <= block <= pages[i].to && pages[j].from <= block <= pages[j].to)
    ensures forall i :: 0 <= i < |pages| ==> start <= pages[i].from && pages[i].to < end
    ensures start <= end
    decreases |pages|
  {
    if pages != [] {
      var last := |pages| - 1;
      var init := pages[..last];
      EveryBlockReadOnce(init, start, pages[last].from, block);
      assert forall i :: 0 <= i < last ==> init[i] == pages[i];
    }
  }

  /** When no head above `head` is ever seen, catch-up reads no more than (head - start) / pageSize pages. */
  lemma {:induction false} CatchUpIsBounded(pages: seq<Page>, conf: Config, start: int, end: int, head: int)
    requires Sane(conf) && Tiles(pages, start, end) && PagesInSight(pages, conf)
    requires forall i :: 0 <= i < |pages| ==> pages[i].head <= head
    ensures end == start + |pages| * conf.pageSize
    ensures pages != [] ==> |pages| * conf.pageSize <= head - start
    decreases |pages|
  {
    if pages != [] {
      var last := |pages| - 1;
      CatchUpIsBounded(pages[..last], conf, start, pages[last].from, head);
      assert |pages| * conf.pageSize == last * conf.pageSize + conf.pageSize;
    }
  }

  /** Every poll without an RPC error reads another page or ends catch-up. */
  lemma CatchUpMovesOn(w: World, conf: Config, ans: PollAnswers)
    requires Sane(conf) && Tiled(w, conf) && Possible(w, conf, PollStep(ans))
    requires w.filterFrom.None? && ans.head.Some? && ans.newFilterOK && ans.logs.Some?
    ensures var w' := Next(w, conf, PollStep(ans));
            || (|w'.pages| == |w.pages| + 1 && Position(w') == Position(w) + conf.pageSize)
            || (w'.filterFrom == Some(Position(w)) && ans.head.value - Position(w) <= conf.blockGap)
  {
  }

  predicate ErrorFree(step: Step) {
    step.PollStep? && step.ans.head.Some? && step.ans.newFilterOK && step.ans.logs.Some?
  }

  /** How many polls of the run met no RPC error. */
  function GoodPolls(steps: seq<Step>): nat {
    if steps == [] then 0 else (if ErrorFree(steps[0]) then 1 else 0) + GoodPolls(steps[1..])
  }

  /** No poll sees a head above `head`. */
  predicate HeadsWithin(steps: seq<Step>, head: int) {
    forall i :: 0 <= i < |steps| && steps[i].PollStep? && steps[i].ans.head.Some? ==> steps[i].ans.head.value <= head
  }

  predicate PagesWithin(pages: seq<Page>, head: int) {
    forall i :: 0 <= i < |pages| ==> pages[i].head <= head
  }

  lemma PollCounts(w: World, conf: Config, step: Step, head: int)
    requires Sane(conf) && Tiled(w, conf) && Possible(w, conf, step) && PagesWithin(w.pages, head)
    requires HeadsWithin([step], head)
    ensures var w' := Next(w, conf, step);
            && PagesWithin(w'.pages, head)
            && (w'.filterFrom.None? ==>
                  w.filterFrom.None? && |w'.pages| >= |w.pages| + if ErrorFree(step) then 1 else 0)
  {
    assert [step][0] == step;
    if step.PollStep? {
      PollShape(w.sub, w.stored, conf, step.ans);
      if ErrorFree(step) && w.filterFrom.None? {
        CatchUpMovesOn(w, conf, step.ans);
      }
    }
  }

  /** As long as the filter has not started, every poll without RPC error has read a page. */
  lemma {:induction false} GoodPollsReadPages(w: World, conf: Config, steps: seq<Step>, head: int)
    requires Sane(conf) && Tiled(w, conf) && PossibleRun(w, conf, steps)
    requires PagesWithin(w.pages, head) && HeadsWithin(steps, head)
    ensures var w' := After(w, conf, steps);
            && PagesWithin(w'.pages, head)
            && (w'.filterFrom.None? ==> w.filterFrom.None? && |w'.pages| >= |w.pages| + GoodPolls(steps))
    decreases |steps|
  {
    if steps != [] {
      assert steps[0] == [steps[0]][0];
      PollCounts(w, conf, steps[0], head);
      if steps[0].PollStep? {
        PollKeepsTiled(w, conf, steps[0].ans);
      }
      GoodPollsReadPages(Next(w, conf, steps[0]), conf, steps[1..], head);
    }
  }

  /**
    Catch-up ends: in every run from a checkpoint that sees no head above `head`, once more polls have met no RPC
    error than there are pages from the checkpoint to that head, the filter has started.
   */
  lemma CatchUpEnds(start: int, conf: Config, steps: seq<Step>, head: int)
    requires Sane(conf) && start > 0 && PossibleRun(Begin(start), conf, steps) && HeadsWithin(steps, head)
    requires GoodPolls(steps) >= 1 && GoodPolls(steps) * conf.pageSize > head - start
    ensures After(Begin(start), conf, steps).filterFrom.Some?
  {
    var w := After(Begin(start), conf, steps);
    GoodPollsReadPages(Begin(start), conf, steps, head);
    CatchUpTiles(Begin(start), conf, steps);
    StartIsFixed(Begin(start), conf, steps);
    if w.filterFrom.None? {
      CatchUpIsBounded(w.pages, conf, start, Position(w), head);
      MoreIsLonger(GoodPolls(steps), |w.pages|, conf.pageSize);
    }
  }

  lemma MoreIsLonger(a: nat, b: nat, size: int)
    requires a <= b && size >= 1
    ensures a * size <= b * size
  {
    assert b * size == a * size + (b - a) * size;
  }

  lemma {:induction false} StartIsFixed(w: World, conf: Config, steps: seq<Step>)
    requires PossibleRun(w, conf, steps)
    ensures After(w, conf, steps).start == w.start
    decreases |steps|
  {
    if steps != [] {
      StartIsFixed(Next(w, conf, steps[0]), conf, steps[1..]);
    }
  }

  // ------------------------------------------------------------------ runs without events

  /** A page moves the position to its end, and the mark as well if it is empty and nothing is in flight. */
  lemma PageMovesOn(s: Sub, conf: Config, logs: seq<LogItem>)
    requires s.catchupBlock.Some?
    ensures var s' := ProcessPage(s, conf, logs);
            && s'.catchupBlock == Some(s.catchupBlock.value + conf.pageSize)
            && s'.marks.hwm == (if logs == [] && s.marks.highestDispatched < s.marks.hwm then s'.catchupBlock.value
                                else s.marks.hwm)
            && (logs == [] ==> s'.marks.highestDispatched == s.marks.highestDispatched)
            && s' == s.(catchupBlock := s'.catchupBlock, marks := s'.marks)
  {
    DispatchAllKeepsMark(s.marks, Decoded(logs));
  }

  /** Nothing was found so far, and mark and checkpoint are where reading goes on. */
  predicate Quiet(w: World) {
    && w.dispatched == [] && w.acked == 0 && w.sub.marks.highestDispatched == -1 && w.sub.marks.hwm > 0
    && (w.filterFrom.Some? <==> !w.sub.filterStale) && (w.filterFrom.Some? ==> w.sub.catchupBlock.None?)
    && w.sub.marks.hwm == w.stored == Position(w)
  }

  predicate FindsNothing(steps: seq<Step>) {
    forall i :: 0 <= i < |steps| ==> steps[i].PollStep? ==> steps[i].ans.logs.Some? ==> steps[i].ans.logs.value == []
  }

  lemma QuietStep(w: World, conf: Config, ans: PollAnswers)
    requires Quiet(w) && Sane(conf) && Possible(w, conf, PollStep(ans)) && (ans.logs.Some? ==> ans.logs.value == [])
    ensures Quiet(Next(w, conf, PollStep(ans)))
  {
  }

  /**
    As long as no event is found, the mark and the stored checkpoint keep up with the reading: a restart reads no block
    a second time.
   */
  lemma {:induction false} CheckpointKeepsUp(w: World, conf: Config, steps: seq<Step>)
    requires Quiet(w) && Sane(conf) && PossibleRun(w, conf, steps) && FindsNothing(steps)
    ensures Quiet(After(w, conf, steps))
    decreases |steps|
  {
    if steps != [] {
      assert steps[0].PollStep?;
      QuietStep(w, conf, steps[0].ans);
      CheckpointKeepsUp(Next(w, conf, steps[0]), conf, steps[1..]);
    }
  }

  /** From the beginning of a run on, with any RPC errors and any growth of the chain. */
  lemma QuietFromTheBeginning(start: int, conf: Config, steps: seq<Step>)
    requires start > 0 && Sane(conf) && PossibleRun(Begin(start), conf, steps) && FindsNothing(steps)
    ensures var w := After(Begin(start), conf, steps);
            w.sub.marks.hwm == w.stored == Position(w) && w.dispatched == []
  {
    CheckpointKeepsUp(Begin(start), conf, steps);
  }

  // ------------------------------------------------------------------ the checkpoint

  /** Unacknowledged events are at or above the mark, acknowledged ones below it. */
  predicate Separates(hwm: int, dispatched: seq<int>, acked: nat) {
    && acked <= |dispatched|
    && (forall i :: 0 <= i < acked ==> dispatched[i] < hwm)
    && (forall i :: acked <= i < |dispatched| ==> hwm <= dispatched[i])
  }

  /** The checkpoint of a run that has read up to `position` and may be filtering from there. */
  predicate Safe(start: int, stored: int, m: Marks, dispatched: seq<int>, acked: nat, position: int, filtering: bool) {
    && Ordered(dispatched) && Separates(m.hwm, dispatched, acked)
    && start <= stored <= m.hwm
    && m.highestDispatched == (if dispatched == [] then -1 else dispatched[|dispatched| - 1])
    && (!filtering ==> m.hwm <= position && Below(dispatched, position))
    && (m.hwm <= position || (acked > 0 && m.hwm == dispatched[acked - 1] + 1))
  }

  predicate Below(blocks: seq<int>, position: int) {
    forall i :: 0 <= i < |blocks| ==> blocks[i] < position
  }

  predicate Checkpointed(w: World) {
    Safe(w.start, w.stored, w.sub.marks, w.dispatched, w.acked, Position(w), w.filterFrom.Some?)
  }

  lemma {:induction false} DispatchAllInOrder(m: Marks, blocks: seq<int>)
    requires Ordered(blocks) && (blocks != [] ==> m.highestDispatched <= blocks[0])
    ensures DispatchAll(m, blocks) ==
            m.(highestDispatched := if blocks == [] then m.highestDispatched else blocks[|blocks| - 1])
    decreases |blocks|
  {
    if blocks != [] {
      DispatchAllInOrder(m, blocks[..|blocks| - 1]);
    }
  }

  /** Nothing is in flight exactly when the highest dispatched block is below the mark. */
  lemma NothingInFlightIff(w: World)
    requires Checkpointed(w) && w.start > 0
    ensures w.sub.marks.highestDispatched < w.sub.marks.hwm <==> w.acked == |w.dispatched|
  {
  }

  lemma AckKeepsCheckpointed(w: World, conf: Config, n: nat)
    requires Checkpointed(w) && Possible(w, conf, Ack(n))
    ensures Checkpointed(Next(w, conf, Ack(n)))
    ensures w.sub.marks.hwm <= Next(w, conf, Ack(n)).sub.marks.hwm
  {
  }

  /** What new events, or a page, do to the marks. */
  lemma NewEventsMark(s: Sub, conf: Config, head: int, ans: PollAnswers)
    ensures var r := ProcessNewEvents(s, conf, head, ans);
            && (r.dispatched != [] || r.page.Some? ==> ans.logs.Some? && r.dispatched == Decoded(ans.logs.value))
            && (r.page.None? ==> r.sub.marks == DispatchAll(s.marks, r.dispatched))
            && (r.page.Some? ==>
                  r.sub.marks == if ans.logs.value == [] then PastEmptyPage(s.marks, r.page.value.to)
                                 else DispatchAll(s.marks, r.dispatched))
  {
  }

  /** What a poll does to the marks, when it does not move the mark by restoring a checkpoint. */
  lemma PollMarks(s: Sub, checkpoint: int, conf: Config, ans: PollAnswers)
    requires checkpoint > 0 && (s.filterStale && s.catchupBlock.None? ==> checkpoint == s.marks.hwm)
    requires !ans.filterLost
    ensures var r := Poll(s, Some(checkpoint), conf, ans);
            && (r.dispatched != [] || r.page.Some? ==> ans.logs.Some? && r.dispatched == Decoded(ans.logs.value))
            && (r.page.None? ==> r.sub.marks == DispatchAll(s.marks, r.dispatched))
            && (r.page.Some? ==>
                  r.sub.marks == if ans.logs.value == [] then PastEmptyPage(s.marks, r.page.value.to)
                                 else DispatchAll(s.marks, r.dispatched))
  {
    if !s.filterStale {
      NewEventsMark(s, conf, 0, ans);
    } else {
      var s0 := StartFrom(s, Some(checkpoint), ans).value.0;
      var (s1, _, ok) := RestartFilter(s0, checkpoint, conf, ans);
      RestartDecides(s0, checkpoint, conf, ans);
      if ok {
        NewEventsMark(s1, conf, ans.head.value, ans);
      }
    }
  }

  lemma DispatchedJoin(hwm: int, before: seq<int>, acked: nat, blocks: seq<int>)
    requires Ordered(before) && Separates(hwm, before, acked) && Ordered(blocks)
    requires blocks != [] ==> hwm <= blocks[0] && (before != [] ==> before[|before| - 1] <= blocks[0])
    ensures Ordered(before + blocks) && Separates(hwm, before + blocks, acked)
  {
    var all := before + blocks;
    forall i, j | 0 <= i < j < |all| ensures all[i] <= all[j] {
      if i < |before| <= j {
        assert before[i] <= before[|before| - 1] <= blocks[0] <= blocks[j - |before|];
      }
    }
    forall i | acked <= i < |all| ensures hwm <= all[i] {
      if |before| <= i {
        assert hwm <= blocks[0] <= blocks[i - |before|];
      }
    }
  }

  /** An empty page is passed only when nothing is in flight, so no event can be below the new mark. */
  lemma EmptyPageKeepsSafe(start: int, stored: int, m: Marks, dispatched: seq<int>, acked: nat, position: int, end: int)
    requires Safe(start, stored, m, dispatched, acked, position, false) && position <= end
    ensures var m' := PastEmptyPage(m, end);
            m.hwm <= m'.hwm && Safe(start, m'.hwm, m', dispatched, acked, end + 1, false)
  {
    if m.highestDispatched < m.hwm {
      assert acked == |dispatched|;
    }
  }

  lemma DispatchKeepsSafe(start: int, stored: int, m: Marks, dispatched: seq<int>, acked: nat, position: int,
                          filtering: bool, blocks: seq<int>, position': int, filtering': bool)
    requires start > 0 && Safe(start, stored, m, dispatched, acked, position, filtering) && Ordered(blocks)
    requires blocks != [] ==> position <= blocks[0] && (dispatched != [] ==> dispatched[|dispatched| - 1] <= blocks[0])
    requires blocks != [] && acked > 0 ==> dispatched[acked - 1] < blocks[0]
    requires position <= position' && (filtering ==> filtering' && position' == position)
    requires !filtering' ==> Below(blocks, position')
    ensures var m' := DispatchAll(m, blocks);
            m'.hwm == m.hwm && Safe(start, m.hwm, m', dispatched + blocks, acked, position', filtering')
  {
    DispatchAllInOrder(m, blocks);
    DispatchedJoin(m.hwm, dispatched, acked, blocks);
  }

  /** A poll that read a page, in terms of what it leaves behind. */
  ghost predicate ReadPage(w: World, w': World, page: Page, blocks: seq<int>, empty: bool) {
    && w.filterFrom.None? && w'.filterFrom.None? && w'.start == w.start && w'.acked == w.acked
    && page.from == Position(w) && page.from <= page.to && Position(w') == page.to + 1
    && w'.dispatched == w.dispatched + blocks && Ordered(blocks) && Within(blocks, page.from, page.to)
    && w'.stored == w'.sub.marks.hwm
    && w'.sub.marks == (if empty then PastEmptyPage(w.sub.marks, page.to) else DispatchAll(w.sub.marks, blocks))
    && (empty ==> blocks == [])
  }

  lemma PageReads(w: World, conf: Config, ans: PollAnswers)
    requires Sane(conf) && Tiled(w, conf) && Checkpointed(w) && Possible(w, conf, PollStep(ans))
    requires Poll(w.sub, Some(w.stored), conf, ans).page.Some?
    ensures var r := Poll(w.sub, Some(w.stored), conf, ans);
            && ans.logs.Some?
            && ReadPage(w, Next(w, conf, PollStep(ans)), r.page.value, r.dispatched, ans.logs.value == [])
  {
    PageMovesPosition(w, conf, ans);
    PollMarks(w.sub, w.stored, conf, ans);
  }

  lemma ReadPageKeepsCheckpointed(w: World, w': World, page: Page, blocks: seq<int>, empty: bool)
    requires w.start > 0 && Checkpointed(w) && ReadPage(w, w', page, blocks, empty)
    ensures Checkpointed(w') && w.sub.marks.hwm <= w'.sub.marks.hwm
  {
    if empty {
      assert w'.dispatched == w.dispatched;
      EmptyPageKeepsSafe(w.start, w.stored, w.sub.marks, w.dispatched, w.acked, page.from, page.to);
    } else {
      DispatchKeepsSafe(w.start, w.stored, w.sub.marks, w.dispatched, w.acked, page.from, false, blocks, page.to + 1,
                        false);
    }
  }

  lemma PageMovesPosition(w: World, conf: Config, ans: PollAnswers)
    requires Sane(conf) && Tiled(w, conf) && Possible(w, conf, PollStep(ans))
    requires Poll(w.sub, Some(w.stored), conf, ans).page.Some?
    ensures var page := Poll(w.sub, Some(w.stored), conf, ans).page.value;
            var w' := Next(w, conf, PollStep(ans));
            && w.filterFrom.None? && w'.filterFrom.None?
            && page.from == Position(w) && page.from <= page.to && Position(w') == page.to + 1
  {
    PollShape(w.sub, w.stored, conf, ans);
  }

  /** A poll that read no page, in terms of what it leaves behind. */
  ghost predicate ReadOn(w: World, w': World, blocks: seq<int>) {
    && w'.start == w.start && w'.acked == w.acked && Position(w') == Position(w)
    && (w.filterFrom.Some? ==> w'.filterFrom.Some?)
    && (w'.filterFrom.None? ==> blocks == [])
    && w'.dispatched == w.dispatched + blocks && Ordered(blocks)
    && (blocks != [] ==>
          && Position(w) <= blocks[0] && LastDispatched(w) <= blocks[0]
          && (w.acked > 0 && w.acked <= |w.dispatched| ==> w.dispatched[w.acked - 1] < blocks[0]))
    && w'.stored == w'.sub.marks.hwm && w'.sub.marks == DispatchAll(w.sub.marks, blocks)
  }

  lemma OtherPollReads(w: World, conf: Config, ans: PollAnswers)
    requires Sane(conf) && Tiled(w, conf) && Checkpointed(w) && Possible(w, conf, PollStep(ans))
    requires Poll(w.sub, Some(w.stored), conf, ans).page.None?
    ensures ReadOn(w, Next(w, conf, PollStep(ans)), Poll(w.sub, Some(w.stored), conf, ans).dispatched)
  {
    PollShape(w.sub, w.stored, conf, ans);
    PollMarks(w.sub, w.stored, conf, ans);
    assert w.sub.filterStale ==> Position(w) == Since(w.sub, w.stored);
  }

  lemma ReadOnKeepsCheckpointed(w: World, w': World, blocks: seq<int>)
    requires w.start > 0 && Checkpointed(w) && ReadOn(w, w', blocks)
    ensures Checkpointed(w') && w.sub.marks.hwm <= w'.sub.marks.hwm
  {
    DispatchKeepsSafe(w.start, w.stored, w.sub.marks, w.dispatched, w.acked, Position(w), w.filterFrom.Some?, blocks,
                      Position(w), w'.filterFrom.Some?);
  }

  lemma PollKeepsCheckpointed(w: World, conf: Config, ans: PollAnswers)
    requires Sane(conf) && w.start > 0 && Tiled(w, conf) && Checkpointed(w) && Possible(w, conf, PollStep(ans))
    ensures Checkpointed(Next(w, conf, PollStep(ans)))
    ensures w.sub.marks.hwm <= Next(w, conf, PollStep(ans)).sub.marks.hwm
  {
    var r := Poll(w.sub, Some(w.stored), conf, ans);
    var w' := Next(w, conf, PollStep(ans));
    if r.page.Some? {
      PageReads(w, conf, ans);
      ReadPageKeepsCheckpointed(w, w', r.page.value, r.dispatched, ans.logs.value == []);
    } else {
      OtherPollReads(w, conf, ans);
      ReadOnKeepsCheckpointed(w, w', r.dispatched);
    }
  }

  predicate RunSafe(w: World, conf: Config) {
    Tiled(w, conf) && Checkpointed(w)
  }

  lemma StepKeepsRunSafe(w: World, conf: Config, step: Step)
    requires Sane(conf) && w.start > 0 && RunSafe(w, conf) && Possible(w, conf, step)
    ensures RunSafe(Next(w, conf, step), conf)
    ensures Next(w, conf, step).start == w.start
    ensures w.sub.marks.hwm <= Next(w, conf, step).sub.marks.hwm
  {
    match step
    case PollStep(ans) =>
      PollKeepsTiled(w, conf, ans);
      PollKeepsCheckpointed(w, conf, ans);
    case Ack(n) => AckKeepsCheckpointed(w, conf, n);
  }

  /**
    Through batch acknowledgements and empty pages alike, every dispatched event that is not acknowledged is at or
    above both the mark and the stored checkpoint, and the mark never decreases.
   */
  lemma {:induction false} CheckpointIsSafe(w: World, conf: Config, steps: seq<Step>)
    requires Sane(conf) && w.start > 0 && RunSafe(w, conf) && PossibleRun(w, conf, steps)
    ensures RunSafe(After(w, conf, steps), conf)
    ensures w.sub.marks.hwm <= After(w, conf, steps).sub.marks.hwm
    decreases |steps|
  {
    if steps != [] {
      StepKeepsRunSafe(w, conf, steps[0]);
      CheckpointIsSafe(Next(w, conf, steps[0]), conf, steps[1..]);
    }
  }

  /** The same from the beginning of a run, spelled out for one unacknowledged event. */
  lemma RestartRereadsUnacknowledged(start: int, conf: Config, steps: seq<Step>, i: nat)
    requires Sane(conf) && start > 0 && PossibleRun(Begin(start), conf, steps)
    requires After(Begin(start), conf, steps).acked <= i < |After(Begin(start), conf, steps).dispatched|
    ensures var w := After(Begin(start), conf, steps);
            w.stored <= w.sub.marks.hwm <= w.dispatched[i]
  {
    CheckpointIsSafe(Begin(start), conf, steps);
  }
}
