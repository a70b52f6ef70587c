/** The subscription object and its turn of the poll loop, updated in place (internal/events/subscription.go). */
module SubscriptionPollers {
  import opened Options
  import opened HighWaterMarks
  import opened Subscriptions

  class Subscription {
    const conf: Config
    const lp: LogProcessor
    var catchupBlock: Option<int>
    var filterStale: bool
    var filteredOnce: bool
    var synchronized: bool

    ghost function Value(): Sub
      reads this, lp
    {
      Sub(catchupBlock, filterStale, filteredOnce, synchronized, lp.Value())
    }

    constructor (configured: Config)
      ensures fresh(lp) && conf == Normalize(configured) && Sane(conf)
      ensures Value() == Sub(None, true, false, false, Marks(0, -1))
    {
      conf := Normalize(configured);
      lp := new LogProcessor();
      catchupBlock, filterStale, filteredOnce, synchronized := None, true, false, false;
    }

    method CreateFilter(since: int, ok: bool) returns (filterFrom: Option<int>)
      modifies this
      ensures Value() == if ok then old(Value()).(catchupBlock := None, filteredOnce := false, filterStale := false)
                         else old(Value())
      ensures filterFrom == if ok then Some(since) else None
    {
      if !ok {
        return None;
      }
      catchupBlock := None;
      filteredOnce := false;
      filterStale := false;
      return Some(since);
    }

    method RestartFilter(checkpoint: int, ans: PollAnswers) returns (filterFrom: Option<int>, ok: bool)
      modifies this
      ensures (Value(), filterFrom, ok) == Subscriptions.RestartFilter(old(Value()), checkpoint, conf, ans)
    {
      var since := checkpoint;
      if catchupBlock.Some? {
        since := catchupBlock.value;
      }
      if ans.head.None? {
        return None, false;
      }
      var blockGap := ans.head.value - since;
      if conf.blockGap > 0 && blockGap > conf.blockGap {
        catchupBlock := Some(since);
        synchronized := false;
        return None, true;
      }
      filterFrom := CreateFilter(since, ans.newFilterOK);
      ok := ans.newFilterOK;
    }

    /** `processLogs`: entries that do not decode are skipped. */
    method ProcessLogs(logs: seq<LogItem>) returns (dispatched: seq<int>)
      modifies lp`highestDispatched
      ensures dispatched == Decoded(logs)
      ensures lp.Value() == DispatchAll(old(lp.Value()), Decoded(logs))
    {
      dispatched := [];
      for i := 0 to |logs|
        invariant dispatched == Decoded(logs[..i])
        invariant lp.Value() == DispatchAll(old(lp.Value()), dispatched)
      {
        assert logs[..i + 1][..i] == logs[..i];
        if logs[i].decodes {
          lp.NoteDispatched(logs[i].block);
          assert (dispatched + [logs[i].block])[..|dispatched|] == dispatched;
          dispatched := dispatched + [logs[i].block];
        } else {
          assert dispatched + [] == dispatched;
        }
      }
      assert logs[..|logs|] == logs;
    }

    /** `processCatchupBlocks`; an RPC error leaves the position where it was. */
    method ProcessCatchupBlocks(head: int, logs: Option<seq<LogItem>>)
      returns (page: Option<Page>, dispatched: seq<int>)
      requires catchupBlock.Some?
      modifies this, lp
      ensures var before := old(Value());
              && Value() == (if logs.Some? then ProcessPage(before, conf, logs.value) else before)
              && page == (if logs.Some? then
                            Some(Page(before.catchupBlock.value, before.catchupBlock.value + conf.pageSize - 1, head))
                          else None)
              && dispatched == if logs.Some? then Decoded(logs.value) else []
    {
      dispatched := [];
      var endBlock := catchupBlock.value + (conf.pageSize - 1);
      if logs.None? {
        return None, [];
      }
      page := Some(Page(catchupBlock.value, endBlock, head));
      if |logs.value| == 0 {
        lp.MarkNoEvents(endBlock);
      } else {
        dispatched := ProcessLogs(logs.value);
      }
      catchupBlock := Some(endBlock + 1);
    }

    method ProcessNewEvents(head: int, ans: PollAnswers) returns (page: Option<Page>, dispatched: seq<int>)
      modifies this, lp
      ensures PollResult(Value(), page, None, dispatched) ==
              Subscriptions.ProcessNewEvents(old(Value()), conf, head, ans)
    {
      if catchupBlock.Some? {
        page, dispatched := ProcessCatchupBlocks(head, ans.logs);
        return;
      }
      page, dispatched := None, [];
      if filteredOnce {
        synchronized := true;
      }
      if ans.logs.None? {
        if ans.filterLost {
          MarkFilterStale(true);
        }
        return;
      }
      dispatched := ProcessLogs(ans.logs.value);
      filteredOnce := true;
    }

    /** `markFilterStale`; uninstalling the filter is informational. */
    method MarkFilterStale(newFilterStale: bool)
      modifies this
      ensures Value() == if newFilterStale then Subscriptions.MarkFilterStale(old(Value()))
                         else old(Value()).(filterStale := false)
    {
      if newFilterStale && !filterStale {
        catchupBlock := None;
        synchronized := false;
      }
      filterStale := newFilterStale;
    }

    /** `setInitialBlockHeight`: the configured block, or the head of the chain. */
    method SetInitialBlockHeight(initial: Option<int>) returns (blockHeight: Option<int>)
      modifies lp`blockHWM
      ensures blockHeight == initial
      ensures lp.Value() == if initial.Some? then old(lp.Value()).(hwm := initial.value) else old(lp.Value())
    {
      if initial.Some? {
        lp.InitBlockHWM(initial.value);
      }
      return initial;
    }

    /** One turn of the poll loop for this subscription: exactly the step the run-level results are about. */
    method PollOnce(checkpoint: Option<int>, ans: PollAnswers)
      returns (page: Option<Page>, filterFrom: Option<int>, dispatched: seq<int>)
      modifies this, lp
      ensures PollResult(Value(), page, filterFrom, dispatched) == Poll(old(Value()), checkpoint, conf, ans)
    {
      page, filterFrom, dispatched := None, None, [];
      var head := 0;
      if filterStale {
        var blockHeight := checkpoint;
        if checkpoint.None? || checkpoint.value <= 0 {
          blockHeight := SetInitialBlockHeight(ans.initial);
        } else if catchupBlock.None? {
          lp.InitBlockHWM(checkpoint.value);
        }
        var ok := blockHeight.Some?;
        if ok {
          filterFrom, ok := RestartFilter(blockHeight.value, ans);
        }
        if !ok {
          return;
        }
        head := ans.head.value;
      }
      page, dispatched := ProcessNewEvents(head, ans);
    }
  }
}
