/** The block confirmation manager and its pending events, updated in place (internal/events/block_confirmations.go). */
module ConfirmationManagers {
  import opened Sorting
  import opened Confirmations

  /** `keyForEvent`: note that the stream waiting for the event is not part of the key. */
  datatype EventKey = EventKey(txHash: string, blockNumber: nat, blockHash: Hash, txIndex: nat, logIndex: nat)

  datatype Notification = NewLog(event: LogEvent) | RemovedLog(event: LogEvent)

  function KeyOf(e: LogEvent): EventKey {
    EventKey(e.txHash, e.blockNumber, e.blockHash, e.txIndex, e.logIndex)
  }

  /** The same log of the same transaction in the same block. */
  predicate SameLog(a: LogEvent, b: LogEvent) {
    && a.txHash == b.txHash && a.blockNumber == b.blockNumber && a.blockHash == b.blockHash
    && a.txIndex == b.txIndex && a.logIndex == b.logIndex
  }

  /** Two events share a key exactly when they are the same log. */
  lemma KeyTellsLogs(a: LogEvent, b: LogEvent)
    ensures KeyOf(a) == KeyOf(b) <==> SameLog(a, b)
  {
  }

  /** `pendingEvents.Less`. */
  predicate Before(a: LogEvent, b: LogEvent) {
    || a.blockNumber < b.blockNumber
    || (a.blockNumber == b.blockNumber &&
        (a.txIndex < b.txIndex || (a.txIndex == b.txIndex && a.logIndex < b.logIndex)))
  }

  predicate DispatchLeq(a: Pending, b: Pending) {
    !Before(b.event, a.event)
  }

  ghost predicate PendingOK(pending: map<EventKey, Pending>) {
    forall k :: k in pending ==> KeyOf(pending[k].event) == k && Linked(pending[k].event, pending[k].confirmations)
  }

  /** Every pending event with the block put into its confirmation list. */
  function PlaceInAll(pending: map<EventKey, Pending>, b: Block): map<EventKey, Pending> {
    map k | k in pending :: pending[k].(confirmations := Place(pending[k].event, pending[k].confirmations, b))
  }

  /** The events that have reached their threshold. */
  function Due(pending: map<EventKey, Pending>, required: int): set<EventKey> {
    set k | k in pending && |pending[k].confirmations| >= required
  }

  /** The sequence lists each due event once, and nothing else. */
  ghost predicate ListsDue(ps: seq<Pending>, pending: map<EventKey, Pending>, required: int) {
    && (forall p :: p in ps ==> KeyOf(p.event) in Due(pending, required) && pending[KeyOf(p.event)] == p)
    && (forall k :: k in Due(pending, required) ==> pending[k] in ps)
    && (forall i, j :: 0 <= i < j < |ps| ==> ps[i] != ps[j])
  }

  // ------------------------------------------------------------------ the effect of one call

  /** The pending events, and what has been handed to the event streams, oldest first. */
  datatype Effect = Effect(pending: map<EventKey, Pending>, dispatched: seq<Pending>)

  /** `after` is `before` with a block processed: placed in every list, and the due events dispatched in order. */
  ghost predicate BlockProcessed(before: Effect, b: Block, required: int, after: Effect) {
    var placed := PlaceInAll(before.pending, b);
    && after.pending == placed - Due(placed, required)
    && exists out :: after.dispatched == before.dispatched + out && Sorted(out, DispatchLeq) &&
                     ListsDue(out, placed, required)
  }

  /** One turn of `processBlockHashes`: the block with this hash is processed if the cache or the node has it. */
  ghost predicate HashProcessed(before: Effect, hash: Hash, answer: Answer, cached: map<Hash, Block>, r: Answer,
                                required: int, after: Effect) {
    && (r == answer || (hash in cached && r == Found(cached[hash])))
    && if r.Found? then BlockProcessed(before, r.block, required, after) else after == before
  }

  /**
    In a sequence sorted for dispatch, blocks come in order, within a block transactions, and within a transaction logs.
   */
  lemma SortedIsChainOrder(out: seq<Pending>, i: nat, j: nat)
    requires Sorted(out, DispatchLeq) && i < j < |out|
    ensures var a, b := out[i].event, out[j].event;
            && a.blockNumber <= b.blockNumber
            && (a.blockNumber == b.blockNumber ==> a.txIndex <= b.txIndex)
            && (a.blockNumber == b.blockNumber && a.txIndex == b.txIndex ==> a.logIndex <= b.logIndex)
  {
    assert DispatchLeq(out[i], out[j]);
  }

  /** Every cached block was cached before or is the node's. */
  ghost predicate CachedFrom(cache: map<Hash, Block>, before: map<Hash, Block>, node: Hash -> Answer) {
    forall h :: h in cache ==> (h in before && cache[h] == before[h]) || node(h) == Found(cache[h])
  }

  lemma ProcessedFromStart(before: Effect, hash: Hash, node: Hash -> Answer, now: map<Hash, Block>,
                           start: map<Hash, Block>, r: Answer, required: int, after: Effect)
    requires CachedFrom(now, start, node) && HashProcessed(before, hash, node(hash), now, r, required, after)
    ensures HashProcessed(before, hash, node(hash), start, r, required, after)
  {
  }

  /** The by-number index after a query: a header that the node had to be asked for replaces what was there. */
  function CacheAfter(cache: map<nat, Block>, node: nat -> Answer, n: nat, expectedParent: Hash): map<nat, Block> {
    if (n in cache && cache[n].parent == expectedParent) || !node(n).Found? then cache else cache[n := node(n).block]
  }

  /** What was fetched is cached, so that asking again gives the same, and other numbers are left alone. */
  lemma CacheRemembers(cache: map<nat, Block>, node: nat -> Answer, n: nat, expectedParent: Hash)
    ensures var after := CacheAfter(cache, node, n, expectedParent);
            && (forall m :: m != n ==> (m in after <==> m in cache) && (m in cache ==> after[m] == cache[m]))
            && (Fetch(cache, node, n, expectedParent).Found? ==>
                  n in after && after[n] == Fetch(cache, node, n, expectedParent).block)
            && (!Fetch(cache, node, n, expectedParent).Found? ==> after == cache)
  {
  }

  /** The event keeps what a walk collects, and goes out if that reaches the threshold. */
  function AfterWalk(s: Effect, required: int, highestSeen: nat, k: EventKey, cache: map<nat, Block>,
                     node: nat -> Answer): Effect
    requires k in s.pending
  {
    var e := s.pending[k].event;
    var (confs, end) := Walk(e, [], required, highestSeen, cache, node);
    Effect(s.pending[k := Pending(e, confs)],
           s.dispatched + if end.ThresholdReached? then [Pending(e, confs)] else [])
  }

  /** The walk of this event runs into an RPC error. */
  predicate WalkFails(e: LogEvent, required: int, highestSeen: nat, cache: map<nat, Block>, node: nat -> Answer) {
    Walk(e, [], required, highestSeen, cache, node).1.RpcFailed?
  }

  function NodeFor<K>(node: (K, nat) -> Answer, k: K): nat -> Answer {
    (n: nat) => node(k, n)
  }

  /** One turn of `walkChain`: a pending event is walked; the result says whether the loop goes on. */
  predicate EventWalked(before: Effect, required: int, highestSeen: nat, k: EventKey, cache: map<nat, Block>,
                        node: nat -> Answer, after: Effect, goesOn: bool) {
    && k in before.pending
    && after == AfterWalk(before, required, highestSeen, k, cache, node)
    && (goesOn <==> !WalkFails(before.pending[k].event, required, highestSeen, cache, node))
  }

  /** One turn of `processNotifications`: a new log is added and walked at once, a removed log leaves the table. */
  predicate Notified(before: Effect, required: int, highestSeen: nat, n: Notification, cache: map<nat, Block>,
                     node: nat -> Answer, after: Effect, goesOn: bool) {
    match n
    case NewLog(e) =>
      EventWalked(before.(pending := before.pending[KeyOf(e) := Pending(e, [])]), required, highestSeen, KeyOf(e),
                  cache, node, after, goesOn)
    case RemovedLog(e) => goesOn && after == before.(pending := before.pending - {KeyOf(e)})
  }

  /** The keys of the table, each once, in event order. */
  ghost predicate InEventOrder(keys: seq<EventKey>, pending: map<EventKey, Pending>) {
    && (forall k :: k in keys <==> k in pending)
    && (forall i, j :: 0 <= i < j < |keys| ==> keys[i] != keys[j])
    && (forall i, j :: 0 <= i < j < |keys| && keys[i] in pending && keys[j] in pending ==>
          DispatchLeq(pending[keys[i]], pending[keys[j]]))
  }

  /** The highest block number seen once these answers have been processed. */
  function HighestSeen(before: nat, answers: seq<Answer>): nat {
    if answers == [] then before
    else
      var last := |answers| - 1;
      var h := HighestSeen(before, answers[..last]);
      if answers[last].Found? && answers[last].block.number > h then answers[last].block.number else h
  }

  /** It is the highest of the numbers in the answers and what was seen before. */
  lemma {:induction false} HighestSeenIsMaximum(before: nat, answers: seq<Answer>)
    ensures var h := HighestSeen(before, answers);
            && before <= h && (forall i :: 0 <= i < |answers| && answers[i].Found? ==> answers[i].block.number <= h)
            && (h == before || exists i :: 0 <= i < |answers| && answers[i].Found? && answers[i].block.number == h)
    decreases |answers|
  {
    if answers != [] {
      var last := |answers| - 1;
      HighestSeenIsMaximum(before, answers[..last]);
      assert forall i :: 0 <= i < last ==> answers[..last][i] == answers[i];
    }
  }

  lemma HighestSeenNext(before: nat, answers: seq<Answer>, r: Answer)
    ensures var h := HighestSeen(before, answers);
            HighestSeen(before, answers + [r]) == if r.Found? && r.block.number > h then r.block.number else h
  {
    assert (answers + [r])[..|answers|] == answers;
  }

  class BlockConfirmationManager {
    const required: int
    var pending: map<EventKey, Pending>
    var byNumber: map<nat, Block>
    var byHash: map<Hash, Block>
    var highestBlockSeen: nat
    var dispatched: seq<Pending>       // what has been handed to the event streams, oldest first

    ghost predicate Valid()
      reads this
    {
      && PendingOK(pending)
      && NumbersMatch(byNumber)
      && (forall h :: h in byHash ==> byHash[h].hash == h)
      && (forall p :: p in dispatched ==> Confirmed(p, required))
    }

    ghost function State(): Effect
      reads this
    {
      Effect(pending, dispatched)
    }

    constructor (required: int)
      ensures Valid() && this.required == required && pending == map[] && dispatched == []
    {
      this.required := required;
      pending := map[];
      byNumber := map[];
      byHash := map[];
      highestBlockSeen := 0;
      dispatched := [];
    }

    /** The cache is bounded, so any entry may be gone by the time it is wanted. */
    method Evict()
      requires Valid()
      modifies this`byNumber, this`byHash
      ensures Valid()
      ensures forall n :: n in byNumber ==> n in old(byNumber) && byNumber[n] == old(byNumber)[n]
      ensures forall h :: h in byHash ==> h in old(byHash) && byHash[h] == old(byHash)[h]
    {
      var numbers: set<nat> := *;
      var hashes: set<Hash> := *;
      byNumber := byNumber - numbers;
      byHash := byHash - hashes;
    }

    method AddToCache(b: Block)
      requires Valid()
      modifies this`byNumber, this`byHash
      ensures Valid()
      ensures byNumber == old(byNumber)[b.number := b] && byHash == old(byHash)[b.hash := b]
    {
      byHash := byHash[b.hash := b];
      byNumber := byNumber[b.number := b];
    }

    /** `answer` is what the node would say if it were asked. */
    method GetBlockByHash(hash: Hash, answer: Answer) returns (r: Answer)
      requires Valid() && (answer.Found? ==> answer.block.hash == hash)
      modifies this`byNumber, this`byHash
      ensures Valid()
      ensures r.Found? ==> r.block.hash == hash
      ensures r == answer || (hash in old(byHash) && r == Found(old(byHash)[hash]))
      ensures forall h :: h in byHash ==>
                (h in old(byHash) && byHash[h] == old(byHash)[h]) || (h == hash && answer == Found(byHash[h]))
      ensures forall n :: n in byNumber ==>
                (n in old(byNumber) && byNumber[n] == old(byNumber)[n]) || answer == Found(byNumber[n])
    {
      Evict();
      if hash in byHash {
        return Found(byHash[hash]);
      }
      if answer.Found? {
        AddToCache(answer.block);
      }
      return answer;
    }

    method GetBlockByNumber(n: nat, expectedParent: Hash, node: nat -> Answer) returns (r: Answer)
      requires Valid() && HonestNumbers(node)
      modifies this`byNumber, this`byHash
      ensures Valid()
      ensures r == Fetch(old(byNumber), node, n, expectedParent)
      ensures byNumber == CacheAfter(old(byNumber), node, n, expectedParent)
    {
      if n in byNumber && byNumber[n].parent == expectedParent {
        return Found(byNumber[n]);
      }
      r := node(n);
      if r.Found? {
        AddToCache(r.block);
      }
    }

    /** `processBlock` for every pending event; the due ones leave the table and go out in event order. */
    method ProcessBlock(b: Block)
      requires Valid()
      modifies this`pending, this`dispatched
      ensures Valid()
      ensures BlockProcessed(old(State()), b, required, State())
    {
      ghost var placed := PlaceInAll(pending, b);
      PlaceInAllKeepsOK(pending, b);
      var rest, confirmed := SettleAll(pending, b, required);
      pending := rest;
      var out := Sort(confirmed, DispatchLeq);
      SortKeepsDue(confirmed, placed, required);
      dispatched := dispatched + out;
    }

    /**
      `processBlockHashes`: the blocks are processed in order, and those that cannot be fetched are skipped.
      `answers` is what the cache or the node gave for each hash, `states` the state before each and at the end.
     */
    method ProcessBlockHashes(hashes: seq<Hash>, node: Hash -> Answer)
      returns (ghost answers: seq<Answer>, ghost states: seq<Effect>)
      requires Valid() && forall h :: node(h).Found? ==> node(h).block.hash == h
      modifies this
      ensures Valid() && |answers| == |hashes|
      ensures |states| == |hashes| + 1 && states[0] == old(State()) && states[|hashes|] == State()
      ensures forall i :: 0 <= i < |hashes| ==>
                HashProcessed(states[i], hashes[i], node(hashes[i]), old(byHash), answers[i], required, states[i + 1])
      ensures highestBlockSeen == HighestSeen(old(highestBlockSeen), answers)
    {
      answers, states := [], [State()];
      for i := 0 to |hashes|
        invariant Valid() && |answers| == i && |states| == i + 1
        invariant states[0] == old(State()) && states[i] == State()
        invariant forall j :: 0 <= j < i ==>
                    HashProcessed(states[j], hashes[j], node(hashes[j]), old(byHash), answers[j], required,
                                  states[j + 1])
        invariant CachedFrom(byHash, old(byHash), node)
        invariant highestBlockSeen == HighestSeen(old(highestBlockSeen), answers)
      {
        ghost var now := byHash;
        var r := ProcessBlockHash(hashes[i], node(hashes[i]));
        ProcessedFromStart(states[i], hashes[i], node, now, old(byHash), r, required, State());
        HighestSeenNext(old(highestBlockSeen), answers, r);
        answers, states := answers + [r], states + [State()];
      }
    }

    /** The body of the loop of `processBlockHashes`. */
    method ProcessBlockHash(hash: Hash, answer: Answer) returns (r: Answer)
      requires Valid() && (answer.Found? ==> answer.block.hash == hash)
      modifies this
      ensures Valid() && HashProcessed(old(State()), hash, answer, old(byHash), r, required, State())
      ensures forall h :: h in byHash ==>
                (h in old(byHash) && byHash[h] == old(byHash)[h]) || (h == hash && answer == Found(byHash[h]))
      ensures highestBlockSeen ==
              if r.Found? && r.block.number > old(highestBlockSeen) then r.block.number else old(highestBlockSeen)
    {
      r := GetBlockByHash(hash, answer);
      if r.Found? {
        ProcessBlock(r.block);
        if r.block.number > highestBlockSeen {
          highestBlockSeen := r.block.number;
        }
      }
    }

    /** `addEvent`: an event already pending under the same key is replaced, whichever stream it was for. */
    method AddEvent(e: LogEvent)
      requires Valid()
      modifies this`pending
      ensures Valid() && pending == old(pending)[KeyOf(e) := Pending(e, [])]
      ensures exists k :: k in pending && pending[k] == Pending(e, [])
      ensures forall k :: k in old(pending) && !SameLog(old(pending)[k].event, e) ==>
                k in pending && pending[k] == old(pending)[k]
    {
      assert forall k :: k in pending ==> KeyOf(pending[k].event) == k;
      pending := pending[KeyOf(e) := Pending(e, [])];
      assert pending[KeyOf(e)] == Pending(e, []);
    }

    method RemoveEvent(e: LogEvent)
      requires Valid()
      modifies this`pending
      ensures Valid() && pending == old(pending) - {KeyOf(e)}
      ensures forall k :: k in old(pending) && !SameLog(old(pending)[k].event, e) ==>
                k in pending && pending[k] == old(pending)[k]
      ensures forall k :: k in pending ==> !SameLog(pending[k].event, e)
    {
      assert forall k :: k in pending ==> KeyOf(pending[k].event) == k;
      pending := pending - {KeyOf(e)};
    }

    method StreamStopped(stream: string)
      requires Valid()
      modifies this`pending
      ensures Valid()
      ensures forall k :: k in pending <==> k in old(pending) && old(pending)[k].event.stream != stream
      ensures forall k :: k in pending ==> pending[k] == old(pending)[k]
    {
      pending := map k | k in pending && pending[k].event.stream != stream :: pending[k];
    }

    /**
      `walkChainForEvent`. `node` gives the answer to each by-number query of this walk, each made at most once.
      The event stays pending even when it is dispatched. `cache` is what the cache still held.
     */
    method WalkChainForEvent(k: EventKey, node: nat -> Answer) returns (end: WalkEnd, ghost cache: map<nat, Block>)
      requires Valid() && k in pending && HonestNumbers(node)
      modifies this`pending, this`byNumber, this`byHash, this`dispatched
      ensures Valid()
      ensures forall n :: n in cache ==> n in old(byNumber) && cache[n] == old(byNumber)[n]
      ensures State() == AfterWalk(old(State()), required, highestBlockSeen, k, cache, node)
      ensures end == Walk(old(pending)[k].event, [], required, highestBlockSeen, cache, node).1
    {
      Evict();
      cache := byNumber;
      var e := pending[k].event;
      WalkIsLinkedAndBounded(e, [], required, highestBlockSeen, cache, node);
      var confs: seq<Block>;
      confs, end := CollectConfirmations(e, node);
      pending := pending[k := Pending(e, confs)];
      if end.ThresholdReached? {
        dispatched := dispatched + [pending[k]];
      }
    }

    /** The loop of `walkChainForEvent`. */
    method CollectConfirmations(e: LogEvent, node: nat -> Answer) returns (confs: seq<Block>, end: WalkEnd)
      requires Valid() && HonestNumbers(node)
      modifies this`byNumber, this`byHash
      ensures Valid()
      ensures (confs, end) == Walk(e, [], required, highestBlockSeen, old(byNumber), node)
    {
      ghost var cache := byNumber;
      var blockNumber := e.blockNumber + 1;
      var expectedParent := e.blockHash;
      confs := [];
      while true
        invariant Valid()
        invariant blockNumber == NumberAt(e, |confs|) && expectedParent == ParentAt(e, confs, |confs|)
        invariant |confs| == 0 || |confs| < required
        invariant forall n :: n >= blockNumber ==> (n in byNumber <==> n in cache)
        invariant forall n :: n >= blockNumber && n in cache ==> byNumber[n] == cache[n]
        invariant Walk(e, confs, required, highestBlockSeen, cache, node) ==
                  Walk(e, [], required, highestBlockSeen, cache, node)
        decreases if |confs| < required then required - |confs| else 0
      {
        if highestBlockSeen > 0 && blockNumber > highestBlockSeen {
          return confs, ReachedHighestSeen;
        }
        var answer := GetBlockByNumber(blockNumber, expectedParent, node);
        assert answer == Fetch(cache, node, blockNumber, expectedParent);
        if answer.Failed? {
          return confs, RpcFailed;
        }
        if answer.Unknown? {
          return confs, BlockUnavailable;
        }
        if answer.block.parent != expectedParent {
          return confs, ParentMismatch;
        }
        WalkTakes(e, confs, required, highestBlockSeen, cache, node, answer.block);
        confs := confs + [answer.block];
        if |confs| >= required {
          return confs, ThresholdReached;
        }
        blockNumber := blockNumber + 1;
        expectedParent := answer.block.hash;
      }
    }

    /**
      `processNotifications`: in order, up to the first walk with an RPC error. For each notification processed,
      `caches` is what the cache held; `states` is the state before each and at the end.
     */
    method ProcessNotifications(ns: seq<Notification>, node: (int, nat) -> Answer)
      returns (ok: bool, ghost caches: seq<map<nat, Block>>, ghost states: seq<Effect>)
      requires Valid() && forall i :: HonestNumbers(NodeFor(node, i))
      modifies this`pending, this`byNumber, this`byHash, this`dispatched
      ensures Valid() && |caches| <= |ns| && (if ok then |caches| == |ns| else caches != [])
      ensures |states| == |caches| + 1 && states[0] == old(State()) && states[|caches|] == State()
      ensures forall i :: 0 <= i < |caches| ==>
                Notified(states[i], required, highestBlockSeen, ns[i], caches[i], NodeFor(node, i), states[i + 1],
                         ok || i < |caches| - 1)
    {
      caches, states := [], [State()];
      for i := 0 to |ns|
        invariant Valid() && |caches| == i && |states| == i + 1
        invariant states[0] == old(State()) && states[i] == State()
        invariant forall j :: 0 <= j < i ==>
                    Notified(states[j], required, highestBlockSeen, ns[j], caches[j], NodeFor(node, j), states[j + 1],
                             true)
      {
        var goOn, cache := ProcessNotification(ns[i], NodeFor(node, i));
        caches, states := caches + [cache], states + [State()];
        if !goOn {
          return false, caches, states;
        }
      }
      return true, caches, states;
    }

    /** The body of the loop of `processNotifications`. */
    method ProcessNotification(n: Notification, node: nat -> Answer) returns (goOn: bool, ghost cache: map<nat, Block>)
      requires Valid() && HonestNumbers(node)
      modifies this`pending, this`byNumber, this`byHash, this`dispatched
      ensures Valid()
      ensures Notified(old(State()), required, highestBlockSeen, n, cache, node, State(), goOn)
    {
      goOn := true;
      if n.NewLog? {
        AddEvent(n.event);
        var end: WalkEnd;
        end, cache := WalkChainForEvent(KeyOf(n.event), node);
        goOn := !end.RpcFailed?;
      } else {
        RemoveEvent(n.event);
        cache := byNumber;
      }
    }

    /** The body of the loop of `walkChain`. */
    method WalkPending(k: EventKey, node: nat -> Answer) returns (goOn: bool, ghost cache: map<nat, Block>)
      requires Valid() && k in pending && HonestNumbers(node)
      modifies this`pending, this`byNumber, this`byHash, this`dispatched
      ensures Valid() && pending.Keys == old(pending).Keys
      ensures EventWalked(old(State()), required, highestBlockSeen, k, cache, node, State(), goOn)
    {
      var end: WalkEnd;
      end, cache := WalkChainForEvent(k, node);
      goOn := !end.RpcFailed?;
    }

    /** `walkChain`: every pending event in event order, up to the first RPC error. */
    method WalkChain(node: (EventKey, nat) -> Answer)
      returns (ok: bool, ghost keys: seq<EventKey>, ghost caches: seq<map<nat, Block>>, ghost states: seq<Effect>)
      requires Valid() && forall k :: HonestNumbers(NodeFor(node, k))
      modifies this`pending, this`byNumber, this`byHash, this`dispatched
      ensures Valid() && InEventOrder(keys, old(pending))
      ensures |caches| <= |keys| && (if ok then |caches| == |keys| else caches != [])
      ensures |states| == |caches| + 1 && states[0] == old(State()) && states[|caches|] == State()
      ensures forall i :: 0 <= i < |caches| ==>
                EventWalked(states[i], required, highestBlockSeen, keys[i], caches[i], NodeFor(node, keys[i]),
                            states[i + 1], ok || i < |caches| - 1)
    {
      var sorted := SortedKeys(pending);
      keys, caches, states := sorted, [], [State()];
      for i := 0 to |sorted|
        invariant Valid() && |caches| == i && |states| == i + 1
        invariant states[0] == old(State()) && states[i] == State() && pending.Keys == old(pending).Keys
        invariant forall j :: 0 <= j < i ==>
                    EventWalked(states[j], required, highestBlockSeen, keys[j], caches[j], NodeFor(node, keys[j]),
                                states[j + 1], true)
      {
        assert sorted[i] in sorted;
        var goOn, cache := WalkPending(sorted[i], NodeFor(node, sorted[i]));
        caches, states := caches + [cache], states + [State()];
        if !goOn {
          return false, keys, caches, states;
        }
      }
      return true, keys, caches, states;
    }
  }

  // ------------------------------------------------------------------ loops over the table

  /** The inner loop of `processBlock`: the block may appear at any point of the list. */
  method PlaceBlock(e: LogEvent, confs: seq<Block>, b: Block) returns (r: seq<Block>)
    ensures r == Place(e, confs, b)
  {
    var expectedParent := e.blockHash;
    var expectedNumber := e.blockNumber + 1;
    for i := 0 to |confs| + 1
      invariant expectedNumber == NumberAt(e, i)
      invariant i <= |confs| ==> expectedParent == ParentAt(e, confs, i)
      invariant forall j :: 0 <= j < i ==> !(b.number == NumberAt(e, j) && b.parent == ParentAt(e, confs, j))
    {
      if b.parent == expectedParent && b.number == expectedNumber {
        return confs[..i] + [b];
      }
      if i < |confs| {
        expectedParent := confs[i].hash;
      }
      expectedNumber := expectedNumber + 1;
    }
    return confs;
  }

  /** The events visited so far: those due are listed once, the others are kept. */
  ghost predicate Settled(done: set<EventKey>, rest: map<EventKey, Pending>, confirmed: seq<Pending>,
                          placed: map<EventKey, Pending>, required: int) {
    && done <= placed.Keys
    && (forall k :: k in rest <==> k in done && |placed[k].confirmations| < required)
    && (forall k :: k in rest ==> rest[k] == placed[k])
    && (forall p :: p in confirmed ==> KeyOf(p.event) in done * Due(placed, required) && placed[KeyOf(p.event)] == p)
    && (forall k :: k in done * Due(placed, required) ==> placed[k] in confirmed)
    && (forall i, j :: 0 <= i < j < |confirmed| ==> confirmed[i] != confirmed[j])
  }

  lemma SettleOne(done: set<EventKey>, rest: map<EventKey, Pending>, confirmed: seq<Pending>,
                  placed: map<EventKey, Pending>, required: int, k: EventKey)
    requires Settled(done, rest, confirmed, placed, required)
    requires k in placed && k !in done && KeyOf(placed[k].event) == k
    ensures k in Due(placed, required) ==> Settled(done + {k}, rest, confirmed + [placed[k]], placed, required)
    ensures k !in Due(placed, required) ==> Settled(done + {k}, rest[k := placed[k]], confirmed, placed, required)
  {
    assert placed[k] !in confirmed;
  }

  /** The outer loop of `processBlock`, over the table in any order. */
  method SettleAll(pending: map<EventKey, Pending>, b: Block, required: int)
    returns (rest: map<EventKey, Pending>, confirmed: seq<Pending>)
    requires PendingOK(pending)
    ensures rest == PlaceInAll(pending, b) - Due(PlaceInAll(pending, b), required)
    ensures ListsDue(confirmed, PlaceInAll(pending, b), required)
  {
    ghost var placed := PlaceInAll(pending, b);
    rest := map[];
    confirmed := [];
    var left := pending.Keys;
    while left != {}
      invariant left <= pending.Keys
      invariant Settled(pending.Keys - left, rest, confirmed, placed, required)
      decreases |left|
    {
      var k :| k in left;
      var p := pending[k];
      var confs := PlaceBlock(p.event, p.confirmations, b);
      p := p.(confirmations := confs);
      assert placed[k] == p && KeyOf(p.event) == k;
      SettleOne(pending.Keys - left, rest, confirmed, placed, required, k);
      if |confs| >= required {
        confirmed := confirmed + [p];
      } else {
        rest := rest[k := p];
      }
      assert pending.Keys - (left - {k}) == (pending.Keys - left) + {k};
      left := left - {k};
    }
    assert pending.Keys - {} == placed.Keys;
  }

  lemma PlaceInAllKeepsOK(pending: map<EventKey, Pending>, b: Block)
    requires PendingOK(pending)
    ensures PendingOK(PlaceInAll(pending, b))
  {
    forall k | k in pending ensures Linked(pending[k].event, Place(pending[k].event, pending[k].confirmations, b)) {
      PlaceKeepsLinked(pending[k].event, pending[k].confirmations, b);
    }
  }

  lemma SortKeepsDue(ps: seq<Pending>, pending: map<EventKey, Pending>, required: int)
    requires ListsDue(ps, pending, required)
    ensures ListsDue(Sort(ps, DispatchLeq), pending, required)
    ensures Sorted(Sort(ps, DispatchLeq), DispatchLeq)
  {
    SortOfDistinct(ps, DispatchLeq);
  }

  method SortedKeys(pending: map<EventKey, Pending>) returns (keys: seq<EventKey>)
    requires PendingOK(pending)
    ensures InEventOrder(keys, pending)
  {
    var ps: seq<Pending> := [];
    var left := pending.Keys;
    while left != {}
      invariant left <= pending.Keys
      invariant forall p :: p in ps ==> KeyOf(p.event) in pending.Keys - left && pending[KeyOf(p.event)] == p
      invariant forall k :: k in pending && k !in left ==> pending[k] in ps
      invariant forall i, j :: 0 <= i < j < |ps| ==> ps[i] != ps[j]
      decreases |left|
    {
      var k :| k in left;
      assert KeyOf(pending[k].event) == k && pending[k] !in ps;
      left := left - {k};
      ps := ps + [pending[k]];
    }
    SortOfDistinct(ps, DispatchLeq);
    var sorted := Sort(ps, DispatchLeq);
    keys := seq(|sorted|, i requires 0 <= i < |sorted| => KeyOf(sorted[i].event));
    KeysInOrder(sorted, pending, keys);
  }

  lemma KeysInOrder(ps: seq<Pending>, pending: map<EventKey, Pending>, keys: seq<EventKey>)
    requires Sorted(ps, DispatchLeq) && forall i, j :: 0 <= i < j < |ps| ==> ps[i] != ps[j]
    requires forall p :: p in ps ==> KeyOf(p.event) in pending && pending[KeyOf(p.event)] == p
    requires forall k :: k in pending ==> pending[k] in ps && KeyOf(pending[k].event) == k
    requires |keys| == |ps| && forall i :: 0 <= i < |ps| ==> keys[i] == KeyOf(ps[i].event)
    ensures InEventOrder(keys, pending)
  {
    forall i | 0 <= i < |keys| ensures keys[i] in pending && pending[keys[i]] == ps[i] {
      assert ps[i] in ps;
    }
    forall k | k in pending ensures k in keys {
      var i :| 0 <= i < |ps| && ps[i] == pending[k];
      assert keys[i] == k;
    }
  }

  // ------------------------------------------------------------------ dispatch twice

  /**
    An event the walk has dispatched stays pending, so the next block dispatches it again exactly when that
    block does not cut its list below the threshold.
   */
  lemma WalkedEventIsDispatchedAgain(pending: map<EventKey, Pending>, k: EventKey, b: Block, required: int)
    requires PendingOK(pending) && k in pending && |pending[k].confirmations| >= required
    ensures var cut := b.number - NumberAt(pending[k].event, 0);
            k in Due(PlaceInAll(pending, b), required) <==>
            !(0 <= cut < |pending[k].confirmations| && cut + 1 < required &&
              b.parent == ParentAt(pending[k].event, pending[k].confirmations, cut))
  {
  }
}
