/**
  Confirmation lists of the block confirmation manager (internal/events/block_confirmations.go): how an arriving
  block truncates and extends the list of a pending event, and how a walk rebuilds it from the node.

  Block numbers are unbounded here; the source keeps them in a uint64.
 */
module Confirmations {

  type Hash = string

  datatype Block = Block(number: nat, hash: Hash, parent: Hash)

  datatype LogEvent = LogEvent(txHash: string, blockNumber: nat, blockHash: Hash, txIndex: nat, logIndex: nat,
                               stream: string)

  datatype Pending = Pending(event: LogEvent, confirmations: seq<Block>)

  /** The parent hash and the number that position `i` of a confirmation list must have. */
  function ParentAt(e: LogEvent, confs: seq<Block>, i: nat): Hash
    requires i <= |confs|
  {
    if i == 0 then e.blockHash else confs[i - 1].hash
  }

  function NumberAt(e: LogEvent, i: nat): nat {
    e.blockNumber + 1 + i
  }

  /** Consecutive numbers from the event block on, each block naming its predecessor as parent. */
  predicate Linked(e: LogEvent, confs: seq<Block>) {
    forall i :: 0 <= i < |confs| ==> LinkedAt(e, confs, i)
  }

  predicate LinkedAt(e: LogEvent, confs: seq<Block>, i: nat)
    requires i < |confs|
  {
    confs[i].number == NumberAt(e, i) && confs[i].parent == ParentAt(e, confs, i)
  }

  /** A prefix of a linked list and a block that follows it are linked. */
  lemma LinkedExtends(e: LogEvent, confs: seq<Block>, i: nat, b: Block)
    requires Linked(e, confs) && i <= |confs| && b.number == NumberAt(e, i) && b.parent == ParentAt(e, confs, i)
    ensures Linked(e, confs[..i] + [b])
  {
    var next := confs[..i] + [b];
    forall j | 0 <= j < |next| ensures LinkedAt(e, next, j) {
      if j < i {
        assert LinkedAt(e, confs, j);
      }
    }
  }

  predicate Confirmed(p: Pending, required: int) {
    Linked(p.event, p.confirmations) && |p.confirmations| >= required
  }

  // ------------------------------------------------------------------ block arrivals

  /** Where `processBlock` puts a block: only its number decides the position, only the parent decides whether. */
  function Place(e: LogEvent, confs: seq<Block>, b: Block): seq<Block> {
    var i := b.number - NumberAt(e, 0);
    if 0 <= i <= |confs| && b.parent == ParentAt(e, confs, i) then confs[..i] + [b] else confs
  }

  lemma PlaceKeepsLinked(e: LogEvent, confs: seq<Block>, b: Block)
    requires Linked(e, confs)
    ensures Linked(e, Place(e, confs, b))
  {
    var i := b.number - NumberAt(e, 0);
    if 0 <= i <= |confs| && b.parent == ParentAt(e, confs, i) {
      LinkedExtends(e, confs, i, b);
    }
  }

  /** A pending event either waits with a confirmation list, or has been dispatched with one. */
  datatype Fate = Waiting(confs: seq<Block>) | Dispatched(confs: seq<Block>)

  /** A pending event taking blocks one at a time, until it reaches its threshold. */
  function Follow(e: LogEvent, confs: seq<Block>, blocks: seq<Block>, required: int): Fate
    decreases |blocks|
  {
    if blocks == [] then Waiting(confs)
    else
      var next := Place(e, confs, blocks[0]);
      if |next| >= required then Dispatched(next) else Follow(e, next, blocks[1..], required)
  }

  // ------------------------------------------------------------------ walks

  /** The answer to a block query: an RPC error, a block the node does not have, or a header. */
  datatype Answer = Failed | Unknown | Found(block: Block)

  datatype WalkEnd = ReachedHighestSeen | BlockUnavailable | ParentMismatch | RpcFailed | ThresholdReached

  /** `getBlockByNumber`: a cached header with another parent is a cache miss. */
  function Fetch(cache: map<nat, Block>, node: nat -> Answer, n: nat, expectedParent: Hash): Answer {
    if n in cache && cache[n].parent == expectedParent then Found(cache[n]) else node(n)
  }

  /** `walkChainForEvent` from the point where `confs` has been collected. */
  function Walk(e: LogEvent, confs: seq<Block>, required: int, highestSeen: nat, cache: map<nat, Block>,
                node: nat -> Answer): (seq<Block>, WalkEnd)
    decreases if |confs| < required then required - |confs| else 0
  {
    var n := NumberAt(e, |confs|);
    var expected := ParentAt(e, confs, |confs|);
    if highestSeen > 0 && n > highestSeen then (confs, ReachedHighestSeen)
    else
      match Fetch(cache, node, n, expected)
      case Failed => (confs, RpcFailed)
      case Unknown => (confs, BlockUnavailable)
      case Found(b) =>
        if b.parent != expected then (confs, ParentMismatch)
        else if |confs| + 1 >= required then (confs + [b], ThresholdReached)
        else Walk(e, confs + [b], required, highestSeen, cache, node)
  }

  /** The node answers a by-number query with a header of that number. */
  ghost predicate HonestNumbers(node: nat -> Answer) {
    forall n :: node(n).Found? ==> node(n).block.number == n
  }

  predicate NumbersMatch(cache: map<nat, Block>) {
    forall n :: n in cache ==> cache[n].number == n
  }

  /**
    A walk from scratch yields a linked list, stops within the required count, and reports the threshold
    exactly when it has collected that many confirmations.
   */
  lemma {:induction false} WalkIsLinkedAndBounded(e: LogEvent, confs: seq<Block>, required: int, highestSeen: nat,
                                                  cache: map<nat, Block>, node: nat -> Answer)
    requires Linked(e, confs) && HonestNumbers(node) && NumbersMatch(cache)
    requires |confs| == 0 || |confs| < required
    ensures var (r, end) := Walk(e, confs, required, highestSeen, cache, node);
            && Linked(e, r) && confs <= r
            && |r| <= (if required < 1 then 1 else required)
            && (end.ThresholdReached? <==> |r| >= required && |r| > |confs|)
    decreases if |confs| < required then required - |confs| else 0
  {
    var n := NumberAt(e, |confs|);
    var expected := ParentAt(e, confs, |confs|);
    var answer := Fetch(cache, node, n, expected);
    if !(highestSeen > 0 && n > highestSeen) && answer.Found? && answer.block.parent == expected {
      var next := confs + [answer.block];
      LinkedExtends(e, confs, |confs|, answer.block);
      assert confs[..|confs|] == confs;
      if |next| < required {
        WalkIsLinkedAndBounded(e, next, required, highestSeen, cache, node);
      }
    }
  }

  // -------------------------------------------------- the incremental path follows the chain

  lemma PlaceNextOfChain(e: LogEvent, confs: seq<Block>, chain: seq<Block>, f: nat)
    requires Linked(e, chain) && f < |chain| && f <= |confs| && confs[..f] == chain[..f]
    ensures Place(e, confs, chain[f]) == chain[..f + 1]
  {
    assert f > 0 ==> confs[f - 1] == confs[..f][f - 1] == chain[..f][f - 1];
    assert LinkedAt(e, chain, f);
    assert chain[..f + 1] == chain[..f] + [chain[f]];
  }

  /**
    Feeding the current chain's blocks in order from the fork point, onto whatever side-branch confirmations an
    event had, leaves exactly the current chain's prefix; at the threshold the event goes out with exactly the
    first `required` blocks of the chain.
   */
  lemma {:induction false} FollowConvergesToTheChain(e: LogEvent, confs: seq<Block>, chain: seq<Block>, f: nat,
                                                     required: int)
    requires Linked(e, chain) && f < |chain| && f <= |confs| && confs[..f] == chain[..f]
    requires f < required
    ensures Follow(e, confs, chain[f..], required) ==
            if |chain| < required then Waiting(chain) else Dispatched(chain[..required])
    decreases |chain| - f
  {
    PlaceNextOfChain(e, confs, chain, f);
    assert chain[f..][1..] == chain[f + 1..];
    if f + 1 < required {
      if f + 1 < |chain| {
        assert chain[..f + 1][..f + 1] == chain[..f + 1];
        FollowConvergesToTheChain(e, chain[..f + 1], chain, f + 1, required);
      } else {
        assert chain[..f + 1] == chain;
      }
    }
  }

  // ------------------------------------------------------- walks, with and without the cache

  function Min(a: int, b: int): int {
    if a < b then a else b
  }

  /** How many blocks of the chain a walk collects: no more than exist, than are wanted, or than have been seen. */
  function WalkLength(e: LogEvent, length: nat, required: int, highestSeen: nat): nat {
    var wanted := if required < 1 then 1 else required;
    var seen := if highestSeen == 0 then length
                else if highestSeen <= e.blockNumber then 0
                else highestSeen - e.blockNumber;
    Min(length, Min(wanted, seen))
  }

  /** A cached header that the walk would believe at position `k`, although the chain has something else there. */
  predicate Conflict(e: LogEvent, chain: seq<Block>, cache: map<nat, Block>, k: nat)
    requires k <= |chain|
  {
    var n := NumberAt(e, k);
    && n in cache && cache[n].parent == ParentAt(e, chain, k)
    && (k < |chain| ==> cache[n] != chain[k])
  }

  /** The walk looks at position `k` of the chain. */
  predicate Examined(e: LogEvent, chain: seq<Block>, required: int, highestSeen: nat, k: nat) {
    k <= |chain| && (k == 0 || k < required) && (highestSeen == 0 || NumberAt(e, k) <= highestSeen)
  }

  /** The node's chain after the event block is `chain`, up to its tip. */
  ghost predicate Serves(node: nat -> Answer, e: LogEvent, chain: seq<Block>) {
    && (forall k :: 0 <= k < |chain| ==> ServesAt(node, e, chain, k))
    && node(NumberAt(e, |chain|)) == Unknown
  }

  ghost predicate ServesAt(node: nat -> Answer, e: LogEvent, chain: seq<Block>, k: nat)
    requires k < |chain|
  {
    node(NumberAt(e, k)) == Found(chain[k])
  }

  lemma WalkTakes(e: LogEvent, confs: seq<Block>, required: int, highestSeen: nat, cache: map<nat, Block>,
                  node: nat -> Answer, b: Block)
    requires highestSeen == 0 || NumberAt(e, |confs|) <= highestSeen
    requires Fetch(cache, node, NumberAt(e, |confs|), ParentAt(e, confs, |confs|)) == Found(b)
    requires b.parent == ParentAt(e, confs, |confs|)
    ensures Walk(e, confs, required, highestSeen, cache, node) ==
            if |confs| + 1 >= required then (confs + [b], ThresholdReached)
            else Walk(e, confs + [b], required, highestSeen, cache, node)
  {
  }

  lemma WalkStepsAlongTheChain(e: LogEvent, chain: seq<Block>, k: nat, required: int, highestSeen: nat,
                               cache: map<nat, Block>, node: nat -> Answer)
    requires Linked(e, chain) && k < |chain| && Examined(e, chain, required, highestSeen, k)
    requires Serves(node, e, chain) && !Conflict(e, chain, cache, k)
    ensures Walk(e, chain[..k], required, highestSeen, cache, node) ==
            if k + 1 >= required then (chain[..k + 1], ThresholdReached)
            else Walk(e, chain[..k + 1], required, highestSeen, cache, node)
  {
    assert LinkedAt(e, chain, k) && ServesAt(node, e, chain, k);
    assert ParentAt(e, chain[..k], k) == ParentAt(e, chain, k) == chain[k].parent;
    WalkTakes(e, chain[..k], required, highestSeen, cache, node, chain[k]);
    assert chain[..k] + [chain[k]] == chain[..k + 1];
  }

  lemma WalkStopsAtTheTip(e: LogEvent, chain: seq<Block>, required: int, highestSeen: nat, cache: map<nat, Block>,
                          node: nat -> Answer)
    requires Serves(node, e, chain) && Examined(e, chain, required, highestSeen, |chain|)
    requires !Conflict(e, chain, cache, |chain|)
    ensures Walk(e, chain, required, highestSeen, cache, node) == (chain, BlockUnavailable)
  {
  }

  /** Without conflicts before `c`, the walk gets there along the chain. */
  lemma {:induction false} WalkReaches(e: LogEvent, chain: seq<Block>, c: nat, required: int, highestSeen: nat,
                                       cache: map<nat, Block>, node: nat -> Answer)
    requires Linked(e, chain) && Serves(node, e, chain) && Examined(e, chain, required, highestSeen, c)
    requires forall j :: 0 <= j < c ==> !Conflict(e, chain, cache, j)
    ensures Walk(e, [], required, highestSeen, cache, node) == Walk(e, chain[..c], required, highestSeen, cache, node)
    decreases c
  {
    if c == 0 {
      assert chain[..0] == [];
    } else {
      assert Examined(e, chain, required, highestSeen, c - 1);
      WalkReaches(e, chain, c - 1, required, highestSeen, cache, node);
      assert !Conflict(e, chain, cache, c - 1);
      WalkStepsAlongTheChain(e, chain, c - 1, required, highestSeen, cache, node);
    }
  }

  /** How a walk ends that has collected as much of the chain as it can. */
  lemma WalkEnds(e: LogEvent, chain: seq<Block>, k: nat, required: int, highestSeen: nat, cache: map<nat, Block>,
                 node: nat -> Answer)
    requires Linked(e, chain) && Serves(node, e, chain) && Examined(e, chain, required, highestSeen, k)
    requires k + 1 == WalkLength(e, |chain|, required, highestSeen)
    requires forall j :: 0 <= j <= |chain| && Examined(e, chain, required, highestSeen, j) ==>
               !Conflict(e, chain, cache, j)
    ensures var (r, end) := Walk(e, chain[..k], required, highestSeen, cache, node);
            r == chain[..k + 1] && (end.ThresholdReached? <==> k + 1 >= required)
  {
    WalkStepsAlongTheChain(e, chain, k, required, highestSeen, cache, node);
    if k + 1 < required {
      if Examined(e, chain, required, highestSeen, k + 1) {
        assert k + 1 == |chain| && chain[..k + 1] == chain;
        WalkStopsAtTheTip(e, chain, required, highestSeen, cache, node);
      } else {
        assert highestSeen > 0 && NumberAt(e, k + 1) > highestSeen;
      }
    }
  }

  /** Without conflicts a walk collects exactly the chain's prefix, whatever else is cached. */
  lemma WalkReadsTheChain(e: LogEvent, chain: seq<Block>, required: int, highestSeen: nat, cache: map<nat, Block>,
                          node: nat -> Answer)
    requires Linked(e, chain) && Serves(node, e, chain)
    requires forall j :: 0 <= j <= |chain| && Examined(e, chain, required, highestSeen, j) ==>
               !Conflict(e, chain, cache, j)
    ensures var (r, end) := Walk(e, [], required, highestSeen, cache, node);
            && r == chain[..WalkLength(e, |chain|, required, highestSeen)]
            && (end.ThresholdReached? <==> |r| > 0 && |r| >= required)
  {
    var k := WalkLength(e, |chain|, required, highestSeen);
    if k > 0 {
      assert forall j: nat :: j < k ==> Examined(e, chain, required, highestSeen, j);
      WalkReaches(e, chain, k - 1, required, highestSeen, cache, node);
      WalkEnds(e, chain, k - 1, required, highestSeen, cache, node);
    } else if Examined(e, chain, required, highestSeen, 0) {
      assert chain == [];
      WalkStopsAtTheTip(e, chain, required, highestSeen, cache, node);
    }
  }

  lemma {:induction false} WalkExtends(e: LogEvent, confs: seq<Block>, required: int, highestSeen: nat,
                                       cache: map<nat, Block>, node: nat -> Answer)
    ensures confs <= Walk(e, confs, required, highestSeen, cache, node).0
    decreases if |confs| < required then required - |confs| else 0
  {
    var expected := ParentAt(e, confs, |confs|);
    var answer := Fetch(cache, node, NumberAt(e, |confs|), expected);
    if answer.Found? && answer.block.parent == expected && |confs| + 1 < required {
      WalkExtends(e, confs + [answer.block], required, highestSeen, cache, node);
    }
  }

  lemma WalkTakesCached(e: LogEvent, confs: seq<Block>, required: int, highestSeen: nat, cache: map<nat, Block>,
                        node: nat -> Answer)
    requires highestSeen == 0 || NumberAt(e, |confs|) <= highestSeen
    requires NumberAt(e, |confs|) in cache && cache[NumberAt(e, |confs|)].parent == ParentAt(e, confs, |confs|)
    ensures var r := Walk(e, confs, required, highestSeen, cache, node).0;
            |r| > |confs| && r[|confs|] == cache[NumberAt(e, |confs|)]
  {
    WalkExtends(e, confs + [cache[NumberAt(e, |confs|)]], required, highestSeen, cache, node);
  }

  /** At the first conflict the walk believes the cached header. */
  lemma WalkBelievesAConflict(e: LogEvent, chain: seq<Block>, c: nat, required: int, highestSeen: nat,
                              cache: map<nat, Block>, node: nat -> Answer)
    requires Linked(e, chain) && Serves(node, e, chain) && c <= |chain|
    requires Examined(e, chain, required, highestSeen, c) && Conflict(e, chain, cache, c)
    requires forall j :: 0 <= j < c ==> !Conflict(e, chain, cache, j)
    ensures var r := Walk(e, [], required, highestSeen, cache, node).0;
            |r| > c && r[c] == cache[NumberAt(e, c)]
  {
    WalkReaches(e, chain, c, required, highestSeen, cache, node);
    assert |chain[..c]| == c && ParentAt(e, chain[..c], c) == ParentAt(e, chain, c);
    WalkTakesCached(e, chain[..c], required, highestSeen, cache, node);
  }

  lemma FirstConflict(e: LogEvent, chain: seq<Block>, required: int, highestSeen: nat, cache: map<nat, Block>)
    returns (c: nat)
    requires exists k ::
               0 <= k <= |chain| && Examined(e, chain, required, highestSeen, k) && Conflict(e, chain, cache, k)
    ensures c <= |chain| && Examined(e, chain, required, highestSeen, c) && Conflict(e, chain, cache, c)
    ensures forall j :: 0 <= j < c ==> !Conflict(e, chain, cache, j)
  {
    var k :| 0 <= k <= |chain| && Examined(e, chain, required, highestSeen, k) && Conflict(e, chain, cache, k);
    c := 0;
    while !Conflict(e, chain, cache, c)
      invariant c <= k
      invariant forall j :: 0 <= j < c ==> !Conflict(e, chain, cache, j)
      decreases k - c
    {
      c := c + 1;
    }
  }

  /**
    A cached walk agrees with the node's chain if and only if no header it would look at conflicts with that
    chain. A stale sibling with the right parent is believed; any other stale header is harmless.
   */
  lemma CachedWalkAgreesIffNoConflict(e: LogEvent, chain: seq<Block>, required: int, highestSeen: nat,
                                      cache: map<nat, Block>, node: nat -> Answer)
    requires Linked(e, chain) && Serves(node, e, chain)
    ensures Walk(e, [], required, highestSeen, cache, node).0 == chain[..WalkLength(e, |chain|, required, highestSeen)]
            <==>
            forall k :: 0 <= k <= |chain| && Examined(e, chain, required, highestSeen, k) ==>
              !Conflict(e, chain, cache, k)
  {
    if forall k :: 0 <= k <= |chain| && Examined(e, chain, required, highestSeen, k) ==> !Conflict(e, chain, cache, k) {
      WalkReadsTheChain(e, chain, required, highestSeen, cache, node);
    } else {
      var c := FirstConflict(e, chain, required, highestSeen, cache);
      WalkBelievesAConflict(e, chain, c, required, highestSeen, cache, node);
    }
  }

  /**
    While an event is pending, the incremental path and a full re-walk agree: after the chain's blocks from the
    fork point on have arrived, a walk over the same chain collects the very same confirmations, and both
    dispatch at the same point.
   */
  lemma IncrementalAgreesWithWalk(e: LogEvent, confs: seq<Block>, chain: seq<Block>, f: nat, required: int,
                                  cache: map<nat, Block>, node: nat -> Answer)
    requires Linked(e, chain) && f < |chain| && f <= |confs| && confs[..f] == chain[..f] && f < required
    requires Serves(node, e, chain)
    requires forall k :: 0 <= k <= |chain| && Examined(e, chain, required, NumberAt(e, |chain| - 1), k) ==>
               !Conflict(e, chain, cache, k)
    ensures var (walked, end) := Walk(e, [], required, NumberAt(e, |chain| - 1), cache, node);
            Follow(e, confs, chain[f..], required) ==
            if end.ThresholdReached? then Dispatched(walked) else Waiting(walked)
  {
    FollowConvergesToTheChain(e, confs, chain, f, required);
    WalkReadsTheChain(e, chain, required, NumberAt(e, |chain| - 1), cache, node);
  }
}
