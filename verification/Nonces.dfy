/**
  Nonce allocation for one signing address (internal/tx/txnprocessor.go).

  The functions are the two lock-protected regions that touch an address: admitting a message
  (`addInflightWrapper`) and dropping an entry (`cancelInFlight`). Nonces are unbounded integers here;
  the source keeps them in an int64.
 */
module Nonces {
  import opened Options

  /** Which branch of `addInflightWrapper` chose the nonce of an entry. */
  datatype Source = Managed | Supplied | Orion | NodeAssigned

  datatype Inflight = Inflight(id: nat, msgID: string, nonce: int, source: Source)

  /** The in-flight list of one address, and the nonce the next managed allocation builds on. */
  datatype AddrState = AddrState(txns: seq<Inflight>, highestNonce: int)

  datatype SuppliedNonce = NoNonce | ParsedNonce(n: int) | UnparsableNonce

  /** The parts of a message that decide how its nonce is chosen. */
  datatype NonceRequest = NonceRequest(supplied: SuppliedNonce, orionPrivate: bool, nodeAssign: bool)

  /** What the node answers to the two transaction-count queries; None is an RPC error. */
  datatype NodeAnswers = NodeAnswers(orionCount: Option<nat>, pendingCount: Option<nat>)

  datatype AdmitError = BadNonce | OrionCountFailed | PendingCountFailed | StoreCheckFailed

  datatype Choice = Chosen(nonce: int, source: Source, highestNonce: int) | Refused(error: AdmitError)

  const ManagedRequest := NonceRequest(NoNonce, false, false)

  function ChooseNonce(state: Option<AddrState>, req: NonceRequest, node: NodeAnswers): Choice {
    var stored := if state.Some? then state.value.highestNonce else 0;
    var known := if !req.nodeAssign && req.supplied.NoNonce? && state.Some? then stored else -1;
    match req.supplied
    case ParsedNonce(n) => Chosen(n, Supplied, stored)
    case UnparsableNonce => Refused(BadNonce)
    case NoNonce =>
      if req.orionPrivate then
        match node.orionCount
        case None => Refused(OrionCountFailed)
        case Some(n) => Chosen(n, Orion, stored)
      else if known >= 0 then
        Chosen(known + 1, Managed, known + 1)
      else if req.nodeAssign then
        Chosen(0, NodeAssigned, stored)
      else
        match node.pendingCount
        case None => Refused(PendingCountFailed)
        case Some(n) => Chosen(n, Managed, n)
  }

  /** The receipt-store answer used by the redelivery check; an empty hash means none is recorded. */
  datatype StoreLookup = StoreFailed | NoRecord | Recorded(hash: string)

  datatype Admission =
    | Admitted(txn: Inflight)
    | AlreadyInFlight
    | AlreadyDispatched(hash: string)
    | Rejected(error: AdmitError)

  function Listed(state: Option<AddrState>): seq<Inflight> {
    if state.Some? then state.value.txns else []
  }

  predicate MessageListed(txns: seq<Inflight>, msgID: string) {
    exists i :: 0 <= i < |txns| && txns[i].msgID == msgID
  }

  /** The redelivery check: the in-memory list first, then the receipt store. None means carry on. */
  function RedeliveryCheck(txns: seq<Inflight>, msgID: string, lookup: StoreLookup): Option<Admission> {
    if MessageListed(txns, msgID) then Some(AlreadyInFlight)
    else if lookup.StoreFailed? then Some(Rejected(StoreCheckFailed))
    else if lookup.Recorded? && lookup.hash != "" then Some(AlreadyDispatched(lookup.hash))
    else None
  }

  /** Admits a message: the new entry is appended and the address registered only on success. */
  function Admit(state: Option<AddrState>, id: nat, msgID: string, check: bool, lookup: StoreLookup,
                 req: NonceRequest, node: NodeAnswers): (Admission, Option<AddrState>) {
    var redelivery := if check then RedeliveryCheck(Listed(state), msgID, lookup) else None;
    if redelivery.Some? then (redelivery.value, state)
    else
      match ChooseNonce(state, req, node)
      case Refused(error) => (Rejected(error), state)
      case Chosen(nonce, source, highest) =>
        var txn := Inflight(id, msgID, nonce, source);
        (Admitted(txn), Some(AddrState(Listed(state) + [txn], highest)))
  }

  /** Position of the first entry with this id, or the length when there is none. */
  function IndexOf(txns: seq<Inflight>, id: nat): (i: nat)
    ensures i <= |txns|
    ensures forall j :: 0 <= j < i ==> txns[j].id != id
    ensures i < |txns| ==> txns[i].id == id
  {
    if txns == [] then 0 else if txns[0].id == id then 0 else 1 + IndexOf(txns[1..], id)
  }

  function Without(txns: seq<Inflight>, id: nat): seq<Inflight> {
    var i := IndexOf(txns, id);
    if i < |txns| then txns[..i] + txns[i + 1..] else txns
  }

  /** Largest nonce of a list, starting from -1. */
  function HighestOf(txns: seq<Inflight>): (h: int)
    ensures h >= -1
    ensures forall i :: 0 <= i < |txns| ==> txns[i].nonce <= h
    ensures h == -1 || HasNonce(txns, h)
  {
    if txns == [] then -1
    else
      var n := |txns| - 1;
      var h := HighestOf(txns[..n]);
      assert h != -1 ==> HasNonce(txns, h) by {
        if h != -1 {
          var i :| 0 <= i < n && txns[..n][i].nonce == h;
          assert txns[i].nonce == h;
        }
      }
      if txns[n].nonce > h then txns[n].nonce else h
  }

  predicate HasNonce(txns: seq<Inflight>, n: int) {
    exists i :: 0 <= i < |txns| && txns[i].nonce == n
  }

  /** Highest nonce left in flight once `t` is dropped; -1 when nothing is left. */
  function Leftover(state: Option<AddrState>, t: Inflight): int {
    HighestOf(Without(Listed(state), t.id))
  }

  /** Drops an entry. An unsubmitted entry that was the highest hands its nonce back. */
  function Cancel(state: Option<AddrState>, t: Inflight, submitted: bool): Option<AddrState> {
    if state.None? then None
    else
      var rest := Without(state.value.txns, t.id);
      if rest == [] then None
      else if !submitted && HighestOf(rest) < t.nonce then Some(AddrState(rest, HighestOf(rest)))
      else Some(AddrState(rest, state.value.highestNonce))
  }

  /** A higher nonce is still in flight, so the dropped one leaves a gap to fill. */
  predicate GapFillNeeded(state: Option<AddrState>, t: Inflight, submitted: bool) {
    !submitted && Leftover(state, t) > t.nonce && !t.source.NodeAssigned?
  }

  // ---------------------------------------------------------------- list facts

  predicate DistinctIDs(txns: seq<Inflight>) {
    forall i, j :: 0 <= i < j < |txns| ==> txns[i].id != txns[j].id
  }

  predicate DistinctNonces(txns: seq<Inflight>) {
    forall i, j :: 0 <= i < j < |txns| ==> txns[i].nonce != txns[j].nonce
  }

  lemma IndexOfEntry(txns: seq<Inflight>, t: Inflight)
    requires DistinctIDs(txns) && t in txns
    ensures IndexOf(txns, t.id) < |txns| && txns[IndexOf(txns, t.id)] == t
  {
    var k :| 0 <= k < |txns| && txns[k] == t;
    assert IndexOf(txns, t.id) == k;
  }

  lemma DropAt(txns: seq<Inflight>, i: nat)
    requires DistinctIDs(txns) && i < |txns|
    ensures var rest := txns[..i] + txns[i + 1..];
            && (forall u :: u in rest <==> u in txns && u != txns[i])
            && (forall u :: u in rest ==> u.id != txns[i].id)
  {
    var rest := txns[..i] + txns[i + 1..];
    forall u | u in txns && u != txns[i] ensures u in rest {
      var j :| 0 <= j < |txns| && txns[j] == u;
      assert u == if j < i then rest[j] else rest[j - 1];
    }
    forall u | u in rest ensures u in txns && u.id != txns[i].id {
      var j :| 0 <= j < |rest| && rest[j] == u;
      assert u == if j < i then txns[j] else txns[j + 1];
    }
  }

  lemma DropAtCounts(txns: seq<Inflight>, i: nat)
    requires i < |txns|
    ensures multiset(txns[..i] + txns[i + 1..]) == multiset(txns) - multiset{txns[i]}
  {
    assert txns == txns[..i] + [txns[i]] + txns[i + 1..];
  }

  /** Dropping an entry removes exactly that entry and keeps the order of the others. */
  lemma WithoutDropsOne(txns: seq<Inflight>, t: Inflight)
    requires DistinctIDs(txns) && t in txns
    ensures var rest := Without(txns, t.id);
            && DistinctIDs(rest)
            && |rest| == |txns| - 1
            && (forall u :: u in rest <==> u in txns && u != t)
            && (forall u :: u in rest ==> u.id != t.id)
            && multiset(rest) == multiset(txns) - multiset{t}
            && exists i :: 0 <= i < |txns| && txns[i] == t && rest == txns[..i] + txns[i + 1..]
  {
    IndexOfEntry(txns, t);
    DropAt(txns, IndexOf(txns, t.id));
    DropAtCounts(txns, IndexOf(txns, t.id));
    WithoutKeepsIDsDistinct(txns, t.id);
  }

  lemma WithoutKeepsNoncesDistinct(txns: seq<Inflight>, id: nat)
    requires DistinctNonces(txns)
    ensures DistinctNonces(Without(txns, id))
  {
  }

  // ------------------------------------------- every interleaving, any mix of requests

  predicate ManagedWithin(txns: seq<Inflight>, highest: int) {
    forall i :: 0 <= i < |txns| && txns[i].source.Managed? ==> 0 <= txns[i].nonce <= highest
  }

  predicate ManagedDistinct(txns: seq<Inflight>) {
    forall i, j :: 0 <= i < j < |txns| && txns[i].source.Managed? && txns[j].source.Managed? ==>
      txns[i].nonce != txns[j].nonce
  }

  /** The bridge-managed entries carry different nonces, none above the stored high mark. */
  predicate ManagedSafe(state: Option<AddrState>) {
    state.Some? ==> ManagedWithin(state.value.txns, state.value.highestNonce) && ManagedDistinct(state.value.txns)
  }

  datatype Step =
    | AdmitStep(id: nat, msgID: string, check: bool, lookup: StoreLookup, req: NonceRequest, node: NodeAnswers)
    | CancelStep(txn: Inflight, submitted: bool)

  predicate Enabled(state: Option<AddrState>, step: Step) {
    match step
    case AdmitStep(id, _, _, _, _, _) => forall t :: t in Listed(state) ==> t.id != id
    case CancelStep(txn, _) => txn in Listed(state)
  }

  function Apply(state: Option<AddrState>, step: Step): Option<AddrState> {
    match step
    case AdmitStep(id, msgID, check, lookup, req, node) => Admit(state, id, msgID, check, lookup, req, node).1
    case CancelStep(txn, submitted) => Cancel(state, txn, submitted)
  }

  predicate Feasible(state: Option<AddrState>, steps: seq<Step>)
    decreases |steps|
  {
    steps == [] || (Enabled(state, steps[0]) && Feasible(Apply(state, steps[0]), steps[1..]))
  }

  function Run(state: Option<AddrState>, steps: seq<Step>): Option<AddrState>
    decreases |steps|
  {
    if steps == [] then state else Run(Apply(state, steps[0]), steps[1..])
  }

  predicate Consistent(state: Option<AddrState>) {
    ManagedSafe(state) && DistinctIDs(Listed(state))
  }

  lemma WithoutKeepsManaged(txns: seq<Inflight>, id: nat, highest: int)
    requires ManagedWithin(txns, highest) && ManagedDistinct(txns)
    ensures ManagedWithin(Without(txns, id), highest) && ManagedDistinct(Without(txns, id))
    ensures ManagedWithin(Without(txns, id), HighestOf(Without(txns, id)))
  {
  }

  lemma WithoutKeepsIDsDistinct(txns: seq<Inflight>, id: nat)
    requires DistinctIDs(txns)
    ensures DistinctIDs(Without(txns, id))
    ensures forall t :: t in Without(txns, id) ==> t in txns
  {
  }

  lemma CancelKeepsConsistent(state: Option<AddrState>, t: Inflight, submitted: bool)
    requires Consistent(state)
    ensures Consistent(Cancel(state, t, submitted))
  {
    if state.Some? {
      WithoutKeepsManaged(state.value.txns, t.id, state.value.highestNonce);
      WithoutKeepsIDsDistinct(state.value.txns, t.id);
    }
  }

  lemma AppendKeepsSafe(txns: seq<Inflight>, t: Inflight, before: int, after: int)
    requires ManagedWithin(txns, before) && ManagedDistinct(txns)
    requires before <= after || forall i :: 0 <= i < |txns| ==> !txns[i].source.Managed?
    requires t.source.Managed? ==> 0 <= t.nonce <= after && (before < t.nonce || before < 0)
    ensures ManagedWithin(txns + [t], after) && ManagedDistinct(txns + [t])
  {
  }

  lemma AdmitKeepsConsistent(state: Option<AddrState>, id: nat, msgID: string, check: bool, lookup: StoreLookup,
                             req: NonceRequest, node: NodeAnswers)
    requires Consistent(state) && forall t :: t in Listed(state) ==> t.id != id
    ensures Consistent(Admit(state, id, msgID, check, lookup, req, node).1)
  {
    var (admission, after) := Admit(state, id, msgID, check, lookup, req, node);
    var txns := Listed(state);
    assert forall i :: 0 <= i < |txns| ==> txns[i] in txns;
    if admission.Admitted? {
      var before := if state.Some? then state.value.highestNonce else -1;
      AppendKeepsSafe(txns, admission.txn, before, after.value.highestNonce);
    }
  }

  lemma StepKeepsConsistent(state: Option<AddrState>, step: Step)
    requires Consistent(state) && Enabled(state, step)
    ensures Consistent(Apply(state, step))
  {
    if step.CancelStep? {
      CancelKeepsConsistent(state, step.txn, step.submitted);
    } else {
      AdmitKeepsConsistent(state, step.id, step.msgID, step.check, step.lookup, step.req, step.node);
    }
  }

  /**
    In every reachable state of an address, under any interleaving of admissions, send failures and
    completions, at any send concurrency, and even when supplied, Orion and node-assigned nonces are mixed
    in, managed nonces are pairwise distinct and never above the high mark.
   */
  lemma {:induction false} ManagedNoncesSafe(state: Option<AddrState>, steps: seq<Step>)
    requires Consistent(state) && Feasible(state, steps)
    ensures Consistent(Run(state, steps))
    decreases |steps|
  {
    if steps != [] {
      StepKeepsConsistent(state, steps[0]);
      ManagedNoncesSafe(Apply(state, steps[0]), steps[1..]);
    }
  }

  /** Distinctness does not extend to the whole list: a supplied nonce does not move the high mark. */
  lemma SuppliedNonceCollides()
    ensures var node := NodeAnswers(None, Some(7));
            var steps := [AdmitStep(1, "a", false, NoRecord, NonceRequest(ParsedNonce(1), false, false), node),
                          AdmitStep(2, "b", false, NoRecord, ManagedRequest, node)];
            && Feasible(None, steps)
            && Listed(Run(None, steps)) == [Inflight(1, "a", 1, Supplied), Inflight(2, "b", 1, Managed)]
  {
    var node := NodeAnswers(None, Some(7));
    var first := AdmitStep(1, "a", false, NoRecord, NonceRequest(ParsedNonce(1), false, false), node);
    var second := AdmitStep(2, "b", false, NoRecord, ManagedRequest, node);
    var s1 := Apply(None, first);
    assert Admit(None, 1, "a", false, NoRecord, first.req, node).0 == Admitted(Inflight(1, "a", 1, Supplied));
    assert [] + [Inflight(1, "a", 1, Supplied)] == [Inflight(1, "a", 1, Supplied)];
    assert s1 == Some(AddrState([Inflight(1, "a", 1, Supplied)], 0));
    var s2 := Apply(s1, second);
    assert [first, second][1..] == [second];
    assert Run(s1, [second]) == Run(s2, [second][1..]) == s2;
    assert Feasible(s1, [second]);
  }

  /** Nor does it extend to what follows a managed nonce: a supplied one is taken as it is. */
  lemma SuppliedNonceRepeatsAManagedOne()
    ensures var node := NodeAnswers(None, Some(5));
            var steps := [AdmitStep(1, "a", false, NoRecord, ManagedRequest, node),
                          AdmitStep(2, "b", false, NoRecord, NonceRequest(ParsedNonce(5), false, false), node)];
            && Feasible(None, steps)
            && Listed(Run(None, steps)) == [Inflight(1, "a", 5, Managed), Inflight(2, "b", 5, Supplied)]
  {
    var node := NodeAnswers(None, Some(5));
    var first := AdmitStep(1, "a", false, NoRecord, ManagedRequest, node);
    var second := AdmitStep(2, "b", false, NoRecord, NonceRequest(ParsedNonce(5), false, false), node);
    var s1 := Apply(None, first);
    assert [] + [Inflight(1, "a", 5, Managed)] == [Inflight(1, "a", 5, Managed)];
    assert s1 == Some(AddrState([Inflight(1, "a", 5, Managed)], 5));
    var s2 := Apply(s1, second);
    assert [first, second][1..] == [second];
    assert Run(s1, [second]) == Run(s2, [second][1..]) == s2;
    assert Feasible(s1, [second]);
  }

  // The guards of `addInflightWrapper`, in source order.

  predicate TakesSupplied(req: NonceRequest) {
    req.supplied.ParsedNonce?
  }

  predicate AsksOrion(req: NonceRequest) {
    req.supplied.NoNonce? && req.orionPrivate
  }

  predicate FollowsMark(state: Option<AddrState>, req: NonceRequest) {
    req.supplied.NoNonce? && !req.orionPrivate && !req.nodeAssign && state.Some? && state.value.highestNonce >= 0
  }

  predicate LeavesToNode(req: NonceRequest) {
    req.supplied.NoNonce? && !req.orionPrivate && req.nodeAssign
  }

  predicate AsksPending(state: Option<AddrState>, req: NonceRequest) {
    req.supplied.NoNonce? && !req.orionPrivate && !req.nodeAssign && (state.None? || state.value.highestNonce < 0)
  }

  /** An entry outside the managed scheme has this nonce. */
  predicate HasUnmanaged(txns: seq<Inflight>, n: int) {
    exists i :: 0 <= i < |txns| && txns[i].nonce == n && !txns[i].source.Managed?
  }

  lemma AppendKeepsNoncesDistinctIff(txns: seq<Inflight>, t: Inflight)
    requires DistinctNonces(txns)
    ensures DistinctNonces(txns + [t]) <==> !HasNonce(txns, t.nonce)
  {
    if HasNonce(txns, t.nonce) {
      var i :| 0 <= i < |txns| && txns[i].nonce == t.nonce;
      assert (txns + [t])[i].nonce == (txns + [t])[|txns|].nonce;
    }
  }

  lemma MarkIsFreeOfManaged(s: AddrState)
    requires ManagedWithin(s.txns, s.highestNonce)
    ensures HasNonce(s.txns, s.highestNonce + 1) <==> HasUnmanaged(s.txns, s.highestNonce + 1)
  {
    if HasNonce(s.txns, s.highestNonce + 1) {
      var i :| 0 <= i < |s.txns| && s.txns[i].nonce == s.highestNonce + 1;
      assert !s.txns[i].source.Managed?;
    }
  }

  /**
    The condition a caller can test before the call: the nonce that the request, the mark or the node's answer names
    is not in the list already. A request that follows the mark can only meet an entry outside the managed scheme.
   */
  predicate NamesFreeNonce(state: Option<AddrState>, req: NonceRequest, node: NodeAnswers) {
    && (TakesSupplied(req) ==> !HasNonce(Listed(state), req.supplied.n))
    && (AsksOrion(req) && node.orionCount.Some? ==> !HasNonce(Listed(state), node.orionCount.value))
    && (FollowsMark(state, req) ==> !HasUnmanaged(state.value.txns, state.value.highestNonce + 1))
    && (LeavesToNode(req) ==> !HasNonce(Listed(state), 0))
    && (AsksPending(state, req) && node.pendingCount.Some? ==> !HasNonce(Listed(state), node.pendingCount.value))
  }

  /** For every kind of request: the nonces of an address stay distinct if and only if the named one is free. */
  lemma AdmissionKeepsNoncesDistinctIff(state: Option<AddrState>, id: nat, msgID: string, check: bool,
                                        lookup: StoreLookup, req: NonceRequest, node: NodeAnswers)
    requires Consistent(state) && DistinctNonces(Listed(state))
    requires Admit(state, id, msgID, check, lookup, req, node).0.Admitted?
    ensures DistinctNonces(Listed(Admit(state, id, msgID, check, lookup, req, node).1)) <==>
            NamesFreeNonce(state, req, node)
  {
    var t := Admit(state, id, msgID, check, lookup, req, node).0.txn;
    AppendKeepsNoncesDistinctIff(Listed(state), t);
    if state.Some? {
      MarkIsFreeOfManaged(state.value);
    }
  }

  /** Every admission of the run that succeeds names a free nonce. */
  predicate AlwaysNamesFree(state: Option<AddrState>, steps: seq<Step>)
    decreases |steps|
  {
    steps != [] ==>
      && (Allocated(state, steps[0]).Some? ==> NamesFreeNonce(state, steps[0].req, steps[0].node))
      && AlwaysNamesFree(Apply(state, steps[0]), steps[1..])
  }

  predicate AlwaysDistinct(state: Option<AddrState>, steps: seq<Step>)
    decreases |steps|
  {
    && DistinctNonces(Listed(state))
    && (steps != [] ==> AlwaysDistinct(Apply(state, steps[0]), steps[1..]))
  }

  /**
    Over every run of admissions, send failures and completions, at any concurrency: all nonces of an address, managed
    or not, are distinct in every state if and only if every admission named a free one.
   */
  lemma {:induction false} NoncesDistinctIffAlwaysFree(state: Option<AddrState>, steps: seq<Step>)
    requires Consistent(state) && Feasible(state, steps) && DistinctNonces(Listed(state))
    ensures AlwaysDistinct(state, steps) <==> AlwaysNamesFree(state, steps)
    decreases |steps|
  {
    if steps != [] {
      var next := Apply(state, steps[0]);
      StepKeepsConsistent(state, steps[0]);
      StepKeepsDistinctIff(state, steps[0]);
      if DistinctNonces(Listed(next)) {
        NoncesDistinctIffAlwaysFree(next, steps[1..]);
      }
    }
  }

  lemma StepKeepsDistinctIff(state: Option<AddrState>, step: Step)
    requires Consistent(state) && DistinctNonces(Listed(state))
    ensures DistinctNonces(Listed(Apply(state, step))) <==>
            (Allocated(state, step).Some? ==> NamesFreeNonce(state, step.req, step.node))
  {
    match step
    case AdmitStep(id, msgID, check, lookup, req, node) =>
      if Allocated(state, step).Some? {
        AdmissionKeepsNoncesDistinctIff(state, id, msgID, check, lookup, req, node);
      }
    case CancelStep(txn, _) =>
      WithoutKeepsNoncesDistinct(Listed(state), txn.id);
  }

  // ------------------------------------------------------------ what a managed nonce builds on

  predicate HasManaged(txns: seq<Inflight>, n: int) {
    exists i :: 0 <= i < |txns| && txns[i].nonce == n && txns[i].source.Managed?
  }

  /** The nonce is the node's pending count, or follows that of a managed entry still in flight. */
  predicate Anchored(state: Option<AddrState>, node: NodeAnswers, n: int) {
    node.pendingCount == Some(n) || HasManaged(Listed(state), n - 1)
  }

  /**
    A managed allocation is anchored if and only if the address is idle or without a mark, or the mark belongs to a
    managed entry, or it happens to be one below the node's count. An address that a supplied, private or
    node-assigned nonce has taken out of idleness has a mark of 0 that belongs to nobody.
   */
  lemma ManagedIsAnchoredIff(state: Option<AddrState>, id: nat, msgID: string, check: bool, lookup: StoreLookup,
                             node: NodeAnswers)
    requires Admit(state, id, msgID, check, lookup, ManagedRequest, node).0.Admitted?
    ensures Anchored(state, node, Admit(state, id, msgID, check, lookup, ManagedRequest, node).0.txn.nonce) <==>
            || AsksPending(state, ManagedRequest)
            || HasManaged(state.value.txns, state.value.highestNonce)
            || node.pendingCount == Some(state.value.highestNonce + 1)
  {
  }

  /** An address opened by a request outside the managed scheme has the mark 0. */
  lemma UnmanagedOpensAtZero(id: nat, msgID: string, check: bool, lookup: StoreLookup, req: NonceRequest,
                             node: NodeAnswers)
    requires Admit(None, id, msgID, check, lookup, req, node).0.Admitted? && !AsksPending(None, req)
    ensures Admit(None, id, msgID, check, lookup, req, node).1.value.highestNonce == 0
  {
  }

  // ------------------------------------------------------------ requests outside the managed scheme

  /** The request takes its nonce from the message, the privacy count or the node, not from the mark. */
  predicate OutsideScheme(req: NonceRequest) {
    TakesSupplied(req) || AsksOrion(req) || LeavesToNode(req)
  }

  /** An admission outside the scheme takes the nonce that was named and keeps the mark of a busy address. */
  lemma OutsiderKeepsTheMark(s: AddrState, id: nat, msgID: string, check: bool, lookup: StoreLookup,
                             req: NonceRequest, node: NodeAnswers)
    requires OutsideScheme(req) && Admit(Some(s), id, msgID, check, lookup, req, node).0.Admitted?
    ensures var (admission, after) := Admit(Some(s), id, msgID, check, lookup, req, node);
            && after == Some(AddrState(s.txns + [admission.txn], s.highestNonce))
            && !admission.txn.source.Managed?
            && admission.txn.nonce == (if TakesSupplied(req) then req.supplied.n
                                       else if AsksOrion(req) then node.orionCount.value else 0)
  {
  }

  /** The managed entries of a list, in order. */
  function ManagedOf(txns: seq<Inflight>): seq<Inflight> {
    if txns == [] then []
    else ManagedOf(txns[..|txns| - 1]) + if txns[|txns| - 1].source.Managed? then [txns[|txns| - 1]] else []
  }

  lemma ManagedOfAppend(txns: seq<Inflight>, t: Inflight)
    ensures ManagedOf(txns + [t]) == ManagedOf(txns) + if t.source.Managed? then [t] else []
  {
    assert (txns + [t])[..|txns|] == txns;
  }

  predicate OnlyAdmissions(steps: seq<Step>) {
    forall i :: 0 <= i < |steps| ==> steps[i].AdmitStep?
  }

  /** How many nonces the run takes from the mark. */
  function TakenFromMark(state: Option<AddrState>, steps: seq<Step>): nat
    decreases |steps|
  {
    if steps == [] then 0
    else
      (if Allocated(state, steps[0]).Some? && FollowsMark(state, steps[0].req) then 1 else 0) +
      TakenFromMark(Apply(state, steps[0]), steps[1..])
  }

  /** One after the other from `first` on. */
  predicate Consecutive(txns: seq<Inflight>, first: int) {
    forall i :: 0 <= i < |txns| ==> txns[i].nonce == first + i
  }

  /** One admission to a busy address: the mark and the managed entries move together, by one or not at all. */
  lemma AdmissionMovesTogether(s: AddrState, step: Step)
    requires step.AdmitStep? && s.highestNonce >= 0
    ensures var k := if Allocated(Some(s), step).Some? && FollowsMark(Some(s), step.req) then 1 else 0;
            var after := Apply(Some(s), step);
            && after.Some? && after.value.highestNonce == s.highestNonce + k
            && ManagedOf(s.txns) <= ManagedOf(after.value.txns)
            && |ManagedOf(after.value.txns)| == |ManagedOf(s.txns)| + k
            && (k == 1 ==> ManagedOf(after.value.txns)[|ManagedOf(s.txns)|].nonce == s.highestNonce + 1)
  {
    var (admission, after) := Admit(Some(s), step.id, step.msgID, step.check, step.lookup, step.req, step.node);
    if admission.Admitted? {
      ManagedOfAppend(s.txns, admission.txn);
    }
  }

  /**
    However supplied, private and node-assigned nonces are mixed in, a busy address with mark m gives its managed
    requests exactly m + 1, m + 2, ... in the order of their admission, and nothing else moves the mark.
   */
  lemma {:induction false} ManagedNoncesAreConsecutive(s: AddrState, steps: seq<Step>)
    requires s.highestNonce >= 0 && OnlyAdmissions(steps)
    ensures var after := Run(Some(s), steps);
            var before := |ManagedOf(s.txns)|;
            && after.Some? && after.value.highestNonce == s.highestNonce + TakenFromMark(Some(s), steps)
            && ManagedOf(s.txns) <= ManagedOf(after.value.txns)
            && |ManagedOf(after.value.txns)| == before + TakenFromMark(Some(s), steps)
            && Consecutive(ManagedOf(after.value.txns)[before..], s.highestNonce + 1)
    decreases |steps|
  {
    if steps != [] {
      AdmissionMovesTogether(s, steps[0]);
      var s1 := Apply(Some(s), steps[0]).value;
      ManagedNoncesAreConsecutive(s1, steps[1..]);
      var all := ManagedOf(Run(Some(s1), steps[1..]).value.txns);
      ConsecutiveOn(all, |ManagedOf(s.txns)|, |ManagedOf(s1.txns)|, s.highestNonce + 1);
    }
  }

  lemma ConsecutiveOn(all: seq<Inflight>, n: nat, n1: nat, first: int)
    requires n <= n1 <= |all| && n1 <= n + 1 && (n1 == n + 1 ==> all[n].nonce == first)
    requires Consecutive(all[n1..], first + n1 - n)
    ensures Consecutive(all[n..], first)
  {
    forall i | 0 <= i < |all[n..]| ensures all[n..][i].nonce == first + i {
      assert n + i >= n1 ==> all[n..][i] == all[n1..][n + i - n1];
    }
  }

  /** The run without the admissions outside the scheme that succeed in it. */
  function WithoutOutsiders(state: Option<AddrState>, steps: seq<Step>): seq<Step>
    decreases |steps|
  {
    if steps == [] then []
    else
      (if Omitted(state, steps[0]) then [] else [steps[0]]) + WithoutOutsiders(Apply(state, steps[0]), steps[1..])
  }

  predicate Omitted(state: Option<AddrState>, step: Step) {
    Allocated(state, step).Some? && OutsideScheme(step.req)
  }

  /** No omitted message is one that the redelivery check of another request could meet. */
  predicate NoneAskedFor(state: Option<AddrState>, steps: seq<Step>, ids: set<string>)
    requires OnlyAdmissions(steps)
    decreases |steps|
  {
    steps != [] ==>
      && (if Omitted(state, steps[0]) then steps[0].msgID !in ids else steps[0].check ==> steps[0].msgID in ids)
      && NoneAskedFor(Apply(state, steps[0]), steps[1..], ids)
  }

  /** The same mark, the same managed entries, and the same answers of the redelivery check. */
  ghost predicate Alike(s: AddrState, r: AddrState, ids: set<string>) {
    && s.highestNonce == r.highestNonce && ManagedOf(s.txns) == ManagedOf(r.txns)
    && forall id :: id in ids ==> (MessageListed(s.txns, id) <==> MessageListed(r.txns, id))
  }

  lemma ListedAfterAppend(txns: seq<Inflight>, t: Inflight, id: string)
    ensures MessageListed(txns + [t], id) <==> MessageListed(txns, id) || t.msgID == id
  {
    var all := txns + [t];
    if MessageListed(txns, id) {
      var i :| 0 <= i < |txns| && txns[i].msgID == id;
      assert all[i].msgID == id;
    }
    assert all[|txns|] == t;
  }

  lemma AppendOutsider(txns: seq<Inflight>, other: seq<Inflight>, t: Inflight, ids: set<string>)
    requires ManagedOf(txns) == ManagedOf(other) && !t.source.Managed? && t.msgID !in ids
    requires forall id :: id in ids ==> (MessageListed(txns, id) <==> MessageListed(other, id))
    ensures ManagedOf(txns + [t]) == ManagedOf(other)
    ensures forall id :: id in ids ==> (MessageListed(txns + [t], id) <==> MessageListed(other, id))
  {
    ManagedOfAppend(txns, t);
    forall id | id in ids ensures MessageListed(txns + [t], id) <==> MessageListed(other, id) {
      ListedAfterAppend(txns, t, id);
    }
  }

  lemma AppendToBoth(txns: seq<Inflight>, other: seq<Inflight>, t: Inflight, ids: set<string>)
    requires ManagedOf(txns) == ManagedOf(other)
    requires forall id :: id in ids ==> (MessageListed(txns, id) <==> MessageListed(other, id))
    ensures ManagedOf(txns + [t]) == ManagedOf(other + [t])
    ensures forall id :: id in ids ==> (MessageListed(txns + [t], id) <==> MessageListed(other + [t], id))
  {
    ManagedOfAppend(txns, t);
    ManagedOfAppend(other, t);
    forall id | id in ids ensures MessageListed(txns + [t], id) <==> MessageListed(other + [t], id) {
      ListedAfterAppend(txns, t, id);
      ListedAfterAppend(other, t, id);
    }
  }

  lemma OmittedStaysAlike(s: AddrState, r: AddrState, step: Step, ids: set<string>)
    requires Alike(s, r, ids) && Omitted(Some(s), step) && step.msgID !in ids
    ensures Apply(Some(s), step).Some? && Alike(Apply(Some(s), step).value, r, ids)
  {
    OutsiderKeepsTheMark(s, step.id, step.msgID, step.check, step.lookup, step.req, step.node);
    var t := Admit(Some(s), step.id, step.msgID, step.check, step.lookup, step.req, step.node).0.txn;
    AdmissionOutcomes(Some(s), step.id, step.msgID, step.check, step.lookup, step.req, step.node);
    AppendOutsider(s.txns, r.txns, t, ids);
  }

  /** The same request meets the same answer on both. */
  lemma SameAdmission(s: AddrState, r: AddrState, step: Step)
    requires s.highestNonce == r.highestNonce && step.AdmitStep?
    requires step.check ==> (MessageListed(s.txns, step.msgID) <==> MessageListed(r.txns, step.msgID))
    ensures var (admission, after) := Admit(Some(s), step.id, step.msgID, step.check, step.lookup, step.req, step.node);
            var (other, after') := Admit(Some(r), step.id, step.msgID, step.check, step.lookup, step.req, step.node);
            && admission == other
            && (if admission.Admitted? then
                  after.Some? && after'.Some? && after.value.highestNonce == after'.value.highestNonce &&
                  after.value.txns == s.txns + [admission.txn] && after'.value.txns == r.txns + [admission.txn]
                else after == Some(s) && after' == Some(r))
  {
  }

  lemma SharedStaysAlike(s: AddrState, r: AddrState, step: Step, ids: set<string>)
    requires Alike(s, r, ids) && step.AdmitStep? && (step.check ==> step.msgID in ids)
    ensures Apply(Some(s), step).Some? && Apply(Some(r), step).Some?
    ensures Alike(Apply(Some(s), step).value, Apply(Some(r), step).value, ids)
  {
    SameAdmission(s, r, step);
    var admission := Admit(Some(s), step.id, step.msgID, step.check, step.lookup, step.req, step.node).0;
    if admission.Admitted? {
      AppendToBoth(s.txns, r.txns, admission.txn, ids);
    }
  }

  /**
    On a busy address, leaving every admitted supplied, private and node-assigned request out of a run of admissions
    leaves every managed entry, its nonce and the mark as they were.
   */
  lemma {:induction false} OutsidersLeaveManagedAlone(s: AddrState, r: AddrState, steps: seq<Step>, ids: set<string>)
    requires Alike(s, r, ids) && OnlyAdmissions(steps) && NoneAskedFor(Some(s), steps, ids)
    ensures var after, reduced := Run(Some(s), steps), Run(Some(r), WithoutOutsiders(Some(s), steps));
            after.Some? && reduced.Some? && Alike(after.value, reduced.value, ids)
    decreases |steps|
  {
    if steps != [] {
      var rest := WithoutOutsiders(Apply(Some(s), steps[0]), steps[1..]);
      if Omitted(Some(s), steps[0]) {
        OmittedStaysAlike(s, r, steps[0], ids);
        assert [] + rest == rest;
        OutsidersLeaveManagedAlone(Apply(Some(s), steps[0]).value, r, steps[1..], ids);
      } else {
        SharedStaysAlike(s, r, steps[0], ids);
        assert ([steps[0]] + rest)[1..] == rest;
        OutsidersLeaveManagedAlone(Apply(Some(s), steps[0]).value, Apply(Some(r), steps[0]).value, steps[1..], ids);
      }
    }
  }

  // ------------------------------------------------------------ which admissions succeed

  /** The redelivery check lets the message pass. */
  predicate Passes(state: Option<AddrState>, msgID: string, check: bool, lookup: StoreLookup) {
    check ==> !MessageListed(Listed(state), msgID) && (lookup.NoRecord? || lookup == Recorded(""))
  }

  /** The nonce can be had: the text parses, and the count that is asked for is answered. */
  predicate NonceAvailable(state: Option<AddrState>, req: NonceRequest, node: NodeAnswers) {
    && !req.supplied.UnparsableNonce?
    && (AsksOrion(req) ==> node.orionCount.Some?)
    && (AsksPending(state, req) ==> node.pendingCount.Some?)
  }

  /** When each of the four outcomes happens; a message that is not admitted changes nothing. */
  lemma AdmissionOutcomes(state: Option<AddrState>, id: nat, msgID: string, check: bool, lookup: StoreLookup,
                          req: NonceRequest, node: NodeAnswers)
    ensures var (admission, after) := Admit(state, id, msgID, check, lookup, req, node);
            && (admission.AlreadyInFlight? <==> check && MessageListed(Listed(state), msgID))
            && (forall hash :: admission == AlreadyDispatched(hash) <==>
                  check && !MessageListed(Listed(state), msgID) && lookup == Recorded(hash) && hash != "")
            && (admission.Admitted? <==>
                  Passes(state, msgID, check, lookup) && NonceAvailable(state, req, node))
            && (admission == Rejected(StoreCheckFailed) <==>
                  check && !MessageListed(Listed(state), msgID) && lookup.StoreFailed?)
            && (admission == Rejected(BadNonce) <==>
                  Passes(state, msgID, check, lookup) && req.supplied.UnparsableNonce?)
            && (admission == Rejected(OrionCountFailed) <==>
                  Passes(state, msgID, check, lookup) && AsksOrion(req) && node.orionCount.None?)
            && (!admission.Admitted? ==> after == state)
            && (admission.Admitted? ==> admission.txn.id == id && admission.txn.msgID == msgID)
  {
  }

  // ------------------------------------------------------------ what a cancellation does to the mark

  /** Another entry has a nonce of at least `n`, or `n` is not above the -1 that the source starts from. */
  predicate Reached(txns: seq<Inflight>, t: Inflight, n: int) {
    n <= -1 || exists u :: u in txns && u.id != t.id && u.nonce >= n
  }

  /** The mark after a cancellation is the largest nonce of the others, counting from -1. */
  predicate MarkIsLargest(txns: seq<Inflight>, t: Inflight, mark: int) {
    && (forall u :: u in txns && u.id != t.id ==> u.nonce <= mark)
    && (mark == -1 || exists u :: u in txns && u.id != t.id && u.nonce == mark)
    && mark >= -1
  }

  /**
    Dropping one of several entries: the mark changes only for an unsubmitted entry whose nonce no other has reached,
    and then it becomes the largest nonce left. A gap is to be filled exactly when the entry was not submitted, another
    one is above it, and its nonce was not left to the node.
   */
  lemma CancelSetsTheMark(s: AddrState, t: Inflight, submitted: bool)
    requires DistinctIDs(s.txns) && t in s.txns && |s.txns| > 1
    ensures var after := Cancel(Some(s), t, submitted);
            && after.Some?
            && (forall u :: u in after.value.txns <==> u in s.txns && u != t)
            && (if submitted || Reached(s.txns, t, t.nonce) then after.value.highestNonce == s.highestNonce
                else MarkIsLargest(s.txns, t, after.value.highestNonce))
    ensures GapFillNeeded(Some(s), t, submitted) <==>
            !submitted && !t.source.NodeAssigned? && Reached(s.txns, t, t.nonce + 1)
  {
    IndexOfEntry(s.txns, t);
    DropAt(s.txns, IndexOf(s.txns, t.id));
    var rest := Without(s.txns, t.id);
    assert forall u :: u in rest <==> u in s.txns && u.id != t.id;
    LargestOf(s.txns, rest, t, t.nonce);
    LargestOf(s.txns, rest, t, t.nonce + 1);
  }

  lemma LargestOf(txns: seq<Inflight>, rest: seq<Inflight>, t: Inflight, n: int)
    requires forall u :: u in rest <==> u in txns && u.id != t.id
    ensures MarkIsLargest(txns, t, HighestOf(rest))
    ensures HighestOf(rest) >= n <==> Reached(txns, t, n)
  {
    var h := HighestOf(rest);
    if h != -1 {
      var i :| 0 <= i < |rest| && rest[i].nonce == h;
      assert rest[i] in rest;
    }
    forall u | u in txns && u.id != t.id ensures u.nonce <= h {
      assert u in rest;
    }
  }

  // ------------------------------------------------------------ a nonce that failed to send

  predicate AllManaged(txns: seq<Inflight>) {
    forall i :: 0 <= i < |txns| ==> txns[i].source.Managed?
  }

  /** Another entry carries the nonce of `t`, and none a higher one. */
  predicate SharesTop(txns: seq<Inflight>, t: Inflight) {
    && (exists u :: u in txns && u.id != t.id && u.nonce == t.nonce)
    && (forall u :: u in txns && u.id != t.id ==> u.nonce <= t.nonce)
  }

  /**
    Dropping an unsubmitted managed nonce while others remain, managed or not, never both rolls the high mark back
    below it and selects it for gap fill. It does one of the two if and only if the nonce was not a shared highest one.
   */
  lemma FailedNonceDichotomy(state: Option<AddrState>, t: Inflight)
    requires Consistent(state) && t in Listed(state) && t.source.Managed? && |Listed(state)| > 1
    ensures Cancel(state, t, false).Some?
    ensures var filled := GapFillNeeded(state, t, false);
            var mark := Cancel(state, t, false).value.highestNonce;
            var rolledBack := mark < t.nonce;
            && mark == (if rolledBack then Leftover(state, t) else state.value.highestNonce)
            && !(filled && rolledBack)
            && (filled || rolledBack <==> !SharesTop(Listed(state), t))
  {
    LeftoverOfRest(state.value.txns, t);
    assert t.nonce <= state.value.highestNonce;
  }

  lemma LeftoverOfRest(txns: seq<Inflight>, t: Inflight)
    requires DistinctIDs(txns) && t in txns && |txns| > 1 && t.nonce >= 0
    ensures Without(txns, t.id) != []
    ensures HighestOf(Without(txns, t.id)) == t.nonce <==> SharesTop(txns, t)
  {
    IndexOfEntry(txns, t);
    DropAt(txns, IndexOf(txns, t.id));
    TopOfRest(txns, Without(txns, t.id), t);
  }

  lemma TopOfRest(txns: seq<Inflight>, rest: seq<Inflight>, t: Inflight)
    requires t.nonce >= 0 && forall u :: u in rest <==> u in txns && u.id != t.id
    ensures HighestOf(rest) == t.nonce <==> SharesTop(txns, t)
  {
    var h := HighestOf(rest);
    if h == t.nonce {
      var i :| 0 <= i < |rest| && rest[i].nonce == h;
      assert rest[i] in rest;
    }
    if SharesTop(txns, t) {
      var u :| u in txns && u.id != t.id && u.nonce == t.nonce;
      assert u in rest;
    }
  }

  /** A managed nonce that a supplied one repeats is neither rolled back nor filled. */
  lemma SharedNonceIsLeftAlone(managed: Inflight, supplied: Inflight)
    requires managed.source.Managed? && !supplied.source.Managed? && managed.id != supplied.id
    requires managed.nonce == supplied.nonce >= 0
    ensures var state := Some(AddrState([managed, supplied], managed.nonce));
            && Consistent(state) && SharesTop(Listed(state), managed)
            && !GapFillNeeded(state, managed, false) && Cancel(state, managed, false).Some?
            && Cancel(state, managed, false).value.highestNonce == managed.nonce
  {
    var txns := [managed, supplied];
    assert txns[0] == managed && txns[1] == supplied;
    FailedNonceDichotomy(Some(AddrState(txns, managed.nonce)), managed);
  }

  /** The nonce a step allocates, if it allocates one. */
  function Allocated(state: Option<AddrState>, step: Step): Option<int> {
    if step.AdmitStep? then
      var r := Admit(state, step.id, step.msgID, step.check, step.lookup, step.req, step.node).0;
      if r.Admitted? then Some(r.txn.nonce) else None
    else None
  }

  /** The request brings its nonce along, or has the node asked for one. */
  predicate NamesNonce(state: Option<AddrState>, step: Step) {
    step.AdmitStep? && (TakesSupplied(step.req) || AsksOrion(step.req) || AsksPending(state, step.req))
  }

  /** The run neither allocates `n` nor lets the address go idle. */
  predicate Avoids(state: Option<AddrState>, steps: seq<Step>, n: int)
    decreases |steps|
  {
    steps != [] ==>
      && Allocated(state, steps[0]) != Some(n)
      && Apply(state, steps[0]).Some?
      && Avoids(Apply(state, steps[0]), steps[1..], n)
  }

  predicate AllocatesBelow(state: Option<AddrState>, step: Step, n: int) {
    Allocated(state, step).Some? ==> Allocated(state, step).value < n
  }

  predicate AllocatesOnlyBelow(state: Option<AddrState>, steps: seq<Step>, n: int)
    decreases |steps|
  {
    steps != [] ==> AllocatesBelow(state, steps[0], n) && AllocatesOnlyBelow(Apply(state, steps[0]), steps[1..], n)
  }

  /** Every nonce that a request of the run brings along or that the node is asked for is below `n`. */
  predicate NamesOnlyBelow(state: Option<AddrState>, steps: seq<Step>, n: int)
    decreases |steps|
  {
    steps != [] ==>
      && (NamesNonce(state, steps[0]) ==> AllocatesBelow(state, steps[0], n))
      && NamesOnlyBelow(Apply(state, steps[0]), steps[1..], n)
  }

  predicate AllBelow(txns: seq<Inflight>, n: int) {
    forall i :: 0 <= i < |txns| ==> txns[i].nonce < n
  }

  /** The address is busy, and its mark and all its nonces are below `n`. */
  predicate StaysBelow(state: Option<AddrState>, n: int) {
    state.Some? && state.value.highestNonce < n && AllBelow(state.value.txns, n)
  }

  lemma CancelStaysBelow(state: Option<AddrState>, t: Inflight, submitted: bool, n: int)
    requires StaysBelow(state, n) && n >= 0
    ensures Cancel(state, t, submitted).Some? ==> StaysBelow(Cancel(state, t, submitted), n)
  {
    var rest := Without(state.value.txns, t.id);
    assert AllBelow(rest, n);
  }

  lemma AdmitStaysBelow(state: Option<AddrState>, step: Step, n: int)
    requires StaysBelow(state, n) && n >= 0 && step.AdmitStep? && Allocated(state, step) != Some(n)
    ensures !NamesNonce(state, step) ==> AllocatesBelow(state, step, n)
    ensures AllocatesBelow(state, step, n) ==> StaysBelow(Apply(state, step), n)
  {
  }

  /**
    From a state whose mark and nonces are all below n, whatever the schemes they belong to, a run that neither
    allocates n nor lets the address go idle allocates nothing above n if and only if no request brings a higher nonce
    along or has the node asked for one.
   */
  lemma {:induction false} NoNonceAboveARolledBackOne(state: Option<AddrState>, steps: seq<Step>, n: int)
    requires StaysBelow(state, n) && n >= 0 && Feasible(state, steps) && Avoids(state, steps, n)
    ensures AllocatesOnlyBelow(state, steps, n) <==> NamesOnlyBelow(state, steps, n)
    decreases |steps|
  {
    if steps != [] {
      if steps[0].CancelStep? {
        CancelStaysBelow(state, steps[0].txn, steps[0].submitted, n);
      } else {
        AdmitStaysBelow(state, steps[0], n);
      }
      if AllocatesBelow(state, steps[0], n) {
        NoNonceAboveARolledBackOne(Apply(state, steps[0]), steps[1..], n);
      }
    }
  }

  lemma RollbackStaysBelow(state: Option<AddrState>, t: Inflight)
    requires Cancel(state, t, false).Some? && Leftover(state, t) < t.nonce
    ensures StaysBelow(Cancel(state, t, false), t.nonce)
  {
  }

  /**
    What becomes of a managed nonce that failed to send while others remain, managed or not: it is selected for gap
    fill or shared by another entry, and the mark is left alone; or the mark is rolled back below it, and then a run
    allocates nothing above it before it is allocated again or the address goes idle, if and only if no request brings
    a higher nonce along or has the node asked for one.
   */
  lemma FailedNonceIsFilledOrReused(state: Option<AddrState>, t: Inflight, steps: seq<Step>)
    requires Consistent(state) && t in Listed(state) && t.source.Managed? && |Listed(state)| > 1
    ensures var after := Cancel(state, t, false);
            && after.Some?
            && if GapFillNeeded(state, t, false) || SharesTop(Listed(state), t) then
                 after.value.highestNonce == state.value.highestNonce
               else
                 && after.value.highestNonce < t.nonce
                 && (Feasible(after, steps) && Avoids(after, steps, t.nonce) ==>
                       (AllocatesOnlyBelow(after, steps, t.nonce) <==> NamesOnlyBelow(after, steps, t.nonce)))
  {
    FailedNonceDichotomy(state, t);
    var after := Cancel(state, t, false);
    if !GapFillNeeded(state, t, false) && !SharesTop(Listed(state), t) {
      RollbackStaysBelow(state, t);
      if Feasible(after, steps) && Avoids(after, steps, t.nonce) {
        NoNonceAboveARolledBackOne(after, steps, t.nonce);
      }
    }
  }

  // ------------------------------------------------------------ when the node is not asked

  predicate NonNegative(state: Option<AddrState>) {
    && state.Some? && state.value.highestNonce >= 0
    && forall i :: 0 <= i < |state.value.txns| ==> state.value.txns[i].nonce >= 0
  }

  /** No request of the run brings a negative nonce along. */
  predicate SuppliesNonNegative(steps: seq<Step>) {
    forall i :: 0 <= i < |steps| && steps[i].AdmitStep? && steps[i].req.supplied.ParsedNonce? ==>
      steps[i].req.supplied.n >= 0
  }

  /** Every supplied or private nonce that is admitted in the run is below `n`. */
  predicate BringsOnlyBelow(state: Option<AddrState>, steps: seq<Step>, n: int)
    decreases |steps|
  {
    steps != [] ==>
      && (steps[0].AdmitStep? && (TakesSupplied(steps[0].req) || AsksOrion(steps[0].req)) ==>
            AllocatesBelow(state, steps[0], n))
      && BringsOnlyBelow(Apply(state, steps[0]), steps[1..], n)
  }

  lemma StepKeepsNonNegative(state: Option<AddrState>, step: Step)
    requires NonNegative(state) && Apply(state, step).Some? && SuppliesNonNegative([step])
    ensures NonNegative(Apply(state, step))
  {
    assert [step][0] == step;
    if step.CancelStep? {
      var rest := Without(state.value.txns, step.txn.id);
      assert rest[0].nonce <= HighestOf(rest);
    }
  }

  /** As long as no nonce is negative, the node's count is not asked for: only supplied and private nonces are named. */
  lemma {:induction false} OnlySuppliedAndPrivateAreNamed(state: Option<AddrState>, steps: seq<Step>, n: int)
    requires NonNegative(state) && SuppliesNonNegative(steps) && Avoids(state, steps, n)
    ensures NamesOnlyBelow(state, steps, n) <==> BringsOnlyBelow(state, steps, n)
    decreases |steps|
  {
    if steps != [] {
      assert steps[0] == [steps[0]][0];
      StepKeepsNonNegative(state, steps[0]);
      OnlySuppliedAndPrivateAreNamed(Apply(state, steps[0]), steps[1..], n);
    }
  }

  // ------------------------------------------------------------ a roll-back that raises the mark

  /** Dropping an unsubmitted entry raises the mark exactly when the highest nonce left is between it and its own. */
  lemma CancelRaisesTheMarkIff(state: Option<AddrState>, t: Inflight)
    requires Consistent(state) && t in Listed(state) && |Listed(state)| > 1
    ensures Cancel(state, t, false).Some?
    ensures Cancel(state, t, false).value.highestNonce > state.value.highestNonce <==>
            state.value.highestNonce < Leftover(state, t) < t.nonce
    ensures Cancel(state, t, false).value.highestNonce > state.value.highestNonce ==> !t.source.Managed?
  {
    RestIsLeft(state.value.txns, t);
    ManagedIsWithin(state.value, t);
  }

  lemma RestIsLeft(txns: seq<Inflight>, t: Inflight)
    requires DistinctIDs(txns) && t in txns && |txns| > 1
    ensures Without(txns, t.id) != []
  {
    IndexOfEntry(txns, t);
  }

  lemma ManagedIsWithin(s: AddrState, t: Inflight)
    requires ManagedWithin(s.txns, s.highestNonce) && t in s.txns
    ensures t.source.Managed? ==> 0 <= t.nonce <= s.highestNonce
  {
  }

  /** A supplied nonce that fails hands the mark to another supplied one. */
  lemma SuppliedRollbackRaisesTheMark()
    ensures var failed := Inflight(3, "c", 200, Supplied);
            var state := Some(AddrState([Inflight(1, "a", 5, Managed), Inflight(2, "b", 100, Supplied), failed], 5));
            && Consistent(state) && Cancel(state, failed, false).Some?
            && Cancel(state, failed, false).value.highestNonce == 100
  {
    var failed := Inflight(3, "c", 200, Supplied);
    var txns := [Inflight(1, "a", 5, Managed), Inflight(2, "b", 100, Supplied), failed];
    var rest := txns[..2];
    assert txns[2] == failed && IndexOf(txns, 3) == 2 by {
      IndexOfEntry(txns, failed);
    }
    assert Without(txns, 3) == rest;
    assert HighestOf(rest) == 100 by {
      assert rest[1].nonce == 100;
    }
  }
}
