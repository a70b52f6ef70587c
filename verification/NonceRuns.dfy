/**
  Whole runs of one address against a node, with bridge-managed nonces and SendConcurrency 1: the next nonce
  is not assigned until the current send has resolved (internal/tx/txnprocessor.go:694-703).

  The node is an oracle with two stated properties: its pending count is the base count plus the number of
  transactions it has accepted, and a send error means the transaction was not accepted.
 */
module NonceRuns {
  import opened Options
  import opened Nonces

  datatype World = World(addr: Option<AddrState>, base: nat, accepted: seq<int>, sending: Option<Inflight>,
                         gapFills: nat)

  datatype Event =
    | Allocate(id: nat, msgID: string, nodeReachable: bool)
    | SendAccepted
    | SendFailed
    | Completed(txn: Inflight)

  function PendingCount(w: World): nat {
    w.base + |w.accepted|
  }

  function Allocation(w: World, e: Event): (Admission, Option<AddrState>)
    requires e.Allocate?
  {
    Admit(w.addr, e.id, e.msgID, false, NoRecord, ManagedRequest,
          NodeAnswers(None, if e.nodeReachable then Some(PendingCount(w)) else None))
  }

  predicate Possible(w: World, e: Event) {
    match e
    case Allocate(id, _, _) => w.sending.None? && forall t :: t in Listed(w.addr) ==> t.id != id
    case SendAccepted => w.sending.Some?
    case SendFailed => w.sending.Some?
    case Completed(txn) => txn in Listed(w.addr) && w.sending != Some(txn)
  }

  function Next(w: World, e: Event): World
    requires Possible(w, e)
  {
    match e
    case Allocate(_, _, _) =>
      var (admission, addr) := Allocation(w, e);
      if admission.Admitted? then w.(addr := addr, sending := Some(admission.txn)) else w
    case SendAccepted =>
      w.(accepted := w.accepted + [w.sending.value.nonce], sending := None)
    case SendFailed =>
      w.(addr := Cancel(w.addr, w.sending.value, false), sending := None,
         gapFills := w.gapFills + if GapFillNeeded(w.addr, w.sending.value, false) then 1 else 0)
    case Completed(txn) =>
      w.(addr := Cancel(w.addr, txn, true))
  }

  /** The completed transaction has the lowest nonce still in flight. */
  predicate InNonceOrder(w: World, e: Event) {
    e.Completed? ==> forall t :: t in Listed(w.addr) ==> e.txn.nonce <= t.nonce
  }

  /** After a failed send nothing is left in flight, or the latest accepted transaction still is. */
  predicate RollbackSafe(w: World, e: Event) {
    e.SendFailed? && w.sending.Some? ==>
      var rest := Without(Listed(w.addr), w.sending.value.id);
      rest == [] || HasNonce(rest, PendingCount(w) - 1)
  }

  predicate PossibleRun(w: World, events: seq<Event>)
    decreases |events|
  {
    events != [] ==> Possible(w, events[0]) && PossibleRun(Next(w, events[0]), events[1..])
  }

  function After(w: World, events: seq<Event>): World
    requires PossibleRun(w, events)
    decreases |events|
  {
    if events == [] then w else After(Next(w, events[0]), events[1..])
  }

  predicate CompletesInOrder(w: World, events: seq<Event>)
    requires PossibleRun(w, events)
    decreases |events|
  {
    events != [] ==> InNonceOrder(w, events[0]) && CompletesInOrder(Next(w, events[0]), events[1..])
  }

  predicate RollsBackSafely(w: World, events: seq<Event>)
    requires PossibleRun(w, events)
    decreases |events|
  {
    events != [] ==> RollbackSafe(w, events[0]) && RollsBackSafely(Next(w, events[0]), events[1..])
  }

  lemma HigherIsReached(txns: seq<Inflight>, t: Inflight)
    requires DistinctIDs(txns) && t in txns && t.nonce >= 0
    ensures Reached(txns, t, t.nonce + 1) <==> exists u :: u in txns && u.nonce > t.nonce
  {
    if u :| u in txns && u.nonce > t.nonce {
      var i, j :| 0 <= i < |txns| && 0 <= j < |txns| && txns[i] == t && txns[j] == u;
      assert u.id != t.id;
    }
  }

  /** A failed send calls for a gap fill if and only if a higher nonce is in flight. */
  lemma FailedSendLeavesAGapIff(w: World)
    requires Possible(w, SendFailed) && w.addr.Some? && DistinctIDs(Listed(w.addr))
    requires w.sending.value in Listed(w.addr) && w.sending.value.source.Managed? && w.sending.value.nonce >= 0
    ensures Next(w, SendFailed).gapFills ==
            if exists t :: t in Listed(w.addr) && t.nonce > w.sending.value.nonce then w.gapFills + 1 else w.gapFills
  {
    var s, t := w.addr.value, w.sending.value;
    if |s.txns| > 1 {
      CancelSetsTheMark(s, t, false);
      HigherIsReached(s.txns, t);
    } else {
      assert s.txns == [t];
    }
  }

  // ------------------------------------------------------------------ the invariant

  /** The accepted nonces are base, base + 1, base + 2, ... */
  predicate NoGapNoDuplicate(base: nat, accepted: seq<int>) {
    forall i :: 0 <= i < |accepted| ==> accepted[i] == base + i
  }

  predicate NoncesWithin(txns: seq<Inflight>, low: int, high: int) {
    forall i :: 0 <= i < |txns| ==> low <= txns[i].nonce <= high
  }

  /** What one address looks like when `top` is the last nonce handed out. */
  predicate Tracks(s: AddrState, base: nat, top: int) {
    && s.txns != [] && s.highestNonce == top
    && AllManaged(s.txns) && DistinctIDs(s.txns) && DistinctNonces(s.txns)
    && NoncesWithin(s.txns, base, top)
  }

  predicate Sound(w: World) {
    && NoGapNoDuplicate(w.base, w.accepted)
    && w.gapFills == 0
    && (w.sending.None? ==> w.addr.Some? ==> Tracks(w.addr.value, w.base, PendingCount(w) - 1))
    && (w.sending.Some? ==>
          && w.addr.Some? && Tracks(w.addr.value, w.base, PendingCount(w))
          && w.sending.value in w.addr.value.txns && w.sending.value.nonce == PendingCount(w))
  }

  predicate AnySubmitted(txns: seq<Inflight>, next: int) {
    exists i :: 0 <= i < |txns| && txns[i].nonce < next
  }

  /** The latest accepted transaction is in flight whenever anything submitted is. */
  predicate LatestHeld(w: World) {
    AnySubmitted(Listed(w.addr), PendingCount(w)) ==> HasNonce(Listed(w.addr), PendingCount(w) - 1)
  }

  lemma DroppedAt(txns: seq<Inflight>, t: Inflight) returns (k: nat)
    requires DistinctIDs(txns) && t in txns
    ensures k < |txns| && txns[k] == t && Without(txns, t.id) == txns[..k] + txns[k + 1..]
  {
    IndexOfEntry(txns, t);
    k := IndexOf(txns, t.id);
  }

  lemma OtherNoncesStay(txns: seq<Inflight>, t: Inflight)
    requires DistinctIDs(txns) && t in txns
    ensures forall n :: n != t.nonce ==> (HasNonce(Without(txns, t.id), n) <==> HasNonce(txns, n))
  {
    var k := DroppedAt(txns, t);
    var rest := txns[..k] + txns[k + 1..];
    forall n | n != t.nonce && HasNonce(txns, n) ensures HasNonce(rest, n) {
      var i :| 0 <= i < |txns| && txns[i].nonce == n;
      assert rest[if i < k then i else i - 1].nonce == n;
    }
    forall n | HasNonce(rest, n) ensures HasNonce(txns, n) {
      var i :| 0 <= i < |rest| && rest[i].nonce == n;
      assert txns[if i < k then i else i + 1].nonce == n;
    }
  }

  lemma DroppedList(s: AddrState, base: nat, top: int, t: Inflight)
    requires Tracks(s, base, top) && t in s.txns
    ensures var rest := Without(s.txns, t.id);
            && AllManaged(rest) && DistinctIDs(rest) && DistinctNonces(rest) && NoncesWithin(rest, base, top)
            && (t.nonce == top ==> NoncesWithin(rest, base, top - 1))
            && |rest| == |s.txns| - 1
            && (forall n :: n != t.nonce ==> (HasNonce(rest, n) <==> HasNonce(s.txns, n)))
            && (forall u :: u in rest <==> u in s.txns && u != t)
  {
    OtherNoncesStay(s.txns, t);
    WithoutDropsOne(s.txns, t);
    WithoutKeepsNoncesDistinct(s.txns, t.id);
    var rest := Without(s.txns, t.id);
    forall i | 0 <= i < |rest|
      ensures rest[i].source.Managed? && base <= rest[i].nonce <= top && rest[i].nonce != t.nonce
    {
      assert rest[i] in rest;
      EntriesDiffer(s.txns, rest[i], t);
    }
  }

  lemma EntriesDiffer(txns: seq<Inflight>, u: Inflight, t: Inflight)
    requires DistinctNonces(txns) && u in txns && t in txns && u != t
    ensures u.nonce != t.nonce
  {
    var i :| 0 <= i < |txns| && txns[i] == u;
    var j :| 0 <= j < |txns| && txns[j] == t;
    assert i < j || j < i;
  }

  /** Handing back the top nonce lands on the latest accepted one exactly when that one is in flight. */
  lemma RollbackTarget(rest: seq<Inflight>, base: nat, top: int)
    requires rest != [] && NoncesWithin(rest, base, top - 1)
    ensures base <= HighestOf(rest) <= top - 1
    ensures HighestOf(rest) == top - 1 <==> HasNonce(rest, top - 1)
  {
    assert rest[0].nonce <= HighestOf(rest);
    if HighestOf(rest) != -1 {
      var i :| 0 <= i < |rest| && rest[i].nonce == HighestOf(rest);
    }
    if HasNonce(rest, top - 1) {
      var i :| 0 <= i < |rest| && rest[i].nonce == top - 1;
    }
  }

  lemma AllocateKeepsSound(w: World, e: Event)
    requires Sound(w) && e.Allocate? && Possible(w, e)
    ensures Sound(Next(w, e))
    ensures Allocation(w, e).0.Admitted? ==> Allocation(w, e).0.txn.nonce == PendingCount(w)
    ensures LatestHeld(w) ==> LatestHeld(Next(w, e))
  {
    var (admission, addr) := Allocation(w, e);
    if admission.Admitted? {
      var txns := Listed(w.addr);
      assert forall i :: 0 <= i < |txns| ==> txns[i] in txns;
      assert addr.value.txns == txns + [admission.txn];
      assert admission.txn in addr.value.txns;
      if w.addr.Some? && LatestHeld(w) {
        assert txns[0].nonce < PendingCount(w);
        var i :| 0 <= i < |txns| && txns[i].nonce == PendingCount(w) - 1;
        assert addr.value.txns[i].nonce == PendingCount(w) - 1;
      }
    }
  }

  lemma SendFailedKeepsSound(w: World)
    requires Sound(w) && w.sending.Some? && RollbackSafe(w, SendFailed)
    ensures Sound(Next(w, SendFailed)) && LatestHeld(Next(w, SendFailed))
  {
    var t := w.sending.value;
    DroppedList(w.addr.value, w.base, PendingCount(w), t);
    var rest := Without(w.addr.value.txns, t.id);
    if rest != [] {
      RollbackTarget(rest, w.base, PendingCount(w));
    }
  }

  lemma CompletedKeepsSound(w: World, t: Inflight)
    requires Sound(w) && Possible(w, Completed(t))
    ensures Sound(Next(w, Completed(t)))
  {
    var top := if w.sending.Some? then PendingCount(w) else PendingCount(w) - 1;
    DroppedList(w.addr.value, w.base, top, t);
  }

  lemma CompletedKeepsLatestHeld(w: World, t: Inflight)
    requires Sound(w) && Possible(w, Completed(t)) && LatestHeld(w) && InNonceOrder(w, Completed(t))
    ensures LatestHeld(Next(w, Completed(t)))
  {
    var rest := Without(w.addr.value.txns, t.id);
    var w' := Next(w, Completed(t));
    assert Listed(w'.addr) == rest && PendingCount(w') == PendingCount(w);
    if AnySubmitted(rest, PendingCount(w)) {
      StillSubmitted(w.addr.value.txns, t, PendingCount(w));
      OldestLeavesLatest(w.addr.value.txns, t, PendingCount(w));
    }
  }

  lemma StillSubmitted(txns: seq<Inflight>, t: Inflight, next: int)
    requires DistinctIDs(txns) && t in txns && AnySubmitted(Without(txns, t.id), next)
    ensures AnySubmitted(txns, next)
  {
    var k := DroppedAt(txns, t);
    var rest := Without(txns, t.id);
    var i :| 0 <= i < |rest| && rest[i].nonce < next;
    assert txns[if i < k then i else i + 1].nonce < next;
  }

  lemma OldestLeavesLatest(txns: seq<Inflight>, t: Inflight, next: int)
    requires DistinctIDs(txns) && DistinctNonces(txns) && t in txns
    requires forall u :: u in txns ==> t.nonce <= u.nonce
    requires HasNonce(txns, next - 1) && AnySubmitted(Without(txns, t.id), next)
    ensures HasNonce(Without(txns, t.id), next - 1)
  {
    OtherNoncesStay(txns, t);
    var k := DroppedAt(txns, t);
    var rest := Without(txns, t.id);
    var i :| 0 <= i < |rest| && rest[i].nonce < next;
    assert rest[i] == txns[if i < k then i else i + 1];
    assert t.nonce <= rest[i].nonce;
  }

  lemma StepKeepsSound(w: World, e: Event)
    requires Sound(w) && Possible(w, e) && RollbackSafe(w, e)
    ensures Sound(Next(w, e))
  {
    match e
    case Allocate(_, _, _) => AllocateKeepsSound(w, e);
    case SendAccepted =>
    case SendFailed => SendFailedKeepsSound(w);
    case Completed(t) => CompletedKeepsSound(w, t);
  }

  lemma LatestHeldMakesRollbackSafe(w: World, e: Event)
    requires Sound(w) && LatestHeld(w)
    ensures RollbackSafe(w, e)
  {
    if e.SendFailed? && w.sending.Some? {
      DroppedList(w.addr.value, w.base, PendingCount(w), w.sending.value);
      var rest := Without(Listed(w.addr), w.sending.value.id);
      if rest != [] {
        assert rest[0].nonce < PendingCount(w);
        StillSubmitted(Listed(w.addr), w.sending.value, PendingCount(w));
      }
    }
  }

  lemma StepKeepsLatestHeld(w: World, e: Event)
    requires Sound(w) && LatestHeld(w) && Possible(w, e) && InNonceOrder(w, e)
    ensures LatestHeld(Next(w, e))
  {
    match e
    case Allocate(_, _, _) => AllocateKeepsSound(w, e);
    case SendAccepted =>
      var i :| 0 <= i < |w.addr.value.txns| && w.addr.value.txns[i] == w.sending.value;
      assert w.addr.value.txns[i].nonce == PendingCount(Next(w, e)) - 1;
    case SendFailed =>
      LatestHeldMakesRollbackSafe(w, e);
      SendFailedKeepsSound(w);
    case Completed(t) => CompletedKeepsLatestHeld(w, t);
  }

  // ------------------------------------------------------------------ the theorems

  /**
    For any completion order, as long as every failed send finds nothing else in flight or the latest
    accepted transaction still in flight, the accepted nonces have no gap and no duplicate and no gap fill
    is ever called for.
   */
  lemma {:induction false} SafeRollbacksGiveContiguousNonces(w: World, events: seq<Event>)
    requires Sound(w) && PossibleRun(w, events) && RollsBackSafely(w, events)
    ensures Sound(After(w, events))
    decreases |events|
  {
    if events != [] {
      StepKeepsSound(w, events[0]);
      SafeRollbacksGiveContiguousNonces(Next(w, events[0]), events[1..]);
    }
  }

  lemma {:induction false} InOrderRollsBackSafely(w: World, events: seq<Event>)
    requires Sound(w) && LatestHeld(w) && PossibleRun(w, events) && CompletesInOrder(w, events)
    ensures RollsBackSafely(w, events)
    decreases |events|
  {
    if events != [] {
      LatestHeldMakesRollbackSafe(w, events[0]);
      StepKeepsSound(w, events[0]);
      StepKeepsLatestHeld(w, events[0]);
      InOrderRollsBackSafely(Next(w, events[0]), events[1..]);
    }
  }

  /**
    With completions in nonce order, every run from an idle address, through send failures, node outages and
    idle periods, gets exactly base, base + 1, base + 2, ... accepted.
   */
  lemma InOrderCompletionsGiveContiguousNonces(base: nat, events: seq<Event>)
    requires PossibleRun(World(None, base, [], None, 0), events)
    requires CompletesInOrder(World(None, base, [], None, 0), events)
    ensures var w := After(World(None, base, [], None, 0), events);
            NoGapNoDuplicate(base, w.accepted) && w.gapFills == 0
  {
    var start := World(None, base, [], None, 0);
    InOrderRollsBackSafely(start, events);
    SafeRollbacksGiveContiguousNonces(start, events);
    BaseIsFixed(start, events);
  }

  lemma {:induction false} BaseIsFixed(w: World, events: seq<Event>)
    requires PossibleRun(w, events)
    ensures After(w, events).base == w.base
    decreases |events|
  {
    if events != [] {
      BaseIsFixed(Next(w, events[0]), events[1..]);
    }
  }

  /**
    The condition is exact: in a sound state a failed send is followed by the right next nonce if and only if
    the roll-back was safe. When it was not, the next allocation repeats a nonce the node already accepted.
   */
  lemma RollbackSafeIsExact(w: World, e: Event)
    requires Sound(w) && w.sending.Some?
    requires e.Allocate? && e.nodeReachable && Possible(Next(w, SendFailed), e)
    ensures var next := Allocation(Next(w, SendFailed), e).0;
            && next.Admitted?
            && (RollbackSafe(w, SendFailed) <==> next.txn.nonce == PendingCount(w))
            && (!RollbackSafe(w, SendFailed) <==> next.txn.nonce in w.accepted)
  {
    var t := w.sending.value;
    DroppedList(w.addr.value, w.base, PendingCount(w), t);
    var rest := Without(w.addr.value.txns, t.id);
    if rest != [] {
      RollbackTarget(rest, w.base, PendingCount(w));
      var n := HighestOf(rest) + 1;
      assert Allocation(Next(w, SendFailed), e).0.txn.nonce == n;
      if n < PendingCount(w) {
        assert w.accepted[n - w.base] == n;
      }
    }
  }

  // A run in which the second of two transactions completes first and the third then fails to send.
  const A := Inflight(0, "a", 0, Managed)
  const B := Inflight(1, "b", 1, Managed)
  const C := Inflight(2, "c", 2, Managed)
  const D := Inflight(3, "d", 1, Managed)
  const TwoAccepted := World(Some(AddrState([A, B], 1)), 0, [0, 1], None, 0)
  const Reused := World(Some(AddrState([A, D], 1)), 0, [0, 1], Some(D), 0)
  const Opening := [Allocate(0, "a", true), SendAccepted, Allocate(1, "b", true), SendAccepted]
  const Closing := [Completed(B), Allocate(2, "c", true), SendFailed, Allocate(3, "d", true)]

  lemma OpeningRun(tail: seq<Event>)
    requires PossibleRun(TwoAccepted, tail)
    ensures PossibleRun(World(None, 0, [], None, 0), Opening + tail)
    ensures After(World(None, 0, [], None, 0), Opening + tail) == After(TwoAccepted, tail)
  {
    var w0 := World(None, 0, [], None, 0);
    var w1 := World(Some(AddrState([A], 0)), 0, [], Some(A), 0);
    var w2 := World(Some(AddrState([A], 0)), 0, [0], None, 0);
    var w3 := World(Some(AddrState([A, B], 1)), 0, [0], Some(B), 0);
    assert Next(w0, Opening[0]) == w1 by { assert [] + [A] == [A]; }
    assert Next(w2, Opening[2]) == w3 by { assert [A] + [B] == [A, B]; }
    assert Next(w1, SendAccepted) == w2;
    assert Next(w3, SendAccepted) == TwoAccepted;
    Prepend(w3, SendAccepted, tail);
    Prepend(w2, Opening[2], [SendAccepted] + tail);
    Prepend(w1, SendAccepted, [Opening[2]] + ([SendAccepted] + tail));
    Prepend(w0, Opening[0], [SendAccepted] + ([Opening[2]] + ([SendAccepted] + tail)));
    assert Opening + tail == [Opening[0]] + ([SendAccepted] + ([Opening[2]] + ([SendAccepted] + tail)));
  }

  lemma TailDropped(x: Inflight, y: Inflight)
    requires x.id != y.id
    ensures Without([x, y], y.id) == [x]
  {
    var i := IndexOf([x, y], y.id);
    assert [x, y][1].id == y.id && [x, y][0] == x;
    assert i == 1;
  }

  lemma ClosingRun()
    ensures PossibleRun(TwoAccepted, Closing)
    ensures After(TwoAccepted, Closing) == Reused
  {
    var w5 := World(Some(AddrState([A], 1)), 0, [0, 1], None, 0);
    var w6 := World(Some(AddrState([A, C], 2)), 0, [0, 1], Some(C), 0);
    var w7 := World(Some(AddrState([A], 0)), 0, [0, 1], None, 0);
    assert Next(TwoAccepted, Completed(B)) == w5 by { TailDropped(A, B); }
    assert Next(w5, Closing[1]) == w6 by { assert [A] + [C] == [A, C]; }
    assert Next(w6, SendFailed) == w7 by {
      TailDropped(A, C);
      assert [A][0].nonce <= HighestOf([A]);
    }
    assert Next(w7, Closing[3]) == Reused by { assert [A] + [D] == [A, D]; }
    Prepend(w7, Closing[3], []);
    Prepend(w6, SendFailed, [Closing[3]]);
    Prepend(w5, Closing[1], [SendFailed, Closing[3]]);
    Prepend(TwoAccepted, Completed(B), [Closing[1], SendFailed, Closing[3]]);
  }

  /** Out-of-order completion really breaks it: accepted nonce 1 is handed out a second time. */
  lemma OutOfOrderCompletionReusesANonce()
    ensures var w := World(None, 0, [], None, 0);
            && PossibleRun(w, Opening + Closing)
            && After(w, Opening + Closing).sending == Some(D)
            && D.nonce in After(w, Opening + Closing).accepted
  {
    ClosingRun();
    OpeningRun(Closing);
    assert Reused.accepted[1] == 1;
  }

  lemma Prepend(w: World, e: Event, rest: seq<Event>)
    requires Possible(w, e) && PossibleRun(Next(w, e), rest)
    ensures PossibleRun(w, [e] + rest) && After(w, [e] + rest) == After(Next(w, e), rest)
  {
    assert ([e] + rest)[1..] == rest;
  }
}
