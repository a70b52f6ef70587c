/**
  Message-ID reservation on the REST side (internal/rest/receiptstore.go, internal/rest/webhooks.go): requests with
  an immediate receipt reserve their ID, send, write the accepted record and release the ID, while replies arrive.
  The receipt store does not evict; its calls may fail.
 */
module Reservations {
  import opened Options
  import opened Traces

  datatype Stage = Arrived | Holding | Sent | Releasing | Over

  datatype Request = Request(id: string, stage: Stage)

  datatype World = World(reserved: set<string>, stored: set<string>, requests: map<nat, Request>, sends: seq<string>)

  datatype Event =
    | Arrive(r: nat, id: string)
    | Reserve(r: nat, lookupOK: bool)
    | SendSucceeds(r: nat)
    | SendFails(r: nat)
    | WriteAccepted(r: nat, writeOK: bool)
    | Release(r: nat)
    | ReplyArrives(id: string)

  predicate At(w: World, r: nat, stage: Stage) {
    r in w.requests && w.requests[r].stage == stage
  }

  predicate Possible(w: World, e: Event) {
    match e
    case Arrive(r, _) => r !in w.requests
    case Reserve(r, _) => At(w, r, Arrived)
    case SendSucceeds(r) => At(w, r, Holding)
    case SendFails(r) => At(w, r, Holding)
    case WriteAccepted(r, _) => At(w, r, Sent)
    case Release(r) => At(w, r, Releasing)
    case ReplyArrives(_) => true
  }

  function Move(w: World, r: nat, stage: Stage): World
    requires r in w.requests
  {
    w.(requests := w.requests[r := w.requests[r].(stage := stage)])
  }

  function Next(w: World, e: Event): World
    requires Possible(w, e)
  {
    match e
    case Arrive(r, id) => w.(requests := w.requests[r := Request(id, Arrived)])
    case Reserve(r, lookupOK) =>
      var id := w.requests[r].id;
      if !lookupOK || id in w.stored || id in w.reserved then Move(w, r, Over)
      else Move(w.(reserved := w.reserved + {id}), r, Holding)
    case SendSucceeds(r) => Move(w.(sends := w.sends + [w.requests[r].id]), r, Sent)
    case SendFails(r) => Move(w, r, Releasing)
    case WriteAccepted(r, writeOK) =>
      Move(if writeOK then w.(stored := w.stored + {w.requests[r].id}) else w, r, Releasing)
    case Release(r) => Move(w.(reserved := w.reserved - {w.requests[r].id}), r, Over)
    case ReplyArrives(id) => w.(stored := w.stored + {id})
  }

  predicate PossibleRun(w: World, events: seq<Event>)
    decreases |events|
  {
    events != [] ==> Possible(w, events[0]) && PossibleRun(Next(w, events[0]), events[1..])
  }

  function After(w: World, events: seq<Event>): World
    requires PossibleRun(w, events)
    decreases |events|
  {
    if events == [] then w else After(Next(w, events[0]), events[1..])
  }

  // ------------------------------------------------------------------ the invariant

  predicate Holder(w: World, r: nat, id: string) {
    r in w.requests && w.requests[r].id == id && w.requests[r].stage in {Holding, Sent, Releasing}
  }

  function Successes(w: World, id: string): nat {
    multiset(w.sends)[id]
  }

  /** What the stage of the request that holds an ID says about the ID. */
  predicate StageOK(w: World, r: nat, id: string)
    requires r in w.requests
  {
    match w.requests[r].stage
    case Holding => Successes(w, id) == 0
    case Sent => Successes(w, id) == 1
    case _ => true
  }

  predicate HeldAfterSend(w: World, r: nat, id: string) {
    Holder(w, r, id) && w.requests[r].stage in {Sent, Releasing}
  }

  /** Only one request holds an ID, and a sent ID is stored or still held by its sender. */
  ghost predicate IdOK(w: World, id: string) {
    && (forall r :: Holder(w, r, id) ==> id in w.reserved && StageOK(w, r, id))
    && (forall r, q :: Holder(w, r, id) && Holder(w, q, id) ==> r == q)
    && Successes(w, id) <= 1
    && (Successes(w, id) == 1 ==> id in w.stored || exists r :: HeldAfterSend(w, r, id))
  }

  /** If the event releases this ID after a send, it finds a record of it. */
  predicate FindsRecord(w: World, e: Event, id: string)
    requires Possible(w, e)
  {
    e.Release? && w.requests[e.r].id == id && Successes(w, id) > 0 ==> id in w.stored
  }

  /** Every release of this ID after a send finds a record, be it the accepted record or a reply. */
  predicate AlwaysFindsRecord(w: World, events: seq<Event>, id: string)
    requires PossibleRun(w, events)
    decreases |events|
  {
    events != [] ==> FindsRecord(w, events[0], id) && AlwaysFindsRecord(Next(w, events[0]), events[1..], id)
  }

  lemma StepKeepsIdOK(w: World, e: Event, id: string)
    requires IdOK(w, id) && Possible(w, e) && FindsRecord(w, e, id)
    ensures IdOK(Next(w, e), id)
  {
    if Moves(w, e, id) {
      OwnStepKeepsIdOK(w, e, id);
    } else {
      SameHolders(w, e, id);
    }
  }

  /** The event is a step of a request for this ID. */
  predicate Moves(w: World, e: Event, id: string)
    requires Possible(w, e)
  {
    !e.Arrive? && !e.ReplyArrives? && w.requests[e.r].id == id
  }

  lemma SameHolders(w: World, e: Event, id: string)
    requires IdOK(w, id) && Possible(w, e) && !Moves(w, e, id)
    ensures IdOK(Next(w, e), id)
  {
    SendsOfOthers(w, e, id);
    ReservationsOfOthers(w, e, id);
    forall q {
      HolderStays(w, e, id, q);
    }
    UnchangedFor(w, Next(w, e), id);
  }

  lemma HolderStays(w: World, e: Event, id: string, q: nat)
    requires Possible(w, e) && !Moves(w, e, id)
    ensures Holder(Next(w, e), q, id) <==> Holder(w, q, id)
    ensures Holder(w, q, id) ==> Next(w, e).requests[q] == w.requests[q]
  {
  }

  lemma ReservationsOfOthers(w: World, e: Event, id: string)
    requires Possible(w, e) && !Moves(w, e, id)
    ensures id in w.reserved ==> id in Next(w, e).reserved
    ensures id in w.stored ==> id in Next(w, e).stored
  {
  }

  lemma SendsOfOthers(w: World, e: Event, id: string)
    requires Possible(w, e) && !Moves(w, e, id)
    ensures Successes(Next(w, e), id) == Successes(w, id)
  {
    if e.SendSucceeds? {
      assert Next(w, e).sends == w.sends + [w.requests[e.r].id];
    }
  }

  lemma UnchangedFor(w: World, w': World, id: string)
    requires IdOK(w, id) && Successes(w', id) == Successes(w, id)
    requires (id in w.reserved ==> id in w'.reserved) && (id in w.stored ==> id in w'.stored)
    requires forall q :: Holder(w', q, id) <==> Holder(w, q, id)
    requires forall q :: Holder(w, q, id) && Holder(w', q, id) ==> w'.requests[q] == w.requests[q]
    ensures IdOK(w', id)
  {
    if Successes(w, id) == 1 && id !in w'.stored {
      var r :| HeldAfterSend(w, r, id);
      assert Holder(w', r, id) && HeldAfterSend(w', r, id);
    }
  }

  lemma OwnStepKeepsIdOK(w: World, e: Event, id: string)
    requires IdOK(w, id) && Possible(w, e) && FindsRecord(w, e, id) && Moves(w, e, id)
    ensures IdOK(Next(w, e), id)
  {
    var w' := Next(w, e);
    assert forall q :: q != e.r ==> (Holder(w', q, id) <==> Holder(w, q, id));
    if e.Reserve? {
      assert forall q :: HeldAfterSend(w, q, id) ==> HeldAfterSend(w', q, id);
    } else {
      assert Holder(w, e.r, id);
      assert !e.Release? ==> Holder(w', e.r, id);
      assert e.WriteAccepted? || e.SendSucceeds? ==> HeldAfterSend(w', e.r, id);
    }
  }

  lemma {:induction false} IdOKThroughout(w: World, events: seq<Event>, id: string)
    requires IdOK(w, id) && PossibleRun(w, events) && AlwaysFindsRecord(w, events, id)
    ensures IdOK(After(w, events), id)
    decreases |events|
  {
    if events != [] {
      StepKeepsIdOK(w, events[0], id);
      IdOKThroughout(Next(w, events[0]), events[1..], id);
    }
  }

  /** The ID has a record and nobody holds it; `n` sends of it have succeeded. */
  ghost predicate Spent(w: World, id: string, n: nat) {
    id in w.stored && Successes(w, id) == n && forall r :: !Holder(w, r, id)
  }

  lemma {:induction false} SpentThroughout(w: World, events: seq<Event>, id: string, n: nat)
    requires Spent(w, id, n) && PossibleRun(w, events)
    ensures Spent(After(w, events), id, n)
    decreases |events|
  {
    if events != [] {
      var w' := Next(w, events[0]);
      forall r ensures !Holder(w', r, id) {
        assert !Holder(w, r, id);
      }
      assert events[0].SendSucceeds? ==> !Holder(w, events[0].r, id);
      SpentThroughout(w', events[1..], id, n);
    }
  }

  /**
    Over all interleavings of requests and arriving replies, with lookups and writes that may fail, at most one send
    of a message ID succeeds as long as every release after a send finds a record, and none does when the ID already
    had one.
   */
  lemma ReservationPreventsDuplicates(stored: set<string>, events: seq<Event>, id: string)
    requires PossibleRun(World({}, stored, map[], []), events)
    requires AlwaysFindsRecord(World({}, stored, map[], []), events, id)
    ensures Successes(After(World({}, stored, map[], []), events), id) <= if id in stored then 0 else 1
  {
    var w := World({}, stored, map[], []);
    IdOKThroughout(w, events, id);
    if id in stored {
      SpentThroughout(w, events, id, 0);
    }
  }

  /** Some run from here sends this ID. */
  ghost predicate CanBeSent(w: World, id: string) {
    exists events :: PossibleRun(w, events) && Successes(After(w, events), id) > Successes(w, id)
  }

  /** An ID that nobody holds can be sent, now or later, if and only if it has no record. */
  lemma FreeIdCanBeSentIff(w: World, id: string)
    requires id !in w.reserved && forall r :: !Holder(w, r, id)
    ensures CanBeSent(w, id) <==> id !in w.stored
  {
    if id in w.stored {
      forall events | PossibleRun(w, events) ensures Successes(After(w, events), id) == Successes(w, id) {
        SpentThroughout(w, events, id, Successes(w, id));
      }
    } else {
      var r := NewRequest(w.requests.Keys);
      FailedWriteLeavesTheIdFree(w, r, id);
    }
  }

  /** After a run that kept its records, the release of a sent ID lets it be sent again exactly without a record. */
  lemma ReleaseAllowsDuplicateIff(stored: set<string>, events: seq<Event>, r: nat, id: string)
    requires var start := World({}, stored, map[], []);
             && PossibleRun(start, events) && AlwaysFindsRecord(start, events, id)
             && At(After(start, events), r, Releasing) && After(start, events).requests[r].id == id
             && Successes(After(start, events), id) == 1
    ensures var w := After(World({}, stored, map[], []), events);
            CanBeSent(Next(w, Release(r)), id) <==> id !in w.stored
  {
    var start := World({}, stored, map[], []);
    IdOKThroughout(start, events, id);
    var w := After(start, events);
    var w' := Next(w, Release(r));
    assert Holder(w, r, id);
    forall q ensures !Holder(w', q, id) {
      assert Holder(w', q, id) ==> q != r && Holder(w, q, id);
    }
    FreeIdCanBeSentIff(w', id);
  }

  lemma {:induction false} NewRequest(used: set<nat>) returns (r: nat)
    ensures r !in used && forall q :: q in used ==> q < r
    decreases |used|
  {
    r := 0;
    if used != {} {
      var m :| m in used;
      var rest := used - {m};
      var above := NewRequest(rest);
      r := if m < above then above else m + 1;
      assert forall q :: q in used ==> q == m || q in rest;
    }
  }

  /** One request, from its arrival to a failing write of its record. */
  function FailedWrite(r: nat, id: string): seq<Event> {
    [Arrive(r, id), Reserve(r, true), SendSucceeds(r), WriteAccepted(r, false), Release(r)]
  }

  /** Without its record the ID is as free as before, so the same request can be sent again and again. */
  lemma FailedWriteLeavesTheIdFree(w: World, r: nat, id: string)
    requires r !in w.requests && id !in w.stored && id !in w.reserved
    ensures PossibleRun(w, FailedWrite(r, id))
    ensures var w' := After(w, FailedWrite(r, id));
            w'.stored == w.stored && w'.reserved == w.reserved && Successes(w', id) == Successes(w, id) + 1
  {
    var w1 := Next(w, Arrive(r, id));
    var w2 := Next(w1, Reserve(r, true));
    var w3 := Next(w2, SendSucceeds(r));
    var w4 := Next(w3, WriteAccepted(r, false));
    var w5 := Next(w4, Release(r));
    Prepend(w4, Release(r), []);
    Prepend(w3, WriteAccepted(r, false), [Release(r)]);
    Prepend(w2, SendSucceeds(r), [WriteAccepted(r, false), Release(r)]);
    Prepend(w1, Reserve(r, true), [SendSucceeds(r), WriteAccepted(r, false), Release(r)]);
    Prepend(w, Arrive(r, id), [Reserve(r, true), SendSucceeds(r), WriteAccepted(r, false), Release(r)]);
    assert w5.reserved == w.reserved;
  }

  /** With its record written, the ID of a request is spent: no run from there on sends it again. */
  lemma WrittenRecordSpendsTheId(w: World, r: nat)
    requires At(w, r, Sent) && IdOK(w, w.requests[r].id)
    ensures var w' := Next(Next(w, WriteAccepted(r, true)), Release(r));
            w.requests[r].id in w'.stored && !CanBeSent(w', w.requests[r].id)
  {
    var id := w.requests[r].id;
    var w' := Next(Next(w, WriteAccepted(r, true)), Release(r));
    assert Holder(w, r, id);
    forall q ensures !Holder(w', q, id) {
      assert Holder(w', q, id) ==> q != r && Holder(w, q, id);
    }
    FreeIdCanBeSentIff(w', id);
  }

  /** A reply spends the ID as well, for a request that is not on its way yet. */
  lemma ReplySpendsTheId(w: World, id: string)
    requires id !in w.reserved && forall r :: !Holder(w, r, id)
    ensures !CanBeSent(Next(w, ReplyArrives(id)), id)
  {
    var w' := Next(w, ReplyArrives(id));
    forall q ensures !Holder(w', q, id) {
      assert Holder(w', q, id) ==> Holder(w, q, id);
    }
    FreeIdCanBeSentIff(w', id);
  }

  lemma Prepend(w: World, e: Event, rest: seq<Event>)
    requires Possible(w, e) && PossibleRun(Next(w, e), rest)
    ensures PossibleRun(w, [e] + rest) && After(w, [e] + rest) == After(Next(w, e), rest)
  {
    assert ([e] + rest)[1..] == rest;
  }

  // ------------------------------------------------------------------ the store object

  /** How `writeReceipt` ends: it panics when its retries run out. */
  datatype WriteEnd = Written | Refused | Panicked

  predicate Steps(w: World, e: Event, w': World) {
    Possible(w, e) && w' == Next(w, e)
  }

  /** A trace is a run. */
  lemma {:induction false} TraceIsRun(log: seq<Event>, trace: seq<World>)
    requires Traced(Steps, log, trace)
    ensures PossibleRun(trace[0], log) && After(trace[0], log) == trace[|log|]
    decreases |log|
  {
    if log != [] {
      TraceGoesOn(Steps, log, trace);
      TraceIsRun(log[1..], trace[1..]);
    }
  }

  predicate Concerns(e: Event, r: nat) {
    match e
    case ReplyArrives(_) => false
    case _ => e.r == r
  }

  /** The two moments are the reservation of a request and the write of its accepted record. */
  function WithOwn(h: History<World, Event>, e: Event): History<World, Event>
    requires Possible(h.now, e)
  {
    Noted(h, e, Next(h.now, e), e.Reserve?, e.WriteAccepted?)
  }

  lemma OwnIsKept(h: History<World, Event>, start: World, e: Event)
    requires Kept(Steps, h, start) && Possible(h.now, e)
    ensures Kept(Steps, WithOwn(h, e), start)
  {
    NotedIsKept(Steps, h, start, e, Next(h.now, e), e.Reserve?, e.WriteAccepted?);
  }

  predicate SameOwn(h: History<World, Event>, h': History<World, Event>) {
    h'.did == h.did && h'.first == h.first && h'.second == h.second
  }

  /** The ID was free when the request asked for it: its lookup came back, with nothing, and nobody held it. */
  predicate WasFree(m: Option<Moment<World, Event>>, r: nat, id: string, lookupOK: bool) {
    m.Some? && m.value.e == Reserve(r, lookupOK) && lookupOK && id !in m.value.s.stored && id !in m.value.s.reserved
  }

  /** The accepted record of a sent request was written: the store call went through and no reply was there first. */
  predicate WasWritten(m: Option<Moment<World, Event>>, r: nat, id: string, writeUp: bool) {
    m.Some? && m.value.e == WriteAccepted(r, writeUp) && writeUp && id !in m.value.s.stored
  }

  /** What a request does after its reservation. */
  function AfterReserving(r: nat, free: bool, sendOK: bool, writeUp: bool): seq<Event> {
    if !free then []
    else if sendOK then [SendSucceeds(r), WriteAccepted(r, writeUp), Release(r)]
    else [SendFails(r), Release(r)]
  }

  class ReceiptStore {
    const schedule: nat -> seq<Event>       // what other requests and replies do, turn by turn
    var reservedIDs: set<string>
    var receipts: set<string>
    var requests: map<nat, Request>
    var sends: seq<string>                  // IDs of the messages the handler has taken
    var turn: nat
    ghost const start: World
    ghost var history: History<World, Event>

    function State(): World
      reads this
    {
      World(reservedIDs, receipts, requests, sends)
    }

    /** The history leads from the start to this state. */
    ghost predicate Valid()
      reads this
    {
      Kept(Steps, history, start) && history.now == State()
    }

    constructor (receipts: set<string>, schedule: nat -> seq<Event>)
      ensures Valid() && start == State() == World({}, receipts, map[], []) && history.log == []
    {
      this.schedule, this.receipts := schedule, receipts;
      reservedIDs, requests, sends, turn := {}, map[], [], 0;
      start := World({}, receipts, map[], []);
      history := NewHistory(World({}, receipts, map[], []));
    }

    /** `reserveID`. */
    method ReserveID(r: nat, lookupOK: bool) returns (ok: bool)
      requires Valid() && At(State(), r, Arrived)
      modifies this`reservedIDs, this`requests, this`history
      ensures Valid() && State() == Next(old(State()), Reserve(r, lookupOK))
      ensures history == WithOwn(old(history), Reserve(r, lookupOK))
      ensures ok <==> lookupOK && requests[r].id !in old(receipts) && requests[r].id !in old(reservedIDs)
      ensures requests[r] == old(requests)[r].(stage := if ok then Holding else Over)
    {
      OwnIsKept(history, start, Reserve(r, lookupOK));
      history := WithOwn(history, Reserve(r, lookupOK));
      var msgID := requests[r].id;
      ok := lookupOK && msgID !in receipts && msgID !in reservedIDs;
      if ok {
        reservedIDs := reservedIDs + {msgID};
      }
      requests := requests[r := Request(msgID, if ok then Holding else Over)];
    }

    /** The function `reserveID` returns. */
    method ReleaseID(r: nat)
      requires Valid() && At(State(), r, Releasing)
      modifies this`reservedIDs, this`requests, this`history
      ensures Valid() && State() == Next(old(State()), Release(r)) && history == WithOwn(old(history), Release(r))
      ensures r in requests && requests[r].id !in reservedIDs
    {
      OwnIsKept(history, start, Release(r));
      history := WithOwn(history, Release(r));
      reservedIDs := reservedIDs - {requests[r].id};
      requests := requests[r := requests[r].(stage := Over)];
    }

    /**
      `writeReceipt`; `up` says of each attempt that its time allows whether the store call gets through. Without
      overwrite the first error is final, and an existing record is one.
     */
    method WriteReceipt(msgID: string, overwrite: bool, up: seq<bool>) returns (end: WriteEnd)
      requires up != []
      modifies this`receipts
      ensures end.Written? <==> if overwrite then true in up else up[0] && msgID !in old(receipts)
      ensures end.Refused? ==> !overwrite
      ensures end.Panicked? ==> overwrite
      ensures receipts == if end.Written? then old(receipts) + {msgID} else old(receipts)
    {
      var attempt := 0;
      while attempt < |up|
        invariant attempt <= |up| && receipts == old(receipts)
        invariant attempt > 0 ==> overwrite
        invariant true !in up[..attempt]
      {
        if up[attempt] && (overwrite || msgID !in receipts) {
          receipts := receipts + {msgID};
          return Written;
        }
        if !overwrite {
          return Refused;
        }
        assert up[..attempt + 1] == up[..attempt] + [up[attempt]];
        attempt := attempt + 1;
      }
      assert up[..|up|] == up;
      return Panicked;
    }

    /** `writeAccepted` for a request whose send succeeded. */
    method WriteAcceptedRecord(r: nat, up: bool) returns (ok: bool)
      requires Valid() && At(State(), r, Sent)
      modifies this`receipts, this`requests, this`history
      ensures Valid() && State() == Next(old(State()), WriteAccepted(r, up))
      ensures history == WithOwn(old(history), WriteAccepted(r, up))
      ensures ok <==> up && requests[r].id !in old(receipts)
    {
      OwnIsKept(history, start, WriteAccepted(r, up));
      history := WithOwn(history, WriteAccepted(r, up));
      var end := WriteReceipt(requests[r].id, false, [up]);
      ok := end.Written?;
      requests := requests[r := requests[r].(stage := Releasing)];
    }

    /** One turn of everything else: any steps of other requests and any replies that are possible. */
    method Interfere(r: nat)
      requires Valid() && r in requests
      modifies this
      ensures Valid() && r in requests && requests[r] == old(requests)[r]
      ensures old(receipts) <= receipts && old(sends) <= sends && SameOwn(old(history), history)
    {
      var events := schedule(turn);
      turn := turn + 1;
      for i := 0 to |events|
        invariant Valid() && r in requests && requests[r] == old(requests)[r]
        invariant old(receipts) <= receipts && old(sends) <= sends && SameOwn(old(history), history)
      {
        if !Concerns(events[i], r) && Possible(State(), events[i]) {
          PassedIsKept(Steps, history, start, events[i], Next(history.now, events[i]));
          history := Passed(history, events[i], Next(history.now, events[i]));
          Become(Next(State(), events[i]));
        }
      }
    }

    method Become(w: World)
      modifies this`reservedIDs, this`receipts, this`requests, this`sends
      ensures State() == w
    {
      reservedIDs, receipts, requests, sends := w.reserved, w.stored, w.requests, w.sends;
    }

    /** A step of the request itself. */
    method Perform(e: Event)
      requires Valid() && Possible(State(), e)
      modifies this`reservedIDs, this`receipts, this`requests, this`sends, this`history
      ensures Valid() && State() == Next(old(State()), e) && history == WithOwn(old(history), e)
    {
      OwnIsKept(history, start, e);
      history := WithOwn(history, e);
      Become(Next(State(), e));
    }

    /**
      `processMsg` with an immediate receipt: reserve, send, write, release, with anything in between. `sendOK` is
      whether the handler takes the message, `sendStatus` the status it gives otherwise. A request is answered with 409
      if and only if its ID was not free when it asked for it, and then does nothing. Every other request sends, ends
      with its reservation released, and is answered with 200 if and only if the handler took the message and the
      record was written; a record that could not be written, or came after a reply, gives 500. All that happened is a
      run of the model, with the steps of the request in this order.
     */
    method ProcessMsg(r: nat, msgID: string, lookupOK: bool, sendOK: bool, sendStatus: int, writeUp: bool)
      returns (status: int)
      requires Valid() && r !in requests
      modifies this
      ensures Valid() && r in requests && requests[r] == Request(msgID, Over)
      ensures var free := WasFree(history.first, r, msgID, lookupOK);
              && history.did == [Arrive(r, msgID), Reserve(r, lookupOK)] + AfterReserving(r, free, sendOK, writeUp)
              && (!free ==> status == 409)
              && (free && !sendOK ==> status == sendStatus)
              && (free && sendOK ==>
                    && msgID in sends && (writeUp ==> msgID in receipts)
                    && status == if WasWritten(history.second, r, msgID, writeUp) then 200 else 500)
      ensures PossibleRun(start, history.log) && After(start, history.log) == State()
    {
      var reserved := AskForID(r, msgID, lookupOK);
      Interfere(r);
      status := 409;
      if reserved {
        status := SendHolding(r, sendOK, sendStatus, writeUp);
      }
      TraceIsRun(history.log, history.trace);
    }

    /** `processMsg` up to the answer of `reserveID`. */
    method AskForID(r: nat, msgID: string, lookupOK: bool) returns (reserved: bool)
      requires Valid() && r !in requests
      modifies this
      ensures Valid() && r in requests && requests[r] == Request(msgID, if reserved then Holding else Over)
      ensures history.did == [Arrive(r, msgID), Reserve(r, lookupOK)] && history.second.None?
      ensures reserved <==> WasFree(history.first, r, msgID, lookupOK)
    {
      TurnedIsKept(Steps, history, start);
      history := Turned(history);
      Perform(Arrive(r, msgID));
      Interfere(r);
      reserved := ReserveID(r, lookupOK);
    }

    /** `processMsg` from the reservation to its release. */
    method SendHolding(r: nat, sendOK: bool, sendStatus: int, writeUp: bool) returns (status: int)
      requires Valid() && At(State(), r, Holding) && history.second.None?
      modifies this
      ensures Valid() && r in requests && requests[r] == old(requests)[r].(stage := Over)
      ensures history.first == old(history).first
      ensures history.did == old(history).did + AfterReserving(r, true, sendOK, writeUp)
      ensures !sendOK ==> status == sendStatus
      ensures sendOK ==>
                && requests[r].id in sends && (writeUp ==> requests[r].id in receipts)
                && status == if WasWritten(history.second, r, requests[r].id, writeUp) then 200 else 500
    {
      status := SendAndRecord(r, sendOK, sendStatus, writeUp);
      Interfere(r);
      ReleaseID(r);
    }

    /** What `processMsg` does while it holds the ID. */
    method SendAndRecord(r: nat, sendOK: bool, sendStatus: int, writeUp: bool) returns (status: int)
      requires Valid() && At(State(), r, Holding) && history.second.None?
      modifies this
      ensures Valid() && r in requests && requests[r] == old(requests)[r].(stage := Releasing)
      ensures history.first == old(history).first
      ensures !sendOK ==> status == sendStatus && history.did == old(history).did + [SendFails(r)]
      ensures sendOK ==>
                && history.did == old(history).did + [SendSucceeds(r), WriteAccepted(r, writeUp)]
                && requests[r].id in sends && (writeUp ==> requests[r].id in receipts)
                && status == if WasWritten(history.second, r, requests[r].id, writeUp) then 200 else 500
    {
      if !sendOK {
        Perform(SendFails(r));
        return sendStatus;
      }
      Perform(SendSucceeds(r));
      assert sends[|sends| - 1] == requests[r].id;
      Interfere(r);
      var written := WriteAcceptedRecord(r, writeUp);
      status := if written then 200 else 500;
    }
  }
}
