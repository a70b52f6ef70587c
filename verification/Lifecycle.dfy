/**
  The life of every message handed to the transaction processor (internal/tx/txnprocessor.go): admission,
  send, receipt tracking, reply and removal from the in-flight table, interleaved in any order across
  messages, addresses and redeliveries. One event is one lock-protected region or one external call.
 */
module Lifecycle {
  import opened Options
  import opened Nonces

  /** `check` is acktype=receipt with a receipt store attached, which enables the redelivery check. */
  datatype Message = Message(id: string, from: string, check: bool, req: NonceRequest)

  datatype Phase = Unsent | Tracking(hash: string) | Recorded(hash: string) | Answered(hash: string)

  datatype Stage =
    | Received
    | Active(txn: Inflight, phase: Phase)
    | Failing                  // dropped or refused; the error reply is still to be sent
    | Notifying                // the redelivery notification is still to be sent
    | Done(skipped: bool)

  datatype Delivery = Delivery(msg: Message, stage: Stage, replies: nat, admissions: nat, removals: nat)

  /** `store` maps a message ID with a receipt record to the transaction hash in it, "" when it has none. */
  datatype World = World(table: map<string, AddrState>, nextID: nat, store: map<string, string>,
                         deliveries: map<nat, Delivery>, accepted: seq<string>)

  datatype Event =
    | Deliver(d: nat, msg: Message)
    | RefuseEarly(d: nat)                                     // bad JSON, unknown type, bad signer or address
    | AdmitNow(d: nat, storeUp: bool, node: NodeAnswers)
    | SendOk(d: nat, hash: string)
    | SendFails(d: nat)                                       // also a transaction that cannot be built
    | RecordHash(d: nat, storeUp: bool)
    | Answer(d: nat)
    | Finish(d: nat)
    | ReplyError(d: nat)
    | Notify(d: nat)
    | OutsideWrite(id: string, hash: string)

  function StateOf(table: map<string, AddrState>, from: string): Option<AddrState> {
    if from in table then Some(table[from]) else None
  }

  function WithState(table: map<string, AddrState>, from: string, s: Option<AddrState>): map<string, AddrState> {
    if s.Some? then table[from := s.value] else table - {from}
  }

  function StoreAnswer(w: World, id: string, storeUp: bool): StoreLookup {
    if !storeUp then StoreFailed else if id in w.store then StoreLookup.Recorded(w.store[id]) else NoRecord
  }

  predicate At(w: World, d: nat, stage: Stage) {
    d in w.deliveries && w.deliveries[d].stage == stage
  }

  predicate InFlight(w: World, d: nat) {
    d in w.deliveries && w.deliveries[d].stage.Active?
  }

  predicate Possible(w: World, e: Event) {
    match e
    case Deliver(d, _) => d !in w.deliveries
    case RefuseEarly(d) => At(w, d, Received)
    case AdmitNow(d, _, _) => At(w, d, Received)
    case SendOk(d, hash) => InFlight(w, d) && w.deliveries[d].stage.phase.Unsent? && hash != ""
    case SendFails(d) => InFlight(w, d) && w.deliveries[d].stage.phase.Unsent?
    case RecordHash(d, _) => InFlight(w, d) && w.deliveries[d].stage.phase.Tracking?
    case Answer(d) => InFlight(w, d) && w.deliveries[d].stage.phase.Recorded?
    case Finish(d) => InFlight(w, d) && w.deliveries[d].stage.phase.Answered?
    case ReplyError(d) => At(w, d, Failing)
    case Notify(d) => At(w, d, Notifying)
    case OutsideWrite(_, _) => true
  }

  function Update(w: World, d: nat, v: Delivery): World {
    w.(deliveries := w.deliveries[d := v])
  }

  function AdmissionOf(w: World, d: nat, storeUp: bool, node: NodeAnswers): (Admission, Option<AddrState>)
    requires d in w.deliveries
  {
    var m := w.deliveries[d].msg;
    Admit(StateOf(w.table, m.from), w.nextID, m.id, m.check, StoreAnswer(w, m.id, storeUp), m.req, node)
  }

  function AfterAdmission(w: World, d: nat, storeUp: bool, node: NodeAnswers): World
    requires d in w.deliveries
  {
    var v := w.deliveries[d];
    var (admission, s) := AdmissionOf(w, d, storeUp, node);
    match admission
    case Admitted(txn) =>
      Update(w.(table := WithState(w.table, v.msg.from, s), nextID := w.nextID + 1), d,
             v.(stage := Active(txn, Unsent), admissions := v.admissions + 1))
    case AlreadyInFlight => Update(w.(nextID := w.nextID + 1), d, v.(stage := Done(true)))
    case AlreadyDispatched(_) => Update(w.(nextID := w.nextID + 1), d, v.(stage := Notifying))
    case Rejected(_) => Update(w.(nextID := w.nextID + 1), d, v.(stage := Failing))
  }

  /** Drops the in-flight entry of a delivery and moves the delivery on. */
  function Drop(w: World, d: nat, submitted: bool, stage: Stage): World
    requires InFlight(w, d)
  {
    var v := w.deliveries[d];
    var s := Cancel(StateOf(w.table, v.msg.from), v.stage.txn, submitted);
    Update(w.(table := WithState(w.table, v.msg.from, s)), d, v.(stage := stage, removals := v.removals + 1))
  }

  function Next(w: World, e: Event): World
    requires Possible(w, e)
  {
    match e
    case Deliver(d, msg) => Update(w, d, Delivery(msg, Received, 0, 0, 0))
    case RefuseEarly(d) => Update(w, d, w.deliveries[d].(stage := Failing))
    case AdmitNow(d, storeUp, node) => AfterAdmission(w, d, storeUp, node)
    case SendOk(d, hash) =>
      var v := w.deliveries[d];
      Update(w.(accepted := w.accepted + [v.msg.id]), d, v.(stage := Active(v.stage.txn, Tracking(hash))))
    case SendFails(d) => Drop(w, d, false, Failing)
    case RecordHash(d, storeUp) =>
      var v := w.deliveries[d];
      var written := v.msg.check && storeUp && v.msg.id in w.store;
      Update(w.(store := if written then w.store[v.msg.id := v.stage.phase.hash] else w.store), d,
             v.(stage := Active(v.stage.txn, Phase.Recorded(v.stage.phase.hash))))
    case Answer(d) =>
      var v := w.deliveries[d];
      Update(w, d, v.(stage := Active(v.stage.txn, Answered(v.stage.phase.hash)), replies := v.replies + 1))
    case Finish(d) => Drop(w, d, true, Done(false))
    case ReplyError(d) =>
      var v := w.deliveries[d];
      Update(w, d, v.(stage := Done(false), replies := v.replies + 1))
    case Notify(d) =>
      var v := w.deliveries[d];
      Update(w, d, v.(stage := Done(false), replies := v.replies + 1))
    case OutsideWrite(id, hash) => w.(store := w.store[id := hash])
  }

  predicate PossibleRun(w: World, events: seq<Event>)
    decreases |events|
  {
    events != [] ==> Possible(w, events[0]) && PossibleRun(Next(w, events[0]), events[1..])
  }

  function After(w: World, events: seq<Event>): World
    requires PossibleRun(w, events)
    decreases |events|
  {
    if events == [] then w else After(Next(w, events[0]), events[1..])
  }

  function Start(store: map<string, string>): World {
    World(map[], 1000000, store, map[], [])
  }

  // -------------------------------------------- replies, admissions and removals of one delivery

  /** A delivery's counters are fixed by its stage. */
  predicate Accounted(v: Delivery) {
    match v.stage
    case Received => v.replies == 0 && v.admissions == 0 && v.removals == 0
    case Active(_, phase) => v.replies == (if phase.Answered? then 1 else 0) && v.admissions == 1 && v.removals == 0
    case Failing => v.replies == 0 && v.removals == v.admissions <= 1
    case Notifying => v.replies == 0 && v.removals == v.admissions == 0
    case Done(skipped) =>
      v.replies == (if skipped then 0 else 1) && v.removals == v.admissions <= (if skipped then 0 else 1)
  }

  predicate AllAccounted(w: World) {
    forall d :: d in w.deliveries ==> Accounted(w.deliveries[d])
  }

  lemma {:induction false} AccountedThroughout(w: World, events: seq<Event>)
    requires AllAccounted(w) && PossibleRun(w, events)
    ensures AllAccounted(After(w, events))
    decreases |events|
  {
    if events != [] {
      AccountedThroughout(Next(w, events[0]), events[1..]);
    }
  }

  /**
    On every path of every run, a delivery that has finished sent exactly one reply and had its in-flight
    entry, if it got one, removed exactly once; the exception is a skipped redelivery, which got neither.
   */
  lemma ExactlyOneReply(store: map<string, string>, events: seq<Event>, d: nat)
    requires PossibleRun(Start(store), events)
    requires d in After(Start(store), events).deliveries
    requires After(Start(store), events).deliveries[d].stage.Done?
    ensures var v := After(Start(store), events).deliveries[d];
            && v.replies == (if v.stage.skipped then 0 else 1)
            && v.removals == v.admissions <= 1
            && (v.stage.skipped ==> v.admissions == 0)
  {
    AccountedThroughout(Start(store), events);
  }

  /** Steps a delivery still has to take. */
  function Remaining(stage: Stage): nat {
    match stage
    case Received => 6
    case Active(_, phase) =>
      (match phase case Unsent => 5 case Tracking(_) => 4 case Recorded(_) => 3 case Answered(_) => 2)
    case Failing => 1
    case Notifying => 1
    case Done(_) => 0
  }

  function Subject(e: Event): Option<nat> {
    match e
    case Deliver(_, _) => None
    case OutsideWrite(_, _) => None
    case RefuseEarly(d) => Some(d)
    case AdmitNow(d, _, _) => Some(d)
    case SendOk(d, _) => Some(d)
    case SendFails(d) => Some(d)
    case RecordHash(d, _) => Some(d)
    case Answer(d) => Some(d)
    case Finish(d) => Some(d)
    case ReplyError(d) => Some(d)
    case Notify(d) => Some(d)
  }

  /** A delivery moves only by its own steps, and each one brings it closer to its end. */
  lemma OwnStepsMakeProgress(w: World, e: Event, d: nat)
    requires d in w.deliveries && Possible(w, e)
    ensures d in Next(w, e).deliveries
    ensures Subject(e) == Some(d) ==>
              Remaining(Next(w, e).deliveries[d].stage) < Remaining(w.deliveries[d].stage)
    ensures Subject(e) != Some(d) ==> Next(w, e).deliveries[d] == w.deliveries[d]
  {
  }

  /** The events are steps of this delivery and of nothing else. */
  predicate OwnSteps(events: seq<Event>, d: nat) {
    forall i :: 0 <= i < |events| ==> Subject(events[i]) == Some(d)
  }

  /**
    From every state, whatever other deliveries have done so far, a delivery can finish by its own steps alone, and
    it takes no more of them than its stage has left.
   */
  lemma {:induction false} EveryDeliveryCanFinish(w: World, d: nat) returns (events: seq<Event>)
    requires d in w.deliveries
    ensures PossibleRun(w, events) && OwnSteps(events, d) && |events| <= Remaining(w.deliveries[d].stage)
    ensures d in After(w, events).deliveries && After(w, events).deliveries[d].stage.Done?
    decreases Remaining(w.deliveries[d].stage)
  {
    if w.deliveries[d].stage.Done? {
      return [];
    }
    var e := OwnStep(w, d);
    OwnStepsMakeProgress(w, e, d);
    var rest := EveryDeliveryCanFinish(Next(w, e), d);
    events := [e] + rest;
    assert events[1..] == rest;
  }

  lemma OwnStep(w: World, d: nat) returns (e: Event)
    requires d in w.deliveries && !w.deliveries[d].stage.Done?
    ensures Possible(w, e) && Subject(e) == Some(d) && !e.AdmitNow?
  {
    match w.deliveries[d].stage
    case Received => e := RefuseEarly(d);
    case Active(_, phase) =>
      match phase {
        case Unsent => e := SendFails(d);
        case Tracking(_) => e := RecordHash(d, true);
        case Recorded(_) => e := Answer(d);
        case Answered(_) => e := Finish(d);
      }
    case Failing => e := ReplyError(d);
    case Notifying => e := Notify(d);
  }

  // ------------------------------------------------ the in-flight table and its owners

  predicate Owner(w: World, d: nat, from: string, t: Inflight) {
    InFlight(w, d) && w.deliveries[d].msg.from == from && w.deliveries[d].stage.txn == t
  }

  ghost predicate HasOwner(w: World, from: string, t: Inflight) {
    exists d :: Owner(w, d, from, t)
  }

  predicate EntryListed(w: World, d: nat)
    requires InFlight(w, d)
  {
    var v := w.deliveries[d];
    && v.msg.from in w.table && v.stage.txn in w.table[v.msg.from].txns
    && v.stage.txn.msgID == v.msg.id && v.stage.txn.id < w.nextID
  }

  predicate WellListed(s: AddrState, limit: nat) {
    s.txns != [] && DistinctIDs(s.txns) && forall t :: t in s.txns ==> t.id < limit
  }

  /** The table holds exactly one entry for each delivery in flight, and nothing else. */
  ghost predicate Owned(w: World) {
    && (forall d :: InFlight(w, d) ==> EntryListed(w, d))
    && (forall d, e :: InFlight(w, d) && InFlight(w, e) && d != e ==>
          w.deliveries[d].stage.txn.id != w.deliveries[e].stage.txn.id)
    && (forall from :: from in w.table ==> WellListed(w.table[from], w.nextID))
    && (forall from, t :: from in w.table && t in w.table[from].txns ==> HasOwner(w, from, t))
  }

  /** A delivery takes up a new entry: the state before and after. */
  ghost predicate NewEntry(w: World, w': World, d: nat, s: AddrState, txn: Inflight) {
    && At(w, d, Received)
    && var v := w.deliveries[d];
       && s.txns == Listed(StateOf(w.table, v.msg.from)) + [txn]
       && txn.id == w.nextID && txn.msgID == v.msg.id
       && w'.table == w.table[v.msg.from := s] && w'.nextID == w.nextID + 1
       && w'.deliveries == w.deliveries[d := v.(stage := Active(txn, Unsent), admissions := v.admissions + 1)]
  }

  lemma NewEntryKeepsOwned(w: World, d: nat, s: AddrState, txn: Inflight, w': World)
    requires Owned(w) && NewEntry(w, w', d, s, txn)
    ensures Owned(w')
  {
    NewEntryIsListed(w, d, s, txn, w');
    NewEntryHasOwner(w, d, s, txn, w');
  }

  lemma NewEntryIsListed(w: World, d: nat, s: AddrState, txn: Inflight, w': World)
    requires Owned(w) && NewEntry(w, w', d, s, txn)
    ensures forall o :: InFlight(w', o) ==> EntryListed(w', o)
    ensures forall o, q :: InFlight(w', o) && InFlight(w', q) && o != q ==>
              w'.deliveries[o].stage.txn.id != w'.deliveries[q].stage.txn.id
    ensures forall from :: from in w'.table ==> WellListed(w'.table[from], w'.nextID)
  {
    var before := Listed(StateOf(w.table, w.deliveries[d].msg.from));
    assert forall i :: 0 <= i < |before| ==> before[i] in before;
    assert s.txns[|before|] == txn;
    forall o | InFlight(w', o) ensures EntryListed(w', o) && (o != d ==> InFlight(w, o) && EntryListed(w, o)) {
      if o != d {
        assert InFlight(w, o) && EntryListed(w, o);
      }
    }
  }

  lemma NewEntryHasOwner(w: World, d: nat, s: AddrState, txn: Inflight, w': World)
    requires Owned(w) && NewEntry(w, w', d, s, txn)
    ensures forall from, t :: from in w'.table && t in w'.table[from].txns ==> HasOwner(w', from, t)
  {
    var v := w.deliveries[d];
    assert Owner(w', d, v.msg.from, txn);
    forall from, t | from in w'.table && t in w'.table[from].txns ensures HasOwner(w', from, t) {
      if from != v.msg.from || t != txn {
        var o :| Owner(w, o, from, t);
        assert Owner(w', o, from, t);
      }
    }
  }

  lemma AdmissionKeepsOwned(w: World, d: nat, storeUp: bool, node: NodeAnswers)
    requires Owned(w) && At(w, d, Received)
    ensures Owned(AfterAdmission(w, d, storeUp, node))
  {
    var w' := AfterAdmission(w, d, storeUp, node);
    var (admission, s) := AdmissionOf(w, d, storeUp, node);
    if admission.Admitted? {
      NewEntryKeepsOwned(w, d, s.value, admission.txn, w');
    } else {
      SameFlightIsOwned(w, w');
    }
  }

  lemma CancelDropsOne(s: AddrState, t: Inflight, submitted: bool, limit: nat)
    requires WellListed(s, limit) && t in s.txns
    ensures var after := Cancel(Some(s), t, submitted);
            && (forall u :: u in Listed(after) <==> u in s.txns && u != t)
            && (after.Some? ==> WellListed(after.value, limit))
  {
    WithoutDropsOne(s.txns, t);
  }

  /** The table keeps every entry but the dropped one. */
  ghost predicate TableDrops(w: World, w': World, from: string, t: Inflight) {
    && w'.nextID == w.nextID
    && (forall f :: f in w'.table ==> f in w.table && WellListed(w'.table[f], w.nextID))
    && (forall f, u :: f in w'.table && u in w'.table[f].txns ==> u in w.table[f].txns && (f != from || u != t))
    && (forall f, u :: f in w.table && u in w.table[f].txns && (f != from || u != t) ==>
          f in w'.table && u in w'.table[f].txns)
  }

  lemma DropDropsOne(w: World, d: nat, submitted: bool, stage: Stage)
    requires Owned(w) && InFlight(w, d)
    ensures TableDrops(w, Drop(w, d, submitted, stage), w.deliveries[d].msg.from, w.deliveries[d].stage.txn)
  {
    var v := w.deliveries[d];
    assert EntryListed(w, d);
    CancelDropsOne(w.table[v.msg.from], v.stage.txn, submitted, w.nextID);
  }

  /** Every other delivery stays in flight, with its message and entry. */
  predicate OthersStay(w: World, w': World, d: nat) {
    && !InFlight(w', d)
    && (forall o :: o in w.deliveries && o != d ==> o in w'.deliveries && w'.deliveries[o] == w.deliveries[o])
    && (forall o :: o in w'.deliveries && o != d ==> o in w.deliveries)
  }

  lemma DropKeepsOwned(w: World, d: nat, submitted: bool, stage: Stage)
    requires Owned(w) && InFlight(w, d) && !stage.Active?
    ensures Owned(Drop(w, d, submitted, stage))
  {
    DropDropsOne(w, d, submitted, stage);
    OneLeavesKeepsOwned(w, Drop(w, d, submitted, stage), d);
  }

  lemma OneLeavesKeepsOwned(w: World, w': World, d: nat)
    requires Owned(w) && InFlight(w, d) && OthersStay(w, w', d)
    requires TableDrops(w, w', w.deliveries[d].msg.from, w.deliveries[d].stage.txn)
    ensures Owned(w')
  {
    forall from, t | from in w'.table && t in w'.table[from].txns ensures HasOwner(w', from, t) {
      var o :| Owner(w, o, from, t);
      assert Owner(w', o, from, t);
    }
    forall o | InFlight(w', o) ensures InFlight(w, o) && EntryListed(w', o) {
      assert InFlight(w, o) && EntryListed(w, o);
    }
  }

  /** Events that move a delivery on without touching the table. */
  predicate LeavesTable(e: Event) {
    !e.AdmitNow? && !e.SendFails? && !e.Finish?
  }

  /** Such an event neither starts nor ends anyone's stay in flight. */
  lemma OtherStepsKeepInFlight(w: World, e: Event, d: nat)
    requires Possible(w, e) && LeavesTable(e)
    ensures Next(w, e).table == w.table && Next(w, e).nextID == w.nextID
    ensures InFlight(Next(w, e), d) <==> InFlight(w, d)
    ensures InFlight(w, d) ==>
              && Next(w, e).deliveries[d].msg == w.deliveries[d].msg
              && Next(w, e).deliveries[d].stage.txn == w.deliveries[d].stage.txn
  {
  }

  lemma OtherStepsKeepOwned(w: World, e: Event)
    requires Owned(w) && Possible(w, e) && LeavesTable(e)
    ensures Owned(Next(w, e))
  {
    SameFlightIsOwned(w, Next(w, e)) by {
      forall d {
        OtherStepsKeepInFlight(w, e, d);
      }
    }
  }

  lemma SameFlightIsOwned(w: World, w': World)
    requires Owned(w) && w'.table == w.table && w'.nextID >= w.nextID
    requires forall d :: InFlight(w', d) <==> InFlight(w, d)
    requires forall d :: InFlight(w', d) ==>
               && w'.deliveries[d].msg == w.deliveries[d].msg
               && w'.deliveries[d].stage.txn == w.deliveries[d].stage.txn
    ensures Owned(w')
  {
    forall d | InFlight(w', d) ensures EntryListed(w', d) {
      assert InFlight(w, d) && EntryListed(w, d);
    }
    forall from, t | from in w'.table && t in w'.table[from].txns ensures HasOwner(w', from, t) {
      var o :| Owner(w, o, from, t);
      assert InFlight(w', o) && Owner(w', o, from, t);
    }
  }

  lemma StepKeepsOwned(w: World, e: Event)
    requires Owned(w) && Possible(w, e)
    ensures Owned(Next(w, e))
  {
    match e
    case AdmitNow(d, storeUp, node) => AdmissionKeepsOwned(w, d, storeUp, node);
    case SendFails(d) => DropKeepsOwned(w, d, false, Failing);
    case Finish(d) => DropKeepsOwned(w, d, true, Done(false));
    case _ => OtherStepsKeepOwned(w, e);
  }

  lemma {:induction false} OwnedThroughout(w: World, events: seq<Event>)
    requires Owned(w) && PossibleRun(w, events)
    ensures Owned(After(w, events))
    decreases |events|
  {
    if events != [] {
      StepKeepsOwned(w, events[0]);
      OwnedThroughout(Next(w, events[0]), events[1..]);
    }
  }

  /** Once every delivery has finished, no entry is left behind for any address. */
  lemma NothingLeaks(store: map<string, string>, events: seq<Event>)
    requires PossibleRun(Start(store), events)
    requires forall d :: d in After(Start(store), events).deliveries ==>
               After(Start(store), events).deliveries[d].stage.Done?
    ensures After(Start(store), events).table == map[]
  {
    OwnedThroughout(Start(store), events);
    var w := After(Start(store), events);
    if w.table != map[] {
      var from :| from in w.table;
      EntryHasDelivery(w, from);
    }
  }

  lemma EntryHasDelivery(w: World, from: string)
    requires Owned(w) && from in w.table
    ensures exists d :: InFlight(w, d)
  {
    var t := w.table[from].txns[0];
    assert t in w.table[from].txns;
    var o :| Owner(w, o, from, t);
  }

  /** Another delivery of the same message for the same address is in flight. */
  ghost predicate TwinInFlight(w: World, d: nat)
    requires d in w.deliveries
  {
    exists o :: o != d && InFlight(w, o) && SameMessage(w.deliveries[o].msg, w.deliveries[d].msg)
  }

  predicate SameMessage(a: Message, b: Message) {
    a.id == b.id && a.from == b.from
  }

  /**
    In every state of every run, a delivery is skipped without a reply exactly when it asks for the redelivery check
    and another delivery of its message is in flight for its address.
   */
  lemma SkippedIffTwinInFlight(store: map<string, string>, events: seq<Event>, d: nat, storeUp: bool,
                               node: NodeAnswers)
    requires PossibleRun(Start(store), events) && At(After(Start(store), events), d, Received)
    ensures var w := After(Start(store), events);
            At(Next(w, AdmitNow(d, storeUp, node)), d, Done(true)) <==> w.deliveries[d].msg.check && TwinInFlight(w, d)
  {
    OwnedThroughout(Start(store), events);
    ListedIffTwinInFlight(After(Start(store), events), d);
  }

  lemma ListedIffTwinInFlight(w: World, d: nat)
    requires Owned(w) && At(w, d, Received)
    ensures var m := w.deliveries[d].msg;
            MessageListed(Listed(StateOf(w.table, m.from)), m.id) <==> TwinInFlight(w, d)
  {
    var m := w.deliveries[d].msg;
    var txns := Listed(StateOf(w.table, m.from));
    if MessageListed(txns, m.id) {
      var i :| 0 <= i < |txns| && txns[i].msgID == m.id;
      assert txns[i] in w.table[m.from].txns;
      var o :| Owner(w, o, m.from, txns[i]);
      assert EntryListed(w, o) && SameMessage(w.deliveries[o].msg, m);
    }
    if TwinInFlight(w, d) {
      var o :| o != d && InFlight(w, o) && SameMessage(w.deliveries[o].msg, m);
      assert EntryListed(w, o);
      var i :| 0 <= i < |txns| && txns[i] == w.deliveries[o].stage.txn;
    }
  }

  // -------------------------------------------------------- at most one accepted send

  /** Deliveries of `m.id` are redeliveries of `m`; the store works for it and no writer erases its hash. */
  predicate FairTo(m: Message, w: World, e: Event) {
    match e
    case Deliver(_, msg) => msg.id == m.id ==> msg == m
    case RecordHash(d, storeUp) => d in w.deliveries && w.deliveries[d].msg.id == m.id ==> storeUp
    case OutsideWrite(id, hash) => id == m.id && m.id in w.store && w.store[m.id] != "" ==> hash != ""
    case _ => true
  }

  predicate FairRun(m: Message, w: World, events: seq<Event>)
    requires PossibleRun(w, events)
    decreases |events|
  {
    events != [] ==> FairTo(m, w, events[0]) && FairRun(m, Next(w, events[0]), events[1..])
  }

  predicate HashStored(w: World, id: string) {
    id in w.store && w.store[id] != ""
  }

  predicate InFlightFor(w: World, d: nat, id: string) {
    InFlight(w, d) && w.deliveries[d].msg.id == id
  }

  function AcceptedSends(w: World, id: string): nat {
    multiset(w.accepted)[id]
  }

  /** How far the one delivery of a message that is in flight bears on its second send. */
  predicate PhaseOK(w: World, phase: Phase, id: string) {
    match phase
    case Unsent => AcceptedSends(w, id) == 0
    case Tracking(hash) => hash != ""
    case Recorded(_) => HashStored(w, id)
    case Answered(_) => HashStored(w, id)
  }

  ghost predicate SentInFlight(w: World, id: string) {
    exists d :: InFlightFor(w, d, id) && !w.deliveries[d].stage.phase.Unsent?
  }

  predicate Identified(m: Message, w: World) {
    && m.check && m.id in w.store
    && (forall d :: d in w.deliveries && w.deliveries[d].msg.id == m.id ==> w.deliveries[d].msg == m)
  }

  ghost predicate AloneInFlight(w: World, id: string) {
    forall d, e :: InFlightFor(w, d, id) && InFlightFor(w, e, id) ==> d == e
  }

  ghost predicate PhasesOK(w: World, id: string) {
    forall d :: InFlightFor(w, d, id) ==> PhaseOK(w, w.deliveries[d].stage.phase, id)
  }

  /** What protects message `m` from a second accepted send. */
  ghost predicate Protected(m: Message, w: World) {
    && Identified(m, w) && AloneInFlight(w, m.id) && PhasesOK(w, m.id)
    && (AcceptedSends(w, m.id) > 0 ==> SentInFlight(w, m.id) || HashStored(w, m.id))
    && AcceptedSends(w, m.id) <= 1
  }

  lemma NotInFlightBeforeAdmission(m: Message, w: World, d: nat, storeUp: bool, node: NodeAnswers)
    requires Owned(w) && Protected(m, w) && At(w, d, Received) && w.deliveries[d].msg == m
    requires AdmissionOf(w, d, storeUp, node).0.Admitted?
    ensures forall o :: !InFlightFor(w, o, m.id)
    ensures AcceptedSends(w, m.id) == 0
  {
    AnyInFlightMeansListed(m, w);
  }

  lemma AnyInFlightMeansListed(m: Message, w: World)
    requires Owned(w) && Identified(m, w)
    ensures (exists o :: InFlightFor(w, o, m.id)) ==> MessageListed(Listed(StateOf(w.table, m.from)), m.id)
  {
    forall o | InFlightFor(w, o, m.id) ensures MessageListed(Listed(StateOf(w.table, m.from)), m.id) {
      InFlightMeansListed(w, o);
    }
  }

  lemma InFlightMeansListed(w: World, o: nat)
    requires Owned(w) && InFlight(w, o)
    ensures var m := w.deliveries[o].msg;
            MessageListed(Listed(StateOf(w.table, m.from)), m.id)
  {
    assert EntryListed(w, o);
    var txns := w.table[w.deliveries[o].msg.from].txns;
    var i :| 0 <= i < |txns| && txns[i] == w.deliveries[o].stage.txn;
    assert txns[i].msgID == w.deliveries[o].msg.id;
  }

  /** A step that leaves what concerns the message as it was keeps the protection. */
  lemma CarryProtected(m: Message, w: World, w': World)
    requires Protected(m, w) && Identified(m, w')
    requires AcceptedSends(w', m.id) == AcceptedSends(w, m.id)
    requires HashStored(w, m.id) ==> HashStored(w', m.id)
    requires forall d :: InFlightFor(w', d, m.id) ==>
               InFlightFor(w, d, m.id) && w'.deliveries[d].stage.phase == w.deliveries[d].stage.phase
    requires forall d :: InFlightFor(w, d, m.id) ==>
               InFlightFor(w', d, m.id) || w.deliveries[d].stage.phase.Unsent? || HashStored(w', m.id)
    ensures Protected(m, w')
  {
    if SentInFlight(w, m.id) && !HashStored(w', m.id) {
      var o :| InFlightFor(w, o, m.id) && !w.deliveries[o].stage.phase.Unsent?;
      assert InFlightFor(w', o, m.id);
    }
    forall d | InFlightFor(w', d, m.id) ensures PhaseOK(w', w'.deliveries[d].stage.phase, m.id) {
      assert PhaseOK(w, w.deliveries[d].stage.phase, m.id);
    }
  }

  lemma AdmissionEffect(w: World, d: nat, storeUp: bool, node: NodeAnswers)
    requires At(w, d, Received)
    ensures var w' := AfterAdmission(w, d, storeUp, node);
            var stage := w'.deliveries[d].stage;
            && w'.accepted == w.accepted && w'.store == w.store
            && w'.deliveries == w.deliveries[d := w'.deliveries[d]] && w'.deliveries[d].msg == w.deliveries[d].msg
            && (stage.Active? <==> AdmissionOf(w, d, storeUp, node).0.Admitted?)
            && (stage.Active? ==> stage.phase.Unsent?)
  {
  }

  lemma AdmissionKeepsProtected(m: Message, w: World, d: nat, storeUp: bool, node: NodeAnswers)
    requires Owned(w) && Protected(m, w) && At(w, d, Received)
    ensures Protected(m, AfterAdmission(w, d, storeUp, node))
  {
    var w' := AfterAdmission(w, d, storeUp, node);
    var own := w.deliveries[d].msg.id == m.id && AdmissionOf(w, d, storeUp, node).0.Admitted?;
    assert own ==> (forall o :: !InFlightFor(w, o, m.id)) && AcceptedSends(w, m.id) == 0 by {
      if own {
        NotInFlightBeforeAdmission(m, w, d, storeUp, node);
      }
    }
    DeliveryUpdateKeepsProtected(m, w, d, w') by {
      AdmissionEffect(w, d, storeUp, node);
    }
  }

  lemma DeliveryUpdateKeepsProtected(m: Message, w: World, d: nat, w': World)
    requires Protected(m, w) && At(w, d, Received) && d in w'.deliveries
    requires w'.accepted == w.accepted && w'.store == w.store
    requires w'.deliveries == w.deliveries[d := w'.deliveries[d]] && w'.deliveries[d].msg == w.deliveries[d].msg
    requires InFlightFor(w', d, m.id) ==>
               && w'.deliveries[d].stage.phase.Unsent?
               && (forall o :: !InFlightFor(w, o, m.id)) && AcceptedSends(w, m.id) == 0
    ensures Protected(m, w')
  {
    if InFlightFor(w', d, m.id) {
      assert forall o :: InFlightFor(w', o, m.id) ==> o == d || InFlightFor(w, o, m.id);
    } else {
      CarryProtected(m, w, w');
    }
  }

  lemma DropKeepsProtected(m: Message, w: World, d: nat, submitted: bool, stage: Stage)
    requires Protected(m, w) && InFlight(w, d) && !stage.Active?
    requires w.deliveries[d].stage.phase.Unsent? || w.deliveries[d].stage.phase.Answered?
    ensures Protected(m, Drop(w, d, submitted, stage))
  {
    var w' := Drop(w, d, submitted, stage);
    assert w.deliveries[d].msg.id == m.id ==> InFlightFor(w, d, m.id);
    CarryProtected(m, w, w');
  }

  /** The message's own delivery moves from one phase to the next. */
  lemma OwnPhaseKeepsProtected(m: Message, w: World, e: Event)
    requires Protected(m, w) && Possible(w, e) && FairTo(m, w, e)
    requires (e.SendOk? || e.RecordHash? || e.Answer?) && w.deliveries[e.d].msg.id == m.id
    ensures Protected(m, Next(w, e))
  {
    var w' := Next(w, e);
    assert InFlightFor(w, e.d, m.id) && PhaseOK(w, w.deliveries[e.d].stage.phase, m.id);
    forall o | InFlightFor(w', o, m.id) ensures o == e.d {
      assert o != e.d ==> InFlightFor(w, o, m.id);
    }
    assert InFlightFor(w', e.d, m.id) && !w'.deliveries[e.d].stage.phase.Unsent?;
  }

  lemma OtherStepsKeepProtected(m: Message, w: World, e: Event)
    requires Protected(m, w) && Possible(w, e) && FairTo(m, w, e) && LeavesTable(e)
    ensures Protected(m, Next(w, e))
  {
    if (e.SendOk? || e.RecordHash? || e.Answer?) && w.deliveries[e.d].msg.id == m.id {
      OwnPhaseKeepsProtected(m, w, e);
    } else {
      forall d {
        OtherPhaseUntouched(m, w, e, d);
      }
      CarryProtected(m, w, Next(w, e));
    }
  }

  lemma OtherPhaseUntouched(m: Message, w: World, e: Event, d: nat)
    requires Possible(w, e) && LeavesTable(e)
    requires !((e.SendOk? || e.RecordHash? || e.Answer?) && w.deliveries[e.d].msg.id == m.id)
    ensures InFlightFor(Next(w, e), d, m.id) <==> InFlightFor(w, d, m.id)
    ensures InFlightFor(w, d, m.id) ==> Next(w, e).deliveries[d] == w.deliveries[d]
  {
  }

  lemma StepKeepsProtected(m: Message, w: World, e: Event)
    requires Owned(w) && Protected(m, w) && Possible(w, e) && FairTo(m, w, e)
    ensures Protected(m, Next(w, e))
  {
    match e
    case AdmitNow(d, storeUp, node) => AdmissionKeepsProtected(m, w, d, storeUp, node);
    case SendFails(d) => DropKeepsProtected(m, w, d, false, Failing);
    case Finish(d) => DropKeepsProtected(m, w, d, true, Done(false));
    case _ => OtherStepsKeepProtected(m, w, e);
  }

  lemma {:induction false} ProtectedThroughout(m: Message, w: World, events: seq<Event>)
    requires Owned(w) && Protected(m, w) && PossibleRun(w, events) && FairRun(m, w, events)
    ensures Protected(m, After(w, events))
    decreases |events|
  {
    if events != [] {
      StepKeepsOwned(w, events[0]);
      StepKeepsProtected(m, w, events[0]);
      ProtectedThroughout(m, Next(w, events[0]), events[1..]);
    }
  }

  /**
    With the redelivery check on, an accepted record in a working store and no writer erasing a recorded
    hash, every interleaving of redeliveries, sends and completions gets a message accepted at most once.
   */
  lemma AtMostOneAcceptedSend(m: Message, store: map<string, string>, events: seq<Event>)
    requires m.check && m.id in store
    requires PossibleRun(Start(store), events) && FairRun(m, Start(store), events)
    ensures multiset(After(Start(store), events).accepted)[m.id] <= 1
  {
    ProtectedThroughout(m, Start(store), events);
  }
}
