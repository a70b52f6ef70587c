/**
  The transaction processor (internal/tx/txnprocessor.go): the in-flight table, updated in place under its lock, the
  send retry loop, and the handling of one message from `OnMessage` to its reply.

  A delivery runs through `OnMessage` and, when they are started, the goroutines that continue it. Between any two of
  its lock-protected regions and external calls, `Interfere` lets everything else in the process move on.
 */
module TxnProcessors {
  import opened Options
  import opened Nonces
  import opened Lifecycle
  import opened Traces

  /** An address is consistent and each of its entry ids is below `limit`. */
  ghost predicate Tracked(s: AddrState, limit: nat) {
    Consistent(Some(s)) && forall t :: t in s.txns ==> t.id < limit
  }

  lemma AdmitKeepsTracked(state: Option<AddrState>, id: nat, msgID: string, check: bool, lookup: StoreLookup,
                          req: NonceRequest, node: NodeAnswers)
    requires state.Some? ==> Tracked(state.value, id)
    ensures var after := Admit(state, id, msgID, check, lookup, req, node).1;
            after.Some? ==> Tracked(after.value, id + 1)
  {
    AdmitKeepsConsistent(state, id, msgID, check, lookup, req, node);
  }

  lemma CancelKeepsTracked(s: AddrState, t: Inflight, submitted: bool, limit: nat)
    requires Tracked(s, limit)
    ensures Cancel(Some(s), t, submitted).Some? ==> Tracked(Cancel(Some(s), t, submitted).value, limit)
  {
    CancelKeepsConsistent(Some(s), t, submitted);
    WithoutKeepsIDsDistinct(s.txns, t.id);
  }

  ghost predicate AllTracked(table: map<string, AddrState>, limit: nat) {
    forall from :: from in table ==> Tracked(table[from], limit)
  }

  lemma WithStateKeepsTracked(table: map<string, AddrState>, from: string, s: Option<AddrState>, limit: nat,
                              limit': nat)
    requires AllTracked(table, limit) && limit <= limit' && (s.Some? ==> Tracked(s.value, limit'))
    ensures AllTracked(WithState(table, from, s), limit')
  {
  }

  lemma AdmitKeepsAllTracked(table: map<string, AddrState>, from: string, id: nat, msgID: string, check: bool,
                             lookup: StoreLookup, req: NonceRequest, node: NodeAnswers)
    requires AllTracked(table, id)
    ensures var after := Admit(StateOf(table, from), id, msgID, check, lookup, req, node).1;
            AllTracked(WithState(table, from, after), id + 1)
  {
    AdmitKeepsTracked(StateOf(table, from), id, msgID, check, lookup, req, node);
    WithStateKeepsTracked(table, from, Admit(StateOf(table, from), id, msgID, check, lookup, req, node).1, id, id + 1);
  }

  lemma CancelKeepsAllTracked(table: map<string, AddrState>, from: string, t: Inflight, submitted: bool, limit: nat)
    requires AllTracked(table, limit)
    ensures AllTracked(WithState(table, from, Cancel(StateOf(table, from), t, submitted)), limit)
  {
    if from in table {
      CancelKeepsTracked(table[from], t, submitted, limit);
    }
    WithStateKeepsTracked(table, from, Cancel(StateOf(table, from), t, submitted), limit, limit);
  }

  lemma StepKeepsTracked(w: World, e: Event)
    requires AllTracked(w.table, w.nextID) && Possible(w, e)
    ensures AllTracked(Next(w, e).table, Next(w, e).nextID)
  {
    match e
    case AdmitNow(d, storeUp, node) =>
      var m := w.deliveries[d].msg;
      AdmitKeepsAllTracked(w.table, m.from, w.nextID, m.id, m.check, StoreAnswer(w, m.id, storeUp), m.req, node);
      WithStateKeepsTracked(w.table, m.from, StateOf(w.table, m.from), w.nextID, w.nextID + 1);
    case SendFails(d) =>
      CancelKeepsAllTracked(w.table, w.deliveries[d].msg.from, w.deliveries[d].stage.txn, false, w.nextID);
    case Finish(d) =>
      CancelKeepsAllTracked(w.table, w.deliveries[d].msg.from, w.deliveries[d].stage.txn, true, w.nextID);
    case _ =>
  }

  // ------------------------------------------------------------------ what one delivery meets

  datatype MsgType = DeployContract | SendTransaction | OtherType

  /** One look for the receipt: mined or not, an RPC error or not, past the maximum wait or not. */
  datatype Poll = Poll(mined: bool, failed: bool, late: bool)

  /** What becomes of a gap-fill transaction that is to be submitted. */
  datatype GapFill = NotBuilt | FillFailed(hash: string) | FillSent(hash: string)

  /** What parsing, signing, the node, the receipt store and the clock do with one delivery. */
  datatype Answers = Answers(
    msgType: MsgType,
    unmarshals: bool,
    prepares: bool,                  // signer, from address and privacy group
    storeUp: bool,
    node: NodeAnswers,
    builds: bool,                    // the transaction can be built
    rpcKnown: bool,                  // no address book lookup is needed
    lookupOK: bool,
    attempts: nat -> SendAttempt,
    gapFill: GapFill,
    hash: string,                    // of the accepted transaction
    recordUp: bool,                  // the receipt store, when the hash is recorded
    polls: nat -> Poll,
    success: bool,                   // the status in the receipt
    registerAs: string)

  datatype Reply =
    | ErrorReply(status: int)
    | ErrorReplyWithGapFill(status: int, gapFillHash: string, gapFilled: bool)
    | ErrorReplyWithTX(status: int, hash: string)
    | RedeliveryPrevented(hash: string)
    | ReceiptReply(success: bool, hash: string, nonce: int, registerAs: string)

  /** The wait for a receipt ends with this look. */
  predicate EndsWait(polls: nat -> Poll, n: nat) {
    (polls(n).mined || polls(n).late) && forall i :: 0 <= i < n ==> !polls(i).mined && !polls(i).late
  }

  /** The maximum wait comes to an end. */
  ghost predicate Terminates(polls: nat -> Poll) {
    exists n: nat :: polls(n).late
  }

  /**
    The reply of `waitForCompletion`: a receipt that is found too late is answered with a time-out, or with 500 when the
    last look ended in an error; otherwise it tells the outcome, the nonce and the name to register.
   */
  predicate TellsOutcome(reply: Reply, last: Poll, a: Answers, nonce: int, registerAs: string) {
    match reply
    case ErrorReplyWithTX(status, hash) => last.late && hash == a.hash && status == (if last.failed then 500 else 408)
    case ReceiptReply(success, hash, n, name) =>
      !last.late && success == a.success && hash == a.hash && n == nonce && name == registerAs
    case _ => false
  }

  /** The reply belongs to the look that ends the wait. */
  ghost predicate IsFinal(reply: Reply, a: Answers, nonce: int, registerAs: string) {
    exists n: nat :: EndsWait(a.polls, n) && TellsOutcome(reply, a.polls(n), a, nonce, registerAs)
  }

  /** The reply for an entry that was not sent, after a gap fill was or was not to be submitted. */
  function UnsentReply(fillGap: bool, g: GapFill): Reply {
    if fillGap && !g.NotBuilt? then ErrorReplyWithGapFill(400, g.hash, g.FillSent?)
    else ErrorReplyWithGapFill(400, "", false)
  }

  /**
    The reply reports a gap fill as done if and only if the node accepted one: the entry left a gap when it was
    cancelled in state `w`, the processor is configured to fill gaps and has a client, and the submission succeeded.
   */
  predicate TellsGapFill(reply: Reply, w: World, from: string, t: Inflight, canFill: bool, g: GapFill) {
    var due := GapFillNeeded(StateOf(w.table, from), t, false) && canFill;
    && reply.ErrorReplyWithGapFill? && reply.status == 400
    && (reply.gapFilled <==> due && g.FillSent?)
    && reply.gapFillHash == if due && !g.NotBuilt? then g.hash else ""
  }

  function Appended(sent: map<nat, seq<Reply>>, d: nat, reply: Reply): seq<Reply> {
    if d in sent then sent[d] + [reply] else [reply]
  }

  /** The replies on all contexts, once this delivery has sent its own. */
  function WithReplies(sent: map<nat, seq<Reply>>, d: nat, replies: seq<Reply>): map<nat, seq<Reply>> {
    if replies == [] then sent else sent[d := replies]
  }

  // ------------------------------------------------------------------ the steps of one delivery in the log

  /** The two moments are the admission of a delivery and its cancellation before a send. */
  function WithOwn(h: History<World, Event>, e: Event): History<World, Event>
    requires Possible(h.now, e)
  {
    Noted(h, e, Next(h.now, e), e.AdmitNow?, e.SendFails?)
  }

  function WithOther(h: History<World, Event>, e: Event): History<World, Event>
    requires Possible(h.now, e)
  {
    Passed(h, e, Next(h.now, e))
  }

  lemma OwnIsKept(h: History<World, Event>, start: World, e: Event)
    requires Kept(Steps, h, start) && Possible(h.now, e)
    ensures Kept(Steps, WithOwn(h, e), start)
  {
    NotedIsKept(Steps, h, start, e, Next(h.now, e), e.AdmitNow?, e.SendFails?);
  }

  lemma OtherIsKept(h: History<World, Event>, start: World, e: Event)
    requires Kept(Steps, h, start) && Possible(h.now, e)
    ensures Kept(Steps, WithOther(h, e), start)
  {
    PassedIsKept(Steps, h, start, e, Next(h.now, e));
  }

  predicate SameOwn(h: History<World, Event>, h': History<World, Event>) {
    h'.did == h.did && h'.first == h.first && h'.second == h.second
  }

  predicate StillIn(a: seq<string>, b: seq<string>) {
    forall x :: x in a ==> x in b
  }

  lemma AcceptedGrows(w: World, e: Event)
    requires Possible(w, e)
    ensures StillIn(w.accepted, Next(w, e).accepted)
  {
  }

  /** This was the outcome of the admission in the state it happened in. */
  ghost predicate AdmittedAs(h: History<World, Event>, d: nat, a: Answers, admission: Admission) {
    && h.first.Some? && h.first.value.e == AdmitNow(d, a.storeUp, a.node) && d in h.first.value.s.deliveries
    && AdmissionOf(h.first.value.s, d, a.storeUp, a.node).0 == admission
  }

  /** The message is of a known type and can be read. */
  predicate Readable(a: Answers) {
    !a.msgType.OtherType? && a.unmarshals
  }

  /** The name under which a contract is to be registered: only a deployment has one. */
  function NameFor(a: Answers): string {
    if a.msgType.DeployContract? then a.registerAs else ""
  }

  /**
    What a message of a known type that can be read comes to: the steps that its delivery takes and the replies it gets,
    given the outcome of the admission. `ok` says that the client is found and the node takes the transaction.
   */
  ghost predicate Handled(own: seq<Event>, replies: seq<Reply>, d: nat, a: Answers, admission: Option<Admission>,
                          ok: bool, name: string) {
    var admit := AdmitNow(d, a.storeUp, a.node);
    if !a.prepares then
      admission.None? && own == [RefuseEarly(d), ReplyError(d)] && replies == [ErrorReply(400)]
    else
      && admission.Some?
      && match admission.value
         case AlreadyInFlight => own == [admit] && replies == []
         case AlreadyDispatched(hash) => own == [admit, Notify(d)] && replies == [RedeliveryPrevented(hash)]
         case Rejected(_) => own == [admit, ReplyError(d)] && replies == [ErrorReply(400)]
         case Admitted(t) =>
           if !a.builds then own == [admit, SendFails(d), ReplyError(d)] && replies == [ErrorReply(400)]
           else if !ok then
             own == [admit, SendFails(d), ReplyError(d)] && |replies| == 1 && replies[0].ErrorReplyWithGapFill?
           else
             && own == [admit, SendOk(d, a.hash), RecordHash(d, a.recordUp), Answer(d), Finish(d)]
             && |replies| == 1 && IsFinal(replies[0], a, t.nonce, name)
  }

  /** What `addInflightWrapper` has done about a message and left to do. */
  ghost predicate Wrapped(own: seq<Event>, d: nat, a: Answers, admission: Option<Admission>, inflight: Option<Inflight>,
                          err: bool) {
    && (admission.Some? <==> a.prepares)
    && (admission.None? ==> err && own == [RefuseEarly(d)])
    && (inflight.Some? ==> admission == Some(Admitted(inflight.value)))
    && (admission.Some? ==>
          && (inflight.Some? <==> admission.value.Admitted?)
          && (err <==> admission.value.Rejected?)
          && own == [AdmitNow(d, a.storeUp, a.node)] + if admission.value.AlreadyDispatched? then [Notify(d)] else [])
  }

  /** Where it leaves the delivery: with an error to reply to, with an entry, or done. */
  predicate LeftAt(stage: Stage, inflight: Option<Inflight>, err: bool, replies: seq<Reply>) {
    if err then inflight.None? && stage == Failing && replies == []
    else if inflight.Some? then stage == Active(inflight.value, Unsent) && replies == []
    else stage.Done? && |replies| == if stage.skipped then 0 else 1
  }

  /** What is sent afterwards for an entry. */
  ghost predicate Followed(more: seq<Event>, replies: seq<Reply>, d: nat, a: Answers, t: Inflight, ok: bool,
                           name: string) {
    && |replies| == 1
    && if a.builds && ok then
         && more == [SendOk(d, a.hash), RecordHash(d, a.recordUp), Answer(d), Finish(d)]
         && IsFinal(replies[0], a, t.nonce, name)
       else
         && more == [SendFails(d), ReplyError(d)]
         && if a.builds then replies[0].ErrorReplyWithGapFill? else replies[0] == ErrorReply(400)
  }

  lemma HandledInTwo(own: seq<Event>, more: seq<Event>, replies: seq<Reply>, d: nat, a: Answers,
                     admission: Option<Admission>, inflight: Option<Inflight>, err: bool, ok: bool, name: string)
    requires Wrapped(own, d, a, admission, inflight, err)
    requires inflight.Some? ==> Followed(more, replies, d, a, inflight.value, ok, name)
    requires err ==> more == [ReplyError(d)] && replies == [ErrorReply(400)]
    requires !err && inflight.None? ==>
               more == [] &&
               replies == if admission.value.AlreadyDispatched? then [RedeliveryPrevented(admission.value.hash)] else []
    ensures Handled(own + more, replies, d, a, admission, ok, name)
    ensures SendOk(d, a.hash) in own + more ==> SendOk(d, a.hash) in more
    ensures (if inflight.Some? then [inflight.value.id] else []) == EntryOf(admission)
  {
  }

  /** The client is found and the node takes the transaction of an admitted message. */
  ghost predicate TakenBy(a: Answers, admission: Option<Admission>, force: bool, retryMax: int) {
    && admission.Some? && admission.value.Admitted?
    && SendsOK(a, force, admission.value.txn.source.NodeAssigned?, retryMax)
  }

  ghost predicate Sends(a: Answers, inflight: Option<Inflight>, force: bool, retryMax: int) {
    inflight.Some? && SendsOK(a, force, inflight.value.source.NodeAssigned?, retryMax)
  }

  lemma Joined(a: seq<Event>, b: seq<Event>, c: seq<Event>)
    ensures (a + b) + c == a + (b + c)
  {
  }

  lemma TakenMeansSent(a: Answers, admission: Option<Admission>, inflight: Option<Inflight>, force: bool, retryMax: int)
    requires inflight.Some? ==> admission == Some(Admitted(inflight.value))
    requires inflight.None? && admission.Some? ==> !admission.value.Admitted?
    ensures TakenBy(a, admission, force, retryMax) <==> Sends(a, inflight, force, retryMax)
    ensures (if inflight.Some? then [inflight.value.id] else []) == EntryOf(admission)
  {
  }

  function EntryOf(admission: Option<Admission>): seq<nat> {
    if admission.Some? && admission.value.Admitted? then [admission.value.txn.id] else []
  }

  /** What any message comes to: one that cannot be read is refused. */
  ghost predicate Concluded(own: seq<Event>, replies: seq<Reply>, entry: seq<nat>, d: nat, a: Answers,
                            admission: Option<Admission>, force: bool, retryMax: int) {
    && entry == EntryOf(admission)
    && if Readable(a) then
         Handled(own, replies, d, a, admission, TakenBy(a, admission, force, retryMax), NameFor(a))
       else
         admission.None? && own == [RefuseEarly(d), ReplyError(d)] && replies == [ErrorReply(400)]
  }

  predicate Steps(w: World, e: Event, w': World) {
    Possible(w, e) && w' == Next(w, e)
  }

  /** A trace is a run of the life cycle model. */
  lemma {:induction false} TraceIsRun(log: seq<Event>, trace: seq<World>)
    requires Traced(Steps, log, trace)
    ensures PossibleRun(trace[0], log) && After(trace[0], log) == trace[|log|]
    decreases |log|
  {
    if log != [] {
      TraceGoesOn(Steps, log, trace);
      TraceIsRun(log[1..], trace[1..]);
    }
  }

  class TxnProcessor {
    const attemptGapFill: bool
    const sendRetryForce: bool
    const sendRetryMax: int
    const schedule: nat -> seq<Event>         // what everything else does, turn by turn
    var inflightTxns: map<string, AddrState>
    var highestID: nat
    var receipts: map<string, string>         // message IDs with a receipt record, and the hash in it
    var deliveries: map<nat, Delivery>        // how far every delivery has come
    var accepted: seq<string>                 // what the node has accepted
    var sent: map<nat, seq<Reply>>            // replies on the context of each delivery
    var turn: nat
    ghost var admitted: seq<nat>              // entries added for deliveries handled here, in order
    ghost var cancelled: seq<nat>             // entries `cancelInFlight` was called for, in order
    ghost const start: World
    ghost var history: History<World, Event>

    function State(): World
      reads this
    {
      World(inflightTxns, highestID, receipts, deliveries, accepted)
    }

    /** Every address is consistent and every entry id has been handed out. */
    ghost predicate TableOK()
      reads this
    {
      AllTracked(inflightTxns, highestID)
    }

    /** Moreover, the history leads from the start to this state. */
    ghost predicate Valid()
      reads this
    {
      TableOK() && Kept(Steps, history, start) && history.now == State()
    }

    constructor (attemptGapFill: bool, sendRetryForce: bool, sendRetryMax: int, receipts: map<string, string>,
                 schedule: nat -> seq<Event>)
      ensures Valid() && start == Start(receipts) && history == NewHistory(start)
      ensures State() == Start(receipts) && sent == map[] && admitted == cancelled == []
    {
      this.attemptGapFill, this.sendRetryForce, this.sendRetryMax := attemptGapFill, sendRetryForce, sendRetryMax;
      this.receipts, this.schedule := receipts, schedule;
      inflightTxns, highestID, deliveries, accepted, sent, turn := map[], 1000000, map[], [], map[], 0;
      admitted, cancelled, history := [], [], NewHistory(Start(receipts));
      start := Start(receipts);
    }

    /**
      The locked region of `addInflightWrapper`. `lookup` and `node` are what the receipt store and the node
      would answer; the code consults them only on the branches that need them.
     */
    method AddInflight(from: string, msgID: string, check: bool, lookup: StoreLookup, req: NonceRequest,
                       node: NodeAnswers) returns (admission: Admission)
      requires TableOK()
      modifies this`inflightTxns, this`highestID
      ensures TableOK() && highestID == old(highestID) + 1
      ensures var (outcome, after) :=
                Admit(StateOf(old(inflightTxns), from), old(highestID), msgID, check, lookup, req, node);
              admission == outcome && inflightTxns == WithState(old(inflightTxns), from, after)
    {
      AdmitKeepsAllTracked(inflightTxns, from, highestID, msgID, check, lookup, req, node);
      var id := highestID;
      highestID := highestID + 1;
      var alreadyInflightForAddr := from in inflightTxns;
      var forAddr := if alreadyInflightForAddr then inflightTxns[from] else AddrState([], 0);
      if check {
        var listed := FindMessage(forAddr.txns, msgID);
        if listed {
          return AlreadyInFlight;
        }
        if lookup.StoreFailed? {
          return Rejected(StoreCheckFailed);
        }
        if lookup.Recorded? && lookup.hash != "" {
          return AlreadyDispatched(lookup.hash);
        }
      }
      var choice := AssignNonce(forAddr, alreadyInflightForAddr, req, node);
      if choice.Refused? {
        return Rejected(choice.error);
      }
      var txn := Inflight(id, msgID, choice.nonce, choice.source);
      inflightTxns := inflightTxns[from := AddrState(forAddr.txns + [txn], choice.highestNonce)];
      admission := Admitted(txn);
    }

    /** `cancelInFlight`; the result says whether a gap-fill transaction is submitted for `t`. */
    method CancelInFlight(from: string, t: Inflight, submitted: bool, rpcKnown: bool) returns (fillGap: bool)
      requires TableOK()
      modifies this`inflightTxns, this`cancelled
      ensures TableOK() && cancelled == old(cancelled) + [t.id]
      ensures inflightTxns ==
              WithState(old(inflightTxns), from, Cancel(StateOf(old(inflightTxns), from), t, submitted))
      ensures fillGap ==
              (GapFillNeeded(StateOf(old(inflightTxns), from), t, submitted) && rpcKnown && attemptGapFill)
    {
      CancelKeepsAllTracked(inflightTxns, from, t, submitted, highestID);
      cancelled := cancelled + [t.id];
      var highestNonce := -1;
      if from in inflightTxns {
        var after: Option<AddrState>;
        after, highestNonce := DropEntry(inflightTxns[from], t, submitted);
        inflightTxns := WithState(inflightTxns, from, after);
      }
      fillGap := !submitted && highestNonce > t.nonce && !t.source.NodeAssigned? && rpcKnown && attemptGapFill;
    }

    // ---------------------------------------------------------------- everything else in the process

    /** One turn of everything else: any steps of other deliveries and outside writes that are possible. */
    method Interfere(d: nat)
      requires Valid() && d in deliveries
      modifies this`inflightTxns, this`highestID, this`receipts, this`deliveries, this`accepted, this`turn, this`history
      ensures Valid() && StillIn(old(accepted), accepted)
      ensures d in deliveries && deliveries[d] == old(deliveries)[d] && SameOwn(old(history), history)
    {
      var events := schedule(turn);
      turn := turn + 1;
      for i := 0 to |events|
        invariant Valid() && StillIn(old(accepted), accepted)
        invariant d in deliveries && deliveries[d] == old(deliveries)[d] && SameOwn(old(history), history)
      {
        if Subject(events[i]) != Some(d) && Possible(State(), events[i]) {
          OwnStepsMakeProgress(State(), events[i], d);
              Perform(events[i]);
        }
      }
    }

    method Perform(e: Event)
      requires Valid() && Possible(State(), e)
      modifies this`inflightTxns, this`highestID, this`receipts, this`deliveries, this`accepted, this`history
      ensures Valid() && State() == Next(old(State()), e)
      ensures StillIn(old(accepted), accepted) && SameOwn(old(history), history)
    {
      StepKeepsTracked(State(), e);
      AcceptedGrows(State(), e);
      OtherIsKept(history, start, e);
      history := WithOther(history, e);
      var w := Next(State(), e);
      inflightTxns, highestID, receipts, deliveries, accepted := w.table, w.nextID, w.store, w.deliveries, w.accepted;
    }

    // ---------------------------------------------------------------- the steps of one delivery

    method Receive(d: nat, msg: Message)
      requires Valid() && d !in deliveries
      modifies this`deliveries, this`history
      ensures Valid()
      ensures deliveries == old(deliveries)[d := Delivery(msg, Received, 0, 0, 0)]
      ensures history.did == old(history).did + [Deliver(d, msg)]
      ensures history.first == old(history).first && history.second == old(history).second
    {
      OwnIsKept(history, start, Deliver(d, msg));
      history := WithOwn(history, Deliver(d, msg));
      deliveries := deliveries[d := Delivery(msg, Received, 0, 0, 0)];
    }

    method Refuse(d: nat)
      requires Valid() && d in deliveries && deliveries[d].stage == Received
      modifies this`deliveries, this`history
      ensures Valid()
      ensures d in deliveries && deliveries[d] == old(deliveries)[d].(stage := Failing)
      ensures history.did == old(history).did + [RefuseEarly(d)]
      ensures history.first == old(history).first && history.second == old(history).second
    {
      OwnIsKept(history, start, RefuseEarly(d));
      history := WithOwn(history, RefuseEarly(d));
      deliveries := deliveries[d := deliveries[d].(stage := Failing)];
    }

    /** A message that cannot be read is answered with an error. */
    method RefuseMessage(d: nat)
      requires Valid() && d in deliveries && deliveries[d].stage == Received && d !in sent
      modifies this
      ensures Valid() && d in deliveries && deliveries[d].stage == Done(false)
      ensures sent == old(sent)[d := [ErrorReply(400)]] && admitted == old(admitted) && cancelled == old(cancelled)
      ensures history.did == old(history).did + [RefuseEarly(d), ReplyError(d)]
    {
      Refuse(d);
      Interfere(d);
      SendReply(d, ErrorReply(400));
    }

    method AdmitDelivery(d: nat, storeUp: bool, node: NodeAnswers) returns (admission: Admission)
      requires Valid() && d in deliveries && deliveries[d].stage == Received
      modifies this`inflightTxns, this`highestID, this`deliveries, this`admitted, this`history
      ensures Valid()
      ensures d in deliveries && deliveries[d].msg == old(deliveries)[d].msg
      ensures deliveries[d].stage == StageAfter(admission)
      ensures admission == AdmissionOf(old(State()), d, storeUp, node).0
      ensures admitted == old(admitted) + if admission.Admitted? then [admission.txn.id] else []
      ensures history.did == old(history).did + [AdmitNow(d, storeUp, node)]
      ensures history.first == Some(Moment(old(State()), AdmitNow(d, storeUp, node)))
    {
      var m := deliveries[d].msg;
      ghost var e := AdmitNow(d, storeUp, node);
      AdmissionState(State(), d, storeUp, node);
      OwnIsKept(history, start, e);
      history := WithOwn(history, e);
      var lookup := StoreAnswer(State(), m.id, storeUp);
      admission := AddInflight(m.from, m.id, m.check, lookup, m.req, node);
      deliveries := deliveries[d := AfterAdmitting(deliveries[d], admission)];
      admitted := admitted + if admission.Admitted? then [admission.txn.id] else [];
    }

    method BeginTracking(d: nat, t: Inflight, hash: string)
      requires Valid() && d in deliveries && deliveries[d].stage == Active(t, Unsent) && hash != ""
      modifies this`deliveries, this`accepted, this`history
      ensures Valid()
      ensures d in deliveries && deliveries[d] == old(deliveries)[d].(stage := Active(t, Tracking(hash)))
      ensures accepted == old(accepted) + [deliveries[d].msg.id]
      ensures history.did == old(history).did + [SendOk(d, hash)]
      ensures history.first == old(history).first && history.second == old(history).second
    {
      OwnIsKept(history, start, SendOk(d, hash));
      history := WithOwn(history, SendOk(d, hash));
      accepted := accepted + [deliveries[d].msg.id];
      deliveries := deliveries[d := deliveries[d].(stage := Active(t, Tracking(hash)))];
    }

    /** `cancelInFlight` for an entry that was not submitted. */
    method CancelUnsent(d: nat, t: Inflight, rpcKnown: bool) returns (fillGap: bool)
      requires Valid() && d in deliveries && deliveries[d].stage == Active(t, Unsent)
      modifies this`inflightTxns, this`deliveries, this`cancelled, this`history
      ensures Valid() && cancelled == old(cancelled) + [t.id]
      ensures d in deliveries && deliveries[d].stage == Failing
      ensures fillGap == (GapFillNeeded(StateOf(old(inflightTxns), old(deliveries)[d].msg.from), t, false) &&
                          rpcKnown && attemptGapFill)
      ensures history.did == old(history).did + [SendFails(d)] && history.first == old(history).first
      ensures history.second == Some(Moment(old(State()), SendFails(d)))
    {
      OwnIsKept(history, start, SendFails(d));
      history := WithOwn(history, SendFails(d));
      fillGap := CancelInFlight(deliveries[d].msg.from, t, false, rpcKnown);
      deliveries := deliveries[d := deliveries[d].(stage := Failing, removals := deliveries[d].removals + 1)];
    }

    /** What follows when an entry cannot be sent: it is cancelled, and then the error reply goes out. */
    method FailUnsent(d: nat, t: Inflight, rpcKnown: bool, g: GapFill, withGapFill: bool) returns (reply: Reply)
      requires Valid() && d in deliveries && deliveries[d].stage == Active(t, Unsent) && d !in sent
      modifies this
      ensures Valid() && d in deliveries && deliveries[d].stage == Done(false) && sent == old(sent)[d := [reply]]
      ensures admitted == old(admitted) && cancelled == old(cancelled) + [t.id]
      ensures history.did == old(history).did + [SendFails(d), ReplyError(d)] && history.first == old(history).first
      ensures history.second == Some(Moment(old(State()), SendFails(d)))
      ensures if withGapFill
              then TellsGapFill(reply, old(State()), old(deliveries)[d].msg.from, t, rpcKnown && attemptGapFill, g)
              else reply == ErrorReply(400)
    {
      var fillGap := CancelUnsent(d, t, rpcKnown);
      Interfere(d);
      reply := if withGapFill then UnsentReply(fillGap, g) else ErrorReply(400);
      SendReply(d, reply);
    }

    /** `cancelInFlight` for an entry that was submitted and answered. */
    method CancelSubmitted(d: nat, t: Inflight, hash: string)
      requires Valid() && d in deliveries && deliveries[d].stage == Active(t, Answered(hash))
      modifies this`inflightTxns, this`deliveries, this`cancelled, this`history
      ensures Valid() && cancelled == old(cancelled) + [t.id]
      ensures d in deliveries && deliveries[d].stage == Done(false)
      ensures history.did == old(history).did + [Finish(d)]
      ensures history.first == old(history).first && history.second == old(history).second
    {
      OwnIsKept(history, start, Finish(d));
      history := WithOwn(history, Finish(d));
      var fillGap := CancelInFlight(deliveries[d].msg.from, t, true, true);
      deliveries := deliveries[d := deliveries[d].(stage := Done(false), removals := deliveries[d].removals + 1)];
    }

    /** `idempotencyUpdateSubmitted`, called only when the redelivery check is on. */
    method UpdateSubmitted(d: nat, t: Inflight, hash: string, storeUp: bool)
      requires Valid() && d in deliveries && deliveries[d].stage == Active(t, Tracking(hash))
      modifies this`receipts, this`deliveries, this`history
      ensures Valid()
      ensures history.did == old(history).did + [RecordHash(d, storeUp)]
      ensures history.first == old(history).first && history.second == old(history).second
      ensures d in deliveries && deliveries[d] == old(deliveries)[d].(stage := Active(t, Phase.Recorded(hash)))
      ensures var m := old(deliveries)[d].msg;
              receipts == if m.check && storeUp && m.id in old(receipts) then old(receipts)[m.id := hash]
                          else old(receipts)
    {
      OwnIsKept(history, start, RecordHash(d, storeUp));
      history := WithOwn(history, RecordHash(d, storeUp));
      var m := deliveries[d].msg;
      if m.check {
        if storeUp && m.id in receipts {
          receipts := receipts[m.id := hash];
        }
      }
      deliveries := deliveries[d := deliveries[d].(stage := Active(t, Phase.Recorded(hash)))];
    }

    /** A reply on the context of a delivery, which must be waiting for one. */
    method SendReply(d: nat, reply: Reply)
      requires Valid() && d in deliveries && AwaitsReply(deliveries[d].stage)
      modifies this`deliveries, this`sent, this`history
      ensures Valid()
      ensures d in deliveries && deliveries[d].stage == Replied(old(deliveries)[d].stage)
      ensures deliveries[d].msg == old(deliveries)[d].msg
      ensures sent == old(sent)[d := Appended(old(sent), d, reply)]
      ensures history.did == old(history).did + [ReplyStep(old(deliveries)[d].stage, d)]
      ensures history.first == old(history).first && history.second == old(history).second
    {
      ghost var e := ReplyStep(deliveries[d].stage, d);
      OwnIsKept(history, start, e);
      history := WithOwn(history, e);
      sent := sent[d := Appended(sent, d, reply)];
      var v := deliveries[d];
      deliveries := deliveries[d := v.(stage := Replied(v.stage), replies := v.replies + 1)];
    }

    // ---------------------------------------------------------------- the handling of one message

    /**
      `OnMessage` and all that follows from it. Whatever the outside world answers and whatever happens in between,
      the delivery ends; unless it was skipped it has sent exactly one reply; exactly the entry it was given, if any,
      has been cancelled, once; and all that happened is a run of the life cycle model. A message that cannot be read is
      refused with 400; any other takes exactly the steps, and gets exactly the reply, that the answers of the outside
      world and the outcome of its admission call for.
     */
    method OnMessage(d: nat, msg: Message, a: Answers)
      returns (ghost replies: seq<Reply>, ghost entry: seq<nat>, ghost own: seq<Event>,
               ghost admission: Option<Admission>)
      requires Valid() && d !in deliveries && d !in sent && a.hash != "" && Terminates(a.polls)
      modifies this
      ensures Valid() && d in deliveries && deliveries[d].stage.Done?
      ensures sent == WithReplies(old(sent), d, replies) && |replies| == if deliveries[d].stage.skipped then 0 else 1
      ensures |entry| <= 1 && admitted == old(admitted) + entry && cancelled == old(cancelled) + entry
      ensures PossibleRun(start, history.log) && After(start, history.log) == State()
      ensures history.did == [Deliver(d, msg)] + own && InLog(history.log, history.did, history.places)
      ensures Concluded(own, replies, entry, d, a, admission, sendRetryForce, sendRetryMax)
      ensures admission.Some? ==> AdmittedAs(history, d, a, admission.value)
      ensures SendOk(d, a.hash) in own ==> msg.id in accepted
    {
      TurnedIsKept(Steps, history, start);
      history := Turned(history);
      Receive(d, msg);
      replies, entry, own, admission := HandleMessage(d, a);
      TraceIsRun(history.log, history.trace);
    }

    /** The branches of `OnMessage`. */
    method HandleMessage(d: nat, a: Answers)
      returns (ghost replies: seq<Reply>, ghost entry: seq<nat>, ghost own: seq<Event>,
               ghost admission: Option<Admission>)
      requires Valid() && d in deliveries && deliveries[d].stage == Received && d !in sent
      requires a.hash != "" && Terminates(a.polls)
      modifies this
      ensures Valid() && d in deliveries && deliveries[d].stage.Done?
      ensures sent == WithReplies(old(sent), d, replies) && |replies| == if deliveries[d].stage.skipped then 0 else 1
      ensures |entry| <= 1 && admitted == old(admitted) + entry && cancelled == old(cancelled) + entry
      ensures history.did == old(history).did + own
      ensures Concluded(own, replies, entry, d, a, admission, sendRetryForce, sendRetryMax)
      ensures admission.Some? ==> AdmittedAs(history, d, a, admission.value)
      ensures SendOk(d, a.hash) in own ==> old(deliveries)[d].msg.id in accepted
    {
      replies, entry, own, admission := [], [], [], None;
      var unmarshalErr := false;
      if a.msgType.DeployContract? {
        if !a.unmarshals {
          unmarshalErr := true;
        } else {
          replies, entry, own, admission := OnTransactionMessage(d, a, a.registerAs);
        }
      } else if a.msgType.SendTransaction? {
        if !a.unmarshals {
          unmarshalErr := true;
        } else {
          replies, entry, own, admission := OnTransactionMessage(d, a, "");
        }
      } else {
        unmarshalErr := true;
      }
      if unmarshalErr {
        RefuseMessage(d);
        replies, own := [ErrorReply(400)], [RefuseEarly(d), ReplyError(d)];
      }
    }

    /**
      `OnDeployContractMessage` and `OnSendTransactionMessage`, which differ in how the transaction is built and in
      the name under which a deployed contract is to be registered.
     */
    method OnTransactionMessage(d: nat, a: Answers, registerAs: string)
      returns (ghost replies: seq<Reply>, ghost entry: seq<nat>, ghost own: seq<Event>,
               ghost admission: Option<Admission>)
      requires Valid() && d in deliveries && deliveries[d].stage == Received && d !in sent
      requires a.hash != "" && Terminates(a.polls)
      modifies this
      ensures Valid() && d in deliveries && deliveries[d].stage.Done?
      ensures sent == WithReplies(old(sent), d, replies) && |replies| == if deliveries[d].stage.skipped then 0 else 1
      ensures |entry| <= 1 && admitted == old(admitted) + entry && cancelled == old(cancelled) + entry
      ensures history.did == old(history).did + own
      ensures Handled(own, replies, d, a, admission, TakenBy(a, admission, sendRetryForce, sendRetryMax), registerAs)
      ensures entry == EntryOf(admission)
      ensures admission.Some? ==> AdmittedAs(history, d, a, admission.value)
      ensures SendOk(d, a.hash) in own ==> old(deliveries)[d].msg.id in accepted
    {
      var inflight, err;
      ghost var first, more, ok;
      inflight, err, replies, first, admission := AddInflightWrapper(d, a);
      replies, more, ok := Conclude(d, a, inflight, err, registerAs, replies);
      entry, own := EntryOf(admission), first + more;
      HandledInTwo(first, more, replies, d, a, admission, inflight, err, ok, registerAs);
      TakenMeansSent(a, admission, inflight, sendRetryForce, sendRetryMax);
      Joined(old(history).did, first, more);
    }

    /** What the two handlers do once the message was dealt with by `addInflightWrapper`. */
    method Conclude(d: nat, a: Answers, inflight: Option<Inflight>, err: bool, registerAs: string,
                    ghost before: seq<Reply>)
      returns (ghost replies: seq<Reply>, ghost more: seq<Event>, ghost ok: bool)
      requires Valid() && d in deliveries && a.hash != "" && Terminates(a.polls)
      requires LeftAt(deliveries[d].stage, inflight, err, before) && (before == [] ==> d !in sent)
      modifies this
      ensures Valid() && d in deliveries && deliveries[d].stage.Done?
      ensures admitted == old(admitted) && history.first == old(history).first
      ensures cancelled == old(cancelled) + if inflight.Some? then [inflight.value.id] else []
      ensures history.did == old(history).did + more
      ensures ok <==> Sends(a, inflight, sendRetryForce, sendRetryMax)
      ensures inflight.Some? ==> Followed(more, replies, d, a, inflight.value, ok, registerAs)
      ensures err ==> more == [ReplyError(d)] && replies == [ErrorReply(400)]
      ensures err || inflight.Some? ==> sent == old(sent)[d := replies] && deliveries[d].stage == Done(false)
      ensures !err && inflight.None? ==>
                more == [] && replies == before && sent == old(sent) && deliveries == old(deliveries)
      ensures SendOk(d, a.hash) in more ==> old(deliveries)[d].msg.id in accepted
    {
      replies, more, ok := before, [], Sends(a, inflight, sendRetryForce, sendRetryMax);
      if err {
        SendReply(d, ErrorReply(400));
        replies, more := [ErrorReply(400)], [ReplyError(d)];
      } else if inflight.Some? {
        replies, more := SendAdmitted(d, a, inflight.value, registerAs);
      }
    }

    /** What the two handlers do with an entry: build the transaction, and send it if that succeeds. */
    method SendAdmitted(d: nat, a: Answers, t: Inflight, registerAs: string)
      returns (ghost replies: seq<Reply>, ghost more: seq<Event>)
      requires Valid() && d in deliveries && deliveries[d].stage == Active(t, Unsent) && d !in sent
      requires a.hash != "" && Terminates(a.polls)
      modifies this
      ensures Valid() && d in deliveries && deliveries[d].stage == Done(false) && sent == old(sent)[d := replies]
      ensures admitted == old(admitted) && cancelled == old(cancelled) + [t.id]
      ensures history.did == old(history).did + more && history.first == old(history).first
      ensures Followed(more, replies, d, a, t, SendsOK(a, sendRetryForce, t.source.NodeAssigned?, sendRetryMax),
                       registerAs)
      ensures SendOk(d, a.hash) in more ==> old(deliveries)[d].msg.id in accepted
    {
      Interfere(d);
      if !a.builds {
        var failure := FailUnsent(d, t, a.rpcKnown, a.gapFill, false);
        return [failure], [SendFails(d), ReplyError(d)];
      }
      ghost var reply;
      reply, more := SendAndTrackMining(d, a, t, registerAs);
      replies := [reply];
    }

    /** The admission, with anything before and after it. */
    method AdmitInTurn(d: nat, a: Answers) returns (outcome: Admission)
      requires Valid() && d in deliveries && deliveries[d].stage == Received
      modifies this`inflightTxns, this`highestID, this`receipts, this`deliveries, this`accepted, this`turn,
               this`admitted, this`history
      ensures Valid() && d in deliveries && deliveries[d].msg == old(deliveries)[d].msg
      ensures deliveries[d].stage == StageAfter(outcome)
      ensures admitted == old(admitted) + if outcome.Admitted? then [outcome.txn.id] else []
      ensures history.did == old(history).did + [AdmitNow(d, a.storeUp, a.node)]
      ensures AdmittedAs(history, d, a, outcome)
    {
      Interfere(d);
      outcome := AdmitDelivery(d, a.storeUp, a.node);
      Interfere(d);
    }

    /**
      `addInflightWrapper` with its three outcomes: an error still to be replied to, an entry, or neither, when the
      redelivery check has dealt with the message and sent the notification if one is due.
     */
    method AddInflightWrapper(d: nat, a: Answers)
      returns (inflight: Option<Inflight>, err: bool, ghost replies: seq<Reply>, ghost own: seq<Event>,
               ghost admission: Option<Admission>)
      requires Valid() && d in deliveries && deliveries[d].stage == Received && d !in sent
      modifies this
      ensures Valid() && d in deliveries && cancelled == old(cancelled) && sent == WithReplies(old(sent), d, replies)
      ensures admitted == old(admitted) + if inflight.Some? then [inflight.value.id] else []
      ensures LeftAt(deliveries[d].stage, inflight, err, replies) && deliveries[d].msg == old(deliveries)[d].msg
      ensures history.did == old(history).did + own
      ensures Wrapped(own, d, a, admission, inflight, err)
      ensures admission.Some? ==> AdmittedAs(history, d, a, admission.value)
      ensures replies == if admission.Some? && admission.value.AlreadyDispatched?
                         then [RedeliveryPrevented(admission.value.hash)] else []
    {
      inflight, err, replies, own, admission := None, true, [], [RefuseEarly(d)], None;
      if !a.prepares {
        Refuse(d);
        Interfere(d);
        return;
      }
      var outcome := AdmitInTurn(d, a);
      replies, own, admission := [], [AdmitNow(d, a.storeUp, a.node)], Some(outcome);
      inflight, err := if outcome.Admitted? then Some(outcome.txn) else None, outcome.Rejected?;
      if outcome.AlreadyDispatched? {
        SendReply(d, RedeliveryPrevented(outcome.hash));
        replies, own := [RedeliveryPrevented(outcome.hash)], own + [Notify(d)];
      }
    }

    /** `sendAndTrackMining`, on this goroutine or on its own. */
    method SendAndTrackMining(d: nat, a: Answers, t: Inflight, registerAs: string)
      returns (ghost reply: Reply, ghost more: seq<Event>)
      requires Valid() && d in deliveries && deliveries[d].stage == Active(t, Unsent) && d !in sent
      requires a.hash != "" && Terminates(a.polls)
      modifies this
      ensures Valid() && d in deliveries && deliveries[d].stage == Done(false) && sent == old(sent)[d := [reply]]
      ensures admitted == old(admitted) && cancelled == old(cancelled) + [t.id]
      ensures if SendsOK(a, sendRetryForce, t.source.NodeAssigned?, sendRetryMax)
              then
                && IsFinal(reply, a, t.nonce, registerAs)
                && more == [SendOk(d, a.hash), RecordHash(d, a.recordUp), Answer(d), Finish(d)]
                && old(deliveries)[d].msg.id in accepted
              else
                && reply.ErrorReplyWithGapFill? && more == [SendFails(d), ReplyError(d)]
                && FailsIn(history, d, reply, t, attemptGapFill, a)
      ensures history.did == old(history).did + more && history.first == old(history).first
    {
      Interfere(d);
      var rpcKnown, ok := TrySend(a, t.source.NodeAssigned?);
      if !ok {
        var failure := FailUnsent(d, t, rpcKnown, a.gapFill, true);
        return failure, [SendFails(d), ReplyError(d)];
      }
      reply := Track(d, a, t, registerAs);
      more := [SendOk(d, a.hash), RecordHash(d, a.recordUp), Answer(d), Finish(d)];
    }

    /** The client is looked up if need be, and the transaction is sent. */
    method TrySend(a: Answers, nodeAssign: bool) returns (rpcKnown: bool, ok: bool)
      ensures rpcKnown <==> a.rpcKnown || a.lookupOK
      ensures ok <==> SendsOK(a, sendRetryForce, nodeAssign, sendRetryMax)
    {
      rpcKnown, ok := a.rpcKnown, false;
      var err := false;
      if !a.rpcKnown {
        rpcKnown := a.lookupOK;
        err := !a.lookupOK;
      }
      if !err {
        var made;
        made, ok := SendWithRetry(a.attempts, sendRetryForce, nodeAssign, sendRetryMax);
        SendsOKIff(a, sendRetryForce, nodeAssign, sendRetryMax, made, ok);
      }
    }

    /** `trackMining`, for a transaction that the node has taken. */
    method Track(d: nat, a: Answers, t: Inflight, registerAs: string) returns (ghost reply: Reply)
      requires Valid() && d in deliveries && deliveries[d].stage == Active(t, Unsent) && d !in sent
      requires a.hash != "" && Terminates(a.polls)
      modifies this
      ensures Valid() && d in deliveries && deliveries[d].stage == Done(false) && sent == old(sent)[d := [reply]]
      ensures admitted == old(admitted) && cancelled == old(cancelled) + [t.id]
      ensures IsFinal(reply, a, t.nonce, registerAs) && old(deliveries)[d].msg.id in accepted
      ensures history.did == old(history).did +
                             [SendOk(d, a.hash), RecordHash(d, a.recordUp), Answer(d), Finish(d)]
      ensures history.first == old(history).first
    {
      BeginTracking(d, t, a.hash);
      Interfere(d);
      reply := WaitForCompletion(d, a, t, registerAs);
    }

    /** `waitForCompletion`: the hash is recorded before the reply, and the reply is sent before the entry goes. */
    method WaitForCompletion(d: nat, a: Answers, t: Inflight, registerAs: string) returns (ghost reply: Reply)
      requires Valid() && d in deliveries && deliveries[d].stage == Active(t, Tracking(a.hash)) && d !in sent
      requires Terminates(a.polls)
      modifies this
      ensures Valid() && d in deliveries && deliveries[d].stage == Done(false) && sent == old(sent)[d := [reply]]
      ensures admitted == old(admitted) && cancelled == old(cancelled) + [t.id]
      ensures IsFinal(reply, a, t.nonce, registerAs)
      ensures StillIn(old(accepted), accepted)
      ensures history.did == old(history).did + [RecordHash(d, a.recordUp), Answer(d), Finish(d)]
      ensures history.first == old(history).first
    {
      var n := AwaitReceipt(a.polls);
      reply := RecordAndReply(d, a, t, a.polls(n), registerAs);
      CancelSubmitted(d, t, a.hash);
    }

    /** The hash is recorded, and then the reply is sent. */
    method RecordAndReply(d: nat, a: Answers, t: Inflight, last: Poll, registerAs: string) returns (reply: Reply)
      requires Valid() && d in deliveries && deliveries[d].stage == Active(t, Tracking(a.hash)) && d !in sent
      modifies this
      ensures Valid() && d in deliveries && deliveries[d].stage == Active(t, Answered(a.hash))
      ensures sent == old(sent)[d := [reply]] && TellsOutcome(reply, last, a, t.nonce, registerAs)
      ensures admitted == old(admitted) && cancelled == old(cancelled)
      ensures StillIn(old(accepted), accepted)
      ensures history.did == old(history).did + [RecordHash(d, a.recordUp), Answer(d)]
      ensures history.first == old(history).first
    {
      UpdateSubmitted(d, t, a.hash, a.recordUp);
      Interfere(d);
      reply := ReplyToWait(d, a, t, last, registerAs);
      Interfere(d);
    }

    /** The part of `waitForCompletion` that replies, once the wait has ended. */
    method ReplyToWait(d: nat, a: Answers, t: Inflight, last: Poll, registerAs: string) returns (reply: Reply)
      requires Valid() && d in deliveries && deliveries[d].stage == Active(t, Phase.Recorded(a.hash)) && d !in sent
      modifies this`deliveries, this`sent, this`history
      ensures Valid() && d in deliveries && deliveries[d].stage == Active(t, Answered(a.hash))
      ensures sent == old(sent)[d := [reply]] && TellsOutcome(reply, last, a, t.nonce, registerAs)
      ensures history.did == old(history).did + [Answer(d)] && history.first == old(history).first
    {
      if last.late {
        if last.failed {
          reply := ErrorReplyWithTX(500, a.hash);
        } else {
          reply := ErrorReplyWithTX(408, a.hash);
        }
      } else {
        reply := ReceiptReply(a.success, a.hash, t.nonce, registerAs);
      }
      SendReply(d, reply);
    }
  }

  /** The reply tells about the gap that the entry left in the state in which it was given up. */
  ghost predicate FailsIn(h: History<World, Event>, d: nat, reply: Reply, t: Inflight, attemptGapFill: bool,
                          a: Answers)
  {
    && h.second.Some? && h.second.value.e == SendFails(d) && d in h.second.value.s.deliveries
    && TellsGapFill(reply, h.second.value.s, h.second.value.s.deliveries[d].msg.from, t,
                    (a.rpcKnown || a.lookupOK) && attemptGapFill, a.gapFill)
  }

  function StageAfter(admission: Admission): Stage {
    match admission
    case Admitted(txn) => Active(txn, Unsent)
    case AlreadyInFlight => Done(true)
    case AlreadyDispatched(_) => Notifying
    case Rejected(_) => Failing
  }

  /** The step that sends the reply a delivery is waiting for. */
  function ReplyStep(stage: Stage, d: nat): Event {
    match stage
    case Active(_, _) => Answer(d)
    case Failing => ReplyError(d)
    case _ => Notify(d)
  }

  predicate AwaitsReply(stage: Stage) {
    stage.Failing? || stage.Notifying? || (stage.Active? && stage.phase.Recorded?)
  }

  function Replied(stage: Stage): Stage
    requires AwaitsReply(stage)
  {
    if stage.Active? then Active(stage.txn, Answered(stage.phase.hash)) else Done(false)
  }

  function AfterAdmitting(v: Delivery, admission: Admission): Delivery {
    v.(stage := StageAfter(admission), admissions := v.admissions + if admission.Admitted? then 1 else 0)
  }

  /** The admission step of the life cycle model, for all four outcomes at once. */
  lemma AdmissionState(w: World, d: nat, storeUp: bool, node: NodeAnswers)
    requires At(w, d, Received)
    ensures var m := w.deliveries[d].msg;
            var (admission, s) := AdmissionOf(w, d, storeUp, node);
            AfterAdmission(w, d, storeUp, node) ==
            World(WithState(w.table, m.from, s), w.nextID + 1, w.store,
                  w.deliveries[d := AfterAdmitting(w.deliveries[d], admission)], w.accepted)
  {
    WithStateSame(w.table, w.deliveries[d].msg.from);
  }

  lemma WithStateSame(table: map<string, AddrState>, from: string)
    ensures WithState(table, from, StateOf(table, from)) == table
  {
  }

  /** The RPC client is known or found, and the retry loop ends with an accepted send. */
  ghost predicate SendsOK(a: Answers, force: bool, nodeAssign: bool, retryMax: int) {
    (a.rpcKnown || a.lookupOK) && exists made :: SendOutcome(a.attempts, force, nodeAssign, retryMax, made, true)
  }

  lemma SendsOKIff(a: Answers, force: bool, nodeAssign: bool, retryMax: int, made: nat, ok: bool)
    requires (a.rpcKnown || a.lookupOK) && SendOutcome(a.attempts, force, nodeAssign, retryMax, made, ok)
    ensures ok <==> SendsOK(a, force, nodeAssign, retryMax)
  {
    if SendsOK(a, force, nodeAssign, retryMax) {
      var made' :| SendOutcome(a.attempts, force, nodeAssign, retryMax, made', true);
      SendOutcomeIsUnique(a.attempts, force, nodeAssign, retryMax, made, ok, made', true);
    }
  }

  /** The loop of `waitForCompletion`, which goes on through RPC errors. */
  method AwaitReceipt(polls: nat -> Poll) returns (n: nat)
    requires Terminates(polls)
    ensures EndsWait(polls, n)
  {
    ghost var deadline: nat :| polls(deadline).late;
    n := 0;
    while !polls(n).mined && !polls(n).late
      invariant n <= deadline
      invariant forall i :: 0 <= i < n ==> !polls(i).mined && !polls(i).late
      decreases deadline - n
    {
      n := n + 1;
    }
  }

  /** What `cancelInFlight` makes of an address, and the highest nonce it leaves in flight. */
  method DropEntry(forAddr: AddrState, t: Inflight, submitted: bool)
    returns (after: Option<AddrState>, highestNonce: int)
    ensures after == Cancel(Some(forAddr), t, submitted)
    ensures highestNonce == Leftover(Some(forAddr), t)
  {
    var rest := RemoveByID(forAddr.txns, t.id);
    highestNonce := HighestNonce(rest);
    if rest == [] {
      after := None;
    } else if !submitted && highestNonce < t.nonce {
      after := Some(AddrState(rest, highestNonce));
    } else {
      after := Some(AddrState(rest, forAddr.highestNonce));
    }
  }

  /** The branches of `addInflightWrapper` that pick a nonce, in source order. */
  method AssignNonce(forAddr: AddrState, alreadyInflightForAddr: bool, req: NonceRequest, node: NodeAnswers)
    returns (choice: Choice)
    requires !alreadyInflightForAddr ==> forAddr.highestNonce == 0
    ensures choice == ChooseNonce(if alreadyInflightForAddr then Some(forAddr) else None, req, node)
  {
    var highestNonce := -1;
    if !req.nodeAssign && req.supplied.NoNonce? && alreadyInflightForAddr {
      highestNonce := forAddr.highestNonce;
    }
    if req.supplied.ParsedNonce? {
      choice := Chosen(req.supplied.n, Supplied, forAddr.highestNonce);
    } else if req.supplied.UnparsableNonce? {
      choice := Refused(BadNonce);
    } else if req.orionPrivate {
      if node.orionCount.None? {
        return Refused(OrionCountFailed);
      }
      choice := Chosen(node.orionCount.value, Orion, forAddr.highestNonce);
    } else if highestNonce >= 0 {
      choice := Chosen(highestNonce + 1, Managed, highestNonce + 1);
    } else if req.nodeAssign {
      choice := Chosen(0, NodeAssigned, forAddr.highestNonce);
    } else {
      if node.pendingCount.None? {
        return Refused(PendingCountFailed);
      }
      choice := Chosen(node.pendingCount.value, Managed, node.pendingCount.value);
    }
  }

  method FindMessage(txns: seq<Inflight>, msgID: string) returns (found: bool)
    ensures found <==> MessageListed(txns, msgID)
  {
    for i := 0 to |txns|
      invariant forall j :: 0 <= j < i ==> txns[j].msgID != msgID
    {
      if txns[i].msgID == msgID {
        return true;
      }
    }
    return false;
  }

  method RemoveByID(txns: seq<Inflight>, id: nat) returns (rest: seq<Inflight>)
    ensures rest == Without(txns, id)
  {
    for i := 0 to |txns|
      invariant forall j :: 0 <= j < i ==> txns[j].id != id
    {
      if txns[i].id == id {
        assert IndexOf(txns, id) == i;
        return txns[..i] + txns[i + 1..];
      }
    }
    return txns;
  }

  method HighestNonce(txns: seq<Inflight>) returns (highest: int)
    ensures highest == HighestOf(txns)
  {
    highest := -1;
    for i := 0 to |txns|
      invariant highest == HighestOf(txns[..i])
    {
      assert txns[..i + 1][..i] == txns[..i];
      if txns[i].nonce > highest {
        highest := txns[i].nonce;
      }
    }
    assert txns[..|txns|] == txns;
  }

  // ------------------------------------------------------------------ sending

  /** What the node does with one send attempt; errors are classified by their lower-cased text. */
  datatype SendAttempt = Accepted | NonceOrKnownError | OtherError

  predicate RetriesAfter(attempt: SendAttempt, force: bool, nodeAssign: bool) {
    attempt != Accepted && (force || (!nodeAssign && attempt == OtherError))
  }

  /** The outcome of the whole retry loop: attempts made, and whether the last one was accepted. */
  ghost predicate SendOutcome(attempts: nat -> SendAttempt, force: bool, nodeAssign: bool, retryMax: int,
                              made: nat, ok: bool)
  {
    && made >= 1
    && (forall i :: 0 <= i < made - 1 ==> RetriesAfter(attempts(i), force, nodeAssign) && i < retryMax)
    && (ok <==> attempts(made - 1) == Accepted)
    && (!ok ==> !RetriesAfter(attempts(made - 1), force, nodeAssign) || made - 1 >= retryMax)
  }

  /** `sendWithRetry`: stops at the first acceptance, at the first error that is not retried, or at the limit. */
  method SendWithRetry(attempts: nat -> SendAttempt, force: bool, nodeAssign: bool, retryMax: int)
    returns (made: nat, ok: bool)
    ensures SendOutcome(attempts, force, nodeAssign, retryMax, made, ok)
    ensures made <= 1 || made <= retryMax + 1
    ensures forall i :: 0 <= i < made - 1 ==> attempts(i) != Accepted
    ensures nodeAssign && !force ==> made == 1
  {
    var retries := 0;
    while true
      invariant forall i :: 0 <= i < retries ==> RetriesAfter(attempts(i), force, nodeAssign) && i < retryMax
      decreases retryMax - retries
    {
      assert retries > 0 ==> RetriesAfter(attempts(retries - 1), force, nodeAssign);
      if attempts(retries) == Accepted {
        return retries + 1, true;
      }
      var retry := force || (!nodeAssign && attempts(retries) == OtherError);
      retry := retry && retries < retryMax;
      if !retry {
        return retries + 1, false;
      }
      retries := retries + 1;
    }
  }

  /**
    How many attempts there are. With forced retries they end with an acceptance or at the limit. Otherwise a nonce
    left to the node gives one attempt only, and any other ends as well with an error about the nonce or a known
    transaction.
   */
  lemma AttemptsInFigures(attempts: nat -> SendAttempt, force: bool, nodeAssign: bool, retryMax: int, made: nat,
                          ok: bool)
    requires SendOutcome(attempts, force, nodeAssign, retryMax, made, ok)
    ensures var limit := if retryMax > 0 then retryMax + 1 else 1;
            && 1 <= made <= limit
            && (!force && nodeAssign ==> made == 1)
            && (force && !ok ==> made == limit)
            && (!force && !nodeAssign ==>
                  && (forall i :: 0 <= i < made - 1 ==> attempts(i) == OtherError)
                  && (!ok ==> attempts(made - 1) == NonceOrKnownError || made == limit))
            && (ok ==> attempts(made - 1) == Accepted)
            && (forall i :: 0 <= i < made - 1 ==> attempts(i) != Accepted)
  {
    assert made > 1 ==> RetriesAfter(attempts(made - 2), force, nodeAssign) && made - 2 < retryMax;
  }

  /** At most one attempt of a message reaches the chain, and the outcome is determined by the attempts. */
  lemma SendOutcomeIsUnique(attempts: nat -> SendAttempt, force: bool, nodeAssign: bool, retryMax: int,
                            made: nat, ok: bool, made': nat, ok': bool)
    requires SendOutcome(attempts, force, nodeAssign, retryMax, made, ok)
    requires SendOutcome(attempts, force, nodeAssign, retryMax, made', ok')
    ensures made == made' && ok == ok'
  {
    OutcomeIsNoLater(attempts, force, nodeAssign, retryMax, made, ok, made', ok');
    OutcomeIsNoLater(attempts, force, nodeAssign, retryMax, made', ok', made, ok);
  }

  lemma OutcomeIsNoLater(attempts: nat -> SendAttempt, force: bool, nodeAssign: bool, retryMax: int,
                         made: nat, ok: bool, made': nat, ok': bool)
    requires SendOutcome(attempts, force, nodeAssign, retryMax, made, ok)
    requires SendOutcome(attempts, force, nodeAssign, retryMax, made', ok')
    ensures made' <= made
  {
    assert !(RetriesAfter(attempts(made - 1), force, nodeAssign) && made - 1 < retryMax);
  }
}
