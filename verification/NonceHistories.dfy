/**
  The nonces of one address over whole runs of the life cycle model: what deliveries of any number of messages do to the
  in-flight table of an address is a run of the nonce model, so what holds there holds here.
 */
module NonceHistories {
  import opened Options
  import opened Nonces
  import opened Lifecycle

  /** The steps an event takes in the table of one address; an entry counts as submitted once its send succeeded. */
  function StepsOf(w: World, e: Event, from: string): seq<Step>
    requires Possible(w, e)
  {
    if e.Deliver? || e.OutsideWrite? || w.deliveries[e.d].msg.from != from then []
    else
      var v := w.deliveries[e.d];
      match e
      case AdmitNow(_, storeUp, node) =>
        [AdmitStep(w.nextID, v.msg.id, v.msg.check, StoreAnswer(w, v.msg.id, storeUp), v.msg.req, node)]
      case SendFails(_) => [CancelStep(v.stage.txn, false)]
      case Finish(_) => [CancelStep(v.stage.txn, true)]
      case _ => []
  }

  function StepsThrough(w: World, events: seq<Event>, from: string): seq<Step>
    requires PossibleRun(w, events)
    decreases |events|
  {
    if events == [] then []
    else StepsOf(w, events[0], from) + StepsThrough(Next(w, events[0]), events[1..], from)
  }

  lemma EventIsSteps(w: World, e: Event, from: string)
    requires Possible(w, e)
    ensures StateOf(Next(w, e).table, from) == Run(StateOf(w.table, from), StepsOf(w, e, from))
  {
    var steps := StepsOf(w, e, from);
    if steps != [] {
      assert steps[1..] == [];
    }
  }

  lemma EventIsFeasible(w: World, e: Event, from: string)
    requires Owned(w) && Possible(w, e)
    ensures Feasible(StateOf(w.table, from), StepsOf(w, e, from))
  {
    var steps := StepsOf(w, e, from);
    if steps != [] {
      assert steps[1..] == [];
      if e.AdmitNow? {
        assert from in w.table ==> WellListed(w.table[from], w.nextID);
      } else {
        assert InFlight(w, e.d) && EntryListed(w, e.d);
      }
    }
  }

  lemma {:induction false} RunInTwo(s: Option<AddrState>, steps: seq<Step>, more: seq<Step>)
    ensures Run(s, steps + more) == Run(Run(s, steps), more)
    ensures Feasible(s, steps + more) <==> Feasible(s, steps) && Feasible(Run(s, steps), more)
    decreases |steps|
  {
    if steps == [] {
      assert steps + more == more;
    } else {
      assert (steps + more)[0] == steps[0] && (steps + more)[1..] == steps[1..] + more;
      RunInTwo(Apply(s, steps[0]), steps[1..], more);
    }
  }

  /** In every run, the table of an address has gone through a feasible run of the nonce model. */
  lemma {:induction false} AddressesRunTheNonceModel(w: World, events: seq<Event>, from: string)
    requires Owned(w) && PossibleRun(w, events)
    ensures var steps := StepsThrough(w, events, from);
            && Feasible(StateOf(w.table, from), steps)
            && StateOf(After(w, events).table, from) == Run(StateOf(w.table, from), steps)
    decreases |events|
  {
    if events != [] {
      EventIsSteps(w, events[0], from);
      EventIsFeasible(w, events[0], from);
      StepKeepsOwned(w, events[0]);
      AddressesRunTheNonceModel(Next(w, events[0]), events[1..], from);
      RunInTwo(StateOf(w.table, from), StepsOf(w, events[0], from),
               StepsThrough(Next(w, events[0]), events[1..], from));
    }
  }

  /**
    However many messages, redeliveries, failures and completions are interleaved: at every moment the managed nonces
    of an address are pairwise distinct and not above its mark.
   */
  lemma ManagedNoncesSafeForEveryAddress(store: map<string, string>, events: seq<Event>, from: string)
    requires PossibleRun(Start(store), events)
    ensures var w := After(Start(store), events);
            from in w.table ==>
              ManagedWithin(w.table[from].txns, w.table[from].highestNonce) && ManagedDistinct(w.table[from].txns)
  {
    AddressesRunTheNonceModel(Start(store), events, from);
    ManagedNoncesSafe(None, StepsThrough(Start(store), events, from));
  }

  function Attempts(events: seq<Event>): nat {
    if events == [] then 0 else Attempts(events[1..]) + if events[0].AdmitNow? then 1 else 0
  }

  /** Every admission uses up a number, whatever becomes of it, and nothing else does. */
  lemma {:induction false} NumbersAreUsedOnce(w: World, events: seq<Event>)
    requires PossibleRun(w, events)
    ensures After(w, events).nextID == w.nextID + Attempts(events)
    decreases |events|
  {
    if events != [] {
      NumbersAreUsedOnce(Next(w, events[0]), events[1..]);
    }
  }

  /** A completion leaves the mark of an address with other entries alone; only a failed send may move it. */
  lemma CompletionKeepsTheMark(w: World, d: nat)
    requires Owned(w) && Possible(w, Finish(d)) && |w.table[w.deliveries[d].msg.from].txns| > 1
    ensures var from := w.deliveries[d].msg.from;
            var after := Next(w, Finish(d)).table;
            && from in after && after[from].highestNonce == w.table[from].highestNonce
            && forall t :: t in after[from].txns <==> t in w.table[from].txns && t != w.deliveries[d].stage.txn
  {
    assert InFlight(w, d) && EntryListed(w, d);
    var from := w.deliveries[d].msg.from;
    assert WellListed(w.table[from], w.nextID);
    CancelSetsTheMark(w.table[from], w.deliveries[d].stage.txn, true);
  }
}
