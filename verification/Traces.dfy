/** What an object has gone through, kept beside it: the events, the states, and the part one caller has in them. */
module Traces {
  import opened Options

  /** `trace` lists the states before, between and after the events of `log`. */
  ghost predicate Traced<S, E>(step: (S, E, S) -> bool, log: seq<E>, trace: seq<S>) {
    |trace| == |log| + 1 && forall i :: 0 <= i < |log| ==> step(trace[i], log[i], trace[i + 1])
  }

  lemma TraceExtends<S, E>(step: (S, E, S) -> bool, log: seq<E>, trace: seq<S>, e: E, s: S)
    requires Traced(step, log, trace) && step(trace[|log|], e, s)
    ensures Traced(step, log + [e], trace + [s])
  {
  }

  lemma TraceGoesOn<S, E>(step: (S, E, S) -> bool, log: seq<E>, trace: seq<S>)
    requires Traced(step, log, trace) && log != []
    ensures step(trace[0], log[0], trace[1]) && Traced(step, log[1..], trace[1..])
  {
  }

  /** An event and the state in which it happened. */
  datatype Moment<S, E> = Moment(s: S, e: E)

  /**
    All that has happened: the events, the states before, between and after them, and the state now. Of the caller that
    is followed, the events in order with their places in the log, and two moments to come back to.
   */
  datatype History<S, E> = History(log: seq<E>, trace: seq<S>, now: S, did: seq<E>, places: seq<nat>,
                                   first: Option<Moment<S, E>>, second: Option<Moment<S, E>>)

  function NewHistory<S, E>(s: S): History<S, E> {
    History([], [s], s, [], [], None, None)
  }

  /** Another step of the caller that is followed, which may be one of the two moments. */
  function Noted<S, E>(h: History<S, E>, e: E, s: S, isFirst: bool, isSecond: bool): History<S, E> {
    History(h.log + [e], h.trace + [s], s, h.did + [e], h.places + [|h.log|],
            if isFirst then Some(Moment(h.now, e)) else h.first, if isSecond then Some(Moment(h.now, e)) else h.second)
  }

  /** Another step of anything else. */
  function Passed<S, E>(h: History<S, E>, e: E, s: S): History<S, E> {
    h.(log := h.log + [e], trace := h.trace + [s], now := s)
  }

  /** Another caller is going to be followed. */
  function Turned<S, E>(h: History<S, E>): History<S, E> {
    h.(did := [], places := [], first := None, second := None)
  }

  ghost predicate Kept<S(!new), E(!new)>(step: (S, E, S) -> bool, h: History<S, E>, start: S) {
    && Traced(step, h.log, h.trace) && h.trace[0] == start && h.trace[|h.log|] == h.now
    && InLog(h.log, h.did, h.places)
    && (h.first.Some? ==> Happened(h.log, h.trace, h.first.value))
    && (h.second.Some? ==> Happened(h.log, h.trace, h.second.value))
  }

  /** These events stand in the log in this order. */
  ghost predicate InLog<E>(log: seq<E>, did: seq<E>, places: seq<nat>) {
    && |places| == |did|
    && (forall i :: 0 <= i < |places| ==> places[i] < |log| && log[places[i]] == did[i])
    && (forall i, j :: 0 <= i < j < |places| ==> places[i] < places[j])
  }

  ghost predicate Happened<S, E>(log: seq<E>, trace: seq<S>, m: Moment<S, E>) {
    exists i :: 0 <= i < |log| && i < |trace| && log[i] == m.e && trace[i] == m.s
  }

  lemma HappenedStill<S, E>(log: seq<E>, trace: seq<S>, m: Option<Moment<S, E>>, e: E, s: S)
    requires m.Some? ==> Happened(log, trace, m.value)
    ensures m.Some? ==> Happened(log + [e], trace + [s], m.value)
  {
    if m.Some? {
      var i :| 0 <= i < |log| && i < |trace| && log[i] == m.value.e && trace[i] == m.value.s;
      assert (log + [e])[i] == m.value.e && (trace + [s])[i] == m.value.s;
    }
  }

  lemma PassedIsKept<S(!new), E(!new)>(step: (S, E, S) -> bool, h: History<S, E>, start: S, e: E, s: S)
    requires Kept(step, h, start) && step(h.now, e, s)
    ensures Kept(step, Passed(h, e, s), start)
  {
    TraceExtends(step, h.log, h.trace, e, s);
    HappenedStill(h.log, h.trace, h.first, e, s);
    HappenedStill(h.log, h.trace, h.second, e, s);
  }

  lemma NotedIsKept<S(!new), E(!new)>(step: (S, E, S) -> bool, h: History<S, E>, start: S, e: E, s: S, isFirst: bool,
                                      isSecond: bool)
    requires Kept(step, h, start) && step(h.now, e, s)
    ensures Kept(step, Noted(h, e, s, isFirst, isSecond), start)
  {
    var h' := Noted(h, e, s, isFirst, isSecond);
    TraceExtends(step, h.log, h.trace, e, s);
    assert h'.log[|h.log|] == e && h'.trace[|h.log|] == h.now;
    assert Happened(h'.log, h'.trace, Moment(h.now, e));
    HappenedStill(h.log, h.trace, h.first, e, s);
    HappenedStill(h.log, h.trace, h.second, e, s);
  }

  /** What Turned leaves is kept, too. */
  lemma TurnedIsKept<S(!new), E(!new)>(step: (S, E, S) -> bool, h: History<S, E>, start: S)
    requires Kept(step, h, start)
    ensures Kept(step, Turned(h), start)
  {
  }
}
