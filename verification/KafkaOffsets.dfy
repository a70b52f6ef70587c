/**
  Offset tracking of the Kafka bridge (internal/kafka/kafkabridge.go): replies complete in any order over a
  stream whose offset is committed in order, with redelivery and a capacity limit.

  The bridge consumes one topic, so a message is identified by its partition and offset. Each delivery that
  enters the table is numbered by its position in `log`.
 */
module KafkaOffsets {
  import opened Options

  datatype Key = Key(partition: int, offset: int)

  /** One in-flight message: the delivery that put it there, and whether its reply has been confirmed. */
  datatype Ctx = Ctx(delivery: nat, complete: bool)

  type Table = map<Key, Ctx>

  predicate AtOrBelow(t: Table, j: Key, k: Key) {
    j in t && j.partition == k.partition && j.offset <= k.offset
  }

  /** Everything in flight in its partition up to and including `k` is complete. */
  ghost predicate Ready(t: Table, k: Key) {
    k in t && forall j :: AtOrBelow(t, j, k) ==> t[j].complete
  }

  ghost function ReadyIn(t: Table, partition: int): set<Key> {
    set k | k in t && k.partition == partition && Ready(t, k)
  }

  predicate IsHighest(ks: set<Key>, o: int) {
    (exists k :: k in ks && k.offset == o) && forall k :: k in ks ==> k.offset <= o
  }

  lemma HighestExists(ks: set<Key>)
    requires ks != {}
    ensures exists o :: IsHighest(ks, o)
  {
    var k :| k in ks;
    if ks == {k} {
      assert IsHighest(ks, k.offset);
    } else {
      var rest := ks - {k};
      assert rest != {};
      HighestExists(rest);
      var o :| IsHighest(rest, o);
      assert ks == rest + {k};
      assert IsHighest(ks, if k.offset > o then k.offset else o);
    }
  }

  ghost function HighestOffset(ks: set<Key>): (o: int)
    requires ks != {}
    ensures IsHighest(ks, o)
  {
    HighestExists(ks);
    var o :| IsHighest(ks, o);
    o
  }

  function MarkComplete(t: Table, k: Key): Table
    requires k in t
  {
    t[k := t[k].(complete := true)]
  }

  /** The table after the reply for `k` is confirmed: the ready entries of its partition are gone. */
  ghost function Confirmed(t: Table, k: Key): Table
    requires k in t
  {
    MarkComplete(t, k) - ReadyIn(MarkComplete(t, k), k.partition)
  }

  /** The offset marked on the partition, if any. */
  ghost function MarkOf(t: Table, k: Key): Option<int>
    requires k in t
  {
    var ready := ReadyIn(MarkComplete(t, k), k.partition);
    if ready == {} then None else Some(HighestOffset(ready))
  }

  // ------------------------------------------------------------------ runs of the bridge

  datatype World = World(table: Table, maxInFlight: nat, log: seq<Key>, replied: set<nat>, confirmed: set<nat>,
                         marks: seq<Key>, panicked: bool)

  datatype Event =
    | Receive(k: Key)          // the consumer loop takes a message, possibly a redelivery
    | Reply(i: nat)            // the context of delivery i sends its one reply
    | Confirm(i: nat)          // the producer reports that reply as written

  predicate Possible(w: World, e: Event) {
    match e
    case Receive(_) => |w.table| < w.maxInFlight
    case Reply(i) => i < |w.log| && i !in w.replied
    case Confirm(i) => i < |w.log| && i in w.replied && i !in w.confirmed
  }

  ghost function Next(w: World, e: Event): World
    requires Possible(w, e)
  {
    match e
    case Receive(k) =>
      if k in w.table then w else w.(table := w.table[k := Ctx(|w.log|, false)], log := w.log + [k])
    case Reply(i) => w.(replied := w.replied + {i})
    case Confirm(i) =>
      var k := w.log[i];
      if k !in w.table then w.(confirmed := w.confirmed + {i}, panicked := true)
      else
        var mark := MarkOf(w.table, k);
        w.(table := Confirmed(w.table, k), confirmed := w.confirmed + {i},
           marks := if mark.Some? then w.marks + [Key(k.partition, mark.value)] else w.marks)
  }

  ghost predicate PossibleRun(w: World, events: seq<Event>)
    decreases |events|
  {
    events != [] ==> Possible(w, events[0]) && PossibleRun(Next(w, events[0]), events[1..])
  }

  ghost function After(w: World, events: seq<Event>): World
    requires PossibleRun(w, events)
    decreases |events|
  {
    if events == [] then w else After(Next(w, events[0]), events[1..])
  }

  function Start(maxInFlight: nat): World {
    World(map[], maxInFlight, [], {}, {}, [], false)
  }

  // ------------------------------------------------------------------ the invariant

  /** The entry was put there by the delivery it names and is complete exactly when that one is confirmed. */
  predicate EntryOK(w: World, k: Key)
    requires k in w.table
  {
    var d := w.table[k].delivery;
    d < |w.log| && w.log[d] == k && (w.table[k].complete <==> d in w.confirmed)
  }

  predicate Held(w: World, i: nat)
    requires i < |w.log|
  {
    w.log[i] in w.table && w.table[w.log[i]].delivery == i
  }

  predicate EntriesOK(w: World) {
    forall k :: k in w.table ==> EntryOK(w, k)
  }

  /** Every delivery that entered the table has been confirmed or is still held there. */
  predicate NoneForgotten(w: World) {
    forall i :: 0 <= i < |w.log| ==> i in w.confirmed || Held(w, i)
  }

  predicate RepliesOK(w: World) {
    && (forall i :: i in w.confirmed ==> i in w.replied)
    && (forall i :: i in w.replied ==> i < |w.log|)
  }

  ghost predicate NoneReady(t: Table) {
    forall k {:trigger Ready(t, k)} :: k in t ==> !Ready(t, k)
  }

  ghost predicate Inv(w: World) {
    && EntriesOK(w) && NoneForgotten(w) && RepliesOK(w) && NoneReady(w.table)
    && |w.table| <= w.maxInFlight && !w.panicked
  }

  lemma NewEntryReadiesNothing(t: Table, k: Key, d: nat)
    requires NoneReady(t) && k !in t
    ensures NoneReady(t[k := Ctx(d, false)])
  {
    var t' := t[k := Ctx(d, false)];
    forall j | j in t' ensures !Ready(t', j) {
      if j == k {
        assert AtOrBelow(t', k, k);
      } else {
        assert !Ready(t, j);
        var l :| AtOrBelow(t, l, j) && !t[l].complete;
        assert AtOrBelow(t', l, j) && !t'[l].complete;
      }
    }
  }

  lemma ReceiveKeepsInv(w: World, k: Key)
    requires Inv(w) && Possible(w, Receive(k))
    ensures Inv(Next(w, Receive(k)))
  {
    if k !in w.table {
      NewEntryReadiesNothing(w.table, k, |w.log|);
      ReceiveKeepsEntries(w, k);
    }
  }

  lemma ReceiveKeepsEntries(w: World, k: Key)
    requires EntriesOK(w) && NoneForgotten(w) && RepliesOK(w) && k !in w.table && Possible(w, Receive(k))
    ensures EntriesOK(Next(w, Receive(k))) && NoneForgotten(Next(w, Receive(k))) && RepliesOK(Next(w, Receive(k)))
  {
    var w' := Next(w, Receive(k));
    forall j | j in w'.table ensures EntryOK(w', j) {
      assert j != k ==> EntryOK(w, j);
    }
    forall i | 0 <= i < |w'.log| ensures i in w'.confirmed || Held(w', i) {
      assert i < |w.log| ==> i in w.confirmed || Held(w, i);
    }
  }

  /** Confirming a delivery that is still waiting completes its own entry: nothing else answers for it. */
  lemma ConfirmFindsItsEntry(w: World, i: nat)
    requires EntriesOK(w) && NoneForgotten(w) && Possible(w, Confirm(i))
    ensures Held(w, i) && !w.table[w.log[i]].complete
  {
    assert i in w.confirmed || Held(w, i);
    assert EntryOK(w, w.log[i]);
  }

  /** Removing the ready entries leaves no ready one behind. */
  lemma NothingReadyRemains(t: Table, k: Key)
    requires k in t && NoneReady(t)
    ensures NoneReady(Confirmed(t, k))
  {
    var t1, t2 := MarkComplete(t, k), Confirmed(t, k);
    forall j | j in t2 ensures !Ready(t2, j) {
      assert j in t1 && j !in ReadyIn(t1, k.partition);
      if j.partition != k.partition {
        assert !Ready(t, j);
        var l :| AtOrBelow(t, l, j) && !t[l].complete;
        assert AtOrBelow(t2, l, j) && !t2[l].complete;
      } else {
        assert !Ready(t1, j);
        var l :| AtOrBelow(t1, l, j) && !t1[l].complete;
        IncompleteStays(t1, k.partition, l);
        assert AtOrBelow(t2, l, j) && !t2[l].complete;
      }
    }
  }

  lemma IncompleteStays(t: Table, partition: int, l: Key)
    requires l in t && !t[l].complete
    ensures l !in ReadyIn(t, partition)
  {
    assert AtOrBelow(t, l, l);
  }

  lemma ConfirmKeepsEntries(w: World, i: nat)
    requires EntriesOK(w) && NoneForgotten(w) && Possible(w, Confirm(i))
    ensures EntriesOK(Next(w, Confirm(i))) && NoneForgotten(Next(w, Confirm(i)))
  {
    ConfirmFindsItsEntry(w, i);
    var k := w.log[i];
    var t1 := MarkComplete(w.table, k);
    var w' := Next(w, Confirm(i));
    forall j | j in w'.table ensures EntryOK(w', j) {
      assert EntryOK(w, j);
    }
    forall d | 0 <= d < |w'.log| ensures d in w'.confirmed || Held(w', d) {
      if d !in w'.confirmed {
        assert Held(w, d) && EntryOK(w, w.log[d]);
        IncompleteStays(t1, k.partition, w.log[d]);
      }
    }
  }

  lemma ConfirmKeepsInv(w: World, i: nat)
    requires Inv(w) && Possible(w, Confirm(i))
    ensures Inv(Next(w, Confirm(i)))
  {
    ConfirmFindsItsEntry(w, i);
    ConfirmKeepsEntries(w, i);
    NothingReadyRemains(w.table, w.log[i]);
    ConfirmedIsNoLarger(w.table, w.log[i]);
  }

  lemma ConfirmedIsNoLarger(t: Table, k: Key)
    requires k in t
    ensures |Confirmed(t, k)| <= |t|
  {
    Shrinks(MarkComplete(t, k), ReadyIn(MarkComplete(t, k), k.partition));
    assert MarkComplete(t, k).Keys == t.Keys;
    SameKeysSameSize(MarkComplete(t, k), t);
  }

  lemma Shrinks(t: Table, ks: set<Key>)
    ensures |t - ks| <= |t|
  {
    assert (t - ks).Keys == t.Keys - ks;
    SubsetSize((t - ks).Keys, t.Keys);
    KeysSize(t - ks);
    KeysSize(t);
  }

  lemma KeysSize(t: Table)
    ensures |t| == |t.Keys|
  {
  }

  lemma SameKeysSameSize(t: Table, t': Table)
    requires t.Keys == t'.Keys
    ensures |t| == |t'|
  {
    KeysSize(t);
    KeysSize(t');
  }

  lemma SubsetSize(a: set<Key>, b: set<Key>)
    requires a <= b
    ensures |a| <= |b|
  {
    assert |b - a| + |a| == |b| by { assert (b - a) + a == b; }
  }

  lemma StepKeepsInv(w: World, e: Event)
    requires Inv(w) && Possible(w, e)
    ensures Inv(Next(w, e))
  {
    match e
    case Receive(k) => ReceiveKeepsInv(w, k);
    case Reply(i) =>
      var w' := Next(w, e);
      forall k | k in w'.table ensures EntryOK(w', k) {
        assert EntryOK(w, k);
      }
      forall d | 0 <= d < |w'.log| ensures d in w'.confirmed || Held(w', d) {
        assert d in w.confirmed || Held(w, d);
      }
    case Confirm(i) => ConfirmKeepsInv(w, i);
  }

  /**
    In every reachable state, for any completion order and any redelivery, the "unknown confirmation" panic
    has not happened, the table is within its limit, and no partition starts with a complete entry.
   */
  lemma {:induction false} InvThroughout(w: World, events: seq<Event>)
    requires Inv(w) && PossibleRun(w, events)
    ensures Inv(After(w, events))
    decreases |events|
  {
    if events != [] {
      StepKeepsInv(w, events[0]);
      InvThroughout(Next(w, events[0]), events[1..]);
    }
  }

  /** Nothing in flight in its partition is below `k`. */
  predicate IsHead(t: Table, k: Key) {
    forall j :: j in t && j.partition == k.partition ==> k.offset <= j.offset
  }

  lemma TableIsWellKept(maxInFlight: nat, events: seq<Event>)
    requires PossibleRun(Start(maxInFlight), events)
    ensures var w := After(Start(maxInFlight), events);
            && !w.panicked && |w.table| <= maxInFlight
            && (forall k :: k in w.table && IsHead(w.table, k) ==> !w.table[k].complete)
  {
    InvThroughout(Start(maxInFlight), events);
    LimitIsFixed(Start(maxInFlight), events);
    var w := After(Start(maxInFlight), events);
    forall k | k in w.table && IsHead(w.table, k) ensures !w.table[k].complete {
      assert !Ready(w.table, k);
      var l :| AtOrBelow(w.table, l, k) && !w.table[l].complete;
      assert l == k;
    }
  }

  lemma {:induction false} LimitIsFixed(w: World, events: seq<Event>)
    requires PossibleRun(w, events)
    ensures After(w, events).maxInFlight == w.maxInFlight
    decreases |events|
  {
    if events != [] {
      LimitIsFixed(Next(w, events[0]), events[1..]);
    }
  }

  /** Once every delivery that entered the table has had its reply confirmed, the table is empty. */
  lemma ConfirmingEverythingEmptiesTheTable(maxInFlight: nat, events: seq<Event>)
    requires PossibleRun(Start(maxInFlight), events)
    requires forall i :: 0 <= i < |After(Start(maxInFlight), events).log| ==>
               i in After(Start(maxInFlight), events).confirmed
    ensures After(Start(maxInFlight), events).table == map[]
  {
    InvThroughout(Start(maxInFlight), events);
    var w := After(Start(maxInFlight), events);
    AllConfirmedMeansAllReady(w);
  }

  lemma AllConfirmedMeansAllReady(w: World)
    requires EntriesOK(w) && forall i :: 0 <= i < |w.log| ==> i in w.confirmed
    ensures forall k :: k in w.table ==> Ready(w.table, k)
  {
    forall k | k in w.table ensures Ready(w.table, k) {
      forall j | j in w.table ensures w.table[j].complete {
        assert EntryOK(w, j);
      }
    }
  }

  // ------------------------------------------------------------------ marking

  /** Every delivery of that partition at or below the mark has had its reply confirmed. */
  predicate CoveredBy(w: World, mark: Key) {
    forall i :: 0 <= i < |w.log| && w.log[i].partition == mark.partition && w.log[i].offset <= mark.offset ==>
      i in w.confirmed
  }

  /** The marks a step adds are covered at that moment. */
  ghost predicate MarksSafely(w: World, e: Event)
    requires Possible(w, e)
  {
    var w' := Next(w, e);
    forall m :: |w.marks| <= m < |w'.marks| ==> CoveredBy(w', w'.marks[m])
  }

  ghost predicate AlwaysMarksSafely(w: World, events: seq<Event>)
    requires PossibleRun(w, events)
    decreases |events|
  {
    events != [] ==> MarksSafely(w, events[0]) && AlwaysMarksSafely(Next(w, events[0]), events[1..])
  }

  lemma ReadyCovers(w: World, i: nat, top: Key)
    requires EntriesOK(w) && NoneForgotten(w) && Possible(w, Confirm(i)) && w.log[i] in w.table
    requires Ready(MarkComplete(w.table, w.log[i]), top)
    requires Held(w, i)
    ensures forall d :: 0 <= d < |w.log| && w.log[d].partition == top.partition && w.log[d].offset <= top.offset ==>
              d in w.confirmed || d == i
  {
    var t1 := MarkComplete(w.table, w.log[i]);
    forall d | 0 <= d < |w.log| && w.log[d].partition == top.partition && w.log[d].offset <= top.offset
      ensures d in w.confirmed || d == i
    {
      if d !in w.confirmed {
        assert Held(w, d) && EntryOK(w, w.log[d]);
        assert AtOrBelow(t1, w.log[d], top);
      }
    }
  }

  lemma MarkIsReady(t: Table, k: Key) returns (top: Key)
    requires k in t && MarkOf(t, k).Some?
    ensures top in ReadyIn(MarkComplete(t, k), k.partition)
    ensures Ready(MarkComplete(t, k), top) && top == Key(k.partition, MarkOf(t, k).value)
  {
    top :| top in ReadyIn(MarkComplete(t, k), k.partition) && top.offset == MarkOf(t, k).value;
  }

  lemma ConfirmMarksSafely(w: World, i: nat)
    requires Inv(w) && Possible(w, Confirm(i))
    ensures MarksSafely(w, Confirm(i))
  {
    ConfirmFindsItsEntry(w, i);
    if MarkOf(w.table, w.log[i]).Some? {
      var top := MarkIsReady(w.table, w.log[i]);
      ReadyCovers(w, i, top);
      assert CoveredBy(Next(w, Confirm(i)), top);
    }
  }

  /** Offset marking is safe in every run, for any completion order and any redelivery. */
  lemma {:induction false} EveryMarkIsSafe(w: World, events: seq<Event>)
    requires Inv(w) && PossibleRun(w, events)
    ensures AlwaysMarksSafely(w, events)
    decreases |events|
  {
    if events != [] {
      if events[0].Confirm? {
        ConfirmMarksSafely(w, events[0].i);
      }
      StepKeepsInv(w, events[0]);
      EveryMarkIsSafe(Next(w, events[0]), events[1..]);
    }
  }

  // ------------------------------------------------------------------ nothing is left unmarked

  /** Held before the step, in this partition. */
  predicate HeldIn(w: World, j: nat, partition: int) {
    j < |w.log| && Held(w, j) && w.log[j].partition == partition
  }

  /** A message in the table is ready exactly when everything delivered at or below its offset is confirmed. */
  lemma ReadyIffCovered(w: World, i: nat, j: nat)
    requires Inv(w) && Possible(w, Confirm(i)) && HeldIn(w, j, w.log[i].partition)
    ensures w.log[i] in w.table
    ensures Ready(MarkComplete(w.table, w.log[i]), w.log[j]) <==> CoveredBy(Next(w, Confirm(i)), w.log[j])
  {
    ConfirmFindsItsEntry(w, i);
    var t1, w' := MarkComplete(w.table, w.log[i]), Next(w, Confirm(i));
    if Ready(t1, w.log[j]) {
      ReadyCovers(w, i, w.log[j]);
    }
    if CoveredBy(w', w.log[j]) {
      forall k | AtOrBelow(t1, k, w.log[j]) ensures t1[k].complete {
        assert EntryOK(w, k);
      }
    }
  }

  /**
    A confirmation marks its partition exactly when some message in the table has everything delivered at or below it
    confirmed, and then it marks the highest such message; exactly these messages leave the table.
   */
  lemma ConfirmMarksTheHighest(w: World, i: nat)
    requires Inv(w) && Possible(w, Confirm(i))
    ensures var w', p := Next(w, Confirm(i)), w.log[i].partition;
            && (w'.marks == w.marks || (exists m :: w'.marks == w.marks + [m] && MarksHighest(w, w', p, m)))
            && (w'.marks == w.marks ==> forall j: nat :: HeldIn(w, j, p) ==> !CoveredBy(w', w.log[j]))
            && (forall j: nat :: HeldIn(w, j, p) ==> (w.log[j] in w'.table <==> !CoveredBy(w', w.log[j])))
  {
    ConfirmFindsItsEntry(w, i);
    var w', k := Next(w, Confirm(i)), w.log[i];
    var t1 := MarkComplete(w.table, k);
    var ready := ReadyIn(t1, k.partition);
    forall j: nat | HeldIn(w, j, k.partition) ensures w.log[j] in ready <==> CoveredBy(w', w.log[j]) {
      ReadyIffCovered(w, i, j);
    }
    if ready != {} {
      var top := MarkIsReady(w.table, k);
      ReadyIsHeld(w, top);
      assert w'.marks == w.marks + [top];
      assert MarksHighest(w, w', k.partition, top) by {
        assert IsHighest(ready, top.offset);
      }
    }
  }

  lemma ReadyIsHeld(w: World, k: Key)
    requires EntriesOK(w) && k in w.table
    ensures HeldIn(w, w.table[k].delivery, k.partition) && w.log[w.table[k].delivery] == k
  {
    assert EntryOK(w, k);
  }

  /** The mark is the highest of the messages in the table with everything delivered at or below it confirmed. */
  ghost predicate MarksHighest(w: World, w': World, partition: int, m: Key) {
    && m.partition == partition && (exists j: nat :: HeldIn(w, j, partition) && w.log[j] == m) && CoveredBy(w', m)
    && forall j: nat :: HeldIn(w, j, partition) && w.log[j].offset > m.offset ==> !CoveredBy(w', w.log[j])
  }

  ghost predicate MarkedUpTo(marks: seq<Key>, k: Key) {
    exists m :: 0 <= m < |marks| && marks[m].partition == k.partition && marks[m].offset >= k.offset
  }

  /** A delivery that has left the table is marked, by its own offset or one above it; marks are delivered offsets. */
  ghost predicate AllMarked(w: World) {
    && (forall j :: 0 <= j < |w.log| ==> Held(w, j) || MarkedUpTo(w.marks, w.log[j]))
    && (forall m :: 0 <= m < |w.marks| ==> w.marks[m] in w.log)
  }

  lemma ConfirmKeepsAllMarked(w: World, i: nat)
    requires Inv(w) && AllMarked(w) && Possible(w, Confirm(i))
    ensures AllMarked(Next(w, Confirm(i)))
  {
    var w', p := Next(w, Confirm(i)), w.log[i].partition;
    ConfirmFindsItsEntry(w, i);
    ConfirmMarksTheHighest(w, i);
    forall j | 0 <= j < |w'.log| ensures Held(w', j) || MarkedUpTo(w'.marks, w'.log[j]) {
      ConfirmLeavesMarked(w, i, j);
    }
    NewMarkIsDelivered(w, w', p);
  }

  lemma NewMarkIsDelivered(w: World, w': World, p: int)
    requires w'.log == w.log && (forall m :: 0 <= m < |w.marks| ==> w.marks[m] in w.log)
    requires w'.marks == w.marks || (exists m :: w'.marks == w.marks + [m] && MarksHighest(w, w', p, m))
    ensures forall m :: 0 <= m < |w'.marks| ==> w'.marks[m] in w'.log
  {
  }

  lemma MarkedStill(marks: seq<Key>, m: Key, k: Key)
    ensures MarkedUpTo(marks, k) ==> MarkedUpTo(marks + [m], k)
    ensures m.partition == k.partition && m.offset >= k.offset ==> MarkedUpTo(marks + [m], k)
  {
    if MarkedUpTo(marks, k) {
      var j :| 0 <= j < |marks| && marks[j].partition == k.partition && marks[j].offset >= k.offset;
      assert (marks + [m])[j] == marks[j];
    }
    assert (marks + [m])[|marks|] == m;
  }

  /** A message leaves the table only when everything delivered at or below it is confirmed. */
  lemma ConfirmKeepsHeld(w: World, i: nat, j: nat)
    requires Inv(w) && Possible(w, Confirm(i)) && j < |w.log| && Held(w, j)
    ensures var w' := Next(w, Confirm(i));
            Held(w', j) || (HeldIn(w, j, w.log[i].partition) && CoveredBy(w', w.log[j]))
  {
    ConfirmFindsItsEntry(w, i);
    if w.log[j].partition == w.log[i].partition {
      assert HeldIn(w, j, w.log[i].partition);
      ReadyIffCovered(w, i, j);
    }
  }

  lemma CoveredIsMarked(w: World, i: nat, j: nat)
    requires Inv(w) && Possible(w, Confirm(i)) && HeldIn(w, j, w.log[i].partition)
    requires CoveredBy(Next(w, Confirm(i)), w.log[j])
    ensures MarkedUpTo(Next(w, Confirm(i)).marks, w.log[j])
  {
    var w', p := Next(w, Confirm(i)), w.log[i].partition;
    ConfirmMarksTheHighest(w, i);
    var m :| w'.marks == w.marks + [m] && MarksHighest(w, w', p, m);
    MarkedStill(w.marks, m, w.log[j]);
  }

  lemma ConfirmLeavesMarked(w: World, i: nat, j: nat)
    requires Inv(w) && Possible(w, Confirm(i)) && j < |w.log| && (Held(w, j) || MarkedUpTo(w.marks, w.log[j]))
    ensures var w' := Next(w, Confirm(i)); w'.log == w.log && (Held(w', j) || MarkedUpTo(w'.marks, w'.log[j]))
  {
    if Held(w, j) {
      ConfirmKeepsHeld(w, i, j);
      if HeldIn(w, j, w.log[i].partition) && CoveredBy(Next(w, Confirm(i)), w.log[j]) {
        CoveredIsMarked(w, i, j);
      }
    } else {
      MarksOnlyGrow(w, i, w.log[j]);
    }
  }

  lemma MarksOnlyGrow(w: World, i: nat, k: Key)
    requires Inv(w) && Possible(w, Confirm(i)) && MarkedUpTo(w.marks, k)
    ensures MarkedUpTo(Next(w, Confirm(i)).marks, k)
  {
    ConfirmFindsItsEntry(w, i);
    if MarkOf(w.table, w.log[i]).Some? {
      MarkedStill(w.marks, Key(w.log[i].partition, MarkOf(w.table, w.log[i]).value), k);
    }
  }

  lemma StepKeepsAllMarked(w: World, e: Event)
    requires Inv(w) && AllMarked(w) && Possible(w, e)
    ensures AllMarked(Next(w, e))
  {
    match e
    case Receive(k) =>
      var w' := Next(w, e);
      forall j | 0 <= j < |w'.log| ensures Held(w', j) || MarkedUpTo(w'.marks, w'.log[j]) {
        assert j < |w.log| ==> w'.log[j] == w.log[j] && (Held(w, j) || MarkedUpTo(w.marks, w.log[j]));
      }
    case Reply(i) =>
      var w' := Next(w, e);
      forall j | 0 <= j < |w'.log| ensures Held(w', j) || MarkedUpTo(w'.marks, w'.log[j]) {
        assert Held(w, j) || MarkedUpTo(w.marks, w.log[j]);
      }
    case Confirm(i) => ConfirmKeepsAllMarked(w, i);
  }

  /** In every run, with any redelivery: what has left the table is marked, and nothing but what was delivered is. */
  lemma {:induction false} WhatLeavesIsMarked(w: World, events: seq<Event>)
    requires Inv(w) && AllMarked(w) && PossibleRun(w, events)
    ensures AllMarked(After(w, events))
    decreases |events|
  {
    if events != [] {
      StepKeepsInv(w, events[0]);
      StepKeepsAllMarked(w, events[0]);
      WhatLeavesIsMarked(Next(w, events[0]), events[1..]);
    }
  }

  ghost predicate AllConfirmed(w: World, partition: int) {
    forall j :: 0 <= j < |w.log| && w.log[j].partition == partition ==> j in w.confirmed
  }

  /** Everything delivered from the partition is confirmed, and this is the highest offset of it. */
  ghost predicate HighestOfConfirmed(w: World, k: Key) {
    && k in w.log && AllConfirmed(w, k.partition)
    && forall l :: l in w.log && l.partition == k.partition ==> l.offset <= k.offset
  }

  /** Once everything delivered from a partition is confirmed, its highest delivered offset is among its marks. */
  lemma HighestDeliveredIsMarked(maxInFlight: nat, events: seq<Event>, k: Key)
    requires PossibleRun(Start(maxInFlight), events)
    requires HighestOfConfirmed(After(Start(maxInFlight), events), k)
    ensures k in After(Start(maxInFlight), events).marks
  {
    InvThroughout(Start(maxInFlight), events);
    WhatLeavesIsMarked(Start(maxInFlight), events);
    HighestIsAMark(After(Start(maxInFlight), events), k);
  }

  lemma HighestIsAMark(w: World, k: Key)
    requires Inv(w) && AllMarked(w) && HighestOfConfirmed(w, k)
    ensures k in w.marks
  {
    var j :| 0 <= j < |w.log| && w.log[j] == k;
    ConfirmedPartitionIsEmpty(w, k);
    assert MarkedUpTo(w.marks, w.log[j]);
    var m :| 0 <= m < |w.marks| && w.marks[m].partition == k.partition && w.marks[m].offset >= k.offset;
    assert w.marks[m] in w.log;
    assert w.marks[m] == k;
  }

  lemma ConfirmedPartitionIsEmpty(w: World, k: Key)
    requires Inv(w) && AllConfirmed(w, k.partition)
    ensures k !in w.table
  {
    if k in w.table {
      forall l | AtOrBelow(w.table, l, k) ensures w.table[l].complete {
        assert EntryOK(w, l);
      }
      assert Ready(w.table, k);
    }
  }

  /** A received message lies beyond everything already received from its partition. */
  predicate InOrder(w: World, e: Event) {
    e.Receive? ==> forall i :: 0 <= i < |w.log| && w.log[i].partition == e.k.partition ==> w.log[i].offset < e.k.offset
  }

  ghost predicate DeliversInOrder(w: World, events: seq<Event>)
    requires PossibleRun(w, events)
    decreases |events|
  {
    events != [] ==> InOrder(w, events[0]) && DeliversInOrder(Next(w, events[0]), events[1..])
  }

  predicate Increasing(marks: seq<Key>) {
    forall i, j :: 0 <= i < j < |marks| && marks[i].partition == marks[j].partition ==>
      marks[i].offset < marks[j].offset
  }

  /** Marks are logged offsets, increase, and lie below all that is in flight in their partition. */
  predicate MarksBehind(w: World) {
    && Increasing(w.marks)
    && (forall m :: m in w.marks ==> m in w.log)
    && (forall m, k :: m in w.marks && k in w.table && m.partition == k.partition ==> m.offset < k.offset)
  }

  /** What stays in flight in the partition lies above the mark. */
  lemma MarkIsBelowTheRest(t: Table, k: Key, top: Key, j: Key)
    requires k in t && Ready(MarkComplete(t, k), top) && j in Confirmed(t, k)
    requires j.partition == top.partition == k.partition
    ensures top.offset < j.offset
  {
    var t1 := MarkComplete(t, k);
    if AtOrBelow(t1, j, top) {
      ReadyBelowReady(t1, top, j);
    }
  }

  lemma ReadyBelowReady(t: Table, top: Key, j: Key)
    requires Ready(t, top) && AtOrBelow(t, j, top)
    ensures Ready(t, j)
  {
    forall l | AtOrBelow(t, l, j) ensures t[l].complete {
      assert AtOrBelow(t, l, top);
    }
  }

  lemma ConfirmKeepsMarksBehind(w: World, i: nat)
    requires Inv(w) && MarksBehind(w) && Possible(w, Confirm(i))
    ensures MarksBehind(Next(w, Confirm(i)))
  {
    ConfirmFindsItsEntry(w, i);
    var k := w.log[i];
    var w' := Next(w, Confirm(i));
    if MarkOf(w.table, k).Some? {
      var top := MarkIsReady(w.table, k);
      assert EntryOK(w, top);
      forall j | j in w'.table && j.partition == top.partition ensures top.offset < j.offset {
        MarkIsBelowTheRest(w.table, k, top, j);
      }
      NewMarkIsHighest(w.marks, w.table, top);
      assert w'.marks == w.marks + [top];
    }
  }

  lemma NewMarkIsHighest(marks: seq<Key>, table: Table, top: Key)
    requires Increasing(marks) && top in table
    requires forall m, k :: m in marks && k in table && m.partition == k.partition ==> m.offset < k.offset
    ensures Increasing(marks + [top])
  {
    assert forall m :: 0 <= m < |marks| ==> marks[m] in marks;
  }

  lemma StepKeepsMarksBehind(w: World, e: Event)
    requires Inv(w) && MarksBehind(w) && Possible(w, e) && InOrder(w, e)
    ensures MarksBehind(Next(w, e))
  {
    match e
    case Receive(k) =>
    case Reply(i) =>
    case Confirm(i) => ConfirmKeepsMarksBehind(w, i);
  }

  /** Without redelivery and with in-order delivery, the marks of each partition strictly increase. */
  lemma {:induction false} MarksStrictlyIncrease(w: World, events: seq<Event>)
    requires Inv(w) && MarksBehind(w) && PossibleRun(w, events) && DeliversInOrder(w, events)
    ensures MarksBehind(After(w, events))
    decreases |events|
  {
    if events != [] {
      StepKeepsInv(w, events[0]);
      StepKeepsMarksBehind(w, events[0]);
      MarksStrictlyIncrease(Next(w, events[0]), events[1..]);
    }
  }

  /** The mark is made, and none in its partition after it. */
  ghost predicate IsLastMark(marks: seq<Key>, k: Key) {
    exists m :: 0 <= m < |marks| && marks[m] == k && forall n :: m < n < |marks| ==> marks[n].partition != k.partition
  }

  /**
    Without redelivery and with in-order delivery: once everything delivered from a partition is confirmed, its last
    mark is its highest delivered offset.
   */
  lemma LastMarkIsHighestDelivered(maxInFlight: nat, events: seq<Event>, k: Key)
    requires PossibleRun(Start(maxInFlight), events) && DeliversInOrder(Start(maxInFlight), events)
    requires HighestOfConfirmed(After(Start(maxInFlight), events), k)
    ensures IsLastMark(After(Start(maxInFlight), events).marks, k)
  {
    InvThroughout(Start(maxInFlight), events);
    WhatLeavesIsMarked(Start(maxInFlight), events);
    MarksStrictlyIncrease(Start(maxInFlight), events);
    HighestIsTheLast(After(Start(maxInFlight), events), k);
  }

  lemma HighestIsTheLast(w: World, k: Key)
    requires Inv(w) && AllMarked(w) && Increasing(w.marks) && HighestOfConfirmed(w, k)
    ensures IsLastMark(w.marks, k)
  {
    HighestIsAMark(w, k);
    var m :| 0 <= m < |w.marks| && w.marks[m] == k;
    forall n | m < n < |w.marks| ensures w.marks[n].partition != k.partition {
      assert w.marks[n] in w.log;
    }
  }
}
