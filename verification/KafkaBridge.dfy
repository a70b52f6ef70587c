/** The in-flight table of the Kafka bridge, updated in place (internal/kafka/kafkabridge.go). */
module KafkaBridges {
  import opened Options
  import opened Sorting
  import opened KafkaOffsets

  /** The order of `ctxByOffset`. */
  predicate OffsetLeq(a: Key, b: Key) {
    a.offset <= b.offset
  }

  class KafkaBridge {
    var inFlight: Table
    var deliveries: nat
    var maxInFlight: nat

    ghost predicate Valid()
      reads this
    {
      NoneReady(inFlight) && |inFlight| <= maxInFlight
    }

    /** A limit that is not positive is replaced by 10. */
    constructor (configuredMax: int)
      ensures Valid() && inFlight == map[] && deliveries == 0
      ensures maxInFlight == (if configuredMax <= 0 then 10 else configuredMax)
    {
      inFlight := map[];
      deliveries := 0;
      maxInFlight := if configuredMax <= 0 then 10 else configuredMax;
    }

    /** `addInflightMsg`; the consumer loop has waited for a free slot before calling it. */
    method AddInflightMsg(k: Key) returns (duplicate: bool)
      requires Valid() && |inFlight| < maxInFlight
      modifies this`inFlight, this`deliveries
      ensures Valid()
      ensures duplicate <==> k in old(inFlight)
      ensures duplicate ==> inFlight == old(inFlight) && deliveries == old(deliveries)
      ensures !duplicate ==>
                inFlight == old(inFlight)[k := Ctx(old(deliveries), false)] && deliveries == old(deliveries) + 1
    {
      duplicate := k in inFlight;
      if !duplicate {
        NewEntryReadiesNothing(inFlight, k, deliveries);
        inFlight := inFlight[k := Ctx(deliveries, false)];
        deliveries := deliveries + 1;
      }
    }

    /**
      `setInFlightComplete`: sort the partition by offset, take the complete prefix, drop it from the table and
      mark its last offset.
     */
    method SetInFlightComplete(k: Key) returns (mark: Option<int>)
      requires Valid() && k in inFlight
      modifies this`inFlight
      ensures Valid()
      ensures inFlight == Confirmed(old(inFlight), k)
      ensures mark == MarkOf(old(inFlight), k)
    {
      NothingReadyRemains(inFlight, k);
      ConfirmedIsNoLarger(inFlight, k);
      inFlight := inFlight[k := inFlight[k].(complete := true)];
      inFlight, mark := DropReady(inFlight, k.partition);
    }
  }

  /** Drops what is ready in a partition, and gives the last offset dropped. */
  method DropReady(t: Table, partition: int) returns (rest: Table, mark: Option<int>)
    ensures rest == t - ReadyIn(t, partition)
    ensures mark == if ReadyIn(t, partition) == {} then None else Some(HighestOffset(ReadyIn(t, partition)))
  {
    var sorted := SortedKeysOfPartition(t, partition);
    var ready := CompletePrefix(t, sorted);
    ReadyIsPrefix(t, partition, sorted, ready);
    mark := None;
    if ready > 0 {
      mark := Some(sorted[ready - 1].offset);
      assert sorted[ready - 1] in ReadyIn(t, partition);
      HighestIsUnique(ReadyIn(t, partition), mark.value);
    }
    rest := DropPrefix(t, sorted, ready);
  }

  lemma HighestIsUnique(ks: set<Key>, o: int)
    requires ks != {} && IsHighest(ks, o)
    ensures o == HighestOffset(ks)
  {
  }

  method DropPrefix(t: Table, sorted: seq<Key>, n: nat) returns (rest: Table)
    requires n <= |sorted|
    ensures rest == t - set j | 0 <= j < n :: sorted[j]
  {
    rest := t;
    for i := 0 to n
      invariant rest == t - set j | 0 <= j < i :: sorted[j]
    {
      rest := rest - {sorted[i]};
    }
  }

  method SortedKeysOfPartition(t: Table, partition: int) returns (sorted: seq<Key>)
    ensures ListsPartition(t, partition, sorted)
    ensures forall i :: 0 <= i < |sorted| ==> sorted[i] in t
  {
    var ks := KeysOfPartition(t, partition);
    sorted := Sort(ks, OffsetLeq);
    SortedPartition(t, partition, ks, sorted);
    assert forall i :: 0 <= i < |sorted| ==> sorted[i] in sorted;
  }

  /** Lists a partition of the table, in whatever order the map yields its keys. */
  method KeysOfPartition(t: Table, partition: int) returns (ks: seq<Key>)
    ensures forall k :: k in ks <==> k in t && k.partition == partition
    ensures forall i, j :: 0 <= i < j < |ks| ==> ks[i] != ks[j]
  {
    ks := [];
    var left := t.Keys;
    while left != {}
      invariant left <= t.Keys
      invariant forall k :: k in ks <==> k in t && k !in left && k.partition == partition
      invariant forall i, j :: 0 <= i < j < |ks| ==> ks[i] != ks[j]
      decreases |left|
    {
      var k :| k in left;
      left := left - {k};
      if k.partition == partition {
        ks := ks + [k];
      }
    }
  }

  /** Length of the longest prefix whose entries are all complete. */
  method CompletePrefix(t: Table, sorted: seq<Key>) returns (n: nat)
    requires forall i :: 0 <= i < |sorted| ==> sorted[i] in t
    ensures n <= |sorted|
    ensures forall i :: 0 <= i < n ==> t[sorted[i]].complete
    ensures n < |sorted| ==> !t[sorted[n]].complete
  {
    n := 0;
    while n < |sorted| && t[sorted[n]].complete
      invariant n <= |sorted|
      invariant forall i :: 0 <= i < n ==> t[sorted[i]].complete
    {
      n := n + 1;
    }
  }

  /** `sorted` lists exactly the partition, by strictly increasing offset. */
  ghost predicate ListsPartition(t: Table, partition: int, sorted: seq<Key>) {
    && (forall k :: k in sorted <==> k in t && k.partition == partition)
    && (forall i, j :: 0 <= i < j < |sorted| ==> sorted[i].offset < sorted[j].offset)
  }

  lemma SortedPartition(t: Table, partition: int, ks: seq<Key>, sorted: seq<Key>)
    requires forall k :: k in ks <==> k in t && k.partition == partition
    requires forall i, j :: 0 <= i < j < |ks| ==> ks[i] != ks[j]
    requires sorted == Sort(ks, OffsetLeq)
    ensures ListsPartition(t, partition, sorted)
  {
    SortOfDistinct(ks, OffsetLeq);
    forall i, j | 0 <= i < j < |sorted| ensures sorted[i].offset < sorted[j].offset {
      assert OffsetLeq(sorted[i], sorted[j]);
      assert sorted[i] in sorted && sorted[j] in sorted;
    }
  }

  /** The complete prefix of the sorted list is exactly the set of ready entries. */
  lemma ReadyIsPrefix(t: Table, partition: int, sorted: seq<Key>, n: nat)
    requires ListsPartition(t, partition, sorted) && n <= |sorted|
    requires forall i :: 0 <= i < |sorted| ==> sorted[i] in t
    requires forall i :: 0 <= i < n ==> t[sorted[i]].complete
    requires n < |sorted| ==> !t[sorted[n]].complete
    ensures ReadyIn(t, partition) == set j | 0 <= j < n :: sorted[j]
    ensures n > 0 ==> IsHighest(ReadyIn(t, partition), sorted[n - 1].offset)
  {
    forall i | 0 <= i < n ensures sorted[i] in ReadyIn(t, partition) {
      assert sorted[i] in sorted;
      forall l | AtOrBelow(t, l, sorted[i]) ensures t[l].complete {
        var j :| 0 <= j < |sorted| && sorted[j] == l;
      }
    }
    forall i | n <= i < |sorted| ensures !Ready(t, sorted[i]) {
      assert sorted[n] in sorted && sorted[i] in sorted;
      assert AtOrBelow(t, sorted[n], sorted[i]);
    }
    forall k | k in ReadyIn(t, partition) ensures k in set j | 0 <= j < n :: sorted[j] {
      var i :| 0 <= i < |sorted| && sorted[i] == k;
    }
  }
}
