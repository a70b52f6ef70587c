/**
  The unfiltered listing of the LevelDB receipt store (internal/receipts/leveldbreceipts.go). An iterator is a snapshot
  of the keys in ascending order.
 */
module ReceiptListings {
  import opened Sorting
  import opened Lexicographic
  import opened ReceiptIndex

  datatype Listed = Listed(sequenceKey: string, receipt: Receipt)

  /** The receipts of the ledger with their sequence keys, oldest first. */
  ghost function Documents(l: Ledger, keys: seq<string>): seq<Listed>
    requires Shape(l, keys)
  {
    seq(|keys|, i requires 0 <= i < |keys| => Listed(keys[i], l.receipts[l.ids[i]]))
  }

  function Reversed<T>(s: seq<T>): seq<T> {
    seq(|s|, i requires 0 <= i < |s| => s[|s| - 1 - i])
  }

  /** At most `limit` elements; a limit that is not positive is no limit. */
  function Limited<T>(s: seq<T>, limit: int): seq<T> {
    if 0 < limit < |s| then s[..limit] else s
  }

  function Skipped<T>(s: seq<T>, skip: int): seq<T> {
    if skip <= 0 then s else if skip < |s| then s[skip..] else []
  }

  // ------------------------------------------------------------------ iteration

  predicate AllIn(itr: seq<string>, kv: Store) {
    forall i :: 0 <= i < |itr| ==> itr[i] in kv
  }

  ghost predicate IsSnapshot(itr: seq<string>, kv: Store) {
    Ascending(itr) && AllIn(itr, kv) && forall k :: k in kv ==> k in itr
  }

  method Snapshot(kv: Store) returns (ks: seq<string>)
    ensures IsSnapshot(ks, kv)
  {
    var listed: seq<string> := [];
    var left := kv.Keys;
    while left != {}
      invariant left <= kv.Keys
      invariant forall k :: k in listed <==> k in kv && k !in left
      invariant forall i, j :: 0 <= i < j < |listed| ==> listed[i] != listed[j]
      decreases |left|
    {
      var k :| k in left;
      left := left - {k};
      listed := listed + [k];
    }
    ks := Sort(listed, Leq);
    LeqIsAnOrder();
    SortOfDistinct(listed, Leq);
  }

  lemma LeqIsAnOrder()
    ensures TotalPreorder(Leq)
  {
    forall a, b ensures Leq(a, b) || Leq(b, a) {
      Total(a, b);
    }
    forall a, b, c | Leq(a, b) && Leq(b, c) ensures Leq(a, c) {
      Transitive(a, b, c);
    }
  }

  // ------------------------------------------------------------------ the unfiltered listing

  predicate IsSequenceKey(key: string) {
    HasPrefix(key, "z")
  }

  /** What the value of a key decodes to: a pointer is not a JSON document. */
  function Decoded(key: string, e: Entry): seq<Listed> {
    match e
    case Document(r) => [Listed(key, r)]
    case Pointer(_) => []
  }

  /** The documents met going down from the first `n` keys, as long as the keys start with a "z". */
  function DocsDown(kv: Store, itr: seq<string>, n: nat): seq<Listed>
    requires n <= |itr| && AllIn(itr, kv)
  {
    if n == 0 || !IsSequenceKey(itr[n - 1]) then []
    else
      Decoded(itr[n - 1], kv[itr[n - 1]]) + DocsDown(kv, itr, n - 1)
  }

  /** How many of `n` keys are left below a skip. */
  function Below(n: nat, skip: int): nat {
    if skip <= 0 then n else if skip < n then n - skip else 0
  }

  /** What a listing returns: it skips keys of any kind, but limits the number of documents. */
  function Listing(kv: Store, itr: seq<string>, skip: int, limit: int): seq<Listed>
    requires AllIn(itr, kv)
  {
    Limited(DocsDown(kv, itr, Below(|itr|, skip)), limit)
  }

  /** What it should return: the skip and limit slice of the ledger, newest first. */
  ghost function Slice(l: Ledger, keys: seq<string>, skip: int, limit: int): seq<Listed>
    requires Shape(l, keys)
  {
    Limited(Skipped(Reversed(Documents(l, keys)), skip), limit)
  }

  /** How many elements a skip leaves out, and how many a limit then lets through. */
  function LeftOut(n: nat, skip: int): nat {
    if skip <= 0 then 0 else if skip < n then skip else n
  }

  function LetThrough(n: nat, limit: int): nat {
    if limit <= 0 then n else if limit < n then limit else n
  }

  lemma SkippedInFigures<T>(s: seq<T>, skip: int)
    ensures |Skipped(s, skip)| == |s| - LeftOut(|s|, skip)
    ensures forall i :: 0 <= i < |Skipped(s, skip)| ==> Skipped(s, skip)[i] == s[LeftOut(|s|, skip) + i]
  {
  }

  lemma LimitedInFigures<T>(s: seq<T>, limit: int)
    ensures |Limited(s, limit)| == LetThrough(|s|, limit)
    ensures forall i :: 0 <= i < |Limited(s, limit)| ==> Limited(s, limit)[i] == s[i]
  {
  }

  /** The slice in figures: from the newest on, without the first `skip` and at most `limit` if that is positive. */
  lemma SliceInFigures(l: Ledger, keys: seq<string>, skip: int, limit: int, i: nat)
    requires Shape(l, keys)
    ensures var n, slice := |keys|, Slice(l, keys, skip, limit);
            && |slice| == LetThrough(n - LeftOut(n, skip), limit)
            && (i < |slice| ==>
                  var j := n - 1 - LeftOut(n, skip) - i;
                  0 <= j && slice[i] == Listed(keys[j], l.receipts[l.ids[j]]))
  {
    var docs := Reversed(Documents(l, keys));
    var rest := Skipped(docs, skip);
    SkippedInFigures(docs, skip);
    LimitedInFigures(rest, limit);
    if i < |Slice(l, keys, skip, limit)| {
      assert rest[i] == docs[LeftOut(|keys|, skip) + i];
    }
  }

  /** How far a listing has come: still skipping, or with these results and the first `left` keys to go. */
  predicate Scanned(kv: Store, itr: seq<string>, skip: int, index: nat, left: nat, results: seq<Listed>)
    requires left <= |itr| && AllIn(itr, kv)
  {
    if index < skip then results == [] && left == |itr| - index
    else DocsDown(kv, itr, Below(|itr|, skip)) == results + DocsDown(kv, itr, left)
  }

  lemma ScanEnds(kv: Store, itr: seq<string>, skip: int, limit: int, index: nat, left: nat, results: seq<Listed>)
    requires left <= |itr| && AllIn(itr, kv)
    requires Scanned(kv, itr, skip, index, left, results) && (limit > 0 ==> |results| <= limit)
    requires left == 0 || (limit > 0 && |results| >= limit) || (index >= skip && !IsSequenceKey(itr[left - 1]))
    ensures results == Listing(kv, itr, skip, limit)
  {
    if index >= skip && (left == 0 || !IsSequenceKey(itr[left - 1])) {
      assert DocsDown(kv, itr, left) == [];
    }
  }

  lemma ScanGoesOn(kv: Store, itr: seq<string>, skip: int, index: nat, left: nat, results: seq<Listed>)
    requires 0 < left <= |itr| && AllIn(itr, kv)
    requires Scanned(kv, itr, skip, index, left, results) && index >= skip && IsSequenceKey(itr[left - 1])
    ensures match kv[itr[left - 1]]
            case Pointer(_) => Scanned(kv, itr, skip, index, left - 1, results)
            case Document(receipt) =>
              Scanned(kv, itr, skip, index, left - 1, results + [Listed(itr[left - 1], receipt)])
  {
    var doc, rest := Decoded(itr[left - 1], kv[itr[left - 1]]), DocsDown(kv, itr, left - 1);
    assert results + (doc + rest) == results + doc + rest;
    assert results + [] == results;
  }

  /** `getReceiptsNoFilter` without a start. */
  method ReceiptsNoFilter(kv: Store, itr: seq<string>, skip: int, limit: int) returns (results: seq<Listed>)
    requires AllIn(itr, kv)
    ensures results == Listing(kv, itr, skip, limit)
  {
    results := [];
    var index, left := 0, |itr|;
    while left > 0
      invariant 0 <= left <= |itr| && 0 <= index
      invariant Scanned(kv, itr, skip, index, left, results)
      invariant limit > 0 ==> |results| <= limit
    {
      if limit > 0 && |results| >= limit {
        break;
      }
      var key := itr[left - 1];
      if index >= skip {
        if !IsSequenceKey(key) {
          break;
        }
        ScanGoesOn(kv, itr, skip, index, left, results);
        match kv[key]
        case Pointer(_) =>
          left := left - 1;
          continue;
        case Document(receipt) =>
          results := results + [Listed(key, receipt)];
      }
      index := index + 1;
      left := left - 1;
    }
    ScanEnds(kv, itr, skip, limit, index, left, results);
  }

  /** Every request ID sorts below the oldest sequence key. */
  ghost predicate IdsBelow(l: Ledger, keys: seq<string>) {
    forall id :: id in l.ids ==> keys != [] && Less(id, keys[0])
  }

  lemma IndexShapedIsBelow(k: string, key: string)
    requires IndexShaped(k) && SequenceKey(key)
    ensures k != [] && k[0] < 'z' && Less(k, key)
  {
    assert ("from" + ":")[0] == 'f' && ("to" + ":")[0] == 't' && ("receivedAt" + ":")[0] == 'r';
  }

  lemma AboveSequenceKey(key: string, k: string)
    requires SequenceKey(key) && Leq(key, k)
    ensures k != [] && k[0] >= 'z'
  {
  }

  /** Where the sequence keys begin in a snapshot: everything from there on is at or above the oldest of them. */
  lemma OldestAt(kv: Store, itr: seq<string>, l: Ledger, keys: seq<string>) returns (p: nat)
    requires Represents(kv, l, keys) && IsSnapshot(itr, kv) && keys != []
    ensures p < |itr| && itr[p] == keys[0]
    ensures forall i :: 0 <= i < |itr| ==> (p <= i <==> Leq(keys[0], itr[i]))
  {
    assert keys[0] in kv && keys[0] in itr;
    p :| 0 <= p < |itr| && itr[p] == keys[0];
    forall i | 0 <= i < |itr| ensures p <= i <==> Leq(keys[0], itr[i]) {
      AscendingHasNoRepeats(itr, p, i);
    }
  }

  lemma NoKeysNothingStored(kv: Store, l: Ledger)
    requires Represents(kv, l, [])
    ensures forall k :: k !in kv
  {
    forall k ensures k !in kv {
      assert k !in l.ids;
    }
  }

  /** With all IDs below, the snapshot ends with the sequence keys, and everything before is a pointer. */
  lemma KeysComeLast(kv: Store, itr: seq<string>, l: Ledger, keys: seq<string>)
    requires Represents(kv, l, keys) && IsSnapshot(itr, kv) && IdsBelow(l, keys)
    ensures |keys| <= |itr| && itr[|itr| - |keys|..] == keys
    ensures forall i :: 0 <= i < |itr| - |keys| ==> PointerAt(kv, itr[i])
  {
    var p := KeysBeginAt(kv, itr, l, keys);
    TailIsKeys(itr, p, keys);
    OthersArePointers(kv, itr, keys, p);
  }

  lemma OthersArePointers(kv: Store, itr: seq<string>, keys: seq<string>, n: nat)
    requires PointersLead(kv, keys) && AllIn(itr, kv) && n <= |itr| && forall i :: 0 <= i < n ==> itr[i] !in keys
    ensures forall i :: 0 <= i < n ==> PointerAt(kv, itr[i])
  {
  }

  lemma KeysBeginAt(kv: Store, itr: seq<string>, l: Ledger, keys: seq<string>) returns (p: nat)
    requires Represents(kv, l, keys) && IsSnapshot(itr, kv) && IdsBelow(l, keys)
    ensures p <= |itr| && forall i :: 0 <= i < |itr| ==> (itr[i] in keys <==> p <= i)
    ensures forall i :: 0 <= i < |keys| ==> keys[i] in itr
  {
    p := |itr|;
    if keys == [] {
      NoKeysNothingStored(kv, l);
    } else {
      p := OldestAt(kv, itr, l, keys);
      forall i | 0 <= i < |itr| ensures itr[i] in keys <==> p <= i {
        InKeysIffAbove(kv, itr, l, keys, i);
      }
    }
  }

  lemma InKeysIffAbove(kv: Store, itr: seq<string>, l: Ledger, keys: seq<string>, i: nat)
    requires Represents(kv, l, keys) && IsSnapshot(itr, kv) && IdsBelow(l, keys) && keys != [] && i < |itr|
    ensures itr[i] in keys <==> Leq(keys[0], itr[i])
  {
    assert itr[i] in itr && SequenceKey(keys[0]);
    if itr[i] in keys {
      var j :| 0 <= j < |keys| && keys[j] == itr[i];
      AscendingHasNoRepeats(keys, 0, j);
    } else {
      NotAboveOldest(kv, l, keys, itr[i]);
    }
  }

  lemma NotAboveOldest(kv: Store, l: Ledger, keys: seq<string>, k: string)
    requires Represents(kv, l, keys) && IdsBelow(l, keys) && keys != [] && k in kv && k !in keys
    ensures !Leq(keys[0], k)
  {
    assert SequenceKey(keys[0]);
    if IndexShaped(k) {
      IndexShapedIsBelow(k, keys[0]);
    }
    assert Less(k, keys[0]);
    if Leq(keys[0], k) {
      Antisymmetric(k, keys[0]);
    }
  }

  lemma TailIsKeys(itr: seq<string>, split: nat, keys: seq<string>)
    requires Ascending(itr) && Ascending(keys) && split <= |itr|
    requires forall i :: 0 <= i < |itr| ==> (itr[i] in keys <==> split <= i)
    requires forall i :: 0 <= i < |keys| ==> keys[i] in itr
    ensures itr[split..] == keys
  {
    var tail := itr[split..];
    assert forall i :: 0 <= i < |tail| ==> tail[i] == itr[split + i];
    forall k ensures k in tail <==> k in keys {
      if k in keys {
        var i :| 0 <= i < |keys| && keys[i] == k;
        var j :| 0 <= j < |itr| && itr[j] == k;
        assert tail[j - split] == k;
      }
    }
    AscendingIsUnique(tail, keys);
  }

  lemma {:induction false} PointersDecodeToNothing(kv: Store, itr: seq<string>, n: nat)
    requires n <= |itr| && AllIn(itr, kv)
    requires forall i :: 0 <= i < n ==> PointerAt(kv, itr[i])
    ensures DocsDown(kv, itr, n) == []
  {
    if n > 0 {
      assert PointerAt(kv, itr[n - 1]);
      PointersDecodeToNothing(kv, itr, n - 1);
    }
  }

  predicate PointerAt(kv: Store, key: string) {
    key in kv && kv[key].Pointer?
  }

  predicate DocumentAt(kv: Store, key: string, doc: Listed) {
    key == doc.sequenceKey && IsSequenceKey(key) && key in kv && kv[key] == Document(doc.receipt)
  }

  /** After `split` pointers the rest of the keys lead to these documents. */
  predicate TailIs(kv: Store, itr: seq<string>, split: nat, docs: seq<Listed>) {
    && |itr| == split + |docs|
    && (forall i :: 0 <= i < split ==> PointerAt(kv, itr[i]))
    && (forall i :: split <= i < |itr| ==> DocumentAt(kv, itr[i], docs[i - split]))
  }

  /** Going down through documents lists them newest first. */
  lemma {:induction false} DocsDownOfDocuments(kv: Store, itr: seq<string>, split: nat, n: nat, docs: seq<Listed>)
    requires split <= n <= |itr| && AllIn(itr, kv)
    requires TailIs(kv, itr, split, docs)
    ensures DocsDown(kv, itr, n) == Reversed(docs[..n - split])
  {
    if n == split {
      PointersDecodeToNothing(kv, itr, n);
    } else {
      var last := n - split - 1;
      assert DocumentAt(kv, itr[n - 1], docs[n - 1 - split]);
      DocsDownOfDocuments(kv, itr, split, n - 1, docs);
      ReversedGrows(docs, last);
    }
  }

  lemma ReversedGrows<T>(s: seq<T>, i: nat)
    requires i < |s|
    ensures Reversed(s[..i + 1]) == [s[i]] + Reversed(s[..i])
  {
  }

  lemma ListingOfTail(kv: Store, itr: seq<string>, split: nat, docs: seq<Listed>, skip: int, limit: int)
    requires AllIn(itr, kv) && TailIs(kv, itr, split, docs)
    ensures Listing(kv, itr, skip, limit) == Limited(Skipped(Reversed(docs), skip), limit)
  {
    var n := Below(|itr|, skip);
    if n <= split {
      PointersDecodeToNothing(kv, itr, n);
    } else {
      DocsDownOfDocuments(kv, itr, split, n, docs);
      ReversedSkips(docs, n - split, skip);
    }
  }

  lemma ReversedSkips<T>(s: seq<T>, n: nat, skip: int)
    requires n <= |s| && n == Below(|s|, skip)
    ensures Reversed(s[..n]) == Skipped(Reversed(s), skip)
  {
  }

  /** With all IDs below the oldest sequence key, the listing is the slice. */
  lemma ListingIsSlice(kv: Store, itr: seq<string>, l: Ledger, keys: seq<string>, skip: int, limit: int)
    requires Represents(kv, l, keys) && IsSnapshot(itr, kv) && IdsBelow(l, keys)
    ensures Listing(kv, itr, skip, limit) == Slice(l, keys, skip, limit)
  {
    DocumentsComeLast(kv, itr, l, keys);
    ListingOfTail(kv, itr, |itr| - |keys|, Documents(l, keys), skip, limit);
  }

  lemma DocumentsComeLast(kv: Store, itr: seq<string>, l: Ledger, keys: seq<string>)
    requires Represents(kv, l, keys) && IsSnapshot(itr, kv) && IdsBelow(l, keys)
    ensures |keys| <= |itr| && TailIs(kv, itr, |itr| - |keys|, Documents(l, keys))
  {
    KeysComeLast(kv, itr, l, keys);
    DocumentsAreThere(kv, l, keys);
    PlacesInTail(kv, itr, |itr| - |keys|, keys, Documents(l, keys));
  }

  lemma PlacesInTail(kv: Store, itr: seq<string>, split: nat, keys: seq<string>, docs: seq<Listed>)
    requires split <= |itr| && itr[split..] == keys && |docs| == |keys|
    requires forall i :: 0 <= i < |keys| ==> DocumentAt(kv, keys[i], docs[i])
    ensures forall i :: split <= i < |itr| ==> DocumentAt(kv, itr[i], docs[i - split])
  {
    forall i | split <= i < |itr| ensures DocumentAt(kv, itr[i], docs[i - split]) {
      assert itr[split..][i - split] == keys[i - split];
    }
  }

  lemma DocumentsAreThere(kv: Store, l: Ledger, keys: seq<string>)
    requires Shape(l, keys) && DocumentsStored(kv, l, keys)
    ensures forall i :: 0 <= i < |keys| ==> DocumentAt(kv, keys[i], Documents(l, keys)[i])
  {
    forall i | 0 <= i < |keys| ensures DocumentAt(kv, keys[i], Documents(l, keys)[i]) {
      assert SequenceKey(keys[i]);
    }
  }

  /** An ID above every "z" ends the scan before it has begun. */
  lemma AboveZEmptiesTheListing(kv: Store, itr: seq<string>, l: Ledger, keys: seq<string>, id: string, limit: int)
    requires Represents(kv, l, keys) && IsSnapshot(itr, kv) && id in l.ids && id != [] && id[0] > 'z'
    ensures Listing(kv, itr, 0, limit) == []
  {
    var j :| 0 <= j < |l.ids| && l.ids[j] == id;
    assert id in kv && id in itr;
    LastIsAboveZ(itr, id);
    assert DocsDown(kv, itr, |itr|) == [];
  }

  lemma LastIsAboveZ(itr: seq<string>, id: string)
    requires Ascending(itr) && id in itr && id != [] && id[0] > 'z'
    ensures itr != [] && !IsSequenceKey(itr[|itr| - 1])
  {
    var i :| 0 <= i < |itr| && itr[i] == id;
    var last := itr[|itr| - 1];
    AscendingHasNoRepeats(itr, i, |itr| - 1);
    assert last != [] && last[0] > 'z';
    assert "z"[0] == 'z';
  }

  lemma {:induction false} DocsDownReaches(kv: Store, itr: seq<string>, n: nat, p: nat)
    requires p < n <= |itr| && AllIn(itr, kv) && kv[itr[p]].Document?
    requires forall i :: p <= i < n ==> IsSequenceKey(itr[i])
    ensures DocsDown(kv, itr, n) != []
  {
    if p < n - 1 {
      DocsDownReaches(kv, itr, n - 1, p);
    }
  }

  /** An ID that starts with a "z" and sorts above the oldest sequence key is counted by the skip. */
  lemma AboveOldestShiftsTheSkip(kv: Store, itr: seq<string>, l: Ledger, keys: seq<string>, id: string)
    requires Represents(kv, l, keys) && IsSnapshot(itr, kv) && keys != [] && id in l.ids && Less(keys[0], id)
    requires forall other :: other in l.ids ==> other == [] || other[0] <= 'z'
    ensures Listing(kv, itr, |keys|, 0) != [] && Slice(l, keys, |keys|, 0) == []
  {
    var p := OldestAt(kv, itr, l, keys);
    MoreThanTheKeys(kv, itr, l, keys, id, p);
    forall i | p <= i < |itr| ensures IsSequenceKey(itr[i]) {
      assert itr[i] in itr;
      AboveOldestIsZ(kv, l, keys, itr[i]);
    }
    assert SequenceKey(keys[0]) && kv[keys[0]].Document?;
    DocsDownReaches(kv, itr, Below(|itr|, |keys|), p);
  }

  lemma AboveOldestIsZ(kv: Store, l: Ledger, keys: seq<string>, k: string)
    requires Represents(kv, l, keys) && keys != [] && k in kv && Leq(keys[0], k)
    requires forall other :: other in l.ids ==> other == [] || other[0] <= 'z'
    ensures IsSequenceKey(k)
  {
    assert SequenceKey(keys[0]);
    AboveSequenceKey(keys[0], k);
    if k in keys {
      var j :| 0 <= j < |keys| && keys[j] == k;
      assert SequenceKey(keys[j]);
    }
    FromZIsNotShaped(k);
    assert k[0] == 'z';
  }

  lemma FromZIsNotShaped(k: string)
    requires k != [] && k[0] >= 'z'
    ensures !IndexShaped(k)
  {
    assert ("from" + ":")[0] == 'f' && ("to" + ":")[0] == 't' && ("receivedAt" + ":")[0] == 'r';
  }

  lemma MoreThanTheKeys(kv: Store, itr: seq<string>, l: Ledger, keys: seq<string>, id: string, p: nat)
    requires Represents(kv, l, keys) && IsSnapshot(itr, kv) && keys != [] && id in l.ids && Less(keys[0], id)
    requires p < |itr| && forall i :: 0 <= i < |itr| ==> (p <= i <==> Leq(keys[0], itr[i]))
    ensures p + |keys| < |itr|
  {
    var more, tail := keys + [id], itr[p..];
    forall k | k in more ensures k in tail {
      AboveOldestIsIn(kv, itr, l, keys, id, k);
      var i :| 0 <= i < |itr| && itr[i] == k;
      assert tail[i - p] == k;
    }
    AllDifferent(keys, id);
    DistinctFits(more, tail);
  }

  lemma AllDifferent(keys: seq<string>, id: string)
    requires Ascending(keys) && id !in keys
    ensures forall i, j :: 0 <= i < j < |keys + [id]| ==> (keys + [id])[i] != (keys + [id])[j]
  {
    var more := keys + [id];
    forall i, j | 0 <= i < j < |more| ensures more[i] != more[j] {
      if j < |keys| {
        AscendingHasNoRepeats(keys, i, j);
      } else {
        assert keys[i] in keys;
      }
    }
  }

  lemma AboveOldestIsIn(kv: Store, itr: seq<string>, l: Ledger, keys: seq<string>, id: string, k: string)
    requires Represents(kv, l, keys) && IsSnapshot(itr, kv) && keys != [] && id in l.ids && Less(keys[0], id)
    requires k in keys + [id]
    ensures k in itr && Leq(keys[0], k)
  {
    var h :| 0 <= h < |l.ids| && l.ids[h] == id;
    if k != id {
      var j :| 0 <= j < |keys| && keys[j] == k;
      AscendingHasNoRepeats(keys, 0, j);
    }
  }

  /**
    The listing is the skip and limit slice of the ledger, newest first, for every skip and limit, if and only if
    every stored request ID sorts below the oldest sequence key.
   */
  lemma ListingIsExactIff(kv: Store, itr: seq<string>, l: Ledger, keys: seq<string>)
    requires Represents(kv, l, keys) && IsSnapshot(itr, kv)
    ensures (forall skip, limit :: Listing(kv, itr, skip, limit) == Slice(l, keys, skip, limit)) <==> IdsBelow(l, keys)
  {
    if IdsBelow(l, keys) {
      forall skip, limit ensures Listing(kv, itr, skip, limit) == Slice(l, keys, skip, limit) {
        ListingIsSlice(kv, itr, l, keys, skip, limit);
      }
    } else {
      var id :| id in l.ids && !(keys != [] && Less(id, keys[0]));
      Total(id, keys[0]);
      assert Less(keys[0], id);
      if above :| above in l.ids && above != [] && above[0] > 'z' {
        AboveZEmptiesTheListing(kv, itr, l, keys, above, 0);
        assert |Slice(l, keys, 0, 0)| == |keys|;
      } else {
        AboveOldestShiftsTheSkip(kv, itr, l, keys, id);
      }
    }
  }
}
