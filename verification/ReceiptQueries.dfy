/** Queries of the LevelDB receipt store by sender, recipient or both (internal/receipts/leveldbreceipts.go). */
module ReceiptQueries {
  import opened Sorting
  import opened Lexicographic
  import opened ReceiptIndex
  import opened ReceiptListings

  // ------------------------------------------------------------------ sorted keys

  /** Where a binary search for `x` between `lo` and `hi` ends, in a sequence that may not be sorted. */
  function SearchBetween(arr: seq<string>, x: string, lo: nat, hi: nat): (idx: nat)
    requires lo <= hi <= |arr|
    ensures lo <= idx <= hi
    decreases hi - lo
  {
    if lo == hi then lo
    else
      var mid := (lo + hi) / 2;
      if Leq(x, arr[mid]) then SearchBetween(arr, x, lo, mid) else SearchBetween(arr, x, mid + 1, hi)
  }

  function Search(arr: seq<string>, x: string): (idx: nat)
    ensures idx <= |arr|
  {
    SearchBetween(arr, x, 0, |arr|)
  }

  /** The first position whose element is not below `x`. */
  predicate FirstNotBelow(arr: seq<string>, x: string, idx: nat) {
    && idx <= |arr|
    && (forall i :: 0 <= i < idx ==> !Leq(x, arr[i]))
    && (forall i :: idx <= i < |arr| ==> Leq(x, arr[i]))
  }

  lemma {:induction false} SearchBetweenAscending(arr: seq<string>, x: string, lo: nat, hi: nat)
    requires Ascending(arr) && lo <= hi <= |arr|
    requires (forall i :: 0 <= i < lo ==> !Leq(x, arr[i])) && forall i :: hi <= i < |arr| ==> Leq(x, arr[i])
    ensures FirstNotBelow(arr, x, SearchBetween(arr, x, lo, hi))
    decreases hi - lo
  {
    if lo < hi {
      var mid := (lo + hi) / 2;
      if Leq(x, arr[mid]) {
        forall i | mid <= i < hi ensures Leq(x, arr[i]) {
          AscendingHasNoRepeats(arr, mid, i);
          Transitive(x, arr[mid], arr[i]);
        }
        SearchBetweenAscending(arr, x, lo, mid);
      } else {
        forall i | lo <= i <= mid ensures !Leq(x, arr[i]) {
          AscendingHasNoRepeats(arr, i, mid);
          if Leq(x, arr[i]) {
            Transitive(x, arr[i], arr[mid]);
          }
        }
        SearchBetweenAscending(arr, x, mid + 1, hi);
      }
    }
  }

  /** sort.SearchStrings: in a sorted sequence, the first position whose element is not below `x`. */
  method SearchStrings(arr: seq<string>, x: string) returns (idx: nat)
    ensures idx == Search(arr, x)
    ensures Ascending(arr) ==> FirstNotBelow(arr, x, idx)
  {
    var lo, hi := 0, |arr|;
    while lo < hi
      invariant 0 <= lo <= hi <= |arr|
      invariant SearchBetween(arr, x, lo, hi) == Search(arr, x)
    {
      var mid := (lo + hi) / 2;
      if Leq(x, arr[mid]) {
        hi := mid;
      } else {
        lo := mid + 1;
      }
    }
    idx := lo;
    if Ascending(arr) {
      SearchBetweenAscending(arr, x, 0, |arr|);
    }
  }

  /** The binary search meets `x`. */
  predicate Finds(arr: seq<string>, x: string) {
    Search(arr, x) < |arr| && arr[Search(arr, x)] == x
  }

  /** The elements of `arr1` that a binary search finds in `arr2`. */
  function Intersection(arr1: seq<string>, arr2: seq<string>): seq<string> {
    if arr1 == [] then []
    else
      var last := |arr1| - 1;
      Intersection(arr1[..last], arr2) + if Finds(arr2, arr1[last]) then [arr1[last]] else []
  }

  lemma {:induction false} IntersectionIsExact(arr1: seq<string>, arr2: seq<string>)
    requires Ascending(arr1) && Ascending(arr2)
    ensures Ascending(Intersection(arr1, arr2))
    ensures forall k :: k in Intersection(arr1, arr2) <==> k in arr1 && k in arr2
    decreases |arr1|
  {
    if arr1 != [] {
      var last := |arr1| - 1;
      var before := Intersection(arr1[..last], arr2);
      IntersectionIsExact(arr1[..last], arr2);
      FoundIffIn(arr2, arr1[last]);
      assert arr1 == arr1[..last] + [arr1[last]];
      forall j | 0 <= j < |before| ensures Less(before[j], arr1[last]) {
        assert before[j] in before && before[j] in arr1[..last];
        var h :| 0 <= h < last && arr1[h] == before[j];
      }
    }
  }

  lemma FoundIffIn(arr: seq<string>, x: string)
    requires Ascending(arr)
    ensures Finds(arr, x) <==> x in arr
  {
    SearchBetweenAscending(arr, x, 0, |arr|);
    FoundIffEqual(arr, x, Search(arr, x));
  }

  /** `intersect`: of sorted sequences, exactly the common elements, in order. */
  method Intersect(arr1: seq<string>, arr2: seq<string>) returns (common: seq<string>)
    ensures common == Intersection(arr1, arr2)
    ensures Ascending(arr1) && Ascending(arr2) ==>
              Ascending(common) && forall k :: k in common <==> k in arr1 && k in arr2
  {
    common := [];
    for i := 0 to |arr1|
      invariant common == Intersection(arr1[..i], arr2)
    {
      var x := arr1[i];
      var idx := SearchStrings(arr2, x);
      assert arr1[..i + 1][..i] == arr1[..i];
      if idx < |arr2| && arr2[idx] == x {
        common := common + [x];
      }
    }
    assert arr1[..|arr1|] == arr1;
    if Ascending(arr1) && Ascending(arr2) {
      IntersectionIsExact(arr1, arr2);
    }
  }

  lemma FoundIffEqual(arr: seq<string>, x: string, idx: nat)
    requires Ascending(arr) && idx <= |arr|
    requires FirstNotBelow(arr, x, idx)
    ensures (idx < |arr| && arr[idx] == x) <==> x in arr
  {
    Reflexive(x);
    if x in arr {
      var i :| 0 <= i < |arr| && arr[i] == x;
      AscendingHasNoRepeats(arr, idx, i);
      Antisymmetric(arr[idx], x);
    }
  }

  predicate InBounds(k: string, start: string, end: string) {
    (start != "" ==> Leq(start, k)) && (end != "" ==> !Leq(end, k))
  }

  function From(arr: seq<string>, start: string): seq<string> {
    if start != "" then arr[Search(arr, start)..] else arr
  }

  function Until(arr: seq<string>, end: string): seq<string> {
    if end != "" then arr[..Search(arr, end)] else arr
  }

  lemma BoundsAreExact(arr: seq<string>, start: string, end: string)
    requires Ascending(arr)
    ensures var r := Until(From(arr, start), end);
            Ascending(r) && forall k :: k in r <==> k in arr && InBounds(k, start, end)
  {
    SearchBetweenAscending(arr, start, 0, |arr|);
    CutKeeps(arr, Search(arr, start), |arr|);
    var mid := From(arr, start);
    SearchBetweenAscending(mid, end, 0, |mid|);
    CutKeeps(mid, 0, Search(mid, end));
  }

  /** `applyBound`: of a sorted sequence the elements from `start` on and below `end`, an empty bound being none. */
  method ApplyBound(arr: seq<string>, start: string, end: string) returns (r: seq<string>)
    ensures r == Until(From(arr, start), end)
    ensures Ascending(arr) ==> Ascending(r) && forall k :: k in r <==> k in arr && InBounds(k, start, end)
  {
    r := arr;
    if start != "" {
      var startPos := SearchStrings(r, start);
      r := r[startPos..];
    }
    if end != "" {
      var endPos := SearchStrings(r, end);
      r := r[..endPos];
    }
    if Ascending(arr) {
      BoundsAreExact(arr, start, end);
    }
  }

  lemma CutKeeps(arr: seq<string>, lo: nat, hi: nat)
    requires Ascending(arr) && lo <= hi <= |arr|
    ensures Ascending(arr[lo..hi])
    ensures forall k :: k in arr[lo..hi] <==> exists i :: lo <= i < hi && arr[i] == k
    ensures lo == 0 && hi == |arr| ==> arr[lo..hi] == arr
    ensures hi == |arr| ==> arr[lo..hi] == arr[lo..]
    ensures lo == 0 ==> arr[lo..hi] == arr[..hi]
  {
    var cut := arr[lo..hi];
    forall k | k in cut ensures exists i :: lo <= i < hi && arr[i] == k {
      var j :| 0 <= j < |cut| && cut[j] == k;
      assert arr[lo + j] == k;
    }
    forall i | lo <= i < hi ensures arr[i] in cut {
      assert cut[i - lo] == arr[i];
    }
  }

  // ------------------------------------------------------------------ scanning an index

  /** The sequence keys ever indexed under a value, oldest first. */
  function Matching(entries: set<(string, nat)>, keys: seq<string>, value: string): seq<string> {
    if keys == [] then []
    else
      var last := |keys| - 1;
      Matching(entries, keys[..last], value) + if (value, last) in entries then [keys[last]] else []
  }

  lemma {:induction false} MatchingIsExact(entries: set<(string, nat)>, keys: seq<string>, value: string, k: string)
    ensures k in Matching(entries, keys, value) <==>
            exists i :: 0 <= i < |keys| && (value, i) in entries && keys[i] == k
    decreases |keys|
  {
    if keys != [] {
      var last := |keys| - 1;
      var before := keys[..last];
      MatchingIsExact(entries, before, value, k);
      if i :| 0 <= i < |keys| && (value, i) in entries && keys[i] == k {
        assert i < last ==> before[i] == k;
      }
    }
  }

  lemma {:induction false} MatchingAscends(entries: set<(string, nat)>, keys: seq<string>, value: string)
    requires Ascending(keys)
    ensures Ascending(Matching(entries, keys, value)) && |Matching(entries, keys, value)| <= |keys|
    decreases |keys|
  {
    if keys != [] {
      var last := |keys| - 1;
      var before := Matching(entries, keys[..last], value);
      MatchingAscends(entries, keys[..last], value);
      forall j | 0 <= j < |before| ensures Less(before[j], keys[last]) {
        MatchingIsExact(entries, keys[..last], value, before[j]);
      }
    }
  }

  /** What the first `n` keys with a prefix lead to, in key order. */
  function HitsAmong(kv: Store, itr: seq<string>, prefix: string, n: nat): seq<string>
    requires AllIn(itr, kv) && n <= |itr|
  {
    if n == 0 then []
    else HitsAmong(kv, itr, prefix, n - 1) + if HasPrefix(itr[n - 1], prefix) then [TextOf(kv[itr[n - 1]])] else []
  }

  function Hits(kv: Store, itr: seq<string>, prefix: string): seq<string>
    requires AllIn(itr, kv)
  {
    HitsAmong(kv, itr, prefix, |itr|)
  }

  /** The keys with the prefix stand in a row from `first` on and lead to these. */
  ghost predicate Run(kv: Store, itr: seq<string>, prefix: string, first: nat, hits: seq<string>) {
    && first + |hits| <= |itr|
    && (forall i :: 0 <= i < |itr| ==> (HasPrefix(itr[i], prefix) <==> first <= i < first + |hits|))
    && (forall j :: 0 <= j < |hits| ==> Holds(kv, itr[first + j], hits[j]))
  }

  predicate Holds(kv: Store, key: string, text: string) {
    key in kv && TextOf(kv[key]) == text
  }

  lemma {:induction false} HitsOfRun(kv: Store, itr: seq<string>, prefix: string, first: nat, hits: seq<string>, n: nat)
    requires AllIn(itr, kv) && Run(kv, itr, prefix, first, hits) && n <= |itr|
    ensures HitsAmong(kv, itr, prefix, n) ==
            if n <= first then [] else if n <= first + |hits| then hits[..n - first] else hits
  {
    if n > 0 {
      HitsOfRun(kv, itr, prefix, first, hits, n - 1);
      if first < n <= first + |hits| {
        assert Holds(kv, itr[first + (n - 1 - first)], hits[n - 1 - first]);
        assert hits[..n - first] == hits[..n - 1 - first] + [hits[n - 1 - first]];
      }
    }
  }

  lemma RunBetween(kv: Store, itr: seq<string>, prefix: string, first: nat, end: nat)
    requires AllIn(itr, kv) && first <= end <= |itr|
    requires forall i :: 0 <= i < |itr| ==> (HasPrefix(itr[i], prefix) <==> first <= i < end)
    ensures Run(kv, itr, prefix, first, Hits(kv, itr, prefix))
  {
    var hits := seq(end - first, j requires 0 <= j < end - first => TextOf(kv[itr[first + j]]));
    assert Run(kv, itr, prefix, first, hits);
    HitsOfRun(kv, itr, prefix, first, hits, |itr|);
    assert hits[..|hits|] == hits;
  }

  lemma NoPrefixBefore(itr: seq<string>, prefix: string, first: nat)
    requires first <= |itr| && forall i :: 0 <= i < first ==> !Leq(prefix, itr[i])
    ensures forall i :: 0 <= i < first ==> !HasPrefix(itr[i], prefix)
  {
    forall i | 0 <= i < first ensures !HasPrefix(itr[i], prefix) {
      if HasPrefix(itr[i], prefix) {
        PrefixIsLeq(prefix, itr[i]);
      }
    }
  }

  /** Seen from the place a search for the prefix finds, the hits are a run. */
  lemma HitsAreARun(kv: Store, itr: seq<string>, prefix: string)
    requires IsSnapshot(itr, kv)
    ensures Run(kv, itr, prefix, Search(itr, prefix), Hits(kv, itr, prefix))
  {
    var first := Search(itr, prefix);
    SearchBetweenAscending(itr, prefix, 0, |itr|);
    NoPrefixBefore(itr, prefix, first);
    var end := PrefixRun(itr, prefix, first);
    RunBetween(kv, itr, prefix, first, end);
  }

  /** The end of the keys with a prefix. */
  lemma PrefixRun(itr: seq<string>, prefix: string, first: nat) returns (end: nat)
    requires Ascending(itr) && first <= |itr|
    requires forall i :: first <= i < |itr| ==> Leq(prefix, itr[i])
    ensures first <= end <= |itr|
    ensures forall i :: first <= i < |itr| ==> (HasPrefix(itr[i], prefix) <==> i < end)
  {
    end := first;
    while end < |itr| && HasPrefix(itr[end], prefix)
      invariant first <= end <= |itr|
      invariant forall i :: first <= i < end ==> HasPrefix(itr[i], prefix)
    {
      end := end + 1;
    }
    forall i | end <= i < |itr| ensures !HasPrefix(itr[i], prefix) {
      AscendingHasNoRepeats(itr, end, i);
      if HasPrefix(itr[i], prefix) {
        PrefixRunIsContiguous(prefix, itr[end], itr[i]);
      }
    }
  }

  /** The key is the index entry of one of the matches. */
  predicate OwnKey(prefix: string, matches: seq<string>, k: string) {
    HasPrefix(k, prefix) && k[|prefix|..] in matches
  }

  /** No value that is indexed goes on with a colon after this one. */
  ghost predicate NoneExtends(entries: set<(string, nat)>, value: string) {
    forall e :: e in entries ==> !Extends(e.0, value)
  }

  /** No request ID reads as an index entry for this value without being one. */
  ghost predicate NoIdUnder(ids: seq<string>, prefix: string, matches: seq<string>) {
    forall id :: id in ids && HasPrefix(id, prefix) ==> OwnKey(prefix, matches, id)
  }

  /** Nothing lies under the prefix of the value but its own entries. */
  ghost predicate Undisturbed(ids: seq<string>, kind: string, entries: set<(string, nat)>, keys: seq<string>,
                              value: string) {
    NoneExtends(entries, value) && NoIdUnder(ids, IndexPrefix(kind, value), Matching(entries, keys, value))
  }

  lemma UnderPrefixIsShaped(kind: string, value: string, k: string)
    requires HasPrefix(k, IndexPrefix(kind, value))
    ensures ShapedAs(k, kind)
  {
    var prefix := IndexPrefix(kind, value);
    assert k == prefix + k[|prefix|..] == IndexKey(kind, value, k[|prefix|..]);
    IndexKeyIsShaped(kind, value, k[|prefix|..]);
  }

  /** A stored key with the value's prefix is then an entry for that value. */
  lemma EntryForValue(kv: Store, kind: string, value: string, entries: set<(string, nat)>, keys: seq<string>,
                      ids: seq<string>, k: string)
    requires Indexed(kv, kind, entries, keys, ids) && AllSequenceKeys(keys)
    requires Undisturbed(ids, kind, entries, keys, value)
    requires k in kv && HasPrefix(k, IndexPrefix(kind, value))
    ensures OwnKey(IndexPrefix(kind, value), Matching(entries, keys, value), k)
  {
    var prefix := IndexPrefix(kind, value);
    UnderPrefixIsShaped(kind, value, k);
    if k !in ids {
      assert HasEntry(kind, entries, keys, k);
      var e :| e in entries && e.1 < |keys| && k == IndexKey(kind, e.0, keys[e.1]);
      assert SequenceKey(keys[e.1]);
      PrefixSelectsValue(kind, value, e.0, keys[e.1]);
      assert (value, e.1) == e && k[|prefix|..] == keys[e.1];
      MatchingIsExact(entries, keys, value, keys[e.1]);
    }
  }

  lemma MatchIsStored(kv: Store, kind: string, value: string, entries: set<(string, nat)>, keys: seq<string>,
                      ids: seq<string>, k: string)
    requires Indexed(kv, kind, entries, keys, ids) && k in Matching(entries, keys, value)
    ensures IndexKey(kind, value, k) in kv && kv[IndexKey(kind, value, k)] == Pointer(k)
    ensures OwnKey(IndexPrefix(kind, value), Matching(entries, keys, value), IndexKey(kind, value, k))
  {
    MatchingIsExact(entries, keys, value, k);
    var i :| 0 <= i < |keys| && (value, i) in entries && keys[i] == k;
    assert EntryStored(kv, kind, (value, i).0, (value, i).1, keys);
    assert IndexKey(kind, value, k)[|IndexPrefix(kind, value)|..] == k;
  }

  /** The keys with the prefix, in key order. */
  function RunKeys(itr: seq<string>, first: nat, n: nat): seq<string>
    requires first + n <= |itr|
  {
    itr[first..first + n]
  }

  lemma RunKeysAreAll(kv: Store, itr: seq<string>, prefix: string, first: nat, hits: seq<string>)
    requires IsSnapshot(itr, kv) && Run(kv, itr, prefix, first, hits)
    ensures forall k :: k in RunKeys(itr, first, |hits|) <==> k in kv && HasPrefix(k, prefix)
  {
    var run := RunKeys(itr, first, |hits|);
    forall k | k in run ensures k in kv && HasPrefix(k, prefix) {
      var j :| 0 <= j < |run| && run[j] == k;
      assert itr[first + j] == k;
    }
    forall k | k in kv && HasPrefix(k, prefix) ensures k in run {
      var i :| 0 <= i < |itr| && itr[i] == k;
      assert run[i - first] == k;
    }
  }

  /** The index entries of the matches. */
  function OwnKeys(prefix: string, matches: seq<string>): seq<string> {
    seq(|matches|, j requires 0 <= j < |matches| => prefix + matches[j])
  }

  lemma OwnKeysAreExact(prefix: string, matches: seq<string>, k: string)
    ensures k in OwnKeys(prefix, matches) <==> OwnKey(prefix, matches, k)
  {
    var own := OwnKeys(prefix, matches);
    if k in own {
      var j :| 0 <= j < |own| && own[j] == k;
      assert k[|prefix|..] == matches[j];
    }
    if OwnKey(prefix, matches, k) {
      var j :| 0 <= j < |matches| && matches[j] == k[|prefix|..];
      assert own[j] == k;
    }
  }

  lemma OwnKeysAscend(prefix: string, matches: seq<string>)
    requires Ascending(matches)
    ensures Ascending(OwnKeys(prefix, matches))
  {
    var own := OwnKeys(prefix, matches);
    forall i, j | 0 <= i < j < |own| ensures Less(own[i], own[j]) {
      SamePrefix(prefix, matches[i], matches[j]);
      assert own[i][|prefix|..] == matches[i] && own[j][|prefix|..] == matches[j];
    }
  }

  lemma OwnIsStored(kv: Store, kind: string, value: string, entries: set<(string, nat)>, keys: seq<string>,
                    ids: seq<string>, k: string)
    requires Indexed(kv, kind, entries, keys, ids)
    ensures k in OwnKeys(IndexPrefix(kind, value), Matching(entries, keys, value)) ==>
              k in kv && HasPrefix(k, IndexPrefix(kind, value))
  {
    var prefix, matches := IndexPrefix(kind, value), Matching(entries, keys, value);
    OwnKeysAreExact(prefix, matches, k);
    if OwnKey(prefix, matches, k) {
      MatchIsStored(kv, kind, value, entries, keys, ids, k[|prefix|..]);
      assert k == prefix + k[|prefix|..];
    }
  }

  lemma RunKeysAreOwn(kv: Store, itr: seq<string>, kind: string, value: string, entries: set<(string, nat)>,
                      keys: seq<string>, ids: seq<string>)
    requires Indexed(kv, kind, entries, keys, ids) && AllSequenceKeys(keys) && IsSnapshot(itr, kv)
    requires Undisturbed(ids, kind, entries, keys, value)
    ensures var prefix := IndexPrefix(kind, value);
            var first, n := Search(itr, prefix), |Hits(kv, itr, prefix)|;
            first + n <= |itr| && RunKeys(itr, first, n) == OwnKeys(prefix, Matching(entries, keys, value))
  {
    var prefix, matches := IndexPrefix(kind, value), Matching(entries, keys, value);
    var first, hits := Search(itr, prefix), Hits(kv, itr, prefix);
    HitsAreARun(kv, itr, prefix);
    RunKeysAreAll(kv, itr, prefix, first, hits);
    var run, own := RunKeys(itr, first, |hits|), OwnKeys(prefix, matches);
    forall k ensures k in run <==> k in own {
      OwnIsStored(kv, kind, value, entries, keys, ids, k);
      OwnKeysAreExact(prefix, matches, k);
      if k in run {
        EntryForValue(kv, kind, value, entries, keys, ids, k);
      }
    }
    MatchingAscends(entries, keys, value);
    OwnKeysAscend(prefix, matches);
    RunKeysAscend(itr, first, |hits|);
    AscendingIsUnique(run, own);
  }

  lemma RunKeysAscend(itr: seq<string>, first: nat, n: nat)
    requires Ascending(itr) && first + n <= |itr|
    ensures Ascending(RunKeys(itr, first, n))
  {
  }

  lemma HitsFollow(kv: Store, itr: seq<string>, prefix: string, first: nat, hits: seq<string>, matches: seq<string>)
    requires Run(kv, itr, prefix, first, hits) && RunKeys(itr, first, |hits|) == OwnKeys(prefix, matches)
    requires forall j :: 0 <= j < |matches| ==> Holds(kv, prefix + matches[j], matches[j])
    ensures hits == matches
  {
    var run, own := RunKeys(itr, first, |hits|), OwnKeys(prefix, matches);
    assert |run| == |hits| && |own| == |matches|;
    forall j | 0 <= j < |hits| ensures hits[j] == matches[j] {
      assert Holds(kv, itr[first + j], hits[j]) && run[j] == itr[first + j] && own[j] == prefix + matches[j];
    }
  }

  /** If nothing else lies under the prefix of a value, its hits are its matches. */
  lemma HitsAreMatches(kv: Store, itr: seq<string>, kind: string, value: string, entries: set<(string, nat)>,
                       keys: seq<string>, ids: seq<string>)
    requires Indexed(kv, kind, entries, keys, ids) && AllSequenceKeys(keys) && IsSnapshot(itr, kv)
    requires Undisturbed(ids, kind, entries, keys, value)
    ensures Hits(kv, itr, IndexPrefix(kind, value)) == Matching(entries, keys, value)
  {
    var prefix, matches := IndexPrefix(kind, value), Matching(entries, keys, value);
    HitsAreARun(kv, itr, prefix);
    RunKeysAreOwn(kv, itr, kind, value, entries, keys, ids);
    forall j | 0 <= j < |matches| ensures Holds(kv, prefix + matches[j], matches[j]) {
      MatchIsStored(kv, kind, value, entries, keys, ids, matches[j]);
    }
    HitsFollow(kv, itr, prefix, Search(itr, prefix), Hits(kv, itr, prefix), matches);
  }

  /** Anything else under the prefix is one hit too many. */
  lemma DisturbedHasMoreHits(kv: Store, itr: seq<string>, kind: string, value: string, entries: set<(string, nat)>,
                             keys: seq<string>, ids: seq<string>)
    requires Indexed(kv, kind, entries, keys, ids) && AllSequenceKeys(keys) && IsSnapshot(itr, kv)
    requires (forall id :: id in ids ==> id in kv) && !Undisturbed(ids, kind, entries, keys, value)
    ensures |Hits(kv, itr, IndexPrefix(kind, value))| > |Matching(entries, keys, value)|
  {
    var prefix, matches := IndexPrefix(kind, value), Matching(entries, keys, value);
    var first, hits := Search(itr, prefix), Hits(kv, itr, prefix);
    HitsAreARun(kv, itr, prefix);
    RunKeysAreAll(kv, itr, prefix, first, hits);
    var other := OtherKey(kv, kind, value, entries, keys, ids);
    var run, own := RunKeys(itr, first, |hits|), OwnKeys(prefix, matches);
    MatchingAscends(entries, keys, value);
    OwnKeysAscend(prefix, matches);
    OwnKeysAreExact(prefix, matches, other);
    AllDifferent(own, other);
    forall k | k in own + [other] ensures k in run {
      OwnIsStored(kv, kind, value, entries, keys, ids, k);
    }
    DistinctFits(own + [other], run);
  }

  /** A stored key under the prefix that is not an entry for the value. */
  lemma OtherKey(kv: Store, kind: string, value: string, entries: set<(string, nat)>, keys: seq<string>,
                 ids: seq<string>) returns (k: string)
    requires Indexed(kv, kind, entries, keys, ids) && AllSequenceKeys(keys)
    requires (forall id :: id in ids ==> id in kv) && !Undisturbed(ids, kind, entries, keys, value)
    ensures k in kv && HasPrefix(k, IndexPrefix(kind, value))
    ensures !OwnKey(IndexPrefix(kind, value), Matching(entries, keys, value), k)
  {
    var prefix, matches := IndexPrefix(kind, value), Matching(entries, keys, value);
    if id :| id in ids && HasPrefix(id, prefix) && !OwnKey(prefix, matches, id) {
      k := id;
    } else {
      var e :| e in entries && Extends(e.0, value);
      assert EntryStored(kv, kind, e.0, e.1, keys);
      k := IndexKey(kind, e.0, keys[e.1]);
      ExtendedIsNotOwn(kind, value, e.0, keys[e.1], entries, keys);
    }
  }

  lemma ExtendedIsNotOwn(kind: string, value: string, extended: string, key: string, entries: set<(string, nat)>,
                         keys: seq<string>)
    requires AllSequenceKeys(keys) && SequenceKey(key) && Extends(extended, value)
    ensures HasPrefix(IndexKey(kind, extended, key), IndexPrefix(kind, value))
    ensures !OwnKey(IndexPrefix(kind, value), Matching(entries, keys, value), IndexKey(kind, extended, key))
  {
    PrefixSelectsValue(kind, value, extended, key);
    var k, prefix := IndexKey(kind, extended, key), IndexPrefix(kind, value);
    var rest := k[|prefix|..];
    MatchingIsExact(entries, keys, value, rest);
    assert k == IndexKey(kind, value, rest);
    assert extended != value;
    if NoColon(rest) {
      IndexKeyIsInjective(kind, extended, key, value, rest);
    }
  }

  /**
    What the scan for a value returns is its matches, oldest first and up to the limit, for every limit, if and only if
    nothing else lies under its prefix: neither an indexed text that goes on with a colon after the value, nor a request
    ID that reads as an entry for it.
   */
  lemma ScanIsExactIff(kv: Store, itr: seq<string>, kind: string, value: string, entries: set<(string, nat)>,
                       keys: seq<string>, ids: seq<string>)
    requires Indexed(kv, kind, entries, keys, ids) && AllSequenceKeys(keys) && IsSnapshot(itr, kv)
    requires forall id :: id in ids ==> id in kv
    ensures (forall limit :: Taken(Hits(kv, itr, IndexPrefix(kind, value)), limit) ==
                             Taken(Matching(entries, keys, value), limit)) <==>
            Undisturbed(ids, kind, entries, keys, value)
  {
    var hits, matches := Hits(kv, itr, IndexPrefix(kind, value)), Matching(entries, keys, value);
    if Undisturbed(ids, kind, entries, keys, value) {
      HitsAreMatches(kv, itr, kind, value, entries, keys, ids);
    } else {
      DisturbedHasMoreHits(kv, itr, kind, value, entries, keys, ids);
      assert Taken(hits, |hits|) == hits && Taken(matches, |hits|) == matches;
    }
  }

  /** How many matches a scan takes: the first is taken before the limit is looked at. */
  function Taken(matches: seq<string>, limit: int): seq<string> {
    var most := if limit < 1 then 1 else limit;
    if most < |matches| then matches[..most] else matches
  }

  /** A scan takes the first matches: as many as the limit says, but one even if that is less. */
  lemma TakenInFigures(matches: seq<string>, limit: int)
    ensures Taken(matches, limit) <= matches
    ensures |matches| <= 1 ==> Taken(matches, limit) == matches
    ensures |matches| > 1 ==>
              |Taken(matches, limit)| == if limit <= 1 then 1 else if limit < |matches| then limit else |matches|
  {
  }

  /** `getLookupKeysByPrefix`: the first hits, up to the limit. */
  method LookupKeysByPrefix(kv: Store, itr: seq<string>, prefix: string, limit: int) returns (found: seq<string>)
    requires IsSnapshot(itr, kv)
    ensures found == Taken(Hits(kv, itr, prefix), limit)
  {
    var first := SearchStrings(itr, prefix);
    HitsAreARun(kv, itr, prefix);
    found := ScanFrom(kv, itr, prefix, first, limit, Hits(kv, itr, prefix));
  }

  method ScanFrom(kv: Store, itr: seq<string>, prefix: string, first: nat, limit: int, ghost hits: seq<string>)
    returns (found: seq<string>)
    requires Run(kv, itr, prefix, first, hits)
    ensures found == Taken(hits, limit)
  {
    found := [];
    var count := 0;
    if first < |itr| {
      if HasPrefix(itr[first], prefix) {
        assert Holds(kv, itr[first + 0], hits[0]);
        found := [TextOf(kv[itr[first]])];
        count := 1;
      }
      var pos := first + 1;
      while pos < |itr|
        invariant first < pos <= |itr|
        invariant count == |found| <= |hits| && found == hits[..count]
        invariant count == if hits == [] then 0 else pos - first
        invariant count > 1 ==> count <= limit
      {
        if count < limit {
          if HasPrefix(itr[pos], prefix) {
            assert Holds(kv, itr[first + (pos - first)], hits[pos - first]);
            found := found + [TextOf(kv[itr[pos]])];
          } else {
            break;
          }
        } else {
          break;
        }
        count := count + 1;
        pos := pos + 1;
      }
    }
  }

  // ------------------------------------------------------------------ queries by address

  /** The keys a query by sender, recipient or both selects, when its scans stop at `limit`. */
  ghost predicate Selects(l: Ledger, keys: seq<string>, from: string, to: string, limit: int, k: string) {
    && (from != "" ==> k in Taken(Matching(l.from, keys, from), limit))
    && (to != "" ==> k in Taken(Matching(l.to, keys, to), limit))
  }

  /** The selected keys up to `start`, in ascending order. */
  ghost predicate ListsSelected(found: seq<string>, l: Ledger, keys: seq<string>, from: string, to: string, limit: int,
                                start: string) {
    Ascending(found) && forall k :: k in found <==> Selects(l, keys, from, to, limit, k) && InBounds(k, "", start)
  }

  /** The keys ever indexed under the sender, the recipient or both. */
  ghost predicate IndexedUnder(l: Ledger, keys: seq<string>, from: string, to: string, k: string) {
    && (from != "" ==> k in Matching(l.from, keys, from))
    && (to != "" ==> k in Matching(l.to, keys, to))
  }

  /** What the scan for an address returns; without an address there is none. */
  function Scan(kv: Store, itr: seq<string>, kind: string, address: string, limit: int): seq<string>
    requires AllIn(itr, kv)
  {
    if address == "" then [] else Taken(Hits(kv, itr, IndexPrefix(kind, address)), limit)
  }

  /** The sequence keys a query by sender, recipient or both finds. */
  function QueryKeys(kv: Store, itr: seq<string>, from: string, to: string, start: string, end: string, limit: int)
    : seq<string>
    requires AllIn(itr, kv)
  {
    var fromKeys, toKeys := Scan(kv, itr, "from", from, limit), Scan(kv, itr, "to", to, limit);
    var result := if from != "" && to == "" then fromKeys
                  else if from == "" && to != "" then toKeys
                  else Intersection(fromKeys, toKeys);
    Until(From(result, end), start)
  }

  /** `getLookupKeysByFromAndTo`. */
  method LookupKeysByFromAndTo(kv: Store, itr: seq<string>, from: string, to: string, start: string, end: string,
                               limit: int) returns (found: seq<string>)
    requires IsSnapshot(itr, kv)
    ensures found == QueryKeys(kv, itr, from, to, start, end, limit)
  {
    var fromKeys, toKeys := [], [];
    if from != "" {
      fromKeys := LookupKeysByPrefix(kv, itr, IndexPrefix("from", from), limit);
    }
    if to != "" {
      toKeys := LookupKeysByPrefix(kv, itr, IndexPrefix("to", to), limit);
    }
    var result: seq<string>;
    if from != "" && to == "" {
      result := fromKeys;
    } else if from == "" && to != "" {
      result := toKeys;
    } else {
      result := Intersect(fromKeys, toKeys);
    }
    found := ApplyBound(result, end, start);
  }

  /** Nothing but its own entries lies under the prefixes of the addresses that are asked for. */
  ghost predicate BothUndisturbed(l: Ledger, keys: seq<string>, from: string, to: string) {
    && (from != "" ==> Undisturbed(l.ids, "from", l.from, keys, from))
    && (to != "" ==> Undisturbed(l.ids, "to", l.to, keys, to))
  }

  lemma ScanTakesMatches(kv: Store, itr: seq<string>, kind: string, address: string, limit: int,
                         entries: set<(string, nat)>, keys: seq<string>, ids: seq<string>)
    requires Indexed(kv, kind, entries, keys, ids) && AllSequenceKeys(keys) && IsSnapshot(itr, kv)
    requires address != "" && Undisturbed(ids, kind, entries, keys, address)
    ensures Scan(kv, itr, kind, address, limit) == Taken(Matching(entries, keys, address), limit)
    ensures Ascending(Scan(kv, itr, kind, address, limit))
  {
    HitsAreMatches(kv, itr, kind, address, entries, keys, ids);
    MatchingAscends(entries, keys, address);
  }

  /** With nothing else under its prefixes a query finds exactly what it selects, within the bounds, in order. */
  lemma QuerySelects(kv: Store, itr: seq<string>, l: Ledger, keys: seq<string>, from: string, to: string,
                     start: string, end: string, limit: int)
    requires Represents(kv, l, keys) && IsSnapshot(itr, kv) && (from != "" || to != "")
    requires BothUndisturbed(l, keys, from, to)
    ensures var found := QueryKeys(kv, itr, from, to, start, end, limit);
            && Ascending(found)
            && forall k :: k in found <==> Selects(l, keys, from, to, limit, k) && InBounds(k, end, start)
  {
    var fromKeys, toKeys := Scan(kv, itr, "from", from, limit), Scan(kv, itr, "to", to, limit);
    if from != "" {
      ScanTakesMatches(kv, itr, "from", from, limit, l.from, keys, l.ids);
    }
    if to != "" {
      ScanTakesMatches(kv, itr, "to", to, limit, l.to, keys, l.ids);
    }
    if from != "" && to == "" {
      BoundsAreExact(fromKeys, end, start);
    } else if from == "" && to != "" {
      BoundsAreExact(toKeys, end, start);
    } else {
      IntersectionIsExact(fromKeys, toKeys);
      BoundsAreExact(Intersection(fromKeys, toKeys), end, start);
    }
  }

  /** What a query finds, without an end, is what it selects up to the start. */
  ghost predicate IsExact(kv: Store, itr: seq<string>, l: Ledger, keys: seq<string>, from: string, to: string,
                          start: string, limit: int)
    requires AllIn(itr, kv)
  {
    ListsSelected(QueryKeys(kv, itr, from, to, start, "", limit), l, keys, from, to, limit, start)
  }

  lemma ExactWhenUndisturbed(kv: Store, itr: seq<string>, l: Ledger, keys: seq<string>, from: string, to: string,
                             start: string, limit: int)
    requires Represents(kv, l, keys) && IsSnapshot(itr, kv) && (from != "" || to != "")
    requires BothUndisturbed(l, keys, from, to)
    ensures IsExact(kv, itr, l, keys, from, to, start, limit)
  {
    QuerySelects(kv, itr, l, keys, from, to, start, "", limit);
  }

  lemma IdsAreStored(kv: Store, l: Ledger, keys: seq<string>)
    requires |l.ids| == |keys| && IdsStored(kv, l, keys)
    ensures forall id :: id in l.ids ==> id in kv
  {
    forall id | id in l.ids ensures id in kv {
      var i := PositionOf(l.ids, id);
    }
  }

  /** With something else under its prefix, a query by one address is not exact for a limit that takes all hits. */
  lemma DisturbedIsNotExact(kv: Store, itr: seq<string>, l: Ledger, keys: seq<string>, kind: string, address: string,
                            limit: int)
    requires Represents(kv, l, keys) && IsSnapshot(itr, kv) && address != "" && kind in {"from", "to"}
    requires !Undisturbed(l.ids, kind, EntriesOf(l, kind), keys, address)
    requires limit == |Hits(kv, itr, IndexPrefix(kind, address))|
    ensures if kind == "from" then !IsExact(kv, itr, l, keys, address, "", "", limit)
            else !IsExact(kv, itr, l, keys, "", address, "", limit)
  {
    var entries := EntriesOf(l, kind);
    var hits, matches := Hits(kv, itr, IndexPrefix(kind, address)), Matching(entries, keys, address);
    IdsAreStored(kv, l, keys);
    DisturbedHasMoreHits(kv, itr, kind, address, entries, keys, l.ids);
    MatchingAscends(entries, keys, address);
    assert Taken(hits, limit) == hits && Taken(matches, limit) == matches;
    if Ascending(hits) && forall k :: k in hits <==> k in matches {
      AscendingIsUnique(hits, matches);
    }
  }

  ghost function EntriesOf(l: Ledger, kind: string): set<(string, nat)> {
    if kind == "from" then l.from else l.to
  }

  /** A query by sender is exact for every limit and start if and only if nothing else lies under its prefix. */
  lemma SenderQueryIsExactIff(kv: Store, itr: seq<string>, l: Ledger, keys: seq<string>, from: string)
    requires Represents(kv, l, keys) && IsSnapshot(itr, kv) && from != ""
    ensures (forall start, limit :: IsExact(kv, itr, l, keys, from, "", start, limit)) <==>
            Undisturbed(l.ids, "from", l.from, keys, from)
  {
    if Undisturbed(l.ids, "from", l.from, keys, from) {
      forall start, limit ensures IsExact(kv, itr, l, keys, from, "", start, limit) {
        ExactWhenUndisturbed(kv, itr, l, keys, from, "", start, limit);
      }
    } else {
      DisturbedIsNotExact(kv, itr, l, keys, "from", from, |Hits(kv, itr, IndexPrefix("from", from))|);
    }
  }

  lemma RecipientQueryIsExactIff(kv: Store, itr: seq<string>, l: Ledger, keys: seq<string>, to: string)
    requires Represents(kv, l, keys) && IsSnapshot(itr, kv) && to != ""
    ensures (forall start, limit :: IsExact(kv, itr, l, keys, "", to, start, limit)) <==>
            Undisturbed(l.ids, "to", l.to, keys, to)
  {
    if Undisturbed(l.ids, "to", l.to, keys, to) {
      forall start, limit ensures IsExact(kv, itr, l, keys, "", to, start, limit) {
        ExactWhenUndisturbed(kv, itr, l, keys, "", to, start, limit);
      }
    } else {
      DisturbedIsNotExact(kv, itr, l, keys, "to", to, |Hits(kv, itr, IndexPrefix("to", to))|);
    }
  }

  ghost predicate AllUndisturbed(l: Ledger, keys: seq<string>) {
    forall from, to :: BothUndisturbed(l, keys, from, to)
  }

  predicate PlainEntries(entries: set<(string, nat)>) {
    forall e :: e in entries ==> NoColon(e.0)
  }

  /** With addresses that contain no colon and IDs that do not read as entries, nothing is disturbed. */
  lemma PlainIsUndisturbed(l: Ledger, keys: seq<string>)
    requires PlainEntries(l.from) && PlainEntries(l.to)
    requires forall id :: id in l.ids ==> !ShapedAs(id, "from") && !ShapedAs(id, "to")
    ensures AllUndisturbed(l, keys)
  {
    forall from, to ensures BothUndisturbed(l, keys, from, to) {
      PlainEntriesDisturbNothing(l.ids, "from", l.from, keys, from);
      PlainEntriesDisturbNothing(l.ids, "to", l.to, keys, to);
    }
  }

  lemma PlainEntriesDisturbNothing(ids: seq<string>, kind: string, entries: set<(string, nat)>, keys: seq<string>,
                                   value: string)
    requires PlainEntries(entries) && forall id :: id in ids ==> !ShapedAs(id, kind)
    ensures Undisturbed(ids, kind, entries, keys, value)
  {
    forall e | e in entries ensures !Extends(e.0, value) {
      assert (value + ":")[|value|] == ':';
    }
    forall id | id in ids ensures !HasPrefix(id, IndexPrefix(kind, value)) {
      if HasPrefix(id, IndexPrefix(kind, value)) {
        UnderPrefixIsShaped(kind, value, id);
      }
    }
  }

  /**
    All queries by sender, recipient or both are exact, for every start and limit, if and only if nothing but its own
    entries lies under the prefix of any address.
   */
  lemma EveryQueryIsExactIff(kv: Store, itr: seq<string>, l: Ledger, keys: seq<string>)
    requires Represents(kv, l, keys) && IsSnapshot(itr, kv)
    ensures (forall from, to, start, limit :: from != "" || to != "" ==>
               IsExact(kv, itr, l, keys, from, to, start, limit)) <==>
            AllUndisturbed(l, keys)
  {
    if AllUndisturbed(l, keys) {
      forall from, to, start, limit | from != "" || to != "" ensures IsExact(kv, itr, l, keys, from, to, start, limit) {
        ExactWhenUndisturbed(kv, itr, l, keys, from, to, start, limit);
      }
    } else {
      var from, to :| !BothUndisturbed(l, keys, from, to);
      if from != "" && !Undisturbed(l.ids, "from", l.from, keys, from) {
        DisturbedIsNotExact(kv, itr, l, keys, "from", from, |Hits(kv, itr, IndexPrefix("from", from))|);
      } else {
        DisturbedIsNotExact(kv, itr, l, keys, "to", to, |Hits(kv, itr, IndexPrefix("to", to))|);
      }
    }
  }

  /** With a limit no smaller than the number of receipts, a query selects everything ever indexed so. */
  lemma LargeLimitSelectsAll(l: Ledger, keys: seq<string>, from: string, to: string, limit: int, k: string)
    requires Ascending(keys) && limit >= |keys|
    ensures Selects(l, keys, from, to, limit, k) <==> IndexedUnder(l, keys, from, to, k)
  {
    MatchingAscends(l.from, keys, from);
    MatchingAscends(l.to, keys, to);
  }

  // ------------------------------------------------------------------ which matches a query lists

  /** Everything ever indexed under the given addresses up to `start`, oldest first. */
  ghost predicate ListsMatches(all: seq<string>, l: Ledger, keys: seq<string>, from: string, to: string,
                               start: string) {
    Ascending(all) && forall k :: k in all <==> IndexedUnder(l, keys, from, to, k) && InBounds(k, "", start)
  }

  /** What a scan takes is downward closed among the matches. */
  lemma TakenIsDownwardClosed(matches: seq<string>, limit: int, k: string, later: string)
    requires Ascending(matches) && k in matches && later in Taken(matches, limit) && Leq(k, later)
    ensures k in Taken(matches, limit)
  {
    var taken := Taken(matches, limit);
    var i :| 0 <= i < |matches| && matches[i] == k;
    var j :| 0 <= j < |taken| && taken[j] == later;
    assert matches[j] == later;
    AscendingHasNoRepeats(matches, i, j);
    assert taken[i] == k;
  }

  lemma SelectsIsDownwardClosed(l: Ledger, keys: seq<string>, from: string, to: string, limit: int, k: string,
                                later: string)
    requires Ascending(keys) && IndexedUnder(l, keys, from, to, k) && Leq(k, later)
    requires Selects(l, keys, from, to, limit, later)
    ensures Selects(l, keys, from, to, limit, k)
  {
    if from != "" {
      MatchingAscends(l.from, keys, from);
      TakenIsDownwardClosed(Matching(l.from, keys, from), limit, k, later);
    }
    if to != "" {
      MatchingAscends(l.to, keys, to);
      TakenIsDownwardClosed(Matching(l.to, keys, to), limit, k, later);
    }
  }

  /** Once the newest match is selected, all of them are. */
  lemma NewestSelectedMeansAll(l: Ledger, keys: seq<string>, from: string, to: string, limit: int, start: string,
                               found: seq<string>, all: seq<string>)
    requires Ascending(keys) && ListsSelected(found, l, keys, from, to, limit, start)
    requires ListsMatches(all, l, keys, from, to, start) && all != []
    requires Selects(l, keys, from, to, limit, all[|all| - 1])
    ensures found == all
  {
    forall k | k in all ensures k in found {
      var i :| 0 <= i < |all| && all[i] == k;
      AscendingHasNoRepeats(all, i, |all| - 1);
      SelectsIsDownwardClosed(l, keys, from, to, limit, k, all[|all| - 1]);
    }
    AscendingIsUnique(found, all);
  }

  /**
    The keys a query by sender, recipient or both reads are the newest matches, as a listing newest first would have
    them, if and only if there is no match at all or its newest one is within the first `limit` matches of every
    address given. Otherwise older matches are returned in their place.
   */
  lemma QueryListsNewestIff(l: Ledger, keys: seq<string>, from: string, to: string, limit: int, start: string,
                            found: seq<string>, all: seq<string>)
    requires Ascending(keys) && ListsSelected(found, l, keys, from, to, limit, start)
    requires ListsMatches(all, l, keys, from, to, start)
    ensures Limited(Reversed(found), limit) == Limited(Reversed(all), limit) <==>
            all == [] || Selects(l, keys, from, to, limit, all[|all| - 1])
  {
    if all == [] {
      NothingToSelect(l, keys, from, to, limit, start, found);
    } else if Selects(l, keys, from, to, limit, all[|all| - 1]) {
      NewestSelectedMeansAll(l, keys, from, to, limit, start, found, all);
    } else {
      NewestMissingDiffers(found, all, limit);
    }
  }

  lemma NothingToSelect(l: Ledger, keys: seq<string>, from: string, to: string, limit: int, start: string,
                        found: seq<string>)
    requires ListsSelected(found, l, keys, from, to, limit, start) && ListsMatches([], l, keys, from, to, start)
    ensures found == []
  {
    var none: seq<string> := [];
    assert ListsMatches(none, l, keys, from, to, start);
    forall k ensures k in found <==> k in none {
      assert Selects(l, keys, from, to, limit, k) ==> IndexedUnder(l, keys, from, to, k);
    }
    AscendingIsUnique(found, none);
  }

  lemma NewestMissingDiffers(found: seq<string>, all: seq<string>, limit: int)
    requires all != [] && all[|all| - 1] !in found
    ensures Limited(Reversed(found), limit) != Limited(Reversed(all), limit)
  {
    assert Limited(Reversed(all), limit)[0] == all[|all| - 1];
    assert found == [] || Limited(Reversed(found), limit)[0] == found[|found| - 1];
  }

  /** For a query by sender alone this means that the limit covers all matches. */
  lemma NewestBySenderIffAllFit(l: Ledger, keys: seq<string>, from: string, limit: int, found: seq<string>)
    requires Ascending(keys) && from != "" && limit > 0 && ListsSelected(found, l, keys, from, "", limit, "")
    ensures var all := Matching(l.from, keys, from);
            && found == Taken(all, limit)
            && (Limited(Reversed(found), limit) == Limited(Reversed(all), limit) <==> |all| <= limit)
  {
    var all := Matching(l.from, keys, from);
    MatchingAscends(l.from, keys, from);
    AscendingIsUnique(found, Taken(all, limit));
    QueryListsNewestIff(l, keys, from, "", limit, "", found, all);
    if all != [] {
      LastTakenIffAllFit(all, limit);
    }
  }

  lemma LastTakenIffAllFit(matches: seq<string>, limit: int)
    requires Ascending(matches) && matches != [] && limit > 0
    ensures matches[|matches| - 1] in Taken(matches, limit) <==> |matches| <= limit
  {
    if limit < |matches| {
      forall i | 0 <= i < limit ensures matches[i] != matches[|matches| - 1] {
        AscendingHasNoRepeats(matches, i, |matches| - 1);
      }
    }
  }

  // ------------------------------------------------------------------ reading documents

  predicate Geq(a: string, b: string) {
    Leq(b, a)
  }

  /** Sorting in descending order reverses an ascending sequence. */
  lemma DescendingIsReversed(found: seq<string>)
    requires Ascending(found)
    ensures Sort(found, Geq) == Reversed(found)
  {
    forall i, j | 0 <= i < j < |found| ensures found[i] != found[j] {
      AscendingHasNoRepeats(found, i, j);
    }
    GeqIsAnOrder();
    SortOfDistinct(found, Geq);
    var sorted := Sort(found, Geq);
    forall i, j | 0 <= i < j < |sorted| ensures Less(sorted[j], sorted[i]) {
      assert Geq(sorted[i], sorted[j]);
    }
    DescendingIsUnique(sorted, found);
  }

  lemma DescendingIsUnique(down: seq<string>, found: seq<string>)
    requires Ascending(found) && forall i, j :: 0 <= i < j < |down| ==> Less(down[j], down[i])
    requires forall k :: k in down <==> k in found
    ensures down == Reversed(found)
  {
    var up := Reversed(down);
    forall k ensures k in up <==> k in found {
      if k in down {
        var i :| 0 <= i < |down| && down[i] == k;
        assert up[|up| - 1 - i] == k;
      }
    }
    AscendingIsUnique(up, found);
  }

  lemma GeqIsAnOrder()
    ensures TotalPreorder(Geq)
  {
    LeqIsAnOrder();
    forall a, b ensures Geq(a, b) || Geq(b, a) {
      Total(a, b);
    }
    forall a, b, c | Geq(a, b) && Geq(b, c) ensures Geq(a, c) {
      Transitive(c, b, a);
    }
  }

  /** The receipt of each key, in the order of the keys. */
  ghost predicate ReceiptsOf(docs: seq<Listed>, keys: seq<string>, results: seq<Receipt>) {
    |results| == |keys| && forall i :: 0 <= i < |keys| ==> Listed(keys[i], results[i]) in docs
  }

  ghost predicate HasDocument(kv: Store, docs: seq<Listed>, key: string) {
    exists i :: 0 <= i < |docs| && DocumentAt(kv, key, docs[i])
  }

  /** `getReceiptsByLookupKey`. */
  method ReceiptsByLookupKey(kv: Store, lookupKeys: seq<string>, limit: int, ghost docs: seq<Listed>)
    returns (results: seq<Receipt>)
    requires forall i :: 0 <= i < |lookupKeys| ==> HasDocument(kv, docs, lookupKeys[i])
    ensures ReceiptsOf(docs, Limited(lookupKeys, limit), results)
  {
    var length := |lookupKeys|;
    if limit > 0 && limit < length {
      length := limit;
    }
    results := [];
    for i := 0 to |lookupKeys|
      invariant |results| == if i < length then i else length
      invariant forall j :: 0 <= j < |results| ==> Listed(lookupKeys[j], results[j]) in docs
    {
      if i >= length {
        break;
      }
      assert HasDocument(kv, docs, lookupKeys[i]);
      results := results + [kv[lookupKeys[i]].receipt];
    }
  }

  /** Whatever lies under an address prefix leads to a sequence key in use. */
  lemma {:induction false} HitsAreKeys(kv: Store, itr: seq<string>, l: Ledger, keys: seq<string>, kind: string,
                                       value: string, n: nat)
    requires Shape(l, keys) && PointersLead(kv, keys) && AllIn(itr, kv) && n <= |itr|
    ensures forall k :: k in HitsAmong(kv, itr, IndexPrefix(kind, value), n) ==> k in keys
  {
    if n > 0 {
      HitsAreKeys(kv, itr, l, keys, kind, value, n - 1);
      if HasPrefix(itr[n - 1], IndexPrefix(kind, value)) {
        UnderPrefixIsNoKey(keys, kind, value, itr[n - 1]);
      }
    }
  }

  lemma UnderPrefixIsNoKey(keys: seq<string>, kind: string, value: string, k: string)
    requires AllSequenceKeys(keys) && HasPrefix(k, IndexPrefix(kind, value))
    ensures k !in keys
  {
    UnderPrefixIsShaped(kind, value, k);
    forall i | 0 <= i < |keys| ensures keys[i] != k {
      assert SequenceKey(keys[i]);
      NoColonIsNotShaped(keys[i], kind);
    }
  }

  lemma {:induction false} IntersectionIsWithin(arr1: seq<string>, arr2: seq<string>)
    ensures forall k :: k in Intersection(arr1, arr2) ==> k in arr1
    decreases |arr1|
  {
    if arr1 != [] {
      IntersectionIsWithin(arr1[..|arr1| - 1], arr2);
    }
  }

  lemma BoundsAreWithin(arr: seq<string>, start: string, end: string)
    ensures forall k :: k in Until(From(arr, start), end) ==> k in arr
  {
    forall k | k in Until(From(arr, start), end) ensures k in arr {
      assert k in From(arr, start);
    }
  }

  lemma QueryKeysAreKeys(kv: Store, itr: seq<string>, l: Ledger, keys: seq<string>, from: string, to: string,
                         start: string, end: string, limit: int)
    requires Shape(l, keys) && PointersLead(kv, keys) && AllIn(itr, kv)
    ensures forall k :: k in QueryKeys(kv, itr, from, to, start, end, limit) ==> k in keys
  {
    HitsAreKeys(kv, itr, l, keys, "from", from, |itr|);
    HitsAreKeys(kv, itr, l, keys, "to", to, |itr|);
    var fromKeys, toKeys := Scan(kv, itr, "from", from, limit), Scan(kv, itr, "to", to, limit);
    IntersectionIsWithin(fromKeys, toKeys);
    BoundsAreWithin(fromKeys, end, start);
    BoundsAreWithin(toKeys, end, start);
    BoundsAreWithin(Intersection(fromKeys, toKeys), end, start);
  }

  /** The keys of a query in descending order, as far as the limit goes. */
  function QueryOrder(kv: Store, itr: seq<string>, from: string, to: string, start: string, limit: int): seq<string>
    requires AllIn(itr, kv)
  {
    Limited(Sort(QueryKeys(kv, itr, from, to, start, "", limit), Geq), limit)
  }

  lemma KeysHaveDocuments(kv: Store, l: Ledger, keys: seq<string>, found: seq<string>)
    requires Shape(l, keys) && DocumentsStored(kv, l, keys) && forall k :: k in found ==> k in keys
    ensures forall i :: 0 <= i < |Sort(found, Geq)| ==> HasDocument(kv, Documents(l, keys), Sort(found, Geq)[i])
  {
    var sorted := Sort(found, Geq);
    GeqIsAnOrder();
    SortIsSortedPermutation(found, Geq);
    forall j | 0 <= j < |sorted| ensures HasDocument(kv, Documents(l, keys), sorted[j]) {
      assert sorted[j] in multiset(sorted) && sorted[j] in found;
      var i :| 0 <= i < |keys| && keys[i] == sorted[j];
      assert SequenceKey(keys[i]) && DocumentAt(kv, sorted[j], Documents(l, keys)[i]);
    }
  }
}
