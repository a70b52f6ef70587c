/**
  The LevelDB receipt store (internal/receipts/leveldbreceipts.go) against a plain list of request IDs and a map from
  ID to receipt. One ordered key space holds the receipts under sequence keys, the request IDs, and the from, to and
  receivedAt index entries. Receipts are stored as JSON and read back unchanged; store calls succeed.
 */
module ReceiptIndex {
  import opened Options
  import opened Numerals
  import opened Lexicographic

  datatype Receipt = Receipt(from: Option<string>, to: Option<string>, receivedAt: int, body: string)

  datatype Entry = Pointer(key: string) | Document(receipt: Receipt)

  /** The stored text. Of a document, only that it starts with a brace matters here. */
  function TextOf(e: Entry): string {
    match e
    case Pointer(key) => key
    case Document(r) => "{" + r.body
  }

  type Store = map<string, Entry>

  predicate NoColon(s: string) {
    ':' !in s
  }

  /** The text reads as an index entry of this kind: the kind, a value and a key, each followed by a colon. */
  predicate ShapedAs(k: string, kind: string) {
    HasPrefix(k, kind + ":") && ':' in k[|kind| + 1..]
  }

  /** A text that could be taken for an index entry. */
  predicate IndexShaped(k: string) {
    ShapedAs(k, "from") || ShapedAs(k, "to") || ShapedAs(k, "receivedAt")
  }

  /** A "z" followed by a ULID. */
  predicate SequenceKey(k: string) {
    k != [] && k[0] == 'z' && NoColon(k)
  }

  /** How the from field of a receipt is formatted into its index key; a missing field prints as a Go nil. */
  function FromText(r: Receipt): string {
    if r.from.Some? then r.from.value else "%!s(<nil>)"
  }

  predicate HasTo(r: Receipt) {
    r.to.Some? && r.to.value != ""
  }

  function IndexPrefix(kind: string, value: string): string {
    kind + ":" + value + ":"
  }

  function IndexKey(kind: string, value: string, key: string): string {
    IndexPrefix(kind, value) + key
  }

  /** The writes of `AddReceipt` once the lookup key is settled. */
  function Put(kv: Store, id: string, r: Receipt, key: string): Store {
    var kv1 := kv[key := Document(r)];
    var kv2 := kv1[IndexKey("from", FromText(r), key) := Pointer(key)];
    var kv3 := if HasTo(r) then kv2[IndexKey("to", r.to.value, key) := Pointer(key)] else kv2;
    var kv4 := kv3[IndexKey("receivedAt", Format(r.receivedAt), key) := Pointer(key)];
    kv4[id := Pointer(key)]
  }

  // ------------------------------------------------------------------ the plain list and map

  /** Request IDs in insertion order, their latest receipts, and the addresses each position was ever indexed under. */
  datatype Ledger = Ledger(ids: seq<string>, receipts: map<string, Receipt>, from: set<(string, nat)>,
                           to: set<(string, nat)>)

  const EmptyLedger := Ledger([], map[], {}, {})

  ghost function PositionOf(ids: seq<string>, id: string): (i: nat)
    requires id in ids
    ensures i < |ids| && ids[i] == id
  {
    var i :| 0 <= i < |ids| && ids[i] == id;
    i
  }

  ghost function Position(l: Ledger, id: string): nat {
    if id in l.ids then PositionOf(l.ids, id) else |l.ids|
  }

  /** Storing a receipt: a new ID goes to the end, a known one keeps its place. */
  ghost function Record(l: Ledger, id: string, r: Receipt): Ledger {
    var i := Position(l, id);
    Ledger(if id in l.ids then l.ids else l.ids + [id], l.receipts[id := r], l.from + {(FromText(r), i)},
           if HasTo(r) then l.to + {(r.to.value, i)} else l.to)
  }

  // ------------------------------------------------------------------ representation

  /** All entries are stored, and nothing but entries and request IDs has their shape. */
  ghost predicate Indexed(kv: Store, kind: string, entries: set<(string, nat)>, keys: seq<string>, ids: seq<string>) {
    && (forall e :: e in entries ==> EntryStored(kv, kind, e.0, e.1, keys))
    && (forall k :: k in kv && ShapedAs(k, kind) ==> HasEntry(kind, entries, keys, k) || k in ids)
  }

  predicate EntryStored(kv: Store, kind: string, value: string, i: nat, keys: seq<string>) {
    && i < |keys| && IndexKey(kind, value, keys[i]) in kv && kv[IndexKey(kind, value, keys[i])] == Pointer(keys[i])
  }

  ghost predicate HasEntry(kind: string, entries: set<(string, nat)>, keys: seq<string>, k: string) {
    exists e :: e in entries && e.1 < |keys| && k == IndexKey(kind, e.0, keys[e.1])
  }

  ghost predicate AllSequenceKeys(keys: seq<string>) {
    Ascending(keys) && forall i :: 0 <= i < |keys| ==> SequenceKey(keys[i])
  }

  /** Request IDs are any texts but sequence keys. */
  ghost predicate Shape(l: Ledger, keys: seq<string>) {
    && |l.ids| == |keys|
    && (forall i, j :: 0 <= i < j < |l.ids| ==> l.ids[i] != l.ids[j])
    && (forall id :: id in l.receipts <==> id in l.ids)
    && AllSequenceKeys(keys)
    && (forall id :: id in l.ids ==> id !in keys)
  }

  ghost predicate IdsStored(kv: Store, l: Ledger, keys: seq<string>)
    requires |l.ids| == |keys|
  {
    forall i :: 0 <= i < |keys| ==> l.ids[i] in kv && kv[l.ids[i]] == Pointer(keys[i])
  }

  ghost predicate DocumentsStored(kv: Store, l: Ledger, keys: seq<string>)
    requires Shape(l, keys)
  {
    forall i :: 0 <= i < |keys| ==> keys[i] in kv && kv[keys[i]] == Document(l.receipts[l.ids[i]])
  }

  /** Nothing else is stored. */
  ghost predicate Classified(kv: Store, l: Ledger, keys: seq<string>) {
    forall k :: k in kv ==> k in l.ids || k in keys || IndexShaped(k)
  }

  /** Every key that is not a receipt's own leads to one. */
  ghost predicate PointersLead(kv: Store, keys: seq<string>) {
    forall k :: k in kv && k !in keys ==> kv[k].Pointer? && kv[k].key in keys
  }

  /** The store holds exactly this ledger, with these sequence keys. */
  ghost predicate Represents(kv: Store, l: Ledger, keys: seq<string>) {
    && Shape(l, keys) && IdsStored(kv, l, keys) && DocumentsStored(kv, l, keys)
    && Indexed(kv, "from", l.from, keys, l.ids) && Indexed(kv, "to", l.to, keys, l.ids)
    && Classified(kv, l, keys) && PointersLead(kv, keys)
  }

  // ------------------------------------------------------------------ keys of different kinds are apart

  lemma IndexKeyIsShaped(kind: string, value: string, key: string)
    ensures ShapedAs(IndexKey(kind, value, key), kind)
  {
    var k := IndexKey(kind, value, key);
    assert k[..|kind| + 1] == kind + ":";
    assert k[|kind| + 1..][|value|] == ':';
  }

  lemma KindsApart(k: string, kind: string, other: string)
    requires kind != other && kind in {"from", "to", "receivedAt"} && other in {"from", "to", "receivedAt"}
    requires ShapedAs(k, kind)
    ensures !ShapedAs(k, other)
  {
    assert k[0] == (kind + ":")[0] == kind[0];
    assert (other + ":")[0] == other[0];
  }

  lemma NoColonIsNotShaped(k: string, kind: string)
    requires NoColon(k)
    ensures !ShapedAs(k, kind)
  {
  }

  /** Splitting at the last colon is unambiguous. */
  lemma SplitAtLastColon(a: string, x: string, b: string, y: string)
    requires NoColon(x) && NoColon(y) && a + ":" + x == b + ":" + y
    ensures a == b && x == y
  {
    var l, r := a + ":" + x, b + ":" + y;
    LastColon(a, x);
    LastColon(b, y);
    assert l[..|a|] == a && l[|a| + 1..] == x;
    assert r[..|b|] == b && r[|b| + 1..] == y;
  }

  lemma LastColon(a: string, x: string)
    requires NoColon(x)
    ensures (a + ":" + x)[|a|] == ':'
    ensures forall i :: |a| < i < |a + ":" + x| ==> (a + ":" + x)[i] != ':'
  {
    var l := a + ":" + x;
    forall i | |a| < i < |l| ensures l[i] != ':' {
      assert l[i] == x[i - |a| - 1] && x[i - |a| - 1] in x;
    }
  }

  /** An index key says which value and which sequence key it is for, whatever the value. */
  lemma IndexKeyIsInjective(kind: string, a: string, j: string, b: string, k: string)
    requires NoColon(j) && NoColon(k)
    requires IndexKey(kind, a, j) == IndexKey(kind, b, k)
    ensures a == b && j == k
  {
    var p := kind + ":";
    assert IndexKey(kind, a, j) == p + (a + ":" + j);
    assert IndexKey(kind, b, k) == p + (b + ":" + k);
    assert (p + (a + ":" + j))[|p|..] == a + ":" + j;
    assert (p + (b + ":" + k))[|p|..] == b + ":" + k;
    SplitAtLastColon(a, j, b, k);
  }

  /** The value goes on with a colon after `a`. */
  predicate Extends(b: string, a: string) {
    HasPrefix(b, a + ":")
  }

  lemma PrefixBeforeColon(a: string, b: string, k: string)
    requires NoColon(k)
    ensures HasPrefix(b + ":" + k, a + ":") <==> a == b || Extends(b, a)
  {
    var whole := b + ":" + k;
    if HasPrefix(whole, a + ":") {
      assert whole[|a|] == ':';
      LastColon(b, k);
      assert |a| == |b| ==> a == (a + ":")[..|a|] == whole[..|a|] == b;
      assert |a| < |b| ==> b[..|a| + 1] == whole[..|a| + 1] == a + ":";
    }
    if a == b {
      assert whole[..|a| + 1] == a + ":";
    }
    if Extends(b, a) {
      assert whole[..|a| + 1] == b[..|a| + 1] == a + ":";
    }
  }

  /** An entry lies under the prefix of `a` exactly when its value is `a` or extends it. */
  lemma PrefixSelectsValue(kind: string, a: string, b: string, k: string)
    requires NoColon(k)
    ensures HasPrefix(IndexKey(kind, b, k), IndexPrefix(kind, a)) <==> a == b || Extends(b, a)
  {
    var p := kind + ":";
    assert IndexKey(kind, b, k) == p + (b + ":" + k) && IndexPrefix(kind, a) == p + (a + ":");
    PrefixUnderPrefix(p, a + ":", b + ":" + k);
    PrefixBeforeColon(a, b, k);
  }

  lemma PrefixUnderPrefix(p: string, a: string, s: string)
    ensures HasPrefix(p + s, p + a) <==> HasPrefix(s, a)
  {
    if HasPrefix(s, a) {
      assert (p + s)[..|p + a|] == p + a;
    }
    if HasPrefix(p + s, p + a) {
      assert s[..|a|] == (p + s)[|p|..|p| + |a|] == (p + a)[|p|..] == a;
    }
  }

  // ------------------------------------------------------------------ storing a receipt

  /** The keys `AddReceipt` writes. */
  function Written(id: string, r: Receipt, key: string): set<string> {
    {id, key} + IndexKeys(r, key)
  }

  function IndexKeys(r: Receipt, key: string): set<string> {
    {IndexKey("from", FromText(r), key), IndexKey("receivedAt", Format(r.receivedAt), key)} +
    if HasTo(r) then {IndexKey("to", r.to.value, key)} else {}
  }

  lemma IndexKeysApart(r: Receipt, key: string)
    ensures forall k :: k in IndexKeys(r, key) ==> IndexShaped(k)
    ensures forall k :: k in IndexKeys(r, key) && ShapedAs(k, "from") ==> k == IndexKey("from", FromText(r), key)
    ensures forall k :: k in IndexKeys(r, key) && ShapedAs(k, "to") ==>
              HasTo(r) && k == IndexKey("to", r.to.value, key)
  {
    var received := IndexKey("receivedAt", Format(r.receivedAt), key);
    IndexKeyIsShaped("from", FromText(r), key);
    IndexKeyIsShaped("receivedAt", Format(r.receivedAt), key);
    KindsApart(received, "receivedAt", "from");
    KindsApart(received, "receivedAt", "to");
    KindsApart(IndexKey("from", FromText(r), key), "from", "to");
    if HasTo(r) {
      IndexKeyIsShaped("to", r.to.value, key);
      KindsApart(IndexKey("to", r.to.value, key), "to", "from");
    }
  }

  lemma SequenceKeyIsNotShaped(key: string)
    requires SequenceKey(key)
    ensures !IndexShaped(key)
  {
    NoColonIsUnshaped(key);
  }

  /** The index keys of a receipt are told apart from each other and from its sequence key by their shape. */
  lemma WrittenKeysApart(r: Receipt, key: string)
    requires SequenceKey(key)
    ensures !IndexShaped(key) && key !in IndexKeys(r, key)
    ensures forall k :: k in IndexKeys(r, key) ==> IndexShaped(k)
    ensures forall k :: k in IndexKeys(r, key) && ShapedAs(k, "from") ==> k == IndexKey("from", FromText(r), key)
    ensures forall k :: k in IndexKeys(r, key) && ShapedAs(k, "to") ==>
              HasTo(r) && k == IndexKey("to", r.to.value, key)
  {
    IndexKeysApart(r, key);
    SequenceKeyIsNotShaped(key);
  }

  /** The store after the writes: the new bindings, and everything else as before. */
  ghost predicate Rewrites(kv: Store, kv': Store, id: string, r: Receipt, key: string) {
    && (forall k :: k !in Written(id, r, key) ==> (k in kv' <==> k in kv) && (k in kv ==> kv'[k] == kv[k]))
    && (forall k :: k in Written(id, r, key) ==> k in kv' && kv'[k] == if k == key then Document(r) else Pointer(key))
  }

  lemma PutRewrites(kv: Store, id: string, r: Receipt, key: string)
    requires SequenceKey(key) && id != key
    ensures Rewrites(kv, Put(kv, id, r, key), id, r, key)
  {
    WrittenKeysApart(r, key);
    forall k {
      PutAt(kv, id, r, key, k);
    }
  }

  lemma PutAt(kv: Store, id: string, r: Receipt, key: string, k: string)
    requires key !in IndexKeys(r, key) && id != key
    ensures if k == key then k in Put(kv, id, r, key) && Put(kv, id, r, key)[k] == Document(r)
            else if k == id || k in IndexKeys(r, key) then
              k in Put(kv, id, r, key) && Put(kv, id, r, key)[k] == Pointer(key)
            else (k in Put(kv, id, r, key) <==> k in kv) && (k in kv ==> Put(kv, id, r, key)[k] == kv[k])
  {
  }

  /** The key is an index key of this kind for this sequence key. */
  ghost predicate IndexesKey(k: string, kind: string, key: string) {
    exists value :: k == IndexKey(kind, value, key)
  }

  /** What is written for a receipt in the indexes of one kind is for its own sequence key. */
  lemma WritesOwnIndex(r: Receipt, key: string, kind: string, k: string)
    requires SequenceKey(key) && kind in {"from", "to"} && k in IndexKeys(r, key) && ShapedAs(k, kind)
    ensures IndexesKey(k, kind, key)
  {
    WrittenKeysApart(r, key);
  }

  /** An index entry survives the writes, even if it is written over, because it still says the same. */
  lemma EntryStays(kv: Store, kv': Store, kind: string, value: string, i: nat, keys: seq<string>, keys': seq<string>,
                   id: string, r: Receipt, key: string)
    requires kind in {"from", "to"} && EntryStored(kv, kind, value, i, keys) && keys <= keys' && AllSequenceKeys(keys')
    requires Rewrites(kv, kv', id, r, key) && SequenceKey(key) && (id in kv ==> kv[id] == Pointer(key))
    ensures EntryStored(kv', kind, value, i, keys')
  {
    var k := IndexKey(kind, value, keys[i]);
    IndexKeyIsShaped(kind, value, keys[i]);
    SequenceKeyIsNotShaped(key);
    assert SequenceKey(keys'[i]) && IndexShaped(k);
    if k in IndexKeys(r, key) {
      WritesOwnIndex(r, key, kind, k);
      var v :| k == IndexKey(kind, v, key);
      IndexKeyIsInjective(kind, value, keys[i], v, key);
    }
  }

  lemma EntriesStay(kv: Store, kv': Store, kind: string, entries: set<(string, nat)>, keys: seq<string>,
                    keys': seq<string>, ids: seq<string>, id: string, r: Receipt, key: string)
    requires kind in {"from", "to"} && Indexed(kv, kind, entries, keys, ids)
    requires keys <= keys' && AllSequenceKeys(keys')
    requires Rewrites(kv, kv', id, r, key) && SequenceKey(key) && (id in kv ==> kv[id] == Pointer(key))
    ensures forall e :: e in entries ==> EntryStored(kv', kind, e.0, e.1, keys')
  {
    forall e | e in entries ensures EntryStored(kv', kind, e.0, e.1, keys') {
      EntryStays(kv, kv', kind, e.0, e.1, keys, keys', id, r, key);
    }
  }

  /** What has the shape of an entry was there before, is an entry for this receipt, or is its ID. */
  lemma ShapedKeysAccounted(kv: Store, kv': Store, kind: string, entries: set<(string, nat)>,
                            entries': set<(string, nat)>, keys: seq<string>, keys': seq<string>, ids: seq<string>,
                            ids': seq<string>, id: string, r: Receipt, key: string)
    requires Indexed(kv, kind, entries, keys, ids) && Rewrites(kv, kv', id, r, key) && !ShapedAs(key, kind)
    requires entries <= entries' && keys <= keys' && ids <= ids' && id in ids'
    requires forall k :: k in IndexKeys(r, key) && ShapedAs(k, kind) ==> HasEntry(kind, entries', keys', k)
    ensures forall k :: k in kv' && ShapedAs(k, kind) ==> HasEntry(kind, entries', keys', k) || k in ids'
  {
    forall k | k in kv' && ShapedAs(k, kind) ensures HasEntry(kind, entries', keys', k) || k in ids' {
      if k !in Written(id, r, key) && k !in ids {
        var e :| e in entries && e.1 < |keys| && k == IndexKey(kind, e.0, keys[e.1]);
        assert e in entries';
      }
    }
  }

  // ------------------------------------------------------------------ which IDs can be stored

  /** Above all sequence keys so far. */
  ghost predicate Above(newKey: string, keys: seq<string>) {
    SequenceKey(newKey) && forall i :: 0 <= i < |keys| ==> Less(keys[i], newKey)
  }

  /** The key of a receipt that is stored under an ID: what the ID leads to already, or the new key. */
  function KeyUsed(kv: Store, id: string, newKey: string): string {
    if id in kv then TextOf(kv[id]) else newKey
  }

  function KeysUsed(kv: Store, keys: seq<string>, id: string, newKey: string): seq<string> {
    if id in kv then keys else keys + [newKey]
  }

  /**
    The receipt can be stored under the ID: the ID is not a key of the store for another reason, nor the new sequence
    key, and neither that key nor an index key to be written is the ID of another receipt.
   */
  ghost predicate Fits(kv: Store, l: Ledger, id: string, r: Receipt, newKey: string) {
    var key := KeyUsed(kv, id, newKey);
    && (id in kv ==> id in l.ids)
    && id != key && key !in l.ids
    && (forall k :: k in IndexKeys(r, key) && k in l.ids ==> k == id)
  }

  /** The key under which a receipt goes: the one its ID already has, or a new one beyond all others. */
  ghost predicate KeyFor(l: Ledger, keys: seq<string>, id: string, key: string, keys': seq<string>)
    requires |l.ids| == |keys|
  {
    if id in l.ids then key == keys[Position(l, id)] && keys' == keys
    else id !in keys && id != key && key !in l.ids && Above(key, keys) && keys' == keys + [key]
  }

  lemma KeyIsSettled(kv: Store, l: Ledger, keys: seq<string>, id: string, r: Receipt, newKey: string)
    requires Represents(kv, l, keys) && Above(newKey, keys) && Fits(kv, l, id, r, newKey)
    ensures KeyFor(l, keys, id, KeyUsed(kv, id, newKey), KeysUsed(kv, keys, id, newKey))
    ensures id in kv <==> id in l.ids
    ensures id in kv ==> kv[id] == Pointer(KeyUsed(kv, id, newKey))
  {
    if id in l.ids {
      assert kv[l.ids[Position(l, id)]] == Pointer(keys[Position(l, id)]);
    } else {
      forall i | 0 <= i < |keys| ensures keys[i] != id {
        assert keys[i] in kv;
      }
    }
  }

  lemma KeyForPlaces(l: Ledger, keys: seq<string>, id: string, r: Receipt, key: string, keys': seq<string>)
    requires Shape(l, keys) && KeyFor(l, keys, id, key, keys')
    ensures Shape(Record(l, id, r), keys') && keys <= keys' && SequenceKey(key)
    ensures Position(l, id) < |keys'| && keys'[Position(l, id)] == key && Record(l, id, r).ids[Position(l, id)] == id
    ensures forall i :: 0 <= i < |keys'| && keys'[i] == key ==> i == Position(l, id)
  {
    assert AllSequenceKeys(keys');
    forall i | 0 <= i < |keys'| && keys'[i] == key ensures i == Position(l, id) {
      AscendingHasNoRepeats(keys', i, Position(l, id));
    }
  }

  lemma IdsAndDocumentsStored(kv: Store, kv': Store, l: Ledger, keys: seq<string>, id: string, r: Receipt, key: string,
                              keys': seq<string>)
    requires Shape(l, keys) && KeyFor(l, keys, id, key, keys')
    requires id != key && key !in l.ids && forall k :: k in IndexKeys(r, key) && k in l.ids ==> k == id
    requires IdsStored(kv, l, keys) && DocumentsStored(kv, l, keys) && Rewrites(kv, kv', id, r, key)
    ensures Shape(Record(l, id, r), keys')
    ensures IdsStored(kv', Record(l, id, r), keys') && DocumentsStored(kv', Record(l, id, r), keys')
  {
    KeyForPlaces(l, keys, id, r, key, keys');
    var l' := Record(l, id, r);
    assert id in l'.ids;
    WrittenKeysApart(r, key);
    forall i | 0 <= i < |keys'|
      ensures l'.ids[i] in kv' && kv'[l'.ids[i]] == Pointer(keys'[i])
      ensures keys'[i] in kv' && kv'[keys'[i]] == Document(l'.receipts[l'.ids[i]])
    {
      assert l'.ids[i] in l'.ids && keys'[i] in keys';
      SequenceKeyIsNotShaped(keys'[i]);
      if i != Position(l, id) {
        assert i < |keys| && keys'[i] == keys[i] && l'.ids[i] == l.ids[i] != id && keys'[i] != key;
        assert l.ids[i] in l.ids;
      }
    }
  }

  lemma StillClassified(kv: Store, kv': Store, l: Ledger, keys: seq<string>, id: string, r: Receipt, key: string,
                        keys': seq<string>)
    requires Shape(l, keys) && KeyFor(l, keys, id, key, keys')
    requires Classified(kv, l, keys) && PointersLead(kv, keys) && Rewrites(kv, kv', id, r, key)
    ensures Classified(kv', Record(l, id, r), keys') && PointersLead(kv', keys')
  {
    KeyForPlaces(l, keys, id, r, key, keys');
    var l' := Record(l, id, r);
    assert id in l'.ids && keys'[Position(l, id)] in keys';
    WrittenKeysApart(r, key);
    assert keys' == keys || keys' == keys + [key];
    forall k | k in kv' ensures k in l'.ids || k in keys' || IndexShaped(k) {
      assert k in Written(id, r, key) || k in kv;
    }
    PointersStillLead(kv, kv', keys, id, r, key, keys');
  }

  lemma PointersStillLead(kv: Store, kv': Store, keys: seq<string>, id: string, r: Receipt, key: string,
                          keys': seq<string>)
    requires Rewrites(kv, kv', id, r, key) && PointersLead(kv, keys) && key in keys'
    requires keys' == keys || keys' == keys + [key]
    ensures PointersLead(kv', keys')
  {
    forall k | k in kv' && k !in keys' ensures kv'[k].Pointer? && kv'[k].key in keys' {
      assert k in Written(id, r, key) || k in kv;
    }
  }

  lemma IndexStored(kv: Store, kv': Store, kind: string, entries: set<(string, nat)>, more: set<(string, nat)>,
                    l: Ledger, keys: seq<string>, id: string, r: Receipt, key: string, keys': seq<string>)
    requires kind in {"from", "to"} && Shape(l, keys) && KeyFor(l, keys, id, key, keys')
    requires Indexed(kv, kind, entries, keys, l.ids) && Rewrites(kv, kv', id, r, key)
    requires id in kv ==> kv[id] == Pointer(key)
    requires forall e :: e in more ==> EntryStored(kv', kind, e.0, e.1, keys')
    requires forall k :: k in IndexKeys(r, key) && ShapedAs(k, kind) ==> HasEntry(kind, entries + more, keys', k)
    ensures Indexed(kv', kind, entries + more, keys', Record(l, id, r).ids)
  {
    KeyForPlaces(l, keys, id, r, key, keys');
    var ids' := Record(l, id, r).ids;
    assert ids'[Position(l, id)] in ids' && l.ids <= ids';
    NoColonIsNotShaped(key, kind);
    EntriesStay(kv, kv', kind, entries, keys, keys', l.ids, id, r, key);
    ShapedKeysAccounted(kv, kv', kind, entries, entries + more, keys, keys', l.ids, ids', id, r, key);
  }

  lemma IndexesStored(kv: Store, kv': Store, l: Ledger, keys: seq<string>, id: string, r: Receipt, key: string,
                      keys': seq<string>)
    requires Shape(l, keys) && KeyFor(l, keys, id, key, keys') && (id in kv ==> kv[id] == Pointer(key))
    requires Indexed(kv, "from", l.from, keys, l.ids) && Indexed(kv, "to", l.to, keys, l.ids)
    requires Rewrites(kv, kv', id, r, key)
    ensures Indexed(kv', "from", Record(l, id, r).from, keys', Record(l, id, r).ids)
    ensures Indexed(kv', "to", Record(l, id, r).to, keys', Record(l, id, r).ids)
  {
    KeyForPlaces(l, keys, id, r, key, keys');
    WrittenKeysApart(r, key);
    var i := Position(l, id);
    var sender := (FromText(r), i);
    NewEntryStored(kv, kv', "from", FromText(r), i, id, r, key, keys', l.from + {sender});
    IndexStored(kv, kv', "from", l.from, {sender}, l, keys, id, r, key, keys');
    if HasTo(r) {
      var recipient := (r.to.value, i);
      NewEntryStored(kv, kv', "to", r.to.value, i, id, r, key, keys', l.to + {recipient});
      IndexStored(kv, kv', "to", l.to, {recipient}, l, keys, id, r, key, keys');
    } else {
      IndexStored(kv, kv', "to", l.to, {}, l, keys, id, r, key, keys');
      assert l.to + {} == l.to;
    }
  }

  lemma NewEntryStored(kv: Store, kv': Store, kind: string, value: string, i: nat, id: string, r: Receipt, key: string,
                       keys': seq<string>, entries: set<(string, nat)>)
    requires Rewrites(kv, kv', id, r, key) && SequenceKey(key) && i < |keys'| && keys'[i] == key
    requires IndexKey(kind, value, key) in IndexKeys(r, key) && (value, i) in entries
    ensures EntryStored(kv', kind, value, i, keys') && HasEntry(kind, entries, keys', IndexKey(kind, value, key))
  {
    IndexKeyIsShaped(kind, value, key);
    NoColonIsNotShaped(key, kind);
    assert (value, i).1 < |keys'| && IndexKey(kind, value, key) == IndexKey(kind, (value, i).0, keys'[(value, i).1]);
  }

  /** Storing a receipt in the key space is recording it in the ledger. */
  lemma PutIsRecord(kv: Store, l: Ledger, keys: seq<string>, id: string, r: Receipt, newKey: string)
    requires Represents(kv, l, keys) && Above(newKey, keys) && Fits(kv, l, id, r, newKey)
    ensures Represents(Put(kv, id, r, KeyUsed(kv, id, newKey)), Record(l, id, r), KeysUsed(kv, keys, id, newKey))
  {
    var key, keys' := KeyUsed(kv, id, newKey), KeysUsed(kv, keys, id, newKey);
    KeyIsSettled(kv, l, keys, id, r, newKey);
    KeyForPlaces(l, keys, id, r, key, keys');
    PutRewrites(kv, id, r, key);
    var kv' := Put(kv, id, r, key);
    IdsAndDocumentsStored(kv, kv', l, keys, id, r, key, keys');
    IndexesStored(kv, kv', l, keys, id, r, key, keys');
    StillClassified(kv, kv', l, keys, id, r, key, keys');
  }

  lemma NoColonIsUnshaped(k: string)
    requires NoColon(k)
    ensures !IndexShaped(k)
  {
    NoColonIsNotShaped(k, "from");
    NoColonIsNotShaped(k, "to");
    NoColonIsNotShaped(k, "receivedAt");
  }

  /** As long as no ID reads as an index entry or is a sequence key, everything fits. */
  lemma UnshapedFits(kv: Store, l: Ledger, keys: seq<string>, id: string, r: Receipt, newKey: string)
    requires Represents(kv, l, keys) && Above(newKey, keys) && id !in keys && id != newKey && newKey !in l.ids
    requires !IndexShaped(id) && forall other :: other in l.ids ==> !IndexShaped(other)
    ensures Fits(kv, l, id, r, newKey) && (id in kv <==> id in l.ids)
  {
    if id in l.ids {
      var i := PositionOf(l.ids, id);
      assert kv[l.ids[i]] == Pointer(keys[i]);
    }
    var key := KeyUsed(kv, id, newKey);
    IndexKeysApart(r, key);
  }

  // ------------------------------------------------------------------ and which cannot

  /** No two IDs lead to the same sequence key. */
  lemma TwoIdsOneKey(kv: Store, l: Ledger, keys: seq<string>, a: string, b: string)
    requires a in l.ids && b in l.ids && a != b && a in kv && b in kv && kv[a] == kv[b]
    ensures !Represents(kv, l, keys)
  {
    if Represents(kv, l, keys) {
      var i, j := PositionOf(l.ids, a), PositionOf(l.ids, b);
      assert kv[l.ids[i]] == Pointer(keys[i]) && kv[l.ids[j]] == Pointer(keys[j]);
      AscendingHasNoRepeats(keys, i, j);
    }
  }

  /** An ID leads to a sequence key, under which there is a document. */
  predicate LeadsToDocument(kv: Store, id: string) {
    id in kv && kv[id].Pointer? && SequenceKey(kv[id].key) && kv[id].key in kv && kv[kv[id].key].Document?
  }

  lemma IdLeadsToDocument(kv: Store, l: Ledger, keys: seq<string>, id: string)
    requires id in l.ids
    ensures Represents(kv, l, keys) ==> LeadsToDocument(kv, id)
  {
    if Represents(kv, l, keys) {
      var i := PositionOf(l.ids, id);
      assert kv[l.ids[i]] == Pointer(keys[i]) && SequenceKey(keys[i]);
    }
  }

  /** What an ID or an index entry leads to is the sequence key of some ID. */
  lemma PointerHasOwner(kv: Store, l: Ledger, keys: seq<string>, k: string) returns (owner: string)
    requires Represents(kv, l, keys) && k in kv && kv[k].Pointer?
    ensures SequenceKey(kv[k].key) && kv[k].key !in l.ids && owner in l.ids && owner in kv && kv[owner] == kv[k]
  {
    assert k !in keys;
    var i :| 0 <= i < |keys| && keys[i] == kv[k].key;
    owner := l.ids[i];
    assert SequenceKey(keys[i]) && kv[l.ids[i]] == Pointer(keys[i]);
  }

  /** If the receipt does not fit, the store it leaves represents the ledger under no choice of sequence keys. */
  lemma UnfitIsNotRecord(kv: Store, l: Ledger, keys: seq<string>, id: string, r: Receipt, newKey: string,
                         keys': seq<string>)
    requires Represents(kv, l, keys) && Above(newKey, keys) && !Fits(kv, l, id, r, newKey)
    ensures !Represents(Put(kv, id, r, KeyUsed(kv, id, newKey)), Record(l, id, r), keys')
  {
    var key := KeyUsed(kv, id, newKey);
    var kv', l' := Put(kv, id, r, key), Record(l, id, r);
    assert id in l'.ids && l.ids <= l'.ids && kv'[id] == Pointer(key);
    IdLeadsToDocument(kv', l', keys', id);
    if id != key && (id in kv ==> kv[id].Pointer?) {
      UnfitKeyIsNotRecord(kv, l, keys, id, r, newKey, keys');
    }
  }

  lemma UnfitKeyIsNotRecord(kv: Store, l: Ledger, keys: seq<string>, id: string, r: Receipt, newKey: string,
                            keys': seq<string>)
    requires Represents(kv, l, keys) && Above(newKey, keys) && !Fits(kv, l, id, r, newKey)
    requires id != KeyUsed(kv, id, newKey) && (id in kv ==> kv[id].Pointer?)
    ensures !Represents(Put(kv, id, r, KeyUsed(kv, id, newKey)), Record(l, id, r), keys')
  {
    var key := KeyUsed(kv, id, newKey);
    var kv', l' := Put(kv, id, r, key), Record(l, id, r);
    assert id in l'.ids && l.ids <= l'.ids;
    var owner := id;
    if id in kv {
      owner := PointerHasOwner(kv, l, keys, id);
    }
    PutRewrites(kv, id, r, key);
    WrittenKeysApart(r, key);
    if key in l.ids {
      assert key in l'.ids && kv'[key].Document?;
      IdLeadsToDocument(kv', l', keys', key);
    } else if x :| x in IndexKeys(r, key) && x in l.ids && x != id {
      assert x in l'.ids && kv'[x] == Pointer(key);
      TwoIdsOneKey(kv', l', keys', x, id);
    } else {
      assert owner in l'.ids && owner != id && kv'[owner] == Pointer(key);
      TwoIdsOneKey(kv', l', keys', owner, id);
    }
  }

  /** The writes for a receipt amount to recording it in the ledger if and only if it fits. */
  lemma PutIsRecordIff(kv: Store, l: Ledger, keys: seq<string>, id: string, r: Receipt, newKey: string)
    requires Represents(kv, l, keys) && Above(newKey, keys)
    ensures (exists keys' :: Represents(Put(kv, id, r, KeyUsed(kv, id, newKey)), Record(l, id, r), keys')) <==>
            Fits(kv, l, id, r, newKey)
  {
    if Fits(kv, l, id, r, newKey) {
      PutIsRecord(kv, l, keys, id, r, newKey);
    } else {
      forall keys' ensures !Represents(Put(kv, id, r, KeyUsed(kv, id, newKey)), Record(l, id, r), keys') {
        UnfitIsNotRecord(kv, l, keys, id, r, newKey, keys');
      }
    }
  }
}
