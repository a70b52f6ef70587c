/** The LevelDB receipt store object (internal/receipts/leveldbreceipts.go). */
module LevelDBReceiptStores {
  import opened Sorting
  import opened ReceiptIndex
  import opened ReceiptListings
  import opened ReceiptQueries

  /** Later receipts of an ID change neither its place nor any other receipt. */
  lemma OverwriteKeepsPlaces(l: Ledger, id: string, r: Receipt)
    requires id in l.ids
    ensures Record(l, id, r).ids == l.ids
    ensures forall other :: other in l.receipts && other != id ==> Record(l, id, r).receipts[other] == l.receipts[other]
    ensures Record(l, id, r).receipts[id] == r
  {
  }

  /** The outcome of a lookup: no entry, a receipt, or an entry that leads nowhere. */
  datatype Lookup = Absent | Present(receipt: Receipt) | Unreadable

  /** Every index entry of the ledger is stored and leads to the receipt at its position. */
  lemma IndexEntriesLead(kv: Store, l: Ledger, keys: seq<string>)
    requires Represents(kv, l, keys)
    ensures forall e :: e in l.from ==> EntryStored(kv, "from", e.0, e.1, keys)
    ensures forall e :: e in l.to ==> EntryStored(kv, "to", e.0, e.1, keys)
  {
  }

  lemma PointerIsDocument(kv: Store, l: Ledger, keys: seq<string>, k: string)
    requires Shape(l, keys) && IdsStored(kv, l, keys) && DocumentsStored(kv, l, keys) && PointersLead(kv, keys)
    requires k in kv && kv[k].Pointer?
    ensures exists i :: 0 <= i < |keys| && keys[i] == kv[k].key
    ensures kv[k].key in kv && kv[kv[k].key].Document?
    ensures forall i :: 0 <= i < |keys| && keys[i] == kv[k].key ==>
              kv[kv[k].key] == Document(l.receipts[l.ids[i]])
    ensures k in l.ids ==> k in l.receipts && kv[kv[k].key] == Document(l.receipts[k])
  {
    assert k !in keys && kv[k].key in keys;
    if k in l.ids {
      var i := PositionOf(l.ids, k);
      assert kv[l.ids[i]] == Pointer(keys[i]);
    }
  }

  /** The limit of a query: zero stands for the configured one. */
  function Most(limit: int, defaultLimit: int): (most: int)
    ensures limit != 0 ==> most == limit
    ensures limit == 0 ==> most == defaultLimit
  {
    if limit == 0 then defaultLimit else limit
  }

  class LevelDBReceipts {
    var store: Store
    const defaultLimit: int
    ghost var ledger: Ledger
    ghost var keys: seq<string>

    ghost predicate Valid()
      reads this
    {
      Represents(store, ledger, keys)
    }

    constructor (defaultLimit: int)
      ensures Valid() && ledger == EmptyLedger && this.defaultLimit == defaultLimit
    {
      this.defaultLimit := defaultLimit;
      store := map[];
      ledger := EmptyLedger;
      keys := [];
    }

    /**
      `AddReceipt`; `newKey` is the freshly generated sequence key, beyond all earlier ones. The ID is any text. If the
      receipt fits, storing it is recording it in the ledger, and only a known ID without overwrite is refused. If it
      does not fit and is stored all the same, nothing represents the ledger any more.
     */
    method AddReceipt(id: string, r: Receipt, overwrite: bool, newKey: string) returns (ok: bool)
      requires Valid() && Above(newKey, keys)
      modifies this
      ensures ok <==> overwrite || id !in old(store)
      ensures store == if ok then Put(old(store), id, r, KeyUsed(old(store), id, newKey)) else old(store)
      ensures ledger == (if ok then Record(old(ledger), id, r) else old(ledger)) && old(keys) <= keys
      ensures !ok ==> Valid()
      ensures ok ==> ((exists ks :: Represents(store, ledger, ks)) <==> Fits(old(store), old(ledger), id, r, newKey))
      ensures Fits(old(store), old(ledger), id, r, newKey) ==>
                Valid() && (ok <==> overwrite || id !in old(ledger).ids)
    {
      var lookupKey := newKey;
      PutIsRecordIff(store, ledger, keys, id, r, newKey);
      if Fits(store, ledger, id, r, newKey) {
        PutIsRecord(store, ledger, keys, id, r, newKey);
        KeyIsSettled(store, ledger, keys, id, r, newKey);
      }
      if id in store {
        if !overwrite {
          return false;
        }
        lookupKey := TextOf(store[id]);
      }
      WriteEntries(id, r, lookupKey, KeysUsed(store, keys, id, newKey));
      return true;
    }

    /** The writes of `AddReceipt`, once the lookup key is settled. */
    method WriteEntries(id: string, r: Receipt, lookupKey: string, ghost newKeys: seq<string>)
      modifies this`store, this`ledger, this`keys
      ensures store == Put(old(store), id, r, lookupKey)
      ensures ledger == Record(old(ledger), id, r) && keys == newKeys
    {
      store, ledger, keys := Put(store, id, r, lookupKey), Record(ledger, id, r), newKeys;
    }

    /**
      `GetReceipt`, for any text: the receipt last stored under an ID, nothing for an ID never stored. A text that is
      not an ID but happens to be an index key leads to its receipt; one that is a sequence key leads nowhere, because
      the receipt itself, a text that starts with a brace, is taken for a key.
     */
    method GetReceipt(id: string) returns (r: Lookup)
      requires Valid()
      ensures id in ledger.receipts ==> r == Present(ledger.receipts[id])
      ensures id !in ledger.receipts && id !in keys && !IndexShaped(id) ==> r == Absent
      ensures id !in store ==> r == Absent
      ensures forall e :: e in ledger.from && id == IndexKey("from", e.0, keys[e.1]) ==>
                r == Present(ledger.receipts[ledger.ids[e.1]])
      ensures forall e :: e in ledger.to && id == IndexKey("to", e.0, keys[e.1]) ==>
                r == Present(ledger.receipts[ledger.ids[e.1]])
      ensures id in keys ==> r == Unreadable
    {
      IndexEntriesLead(store, ledger, keys);
      if id !in store {
        return Absent;
      }
      match store[id]
      case Document(_) =>
        return Unreadable;
      case Pointer(lookupKey) =>
        PointerIsDocument(store, ledger, keys, id);
        return Present(store[lookupKey].receipt);
    }

    /** `GetReceipts` without request IDs, addresses, start and since. */
    method GetReceipts(skip: int, limit: int) returns (results: seq<Listed>)
      requires Valid()
      ensures exists itr :: IsSnapshot(itr, store) && results == Listing(store, itr, skip, Most(limit, defaultLimit))
      ensures IdsBelow(ledger, keys) ==> results == Slice(ledger, keys, skip, Most(limit, defaultLimit))
    {
      var itr := Snapshot(store);
      results := ReceiptsNoFilter(store, itr, skip, Most(limit, defaultLimit));
      if IdsBelow(ledger, keys) {
        ListingIsSlice(store, itr, ledger, keys, skip, Most(limit, defaultLimit));
      }
    }

    /**
      `GetReceipts` by sender, recipient or both, without request IDs and since: the receipts of the keys found, newest
      first, which are those selected if nothing else lies under the prefixes of the addresses.
     */
    method GetReceiptsByAddress(limit: int, from: string, to: string, start: string) returns (results: seq<Receipt>)
      requires Valid() && (from != "" || to != "")
      ensures exists itr ::
                && IsSnapshot(itr, store)
                && ReceiptsOf(Documents(ledger, keys),
                              QueryOrder(store, itr, from, to, start, Most(limit, defaultLimit)), results)
      ensures BothUndisturbed(ledger, keys, from, to) ==>
                exists found ::
                  && ListsSelected(found, ledger, keys, from, to, Most(limit, defaultLimit), start)
                  && ReceiptsOf(Documents(ledger, keys), Limited(Reversed(found), Most(limit, defaultLimit)), results)
    {
      var most := Most(limit, defaultLimit);
      var itr := Snapshot(store);
      var found := LookupKeysByFromAndTo(store, itr, from, to, start, "", most);
      QueryKeysAreKeys(store, itr, ledger, keys, from, to, start, "", most);
      KeysHaveDocuments(store, ledger, keys, found);
      results := ReceiptsByLookupKey(store, Sort(found, Geq), most, Documents(ledger, keys));
      if BothUndisturbed(ledger, keys, from, to) {
        ExactWhenUndisturbed(store, itr, ledger, keys, from, to, start, most);
        DescendingIsReversed(found);
      }
    }
  }
}
