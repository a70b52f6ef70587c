/** Stores for which a property of the LevelDB receipt store fails. */
module ReceiptExamples {
  import opened Options
  import opened Lexicographic
  import opened ReceiptIndex
  import opened ReceiptListings
  import opened ReceiptQueries

  // Two receipts of one sender, stored one after the other.
  const Older := Receipt(Some("a"), None, 0, "older")
  const Newer := Receipt(Some("a"), None, 0, "newer")
  const Two := Ledger(["x", "y"], map["x" := Older, "y" := Newer], {("a", 0), ("a", 1)}, {})

  lemma TwoAreRecorded()
    ensures Record(Record(EmptyLedger, "x", Older), "y", Newer) == Two
  {
    var one := Record(EmptyLedger, "x", Older);
    assert [] + ["x"] == ["x"] && ["x"] + ["y"] == ["x", "y"];
    assert one == Ledger(["x"], map["x" := Older], {("a", 0)}, {});
  }

  lemma NewIsStored(kv: Store, l: Ledger, keys: seq<string>, id: string, r: Receipt, key: string)
    requires Represents(kv, l, keys) && id !in kv && Above(key, keys) && Fits(kv, l, id, r, key)
    ensures exists kv' :: Represents(kv', Record(l, id, r), keys + [key])
  {
    PutIsRecord(kv, l, keys, id, r, key);
    assert Represents(Put(kv, id, r, key), Record(l, id, r), keys + [key]);
  }

  lemma EmptyIsStored()
    ensures Represents(map[], EmptyLedger, [])
  {
  }

  /** A store with a single receipt. */
  lemma OneIsStored(id: string, r: Receipt)
    requires id != "z1"
    ensures Record(EmptyLedger, id, r).ids == [id]
    ensures exists kv :: Represents(kv, Record(EmptyLedger, id, r), ["z1"])
  {
    EmptyIsStored();
    NewIsStored(map[], EmptyLedger, [], id, r, "z1");
    assert [] + ["z1"] == ["z1"] && [] + [id] == [id];
  }

  lemma TwoAreStored()
    ensures exists kv :: Represents(kv, Two, ["z1", "z2"])
  {
    OneIsStored("x", Older);
    var kv :| Represents(kv, Record(EmptyLedger, "x", Older), ["z1"]);
    OneThenTwo(kv, Record(EmptyLedger, "x", Older));
  }

  lemma OneThenTwo(kv: Store, one: Ledger)
    requires one == Record(EmptyLedger, "x", Older) && Represents(kv, one, ["z1"])
    ensures exists kv' :: Represents(kv', Two, ["z1", "z2"])
  {
    TwoAreRecorded();
    TwoMatch();
    assert one.ids == ["x"];
    assert ["z1", "z2"][0] == "z1" && ["z1", "z2"][1] == "z2";
    NoColonIsUnshaped("x");
    NoColonIsUnshaped("y");
    UnshapedFits(kv, one, ["z1"], "y", Newer, "z2");
    NewIsStored(kv, one, ["z1"], "y", Newer, "z2");
    assert ["z1"] + ["z2"] == ["z1", "z2"];
  }

  lemma TwoMatch()
    ensures Matching(Two.from, ["z1", "z2"], "a") == ["z1", "z2"] && Ascending(["z1", "z2"])
  {
    assert Less("z1", "z2") by {
      assert "z1"[1..] == "1" && "z2"[1..] == "2";
    }
    assert ["z1", "z2"][..1] == ["z1"] && ["z1"][..0] == [];
    assert Matching(Two.from, ["z1"], "a") == [] + ["z1"] == ["z1"];
  }

  /** A store whose only receipt has the ID "~x" exists, and in any such store the listing is empty. */
  lemma AboveZIsNotListed()
    ensures exists kv :: Represents(kv, Record(EmptyLedger, "~x", Older), ["z1"])
    ensures forall kv, itr :: Represents(kv, Record(EmptyLedger, "~x", Older), ["z1"]) && IsSnapshot(itr, kv) ==>
              Listing(kv, itr, 0, 0) == [] && |Slice(Record(EmptyLedger, "~x", Older), ["z1"], 0, 0)| == 1
  {
    OneIsStored("~x", Older);
    forall kv, itr | Represents(kv, Record(EmptyLedger, "~x", Older), ["z1"]) && IsSnapshot(itr, kv)
      ensures Listing(kv, itr, 0, 0) == [] && |Slice(Record(EmptyLedger, "~x", Older), ["z1"], 0, 0)| == 1
    {
      AboveZEmptiesTheListing(kv, itr, Record(EmptyLedger, "~x", Older), ["z1"], "~x", 0);
    }
  }

  /** A store whose only receipt has the ID "zz" exists, and in any such store a skip of one still lists it. */
  lemma SkippedIsListed()
    ensures exists kv :: Represents(kv, Record(EmptyLedger, "zz", Older), ["z1"])
    ensures forall kv, itr :: Represents(kv, Record(EmptyLedger, "zz", Older), ["z1"]) && IsSnapshot(itr, kv) ==>
              Listing(kv, itr, 1, 0) != [] && Slice(Record(EmptyLedger, "zz", Older), ["z1"], 1, 0) == []
  {
    assert "z1"[1..] == "1" && "zz"[1..] == "z" && Less("z1", "zz");
    OneIsStored("zz", Older);
    forall kv, itr | Represents(kv, Record(EmptyLedger, "zz", Older), ["z1"]) && IsSnapshot(itr, kv)
      ensures Listing(kv, itr, 1, 0) != [] && Slice(Record(EmptyLedger, "zz", Older), ["z1"], 1, 0) == []
    {
      AboveOldestShiftsTheSkip(kv, itr, Record(EmptyLedger, "zz", Older), ["z1"], "zz");
    }
  }

  /**
    A receipt without sender is indexed under the text that Go prints for a missing value; one without recipient, or
    with an empty one, under no recipient at all.
   */
  lemma MissingAddresses(l: Ledger, id: string, r: Receipt)
    ensures r.from.None? ==> Record(l, id, r).from == l.from + {("%!s(<nil>)", Position(l, id))}
    ensures r.from.Some? ==> Record(l, id, r).from == l.from + {(r.from.value, Position(l, id))}
    ensures r.to == None || r.to == Some("") ==> Record(l, id, r).to == l.to
    ensures r.to.Some? && r.to.value != "" ==> Record(l, id, r).to == l.to + {(r.to.value, Position(l, id))}
  {
  }

  // A receipt of a sender whose name goes on with a colon.
  const Extended := Receipt(Some("a:b"), None, 0, "extended")

  /**
    A store whose only receipt is from "a:b" exists, and in any such store a query for "a", under which nothing was ever
    indexed, finds it.
   */
  lemma ExtendedAddressIsFound()
    ensures exists kv :: Represents(kv, Record(EmptyLedger, "x", Extended), ["z1"])
    ensures Matching(Record(EmptyLedger, "x", Extended).from, ["z1"], "a") == []
    ensures forall kv, itr, limit ::
              Represents(kv, Record(EmptyLedger, "x", Extended), ["z1"]) && IsSnapshot(itr, kv) ==>
                QueryKeys(kv, itr, "a", "", "", "", limit) != []
  {
    var l := Record(EmptyLedger, "x", Extended);
    OneIsStored("x", Extended);
    assert ("a:b", 0) in l.from && HasPrefix("a:b", "a" + ":") && Extends(("a:b", 0).0, "a");
    assert ["z1"][..0] == [];
    forall kv, itr, limit | Represents(kv, l, ["z1"]) && IsSnapshot(itr, kv)
      ensures QueryKeys(kv, itr, "a", "", "", "", limit) != []
    {
      DisturbedFinds(kv, itr, l, ["z1"], "a", limit);
    }
  }

  lemma DisturbedFinds(kv: Store, itr: seq<string>, l: Ledger, keys: seq<string>, address: string, limit: int)
    requires Represents(kv, l, keys) && IsSnapshot(itr, kv) && address != ""
    requires !Undisturbed(l.ids, "from", l.from, keys, address)
    ensures QueryKeys(kv, itr, address, "", "", "", limit) != []
  {
    IdsAreStored(kv, l, keys);
    DisturbedHasMoreHits(kv, itr, "from", address, l.from, keys, l.ids);
  }

  lemma ShapedIdIsUnder(id: string, address: string, rest: string)
    requires id == IndexKey("from", address, rest) && address != FromText(Older)
    ensures var l := Record(EmptyLedger, id, Older);
            Matching(l.from, ["z1"], address) == [] && !Undisturbed(l.ids, "from", l.from, ["z1"], address)
  {
    var l, prefix := Record(EmptyLedger, id, Older), IndexPrefix("from", address);
    assert [] + [id] == [id] && id in l.ids && HasPrefix(id, prefix);
    assert l.from == {(FromText(Older), 0)} && ["z1"][..0] == [];
    assert Matching(l.from, ["z1"], address) == [];
    assert !OwnKey(prefix, [], id);
  }

  /**
    A store whose only receipt, of another sender, has the ID "from:b:c" exists, and in any such store a query for the
    sender "b" finds it.
   */
  lemma ShapedIdIsFound()
    ensures exists kv :: Represents(kv, Record(EmptyLedger, "from:b:c", Older), ["z1"])
    ensures Matching(Record(EmptyLedger, "from:b:c", Older).from, ["z1"], "b") == []
    ensures forall kv, itr, limit ::
              Represents(kv, Record(EmptyLedger, "from:b:c", Older), ["z1"]) && IsSnapshot(itr, kv) ==>
                QueryKeys(kv, itr, "b", "", "", "", limit) != []
  {
    assert IndexKey("from", "b", "c") == "from:b:c";
    ShapedIdIsUnder("from:b:c", "b", "c");
    OneIsStored("from:b:c", Older);
    var l := Record(EmptyLedger, "from:b:c", Older);
    forall kv, itr, limit | Represents(kv, l, ["z1"]) && IsSnapshot(itr, kv)
      ensures QueryKeys(kv, itr, "b", "", "", "", limit) != []
    {
      DisturbedFinds(kv, itr, l, ["z1"], "b", limit);
    }
  }

  /**
    In any store whose only receipt is from "a" under the sequence key "z1", the ID "from:a:z1" was never stored, yet it
    is a key of the store, so nothing fits under it.
   */
  lemma IndexEntryIsTakenForAnId()
    ensures exists kv :: Represents(kv, Record(EmptyLedger, "x", Older), ["z1"])
    ensures forall kv, r, newKey :: Represents(kv, Record(EmptyLedger, "x", Older), ["z1"]) ==>
              && "from:a:z1" in kv && "from:a:z1" !in Record(EmptyLedger, "x", Older).ids
              && !Fits(kv, Record(EmptyLedger, "x", Older), "from:a:z1", r, newKey)
  {
    var l := Record(EmptyLedger, "x", Older);
    OneIsStored("x", Older);
    assert ("a", 0) in l.from && IndexKey("from", "a", "z1") == "from:a:z1";
    forall kv, r, newKey | Represents(kv, l, ["z1"])
      ensures "from:a:z1" in kv && "from:a:z1" !in l.ids && !Fits(kv, l, "from:a:z1", r, newKey)
    {
      assert EntryStored(kv, "from", ("a", 0).0, ("a", 0).1, ["z1"]);
    }
  }

  /**
    A store holding them exists, and in any such store a query for the sender with room for one reads the older of
    the two.
   */
  lemma OneResultIsTheOldest()
    ensures Two == Record(Record(EmptyLedger, "x", Older), "y", Newer)
    ensures exists kv :: Represents(kv, Two, ["z1", "z2"])
    ensures forall found :: ListsSelected(found, Two, ["z1", "z2"], "a", "", 1, "") ==> found == ["z1"]
  {
    TwoAreRecorded();
    TwoAreStored();
    TwoMatch();
    forall found | ListsSelected(found, Two, ["z1", "z2"], "a", "", 1, "") ensures found == ["z1"] {
      NewestBySenderIffAllFit(Two, ["z1", "z2"], "a", 1, found);
    }
  }
}
