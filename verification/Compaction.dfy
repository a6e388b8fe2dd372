/** A whole history can be replaced by one create per live asset. */
module Compaction {
  import opened Wrappers
  import opened AssetJson
  import opened KeyOrder
  import opened Ledger
  import opened AssetBook
  import opened LedgerRuns

  function Recreate(a: Asset): Tx { Tx(Create(a.id, a.color, a.size, a.owner, a.appraisedValue), NO_FAULTS) }

  function CreateAll(assets: seq<Asset>): (txs: seq<Tx>)
    ensures |txs| == |assets|
    ensures forall i :: 0 <= i < |assets| ==> txs[i] == Recreate(assets[i])
  {
    if assets == [] then [] else [Recreate(assets[0])] + CreateAll(assets[1..])
  }

  // Every live asset exactly once, in whatever order.
  ghost predicate IsInventory(c: Codec, w: World, assets: seq<Asset>) {
    && (forall i, j :: 0 <= i < j < |assets| ==> assets[i].id != assets[j].id)
    && (forall i :: 0 <= i < |assets| ==> assets[i].id in w && c.decode(w[assets[i].id]) == Some(assets[i]))
    && (forall id :: id in w ==> exists i :: 0 <= i < |assets| && assets[i].id == id)
  }

  function Restrict(b: Book, ids: set<string>): Book { map id | id in b && id in ids :: b[id] }

  function Dones(n: nat): (replies: seq<Reply>)
    ensures |replies| == n && forall i :: 0 <= i < n ==> replies[i] == Done
  {
    if n == 0 then [] else [Done] + Dones(n - 1)
  }

  // The assets of b whose IDs are not yet present, each once.
  ghost predicate AreMissing(b: Book, present: set<string>, assets: seq<Asset>) {
    && (forall i, j :: 0 <= i < j < |assets| ==> assets[i].id != assets[j].id)
    && (forall i :: 0 <= i < |assets| ==> assets[i].id in b && assets[i].id !in present && b[assets[i].id] == assets[i])
    && (forall id :: id in b ==> id in present || exists i :: 0 <= i < |assets| && assets[i].id == id)
  }

  lemma {:induction false} OneLessMissing(b: Book, present: set<string>, assets: seq<Asset>)
    requires assets != [] && AreMissing(b, present, assets)
    ensures AreMissing(b, present + {assets[0].id}, assets[1..])
  {
    var rest := assets[1..];
    assert forall i :: 0 <= i < |rest| ==> rest[i] == assets[i + 1];
    forall id | id in b && id !in present + {assets[0].id}
      ensures exists i :: 0 <= i < |rest| && rest[i].id == id
    {
      var i :| 0 <= i < |assets| && assets[i].id == id;
      assert rest[i - 1].id == id;
    }
  }

  lemma {:induction false} RecreateOne(b: Book, present: set<string>, a: Asset)
    requires a.id in b && a.id !in present && b[a.id] == a
    ensures BookStep(Restrict(b, present), Recreate(a)) == Outcome(Restrict(b, present + {a.id}), Done)
  {
    assert Restrict(b, present)[a.id := a] == Restrict(b, present + {a.id});
  }

  // Creating the assets that are still missing from b completes b.
  lemma {:induction false} ReplayRest(b: Book, present: set<string>, assets: seq<Asset>)
    requires AreMissing(b, present, assets)
    ensures BookRun(Restrict(b, present), CreateAll(assets)) == Trace(b, Dones(|assets|))
    decreases |assets|
  {
    if assets == [] {
      assert Restrict(b, present) == b;
    } else {
      var a, rest := assets[0], assets[1..];
      OneLessMissing(b, present, assets);
      RecreateOne(b, present, a);
      assert CreateAll(assets)[1..] == CreateAll(rest);
      ReplayRest(b, present + {a.id}, rest);
    }
  }

  lemma {:induction false} InventoryIsMissingFromEmpty(c: Codec, b: Book, assets: seq<Asset>)
    requires Faithful(c) && IsInventory(c, Stored(c, b), assets)
    ensures AreMissing(b, {}, assets)
  {
    forall i | 0 <= i < |assets| ensures assets[i].id in b && b[assets[i].id] == assets[i] {
      assert c.decode(Stored(c, b)[assets[i].id]) == Some(assets[i]);
    }
    forall id | id in b ensures exists i :: 0 <= i < |assets| && assets[i].id == id {
      assert id in Stored(c, b);
    }
  }

  lemma {:induction false} ReplayAll(b: Book, assets: seq<Asset>)
    requires AreMissing(b, {}, assets)
    ensures BookRun(map[], CreateAll(assets)) == Trace(b, Dones(|assets|))
  {
    assert Restrict(b, {}) == map[];
    ReplayRest(b, {}, assets);
  }

  // For every run: creating each live asset once, with its final fields and in any order, reaches the
  // very same world state, and every one of those creates succeeds.
  lemma {:induction false} LogCompaction(c: Codec, txs: seq<Tx>, assets: seq<Asset>)
    requires Faithful(c)
    requires IsInventory(c, Run(c, EMPTY, txs).state, assets)
    ensures Run(c, EMPTY, CreateAll(assets)) == Trace(Run(c, EMPTY, txs).state, Dones(|assets|))
  {
    var b := BookRun(map[], txs).state;
    LedgerRefinesBook(c, txs);
    InventoryIsMissingFromEmpty(c, b, assets);
    ReplayAll(b, assets);
    LedgerRefinesBook(c, CreateAll(assets));
  }

  lemma {:induction false} ListingIsInventory(c: Codec, w: World, assets: seq<Asset>)
    requires IsListing(c, w, assets)
    ensures IsInventory(c, w, assets)
  {
    var keys := SortedKeys(w.Keys);
    forall i, j | 0 <= i < j < |assets| ensures assets[i].id != assets[j].id {
      LessIrreflexive(keys[i]);
    }
    forall i | 0 <= i < |assets| ensures assets[i].id in w && c.decode(w[assets[i].id]) == Some(assets[i]) {
      assert keys[i] in w.Keys;
      assert ReadAsset(c, w, keys[i], NO_FAULTS) == Success(assets[i]);
    }
    forall id | id in w ensures exists i :: 0 <= i < |assets| && assets[i].id == id {
      assert id in keys;
      var i :| 0 <= i < |keys| && keys[i] == id;
      assert assets[i].id == id;
    }
  }

  lemma {:induction false} NetCreatedBounded(txs: seq<Tx>, replies: seq<Reply>)
    requires |txs| == |replies|
    ensures NetCreated(txs, replies, None) <= |txs|
  {
    if txs != [] {
      NetCreatedBounded(txs[1..], replies[1..]);
    }
  }

  // What GetAllAssets returns is a complete backup: recreating it rebuilds the world state byte for
  // byte, with no more transactions than any history that led there.
  lemma {:induction false} ScanIsBackup(c: Codec, txs: seq<Tx>)
    requires Faithful(c)
    ensures var w := Run(c, EMPTY, txs).state;
            var backup := GetAllAssets(c, w, NO_FAULTS);
            && backup.Success?
            && Run(c, EMPTY, CreateAll(backup.value)).state == w
            && |backup.value| <= |txs|
  {
    var t := Run(c, EMPTY, txs);
    RangeScanCorrect(c, txs, NO_FAULTS);
    var assets := GetAllAssets(c, t.state, NO_FAULTS).value;
    ListingIsInventory(c, t.state, assets);
    LogCompaction(c, txs, assets);
    LiveKeysCount(c, EMPTY, txs, None);
    NetCreatedBounded(txs, t.replies);
  }
}
