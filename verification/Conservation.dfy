/** Transfers move value between owners; they neither make nor lose any. */
module Conservation {
  import opened Wrappers
  import opened AssetJson
  import opened KeyOrder
  import opened Ledger
  import opened AssetBook
  import opened LedgerRuns

  // The appraised value of the assets an owner holds; of all assets, when no owner is named.
  function Holdings(b: Book, keys: seq<string>, owner: Option<string>): int
    requires forall k :: k in keys ==> k in b
  {
    if keys == [] then 0
    else
      (if owner == None || owner == Some(b[keys[0]].owner) then b[keys[0]].appraisedValue as int else 0)
      + Holdings(b, keys[1..], owner)
  }

  function Worth(b: Book, owner: Option<string>): int { Holdings(b, SortedKeys(b.Keys), owner) }

  // What a transaction brings an owner, by its reply: the asset's value if it comes, minus it if it goes.
  function Gain(b: Book, tx: Tx, reply: Reply, owner: Option<string>): int {
    if tx.call.Transfer? && reply.OldOwner? && tx.call.id in b && owner.Some? then
      (if owner.value == tx.call.newOwner then b[tx.call.id].appraisedValue as int else 0)
      - (if owner.value == reply.owner then b[tx.call.id].appraisedValue as int else 0)
    else 0
  }

  function Gains(b: Book, txs: seq<Tx>, replies: seq<Reply>, owner: Option<string>): int
    requires |txs| == |replies|
  {
    if txs == [] then 0 else Gain(b, txs[0], replies[0], owner) + Gains(b, txs[1..], replies[1..], owner)
  }

  predicate OnlyTransfersAndQueries(txs: seq<Tx>) {
    forall i :: 0 <= i < |txs| ==> txs[i].call.Transfer? || IsQuery(txs[i].call)
  }

  // The same assets, apart from their owners.
  ghost predicate SameButOwners(a: Book, b: Book) {
    && a.Keys == b.Keys
    && forall id :: id in a ==> a[id].(owner := b[id].owner) == b[id]
  }

  lemma {:induction false} HoldingsWithout(b: Book, id: string, asset: Asset, keys: seq<string>, owner: Option<string>)
    requires id !in keys && forall k :: k in keys ==> k in b
    ensures Holdings(b[id := asset], keys, owner) == Holdings(b, keys, owner)
  {
    if keys != [] {
      HoldingsWithout(b, id, asset, keys[1..], owner);
    }
  }

  lemma {:induction false} HoldingsMoved(b: Book, id: string, newOwner: string, keys: seq<string>, owner: Option<string>)
    requires id in b && id in keys && Ascending(keys) && forall k :: k in keys ==> k in b
    ensures var tx := Tx(Transfer(id, newOwner), NO_FAULTS);
            Holdings(b[id := b[id].(owner := newOwner)], keys, owner) ==
            Holdings(b, keys, owner) + Gain(b, tx, OldOwner(b[id].owner), owner)
  {
    var tail := keys[1..];
    assert keys == [keys[0]] + tail;
    if keys[0] == id {
      LessIrreflexive(id);
      forall i | 0 <= i < |tail| ensures tail[i] != id { assert Less(keys[0], keys[i + 1]); }
      HoldingsWithout(b, id, b[id].(owner := newOwner), tail, owner);
    } else {
      assert Ascending(tail) by {
        forall i, j | 0 <= i < j < |tail| ensures Less(tail[i], tail[j]) { assert Less(keys[i + 1], keys[j + 1]); }
      }
      HoldingsMoved(b, id, newOwner, tail, owner);
    }
  }

  lemma {:induction false} TransferMovesWorth(b: Book, id: string, newOwner: string, owner: Option<string>)
    requires id in b
    ensures var b' := b[id := b[id].(owner := newOwner)];
            && SameButOwners(b, b')
            && Worth(b', owner) == Worth(b, owner) + Gain(b, Tx(Transfer(id, newOwner), NO_FAULTS), OldOwner(b[id].owner), owner)
  {
    assert b[id := b[id].(owner := newOwner)].Keys == b.Keys;
    var keys := SortedKeys(b.Keys);
    assert id in keys;
    HoldingsMoved(b, id, newOwner, keys, owner);
  }

  // A transfer that succeeds changes one owner; other transfers and queries change nothing.
  lemma {:induction false} StepMovesOrKeeps(b: Book, tx: Tx)
    requires tx.call.Transfer? || IsQuery(tx.call)
    ensures var o := BookStep(b, tx);
            if tx.call.Transfer? && o.reply.OldOwner? then
              var id := tx.call.id;
              id in b && o == Outcome(b[id := b[id].(owner := tx.call.newOwner)], OldOwner(b[id].owner))
            else o.state == b
  {
  }

  lemma {:induction false} NothingMoved(b: Book, tx: Tx, reply: Reply, owner: Option<string>)
    requires !(tx.call.Transfer? && reply.OldOwner?)
    ensures SameButOwners(b, b) && Gain(b, tx, reply, owner) == 0
  {
  }

  lemma {:induction false} StepConserves(b: Book, tx: Tx, o: Outcome<Book>, owner: Option<string>)
    requires tx.call.Transfer? || IsQuery(tx.call)
    requires o == BookStep(b, tx)
    ensures SameButOwners(b, o.state)
    ensures Worth(o.state, owner) == Worth(b, owner) + Gain(b, tx, o.reply, owner)
  {
    StepMovesOrKeeps(b, tx);
    if tx.call.Transfer? && o.reply.OldOwner? {
      TransferMovesWorth(b, tx.call.id, tx.call.newOwner, owner);
    } else {
      NothingMoved(b, tx, o.reply, owner);
    }
  }

  lemma {:induction false} GainsSameValues(a: Book, b: Book, txs: seq<Tx>, replies: seq<Reply>, owner: Option<string>)
    requires SameButOwners(a, b) && |txs| == |replies|
    ensures Gains(a, txs, replies, owner) == Gains(b, txs, replies, owner)
  {
    if txs != [] {
      if txs[0].call.Transfer? && txs[0].call.id in a {
        assert a[txs[0].call.id].(owner := b[txs[0].call.id].owner) == b[txs[0].call.id];
      }
      GainsSameValues(a, b, txs[1..], replies[1..], owner);
    }
  }

  lemma {:induction false} BookRunConserves(b: Book, txs: seq<Tx>, owner: Option<string>)
    requires OnlyTransfersAndQueries(txs)
    ensures var t := BookRun(b, txs);
            && SameButOwners(b, t.state)
            && Worth(t.state, owner) == Worth(b, owner) + Gains(b, txs, t.replies, owner)
    decreases |txs|
  {
    if txs != [] {
      var o := BookStep(b, txs[0]);
      var rest := BookRun(o.state, txs[1..]);
      assert BookRun(b, txs).replies[1..] == rest.replies;
      StepConserves(b, txs[0], o, owner);
      BookRunConserves(o.state, txs[1..], owner);
      GainsSameValues(b, o.state, txs[1..], rest.replies, owner);
      forall id | id in b ensures b[id].(owner := rest.state[id].owner) == rest.state[id] {
        assert b[id].(owner := o.state[id].owner) == o.state[id];
        assert o.state[id].(owner := rest.state[id].owner) == rest.state[id];
      }
    }
  }

  lemma {:induction false} NoGainInTotal(b: Book, txs: seq<Tx>, replies: seq<Reply>)
    requires |txs| == |replies|
    ensures Gains(b, txs, replies, None) == 0
  {
    if txs != [] {
      NoGainInTotal(b, txs[1..], replies[1..]);
    }
  }

  // After any history, a run of transfers and queries keeps every asset apart from its owner and the
  // total value, and changes what each owner holds by exactly what the replies say moved.
  lemma {:induction false} TransfersConserve(c: Codec, history: seq<Tx>, txs: seq<Tx>, owner: string)
    requires Faithful(c) && OnlyTransfersAndQueries(txs)
    ensures var w := Run(c, EMPTY, history).state;
            var t := Run(c, w, txs);
            && Decodable(c, w) && Decodable(c, t.state)
            && var before, after := Decoded(c, w), Decoded(c, t.state);
               && SameButOwners(before, after)
               && Worth(after, None) == Worth(before, None)
               && Worth(after, Some(owner)) == Worth(before, Some(owner)) + Gains(before, txs, t.replies, Some(owner))
  {
    var b := BookRun(map[], history).state;
    LedgerRefinesBook(c, history);
    RunRefines(c, b, txs);
    DecodedStored(c, BookRun(b, txs).state);
    BookRunConserves(b, txs, None);
    BookRunConserves(b, txs, Some(owner));
    NoGainInTotal(b, txs, BookRun(b, txs).replies);
  }
}
