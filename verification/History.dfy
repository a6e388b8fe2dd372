/**
 The ledger as its log: what is stored under an ID, and how a transaction is answered, can be told from
 the earlier transactions and their replies.
 */
module History {
  import opened Wrappers
  import opened AssetJson
  import opened Ledger
  import opened AssetBook
  import opened LedgerRuns
  import opened Ownership

  // The asset a successful transaction on its ID leaves, given the one that was there.
  function Leaves(call: Call, prior: Option<Asset>): Option<Asset>
    requires !IsQuery(call)
  {
    match call
    case Create(id, color, size, owner, value) => Some(Asset(value, color, id, owner, size))
    case Update(id, color, size, owner, value) => Some(Asset(value, color, id, owner, size))
    case Transfer(_, newOwner) =>
      var asset :- prior;
      Some(asset.(owner := newOwner))
    case Delete(_) => None
  }

  // The asset after the first n transactions, by the log.
  function AssetAfter(txs: seq<Tx>, replies: seq<Reply>, id: string, n: nat): Option<Asset>
    requires n <= |txs| == |replies|
  {
    if n == 0 then None
    else
      var prior := AssetAfter(txs, replies, id, n - 1);
      if Decides(txs[n - 1], replies[n - 1], id) then Leaves(txs[n - 1].call, prior) else prior
  }

  function AssetIn(c: Codec, w: World, id: string): Option<Asset> {
    if id in w then c.decode(w[id]) else None
  }

  lemma {:induction false} StepAsset(c: Codec, b: Book, tx: Tx, id: string)
    requires Faithful(c)
    ensures var w := Stored(c, b);
            var o := Step(c, w, tx);
            AssetIn(c, o.state, id) ==
            if Decides(tx, o.reply, id) then Leaves(tx.call, AssetIn(c, w, id)) else AssetIn(c, w, id)
  {
    StepRefines(c, b, tx);
  }

  // At every point of a run the log tells every field of what is stored.
  lemma {:induction false} LogTellsAsset(c: Codec, txs: seq<Tx>, id: string, n: nat)
    requires Faithful(c) && n <= |txs|
    ensures AssetAfter(txs, Run(c, EMPTY, txs).replies, id, n) == AssetIn(c, Run(c, EMPTY, txs[..n]).state, id)
  {
    if n > 0 {
      LogTellsAsset(c, txs, id, n - 1);
      RunAt(c, EMPTY, txs, n - 1);
      LedgerRefinesBook(c, txs[..n - 1]);
      StepAsset(c, BookRun(map[], txs[..n - 1]).state, txs[n - 1], id);
    }
  }

  lemma {:induction false} LiveDecodes(c: Codec, txs: seq<Tx>, id: string)
    requires Faithful(c)
    ensures var w := Run(c, EMPTY, txs).state;
            var told := AssetAfter(txs, Run(c, EMPTY, txs).replies, id, |txs|);
            (id in w <==> told.Some?) && (id in w ==> c.decode(w[id]) == told)
  {
    LogTellsAsset(c, txs, id, |txs|);
    assert txs[..|txs|] == txs;
    LedgerRefinesBook(c, txs);
  }

  // And it tells how the next transaction is answered when no stub call fails: what it needs, and what
  // it returns.
  lemma {:induction false} LogTellsAnswer(c: Codec, txs: seq<Tx>, call: Call)
    requires Faithful(c) && !call.GetAll?
    ensures var t := Run(c, EMPTY, txs);
            var told := AssetAfter(txs, t.replies, call.id, |txs|);
            var reply := Step(c, t.state, Tx(call, NO_FAULTS)).reply;
            if call.Exists? then reply == Present(told.Some?)
            else if call.Create? then reply == if told.Some? then Failed(AlreadyExists(call.id)) else Done
            else if told.None? then reply == Failed(DoesNotExist(call.id))
            else if call.Read? then reply == Found(told.value)
            else if call.Transfer? then reply == OldOwner(told.value.owner)
            else reply == Done
  {
    LiveDecodes(c, txs, call.id);
  }

  // A write is read back, every field of it, as long as no later transaction on that ID succeeds.
  lemma {:induction false} ReadBack(c: Codec, txs: seq<Tx>, i: nat)
    requires Faithful(c) && i < |txs|
    requires (txs[i].call.Create? || txs[i].call.Update?) && Run(c, EMPTY, txs).replies[i] == Done
    requires forall k :: i < k < |txs| ==> !Decides(txs[k], Run(c, EMPTY, txs).replies[k], txs[i].call.id)
    ensures var call := txs[i].call;
            Step(c, Run(c, EMPTY, txs).state, Tx(Call.Read(call.id), NO_FAULTS)).reply ==
            Found(Asset(call.appraisedValue, call.color, call.id, call.owner, call.size))
  {
    LeftUndecided(txs, Run(c, EMPTY, txs).replies, txs[i].call.id, i + 1, |txs|);
    LogTellsAnswer(c, txs, Call.Read(txs[i].call.id));
  }

  lemma {:induction false} LeftUndecided(txs: seq<Tx>, replies: seq<Reply>, id: string, i: nat, j: nat)
    requires i <= j <= |txs| == |replies|
    requires forall k :: i <= k < j ==> !Decides(txs[k], replies[k], id)
    ensures AssetAfter(txs, replies, id, j) == AssetAfter(txs, replies, id, i)
    decreases j
  {
    if i < j {
      LeftUndecided(txs, replies, id, i, j - 1);
    }
  }
}
