/** The owners an asset has had can be told from the transactions and their replies alone. */
module Ownership {
  import opened Wrappers
  import opened AssetJson
  import opened Ledger
  import opened AssetBook
  import opened LedgerRuns

  predicate Succeeded(reply: Reply) { !reply.Failed? }

  // The transaction decided who owns the asset of this ID, or that nobody does any more.
  predicate Decides(tx: Tx, reply: Reply, id: string) {
    !IsQuery(tx.call) && tx.call.id == id && Succeeded(reply)
  }

  function DecidedOwner(call: Call): Option<string>
    requires !IsQuery(call)
  {
    match call
    case Create(_, _, _, owner, _) => Some(owner)
    case Update(_, _, _, owner, _) => Some(owner)
    case Transfer(_, newOwner) => Some(newOwner)
    case Delete(_) => None
  }

  // The owner after the first n transactions, by the log.
  function OwnerAfter(txs: seq<Tx>, replies: seq<Reply>, id: string, n: nat): Option<string>
    requires n <= |txs| == |replies|
  {
    if n == 0 then None
    else if Decides(txs[n - 1], replies[n - 1], id) then DecidedOwner(txs[n - 1].call)
    else OwnerAfter(txs, replies, id, n - 1)
  }

  function OwnerIn(c: Codec, w: World, id: string): Option<string> {
    if id !in w then None
    else
      var asset :- c.decode(w[id]);
      Some(asset.owner)
  }

  lemma {:induction false} StepOwner(c: Codec, b: Book, tx: Tx, id: string)
    requires Faithful(c)
    ensures var w := Stored(c, b);
            var o := Step(c, w, tx);
            && OwnerIn(c, o.state, id) == (if Decides(tx, o.reply, id) then DecidedOwner(tx.call) else OwnerIn(c, w, id))
            && (tx.call.Transfer? && Succeeded(o.reply) ==> o.reply.OldOwner? && OwnerIn(c, w, tx.call.id) == Some(o.reply.owner))
  {
    StepRefines(c, b, tx);
  }

  lemma {:induction false} StepOwnerAt(c: Codec, txs: seq<Tx>, i: nat, id: string)
    requires Faithful(c) && i < |txs|
    ensures var w, reply := Run(c, EMPTY, txs[..i]).state, Run(c, EMPTY, txs).replies[i];
            && OwnerIn(c, Run(c, EMPTY, txs[..i + 1]).state, id) ==
                 (if Decides(txs[i], reply, id) then DecidedOwner(txs[i].call) else OwnerIn(c, w, id))
            && (txs[i].call.Transfer? && Succeeded(reply) ==> reply.OldOwner? && OwnerIn(c, w, txs[i].call.id) == Some(reply.owner))
  {
    RunAt(c, EMPTY, txs, i);
    LedgerRefinesBook(c, txs[..i]);
    StepOwner(c, BookRun(map[], txs[..i]).state, txs[i], id);
  }

  lemma {:induction false} LogTellsOwner(c: Codec, txs: seq<Tx>, id: string, n: nat)
    requires Faithful(c) && n <= |txs|
    ensures OwnerAfter(txs, Run(c, EMPTY, txs).replies, id, n) == OwnerIn(c, Run(c, EMPTY, txs[..n]).state, id)
  {
    if n > 0 {
      LogTellsOwner(c, txs, id, n - 1);
      StepOwnerAt(c, txs, n - 1, id);
    }
  }

  // In every run, each successful transfer returns the owner that the latest successful create,
  // update or transfer before it has set, with no delete since; and the log ends with the owner that
  // is stored.
  lemma {:induction false} OwnershipChain(c: Codec, txs: seq<Tx>, i: nat)
    requires Faithful(c) && i < |txs|
    requires txs[i].call.Transfer? && Succeeded(Run(c, EMPTY, txs).replies[i])
    ensures var replies := Run(c, EMPTY, txs).replies;
            && replies[i].OldOwner?
            && OwnerAfter(txs, replies, txs[i].call.id, i) == Some(replies[i].owner)
  {
    LogTellsOwner(c, txs, txs[i].call.id, i);
    StepOwnerAt(c, txs, i, txs[i].call.id);
  }

  lemma {:induction false} NothingDecidedBetween(txs: seq<Tx>, replies: seq<Reply>, id: string, i: nat, j: nat)
    requires i < j <= |txs| == |replies|
    requires Decides(txs[i], replies[i], id)
    requires forall k :: i < k < j ==> !Decides(txs[k], replies[k], id)
    ensures OwnerAfter(txs, replies, id, j) == DecidedOwner(txs[i].call)
    decreases j
  {
    if j > i + 1 {
      NothingDecidedBetween(txs, replies, id, i, j - 1);
    }
  }

  // Two consecutive links: a transfer hands back exactly what the previous deciding transaction on
  // that ID set, be it a create, an update or a transfer; and that one was not a delete.
  lemma {:induction false} ConsecutiveOwners(c: Codec, txs: seq<Tx>, i: nat, j: nat)
    requires Faithful(c) && i < j < |txs|
    requires txs[j].call.Transfer? && Succeeded(Run(c, EMPTY, txs).replies[j])
    requires Decides(txs[i], Run(c, EMPTY, txs).replies[i], txs[j].call.id)
    requires forall k :: i < k < j ==> !Decides(txs[k], Run(c, EMPTY, txs).replies[k], txs[j].call.id)
    ensures !txs[i].call.Delete?
    ensures Run(c, EMPTY, txs).replies[j] == OldOwner(DecidedOwner(txs[i].call).value)
  {
    OwnershipChain(c, txs, j);
    NothingDecidedBetween(txs, Run(c, EMPTY, txs).replies, txs[j].call.id, i, j);
  }

  // Handing an asset over and back restores the stored bytes, in every reachable state.
  lemma {:induction false} TransferBack(c: Codec, txs: seq<Tx>, id: string, newOwner: string)
    requires Faithful(c)
    requires id in Run(c, EMPTY, txs).state
    ensures var w := Run(c, EMPTY, txs).state;
            var there := Step(c, w, Tx(Transfer(id, newOwner), NO_FAULTS));
            && there.reply.OldOwner?
            && Step(c, there.state, Tx(Transfer(id, there.reply.owner), NO_FAULTS)) == Outcome(w, OldOwner(newOwner))
  {
    var b := BookRun(map[], txs).state;
    var out := Tx(Transfer(id, newOwner), NO_FAULTS);
    LedgerRefinesBook(c, txs);
    assert id in b;
    StepRefines(c, b, out);
    var b' := BookStep(b, out).state;
    StepRefines(c, b', Tx(Transfer(id, b[id].owner), NO_FAULTS));
    assert b'[id := b[id]] == b;
  }
}
