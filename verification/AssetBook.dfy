/**
 The contract seen from outside: a plain book of assets, one per ID, with neither bytes nor encodings.
 The ledger refines it: over every run from the empty world state the stored bytes are exactly the
 encoded book, and every reply agrees.
 */
module AssetBook {
  import opened Wrappers
  import opened AssetJson
  import opened KeyOrder
  import opened Ledger

  type Book = map<string, Asset>

  function Lookup(b: Book, ids: seq<string>): (assets: seq<Asset>)
    requires forall id :: id in ids ==> id in b
    ensures |assets| == |ids| && forall i :: 0 <= i < |ids| ==> assets[i] == b[ids[i]]
  {
    if ids == [] then [] else [b[ids[0]]] + Lookup(b, ids[1..])
  }

  // The assets in key order.
  function Listed(b: Book): seq<Asset> { Lookup(b, SortedKeys(b.Keys)) }

  function BookStep(b: Book, tx: Tx): Outcome<Book> {
    var Tx(call, faults) := tx;
    if call.GetAll? then
      Outcome(b, if faults.scan.Some? then Failed(StubFailed(faults.scan.value))
                 else if faults.next.Some? && faults.next.value.at < |b| then Failed(StubFailed(faults.next.value.cause))
                 else All(Listed(b)))
    else if faults.read.Some? then Outcome(b, Failed(ReadFailed(faults.read.value)))
    else if call.Exists? then Outcome(b, Present(call.id in b))
    else if call.Create? && call.id in b then Outcome(b, Failed(AlreadyExists(call.id)))
    else if !call.Create? && call.id !in b then Outcome(b, Failed(DoesNotExist(call.id)))
    else if call.Read? then Outcome(b, Found(b[call.id]))
    else if faults.write.Some? then Outcome(b, Failed(StubFailed(faults.write.value)))
    else if call.Delete? then Outcome(b - {call.id}, Done)
    else if call.Transfer? then
      Outcome(b[call.id := b[call.id].(owner := call.newOwner)], OldOwner(b[call.id].owner))
    else Outcome(b[call.id := Asset(call.appraisedValue, call.color, call.id, call.owner, call.size)], Done)
  }

  function BookRun(b: Book, txs: seq<Tx>): (t: Trace<Book>)
    ensures |t.replies| == |txs|
    decreases |txs|
  {
    if txs == [] then Trace(b, [])
    else
      var first := BookStep(b, txs[0]);
      var rest := BookRun(first.state, txs[1..]);
      Trace(rest.state, [first.reply] + rest.replies)
  }

  // ---- The book as it is stored, and read back ----

  function Stored(c: Codec, b: Book): World { map id | id in b :: c.encode(b[id]) }

  ghost predicate Decodable(c: Codec, w: World) { forall id :: id in w ==> c.decode(w[id]).Some? }

  function Decoded(c: Codec, w: World): Book
    requires Decodable(c, w)
  {
    map id | id in w :: c.decode(w[id]).value
  }

  lemma {:induction false} DecodedStored(c: Codec, b: Book)
    requires Faithful(c)
    ensures Decodable(c, Stored(c, b)) && Decoded(c, Stored(c, b)) == b
  {
  }

  lemma {:induction false} StoredInjective(c: Codec, a: Book, b: Book)
    requires Faithful(c)
    ensures Stored(c, a) == Stored(c, b) <==> a == b
  {
    DecodedStored(c, a);
    DecodedStored(c, b);
  }

  // ---- Refinement ----

  lemma {:induction false} ScanStored(c: Codec, b: Book, ids: seq<string>, i: nat, next: Option<NextFault>)
    requires Faithful(c)
    requires i <= |ids| && forall id :: id in ids ==> id in b
    ensures Scan(c, Stored(c, b), ids, i, next) ==
            if next.Some? && i <= next.value.at < |ids| then Failure(StubFailed(next.value.cause))
            else Success(Lookup(b, ids[i..]))
    decreases |ids| - i
  {
    if i < |ids| {
      assert ids[i..][1..] == ids[i + 1..];
      ScanStored(c, b, ids, i + 1, next);
    }
  }

  lemma {:induction false} ReadStored(c: Codec, b: Book, id: string, faults: Faults)
    requires Faithful(c)
    requires id in b && faults.read.None?
    ensures ReadAsset(c, Stored(c, b), id, faults) == Success(b[id])
  {
  }

  lemma {:induction false} PutStored(c: Codec, b: Book, id: string, asset: Asset, faults: Faults, reply: Reply)
    ensures Put(c, Stored(c, b), id, asset, faults, reply) ==
            if faults.write.Some? then Outcome(Stored(c, b), Failed(StubFailed(faults.write.value)))
            else Outcome(Stored(c, b[id := asset]), reply)
  {
    assert Stored(c, b)[id := c.encode(asset)] == Stored(c, b[id := asset]);
  }

  lemma {:induction false} RemoveStored(c: Codec, b: Book, id: string)
    ensures Stored(c, b) - {id} == Stored(c, b - {id})
  {
    var w, smaller := Stored(c, b) - {id}, Stored(c, b - {id});
    assert w.Keys == b.Keys - {id} == smaller.Keys;
  }

  ghost predicate StepAgrees(c: Codec, b: Book, tx: Tx) {
    var o := BookStep(b, tx);
    Step(c, Stored(c, b), tx) == Outcome(Stored(c, o.state), o.reply)
  }

  lemma {:induction false} ScanWhole(c: Codec, b: Book, next: Option<NextFault>)
    requires Faithful(c)
    ensures Scan(c, Stored(c, b), SortedKeys(Stored(c, b).Keys), 0, next) ==
            if next.Some? && next.value.at < |b| then Failure(StubFailed(next.value.cause)) else Success(Listed(b))
  {
    var ids := SortedKeys(b.Keys);
    assert Stored(c, b).Keys == b.Keys;
    ScanStored(c, b, ids, 0, next);
    assert ids[0..] == ids;
  }

  lemma {:induction false} GetAllAgrees(c: Codec, b: Book, tx: Tx)
    requires Faithful(c)
    requires tx.call.GetAll?
    ensures StepAgrees(c, b, tx)
  {
    ScanWhole(c, b, tx.faults.next);
  }

  lemma {:induction false} CreateAgrees(c: Codec, b: Book, tx: Tx)
    requires tx.call.Create?
    ensures StepAgrees(c, b, tx)
  {
    var Create(id, color, size, owner, value) := tx.call;
    PutStored(c, b, id, Asset(value, color, id, owner, size), tx.faults, Done);
  }

  lemma {:induction false} UpdateAgrees(c: Codec, b: Book, tx: Tx)
    requires tx.call.Update?
    ensures StepAgrees(c, b, tx)
  {
    var Update(id, color, size, owner, value) := tx.call;
    PutStored(c, b, id, Asset(value, color, id, owner, size), tx.faults, Done);
  }

  lemma {:induction false} DeleteAgrees(c: Codec, b: Book, tx: Tx)
    requires tx.call.Delete?
    ensures StepAgrees(c, b, tx)
  {
    RemoveStored(c, b, tx.call.id);
  }

  lemma {:induction false} TransferAgrees(c: Codec, b: Book, tx: Tx)
    requires Faithful(c)
    requires tx.call.Transfer?
    ensures StepAgrees(c, b, tx)
  {
    var Transfer(id, newOwner) := tx.call;
    if id in b && tx.faults.read.None? {
      ReadStored(c, b, id, tx.faults);
      PutStored(c, b, id, b[id].(owner := newOwner), tx.faults, OldOwner(b[id].owner));
    }
  }

  lemma {:induction false} ReadAgrees(c: Codec, b: Book, tx: Tx)
    requires Faithful(c)
    requires tx.call.Read? || tx.call.Exists?
    ensures StepAgrees(c, b, tx)
  {
    if tx.call.id in b && tx.faults.read.None? { ReadStored(c, b, tx.call.id, tx.faults); }
  }

  // One transaction: the same reply, and the encoded book of the result.
  lemma {:induction false} StepRefines(c: Codec, b: Book, tx: Tx)
    requires Faithful(c)
    ensures StepAgrees(c, b, tx)
  {
    match tx.call
    case GetAll => GetAllAgrees(c, b, tx);
    case Create(_, _, _, _, _) => CreateAgrees(c, b, tx);
    case Update(_, _, _, _, _) => UpdateAgrees(c, b, tx);
    case Delete(_) => DeleteAgrees(c, b, tx);
    case Transfer(_, _) => TransferAgrees(c, b, tx);
    case _ => ReadAgrees(c, b, tx);
  }

  lemma {:induction false} RunRefines(c: Codec, b: Book, txs: seq<Tx>)
    requires Faithful(c)
    ensures Run(c, Stored(c, b), txs) == var t := BookRun(b, txs); Trace(Stored(c, t.state), t.replies)
    decreases |txs|
  {
    if txs != [] {
      StepRefines(c, b, txs[0]);
      RunRefines(c, BookStep(b, txs[0]).state, txs[1..]);
    }
  }

  // Over every run from the empty world state, whichever stub calls fail: whatever is stored decodes,
  // the decoded store is the book, and every reply is the book's reply.
  lemma {:induction false} LedgerRefinesBook(c: Codec, txs: seq<Tx>)
    requires Faithful(c)
    ensures var t, book := Run(c, EMPTY, txs), BookRun(map[], txs);
            && t.replies == book.replies
            && Decodable(c, t.state)
            && Decoded(c, t.state) == book.state
            && t.state == Stored(c, book.state)
  {
    assert Stored(c, map[]) == EMPTY;
    RunRefines(c, map[], txs);
    DecodedStored(c, BookRun(map[], txs).state);
  }

  // The contract as it is, with its JSON: the store decodes to the book over every run.
  lemma {:induction false} JsonLedgerRefinesBook(txs: seq<Tx>)
    ensures var t, book := Run(JSON, EMPTY, txs), BookRun(map[], txs);
            && t.replies == book.replies
            && t.state.Keys == book.state.Keys
            && forall id :: id in book.state ==>
                 t.state[id] == MarshalJson(book.state[id]) && UnmarshalJson(t.state[id]) == Some(book.state[id])
  {
    JsonIsFaithful();
    LedgerRefinesBook(JSON, txs);
    var book := BookRun(map[], txs).state;
    forall id | id in book
      ensures Stored(JSON, book)[id] == MarshalJson(book[id]) && UnmarshalJson(MarshalJson(book[id])) == Some(book[id])
    {
      assert JSON.decode(JSON.encode(book[id])) == Some(book[id]);
    }
  }
}
