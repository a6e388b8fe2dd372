/** What every step keeps and every run satisfies. */
module LedgerRuns {
  import opened Wrappers
  import opened AssetJson
  import opened KeyOrder
  import opened Ledger
  import opened AssetBook
  import opened Locality

  // ---- Runs, cut and joined ----

  lemma {:induction false} RunConcat(c: Codec, w: World, a: seq<Tx>, b: seq<Tx>)
    ensures var first := Run(c, w, a); var second := Run(c, first.state, b);
            Run(c, w, a + b) == Trace(second.state, first.replies + second.replies)
    decreases |a|
  {
    if a == [] {
      assert a + b == b;
      assert [] + Run(c, w, b).replies == Run(c, w, b).replies;
    } else {
      var next := Step(c, w, a[0]);
      assert (a + b)[1..] == a[1..] + b;
      RunConcat(c, next.state, a[1..], b);
      var front, back := Run(c, next.state, a[1..]).replies, Run(c, Run(c, w, a).state, b).replies;
      assert [next.reply] + (front + back) == [next.reply] + front + back;
    }
  }

  // Transaction i steps from the state the first i transactions leave, and its reply is reply i.
  lemma {:induction false} RunAt(c: Codec, w: World, txs: seq<Tx>, i: nat)
    requires i < |txs|
    ensures Run(c, w, txs[..i]).replies == Run(c, w, txs).replies[..i]
    ensures var o := Step(c, Run(c, w, txs[..i]).state, txs[i]);
            Run(c, w, txs).replies[i] == o.reply && Run(c, w, txs[..i + 1]).state == o.state
  {
    assert txs == txs[..i] + txs[i..];
    RunConcat(c, w, txs[..i], txs[i..]);
    assert txs[..i + 1] == txs[..i] + [txs[i]];
    RunConcat(c, w, txs[..i], [txs[i]]);
  }

  // A stretch of a run is a run of its own, from the state where it begins.
  lemma {:induction false} RunStretch(c: Codec, w: World, txs: seq<Tx>, i: nat, j: nat)
    requires i <= j < |txs|
    ensures var part := Run(c, Run(c, w, txs[..i]).state, txs[i..j]);
            && part.state == Run(c, w, txs[..j]).state
            && forall m :: 0 <= m < j - i ==> part.replies[m] == Run(c, w, txs).replies[i + m]
  {
    assert txs[..j] == txs[..i] + txs[i..j];
    RunConcat(c, w, txs[..i], txs[i..j]);
    RunAt(c, w, txs, j);
    var part := Run(c, Run(c, w, txs[..i]).state, txs[i..j]);
    forall m | 0 <= m < j - i ensures part.replies[m] == Run(c, w, txs).replies[i + m] {
      assert Run(c, w, txs[..j]).replies[i + m] == Run(c, w, txs).replies[..j][i + m];
    }
  }

  // ---- Atomicity ----

  predicate IsQuery(call: Call) { call.Read? || call.Exists? || call.GetAll? }

  // A transaction that fails, or only asks, leaves the world state as it found it.
  lemma {:induction false} FailureChangesNothing(c: Codec, w: World, tx: Tx)
    ensures Step(c, w, tx).reply.Failed? || IsQuery(tx.call) ==> Step(c, w, tx).state == w
  {
  }

  predicate Counts(tx: Tx, reply: Reply) { !reply.Failed? && !IsQuery(tx.call) }

  // The transactions that did something: neither failed nor mere queries.
  function Effects(txs: seq<Tx>, replies: seq<Reply>): seq<Tx>
    requires |txs| == |replies|
  {
    if txs == [] then []
    else (if Counts(txs[0], replies[0]) then [txs[0]] else []) + Effects(txs[1..], replies[1..])
  }

  function EffectReplies(txs: seq<Tx>, replies: seq<Reply>): seq<Reply>
    requires |txs| == |replies|
  {
    if txs == [] then []
    else (if Counts(txs[0], replies[0]) then [replies[0]] else []) + EffectReplies(txs[1..], replies[1..])
  }

  // Failed transactions and queries can be struck from any log: the rest ends in the same world state
  // and receives the same replies.
  lemma {:induction false} FailuresCanBeStruck(c: Codec, w: World, txs: seq<Tx>)
    ensures var t := Run(c, w, txs);
            Run(c, w, Effects(txs, t.replies)) == Trace(t.state, EffectReplies(txs, t.replies))
    decreases |txs|
  {
    if txs != [] {
      var t, o := Run(c, w, txs), Step(c, w, txs[0]);
      var rest := Run(c, o.state, txs[1..]);
      assert t.replies[1..] == rest.replies;
      FailureChangesNothing(c, w, txs[0]);
      FailuresCanBeStruck(c, o.state, txs[1..]);
      if Counts(txs[0], o.reply) {
        assert Effects(txs, t.replies)[1..] == Effects(txs[1..], rest.replies);
      } else {
        assert Effects(txs, t.replies) == Effects(txs[1..], rest.replies);
        assert EffectReplies(txs, t.replies) == EffectReplies(txs[1..], rest.replies);
      }
    }
  }

  // ---- Key and ID ----

  ghost predicate KeyedById(b: Book) { forall id :: id in b ==> b[id].id == id }

  lemma {:induction false} StepKeyed(b: Book, tx: Tx)
    requires KeyedById(b)
    ensures KeyedById(BookStep(b, tx).state)
  {
  }

  lemma {:induction false} RunKeyed(b: Book, txs: seq<Tx>)
    requires KeyedById(b)
    ensures KeyedById(BookRun(b, txs).state)
    decreases |txs|
  {
    if txs != [] {
      StepKeyed(b, txs[0]);
      RunKeyed(BookStep(b, txs[0]).state, txs[1..]);
    }
  }

  // In every reachable state whatever is stored decodes to an asset whose ID is its key.
  lemma {:induction false} KeyIsId(c: Codec, txs: seq<Tx>, key: string)
    requires Faithful(c)
    requires key in Run(c, EMPTY, txs).state
    ensures var asset := c.decode(Run(c, EMPTY, txs).state[key]); asset.Some? && asset.value.id == key
  {
    LedgerRefinesBook(c, txs);
    RunKeyed(map[], txs);
    assert Decoded(c, Run(c, EMPTY, txs).state)[key].id == key;
  }

  // ---- Counting ----

  predicate Created(tx: Tx, reply: Reply) { tx.call.Create? && reply == Done }

  predicate Deleted(tx: Tx, reply: Reply) { tx.call.Delete? && reply == Done }

  // What one transaction adds to the number of live keys, as its reply tells; of one ID, or of all.
  function Change(tx: Tx, reply: Reply, id: Option<string>): int {
    if tx.call.GetAll? || (id.Some? && tx.call.id != id.value) then 0
    else if Created(tx, reply) then 1
    else if Deleted(tx, reply) then -1
    else 0
  }

  // Successful creates minus successful deletes.
  function NetCreated(txs: seq<Tx>, replies: seq<Reply>, id: Option<string>): int
    requires |txs| == |replies|
  {
    if txs == [] then 0 else Change(txs[0], replies[0], id) + NetCreated(txs[1..], replies[1..], id)
  }

  function Live(w: World, id: Option<string>): nat {
    if id.None? then |w| else if id.value in w then 1 else 0
  }

  lemma {:induction false} CellStepLive(c: Codec, cell: Cell, tx: Tx)
    requires !tx.call.GetAll?
    ensures var (cell', reply) := CellStep(c, cell, tx);
            && (Created(tx, reply) <==> cell.None? && cell'.Some?)
            && (Deleted(tx, reply) <==> cell.Some? && cell'.None?)
  {
  }

  lemma {:induction false} SizesDifferByOne(a: set<string>, b: set<string>, id: string)
    requires a - {id} == b - {id}
    ensures |b| == |a| + (if id in b then 1 else 0) - (if id in a then 1 else 0)
  {
    assert |a - {id}| == |a| - (if id in a then 1 else 0);
    assert |b - {id}| == |b| - (if id in b then 1 else 0);
  }

  lemma {:induction false} LiveKeysLocal(v: World, w: World, id: string)
    requires forall k :: k != id ==> CellOf(v, k) == CellOf(w, k)
    ensures |w| == |v| + (if id in w then 1 else 0) - (if id in v then 1 else 0)
  {
    forall k | k != id ensures k in v.Keys <==> k in w.Keys { assert CellOf(v, k) == CellOf(w, k); }
    SizesDifferByOne(v.Keys, w.Keys, id);
  }

  lemma {:induction false} StepLive(c: Codec, w: World, tx: Tx, id: Option<string>)
    ensures var o := Step(c, w, tx);
            Live(o.state, id) == Live(w, id) + Change(tx, o.reply, id)
  {
    if !tx.call.GetAll? {
      var w', key := Step(c, w, tx).state, tx.call.id;
      StepIsLocal(c, w, tx);
      CellStepLive(c, CellOf(w, key), tx);
      LiveKeysLocal(w, w', key);
      if id.Some? && id.value != key {
        assert CellOf(w', id.value) == CellOf(w, id.value);
      }
    }
  }

  // From any world state: the number of live keys grows by the successful creates and shrinks by the
  // successful deletes, and the same holds of each ID alone.
  lemma {:induction false} LiveKeysCount(c: Codec, w: World, txs: seq<Tx>, id: Option<string>)
    ensures var t := Run(c, w, txs);
            Live(t.state, id) == Live(w, id) + NetCreated(txs, t.replies, id)
    decreases |txs|
  {
    if txs != [] {
      var o := Step(c, w, txs[0]);
      StepLive(c, w, txs[0], id);
      LiveKeysCount(c, o.state, txs[1..], id);
      assert Run(c, w, txs).replies[1..] == Run(c, o.state, txs[1..]).replies;
    }
  }

  // The creates and deletes of one ID alternate: at no point of a run from the empty state has it been
  // created other than as often as deleted, when it is absent, or once more, when it is live.
  lemma {:induction false} CreatesAndDeletesAlternate(c: Codec, txs: seq<Tx>, n: nat, id: string)
    requires n <= |txs|
    ensures NetCreated(txs[..n], Run(c, EMPTY, txs).replies[..n], Some(id)) ==
            if id in Run(c, EMPTY, txs[..n]).state then 1 else 0
  {
    if n < |txs| {
      RunAt(c, EMPTY, txs, n);
    } else {
      assert txs[..n] == txs && Run(c, EMPTY, txs).replies[..n] == Run(c, EMPTY, txs).replies;
    }
    LiveKeysCount(c, EMPTY, txs[..n], Some(id));
  }

  lemma {:induction false} FallMeansDelete(txs: seq<Tx>, replies: seq<Reply>, id: string) returns (k: nat)
    requires |txs| == |replies| && NetCreated(txs, replies, Some(id)) < 0
    ensures k < |txs| && Deleted(txs[k], replies[k]) && txs[k].call.id == id
  {
    if Change(txs[0], replies[0], Some(id)) < 0 {
      k := 0;
    } else {
      k := FallMeansDelete(txs[1..], replies[1..], id);
      k := k + 1;
    }
  }

  // Between two successful creates of an ID, in a run from any world state, it was successfully deleted.
  lemma {:induction false} DeletedBetweenCreates(c: Codec, w: World, txs: seq<Tx>, i: nat, j: nat) returns (k: nat)
    requires i < j < |txs|
    requires Created(txs[i], Run(c, w, txs).replies[i]) && Created(txs[j], Run(c, w, txs).replies[j])
    requires txs[i].call.id == txs[j].call.id
    ensures i < k < j && Deleted(txs[k], Run(c, w, txs).replies[k]) && txs[k].call.id == txs[i].call.id
  {
    CreateTurnsLive(c, w, txs, i);
    CreateTurnsLive(c, w, txs, j);
    k := DeletedMeanwhile(c, w, txs, i + 1, j, txs[i].call.id);
  }

  // An ID that was live and is not any more was deleted meanwhile.
  lemma {:induction false} DeletedMeanwhile(c: Codec, w: World, txs: seq<Tx>, i: nat, j: nat, id: string) returns (k: nat)
    requires i <= j < |txs|
    requires id in Run(c, w, txs[..i]).state && id !in Run(c, w, txs[..j]).state
    ensures i <= k < j && Deleted(txs[k], Run(c, w, txs).replies[k]) && txs[k].call.id == id
  {
    var before, between := Run(c, w, txs[..i]).state, txs[i..j];
    RunStretch(c, w, txs, i, j);
    LiveKeysCount(c, before, between, Some(id));
    var m := FallMeansDelete(between, Run(c, before, between).replies, id);
    k := i + m;
  }

  lemma {:induction false} CreateTurnsLive(c: Codec, w: World, txs: seq<Tx>, i: nat)
    requires i < |txs| && Created(txs[i], Run(c, w, txs).replies[i])
    ensures txs[i].call.id !in Run(c, w, txs[..i]).state && txs[i].call.id in Run(c, w, txs[..i + 1]).state
  {
    RunAt(c, w, txs, i);
    StepIsLocal(c, Run(c, w, txs[..i]).state, txs[i]);
  }

  // ---- Range scan ----

  // One asset per live key, in key order, each the one a read of that key returns.
  ghost predicate IsListing(c: Codec, w: World, assets: seq<Asset>) {
    var keys := SortedKeys(w.Keys);
    && |assets| == |keys| == |w|
    && forall i :: 0 <= i < |keys| ==>
         ReadAsset(c, w, keys[i], NO_FAULTS) == Success(assets[i]) && assets[i].id == keys[i]
  }

  lemma {:induction false} ListedIsListing(c: Codec, b: Book)
    requires Faithful(c) && KeyedById(b)
    ensures IsListing(c, Stored(c, b), Listed(b))
  {
    var keys := SortedKeys(b.Keys);
    assert Stored(c, b).Keys == b.Keys;
    forall i | 0 <= i < |keys|
      ensures ReadAsset(c, Stored(c, b), keys[i], NO_FAULTS) == Success(Listed(b)[i]) && Listed(b)[i].id == keys[i]
    {
      assert keys[i] in b;
      ReadStored(c, b, keys[i], NO_FAULTS);
    }
  }

  lemma {:induction false} ScanOfStored(c: Codec, b: Book, faults: Faults)
    requires Faithful(c)
    ensures GetAllAssets(c, Stored(c, b), faults) ==
            if faults.scan.Some? then Failure(StubFailed(faults.scan.value))
            else if faults.next.Some? && faults.next.value.at < |b| then Failure(StubFailed(faults.next.value.cause))
            else Success(Listed(b))
  {
    ScanWhole(c, b, faults.next);
  }

  // In every reachable state the scan never meets bytes it cannot decode: it fails exactly where the
  // stub fails, with the stub's error, and otherwise lists the live assets.
  lemma {:induction false} RangeScanCorrect(c: Codec, txs: seq<Tx>, faults: Faults)
    requires Faithful(c)
    ensures var w := Run(c, EMPTY, txs).state;
            var broken := faults.next.Some? && faults.next.value.at < |w|;
            match GetAllAssets(c, w, faults)
            case Failure(e) =>
              if faults.scan.Some? then e == StubFailed(faults.scan.value)
              else broken && e == StubFailed(faults.next.value.cause)
            case Success(assets) => faults.scan.None? && !broken && IsListing(c, w, assets)
  {
    var b := BookRun(map[], txs).state;
    LedgerRefinesBook(c, txs);
    RunKeyed(map[], txs);
    ListedIsListing(c, b);
    ScanOfStored(c, b, faults);
    assert |Stored(c, b).Keys| == |b.Keys|;
  }
}
