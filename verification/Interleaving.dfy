/** Transactions on different IDs do not interfere, however they are interleaved. */
module Interleaving {
  import opened Wrappers
  import opened AssetJson
  import opened Ledger
  import opened Locality
  import opened LedgerRuns

  predicate NoScan(txs: seq<Tx>) { forall i :: 0 <= i < |txs| ==> !txs[i].call.GetAll? }

  predicate Concerns(tx: Tx, ids: set<string>) { !tx.call.GetAll? && tx.call.id in ids }

  // The transactions concerning the given IDs, in order.
  function Project(txs: seq<Tx>, ids: set<string>): seq<Tx> {
    if txs == [] then []
    else (if Concerns(txs[0], ids) then [txs[0]] else []) + Project(txs[1..], ids)
  }

  // The replies those transactions received.
  function ProjectReplies(txs: seq<Tx>, replies: seq<Reply>, ids: set<string>): seq<Reply>
    requires |txs| == |replies|
  {
    if txs == [] then []
    else (if Concerns(txs[0], ids) then [replies[0]] else []) + ProjectReplies(txs[1..], replies[1..], ids)
  }

  ghost predicate AgreeOn(v: World, w: World, ids: set<string>) {
    forall id :: id in ids ==> CellOf(v, id) == CellOf(w, id)
  }

  lemma {:induction false} StepAgreesOn(c: Codec, v: World, w: World, tx: Tx, ids: set<string>)
    requires AgreeOn(v, w, ids) && Concerns(tx, ids)
    ensures Step(c, v, tx).reply == Step(c, w, tx).reply
    ensures AgreeOn(Step(c, v, tx).state, Step(c, w, tx).state, ids)
  {
    StepIsLocal(c, v, tx);
    StepIsLocal(c, w, tx);
    var v', w' := Step(c, v, tx).state, Step(c, w, tx).state;
    forall id | id in ids ensures CellOf(v', id) == CellOf(w', id) {
      if id != tx.call.id {
        assert CellOf(v', id) == CellOf(v, id) && CellOf(w', id) == CellOf(w, id);
      }
    }
  }

  lemma {:induction false} StepElsewhere(c: Codec, w: World, tx: Tx, ids: set<string>)
    requires !tx.call.GetAll? && !Concerns(tx, ids)
    ensures AgreeOn(Step(c, w, tx).state, w, ids)
  {
    StepIsLocal(c, w, tx);
  }

  lemma {:induction false} ProjectionFrom(c: Codec, v: World, w: World, txs: seq<Tx>, ids: set<string>)
    requires NoScan(txs) && AgreeOn(v, w, ids)
    ensures var whole, part := Run(c, v, txs), Run(c, w, Project(txs, ids));
            && ProjectReplies(txs, whole.replies, ids) == part.replies
            && AgreeOn(whole.state, part.state, ids)
    decreases |txs|
  {
    if txs != [] {
      var tx, rest := txs[0], txs[1..];
      var next := Step(c, v, tx);
      assert Run(c, v, txs).replies[1..] == Run(c, next.state, rest).replies;
      if Concerns(tx, ids) {
        StepAgreesOn(c, v, w, tx, ids);
        var next' := Step(c, w, tx).state;
        assert Project(txs, ids)[1..] == Project(rest, ids);
        ProjectionFrom(c, next.state, next', rest, ids);
      } else {
        StepElsewhere(c, v, tx, ids);
        assert Project(txs, ids) == Project(rest, ids);
        ProjectionFrom(c, next.state, w, rest, ids);
      }
    }
  }

  // From any world state, what a run does to a set of IDs, and answers about them, is what the
  // transactions concerning those IDs alone would do and answer.
  lemma {:induction false} Projection(c: Codec, w: World, txs: seq<Tx>, ids: set<string>)
    requires NoScan(txs)
    ensures var whole, part := Run(c, w, txs), Run(c, w, Project(txs, ids));
            && ProjectReplies(txs, whole.replies, ids) == part.replies
            && AgreeOn(whole.state, part.state, ids)
  {
    ProjectionFrom(c, w, w, txs, ids);
  }

  // Two runs that put the same transactions in the same order to each single ID end alike and answer
  // alike about each ID, whatever the order between different IDs.
  lemma {:induction false} SameHistoriesSameState(c: Codec, w: World, a: seq<Tx>, b: seq<Tx>)
    requires NoScan(a) && NoScan(b)
    requires forall id :: Project(a, {id}) == Project(b, {id})
    ensures Run(c, w, a).state == Run(c, w, b).state
    ensures forall id :: ProjectReplies(a, Run(c, w, a).replies, {id}) == ProjectReplies(b, Run(c, w, b).replies, {id})
  {
    var x, y := Run(c, w, a).state, Run(c, w, b).state;
    forall id
      ensures CellOf(x, id) == CellOf(y, id)
      ensures ProjectReplies(a, Run(c, w, a).replies, {id}) == ProjectReplies(b, Run(c, w, b).replies, {id})
    {
      Projection(c, w, a, {id});
      Projection(c, w, b, {id});
    }
    SameCellsSameWorld(x, y);
  }

  // ---- Interleavings of two sequences ----

  // The interleaving a schedule picks: true takes from a, false from b; when one runs out, or the
  // schedule does, the rest follows.
  function Merge<T>(a: seq<T>, b: seq<T>, schedule: seq<bool>): (m: seq<T>)
    ensures |m| == |a| + |b|
    decreases |a| + |b|
  {
    if a == [] then b
    else if b == [] || schedule == [] then a + b
    else if schedule[0] then [a[0]] + Merge(a[1..], b, schedule[1..])
    else [b[0]] + Merge(a, b[1..], schedule[1..])
  }

  ghost predicate Disjoint(a: seq<Tx>, b: seq<Tx>) {
    && NoScan(a) && NoScan(b)
    && forall i, j :: 0 <= i < |a| && 0 <= j < |b| ==> a[i].call.id != b[j].call.id
  }

  lemma {:induction false} RunIgnoresOthers(c: Codec, w: World, tx: Tx, txs: seq<Tx>)
    requires Disjoint([tx], txs)
    ensures Run(c, Step(c, w, tx).state, txs).replies == Run(c, w, txs).replies
    ensures Run(c, Step(c, w, tx).state, txs).state == Step(c, Run(c, w, txs).state, tx).state
    ensures Step(c, Run(c, w, txs).state, tx).reply == Step(c, w, tx).reply
    decreases |txs|
  {
    if txs != [] {
      StepsCommute(c, w, tx, txs[0]);
      assert Disjoint([tx], txs[1..]);
      RunIgnoresOthers(c, Step(c, w, txs[0]).state, tx, txs[1..]);
    }
  }

  lemma {:induction false} StepsCommute(c: Codec, w: World, s: Tx, t: Tx)
    requires Disjoint([s], [t])
    ensures var afterS, afterT := Step(c, w, s), Step(c, w, t);
            && Step(c, afterS.state, t).reply == afterT.reply
            && Step(c, afterT.state, s).reply == afterS.reply
            && Step(c, afterS.state, t).state == Step(c, afterT.state, s).state
  {
    assert [s][0].call.id != [t][0].call.id;
    var afterS, afterT := Step(c, w, s).state, Step(c, w, t).state;
    StepIsLocal(c, w, s);
    StepIsLocal(c, w, t);
    StepIsLocal(c, afterS, t);
    StepIsLocal(c, afterT, s);
    var st, ts := Step(c, afterS, t).state, Step(c, afterT, s).state;
    forall k ensures CellOf(st, k) == CellOf(ts, k) {
      if k == s.call.id {
        assert CellOf(st, k) == CellOf(afterS, k) && CellOf(afterT, k) == CellOf(w, k);
      } else if k == t.call.id {
        assert CellOf(ts, k) == CellOf(afterT, k) && CellOf(afterS, k) == CellOf(w, k);
      } else {
        assert CellOf(st, k) == CellOf(afterS, k) == CellOf(w, k);
        assert CellOf(ts, k) == CellOf(afterT, k) == CellOf(w, k);
      }
    }
    SameCellsSameWorld(st, ts);
  }

  // Running b after a disjoint a: the replies are those b receives on its own.
  lemma {:induction false} RunAfterOther(c: Codec, w: World, a: seq<Tx>, b: seq<Tx>)
    requires Disjoint(a, b)
    ensures Run(c, Run(c, w, a).state, b).replies == Run(c, w, b).replies
    decreases |a|
  {
    if a != [] {
      assert Disjoint([a[0]], b) && Disjoint(a[1..], b);
      RunAfterOther(c, Step(c, w, a[0]).state, a[1..], b);
      RunIgnoresOthers(c, w, a[0], b);
    }
  }

  lemma {:induction false} MergedReplies(c: Codec, w: World, a: seq<Tx>, b: seq<Tx>, schedule: seq<bool>)
    requires Disjoint(a, b)
    ensures Run(c, w, Merge(a, b, schedule)).replies == Merge(Run(c, w, a).replies, Run(c, w, b).replies, schedule)
    decreases |a| + |b|
  {
    if a == [] {
    } else if b == [] || schedule == [] {
      RunConcat(c, w, a, b);
      RunAfterOther(c, w, a, b);
    } else if schedule[0] {
      assert Disjoint(a[1..], b) && Disjoint([a[0]], b);
      MergedReplies(c, Step(c, w, a[0]).state, a[1..], b, schedule[1..]);
      RunIgnoresOthers(c, w, a[0], b);
    } else {
      assert Disjoint(a, b[1..]) && Disjoint([b[0]], a);
      MergedReplies(c, Step(c, w, b[0]).state, a, b[1..], schedule[1..]);
      RunIgnoresOthers(c, w, b[0], a);
    }
  }

  lemma {:induction false} MergedState(c: Codec, w: World, a: seq<Tx>, b: seq<Tx>, schedule: seq<bool>)
    requires Disjoint(a, b)
    ensures Run(c, w, Merge(a, b, schedule)).state == Run(c, Run(c, w, a).state, b).state
    decreases |a| + |b|
  {
    if a == [] {
    } else if b == [] || schedule == [] {
      RunConcat(c, w, a, b);
    } else if schedule[0] {
      assert Disjoint(a[1..], b);
      MergedState(c, Step(c, w, a[0]).state, a[1..], b, schedule[1..]);
    } else {
      assert Disjoint(a, b[1..]) && Disjoint([b[0]], a);
      MergedState(c, Step(c, w, b[0]).state, a, b[1..], schedule[1..]);
      RunIgnoresOthers(c, w, b[0], a);
    }
  }

  // Every interleaving of two sequences on disjoint IDs, from any world state: the same final state
  // as running one after the other, and to each transaction the reply it gets on its own.
  lemma {:induction false} InterleavingIndependence(c: Codec, w: World, a: seq<Tx>, b: seq<Tx>, schedule: seq<bool>)
    requires Disjoint(a, b)
    ensures var mixed := Run(c, w, Merge(a, b, schedule));
            && mixed.state == Run(c, w, a + b).state
            && mixed.replies == Merge(Run(c, w, a).replies, Run(c, w, b).replies, schedule)
  {
    MergedReplies(c, w, a, b, schedule);
    MergedState(c, w, a, b, schedule);
    RunConcat(c, w, a, b);
  }

  // ---- Every interleaving is one ----

  // The elements a mask marks, in order; or those it leaves unmarked.
  function Taken<T>(m: seq<T>, mask: seq<bool>, marked: bool): seq<T>
    requires |m| == |mask|
  {
    if m == [] then []
    else (if mask[0] == marked then [m[0]] else []) + Taken(m[1..], mask[1..], marked)
  }

  lemma {:induction false} AllTaken<T>(m: seq<T>, mask: seq<bool>, marked: bool)
    requires |m| == |mask| && Taken(m, mask, !marked) == []
    ensures Taken(m, mask, marked) == m
  {
    if m != [] {
      AllTaken(m[1..], mask[1..], marked);
      assert [m[0]] + m[1..] == m;
    }
  }

  // However a sequence is taken apart into two, some schedule merges them into it again.
  lemma {:induction false} MergeReachesAll<T>(m: seq<T>, mask: seq<bool>)
    requires |m| == |mask|
    ensures Merge(Taken(m, mask, true), Taken(m, mask, false), mask) == m
  {
    var a, b := Taken(m, mask, true), Taken(m, mask, false);
    if a == [] {
      AllTaken(m, mask, false);
    } else if b == [] {
      AllTaken(m, mask, true);
      assert a + b == a;
    } else {
      MergeReachesAll(m[1..], mask[1..]);
      assert [m[0]] + m[1..] == m;
      if mask[0] {
        assert a[1..] == Taken(m[1..], mask[1..], true) && b == Taken(m[1..], mask[1..], false);
      } else {
        assert b[1..] == Taken(m[1..], mask[1..], false) && a == Taken(m[1..], mask[1..], true);
      }
    }
  }

  // Two sequences of fitting lengths, merged by a mask, are what the mask takes apart again.
  lemma {:induction false} TakenOfMerge<S, T>(m: seq<S>, mask: seq<bool>, a: seq<T>, b: seq<T>)
    requires |m| == |mask| && |a| == |Taken(m, mask, true)| && |b| == |Taken(m, mask, false)|
    ensures |a| + |b| == |m|
    ensures Taken(Merge(a, b, mask), mask, true) == a && Taken(Merge(a, b, mask), mask, false) == b
  {
    if m == [] {
    } else if mask[0] {
      TakenOfMerge(m[1..], mask[1..], a[1..], b);
      MergeHead(a, b, mask);
      assert [a[0]] + a[1..] == a;
    } else {
      TakenOfMerge(m[1..], mask[1..], a, b[1..]);
      MergeHead(a, b, mask);
      assert [b[0]] + b[1..] == b;
    }
  }

  lemma {:induction false} MergeHead<T>(a: seq<T>, b: seq<T>, mask: seq<bool>)
    requires mask != [] && (if mask[0] then a != [] else b != []) && |mask| == |a| + |b|
    ensures Merge(a, b, mask) ==
            if mask[0] then [a[0]] + Merge(a[1..], b, mask[1..]) else [b[0]] + Merge(a, b[1..], mask[1..])
  {
    if mask[0] && b == [] {
      assert a + b == [a[0]] + (a[1..] + b);
    }
  }

  // Any sequence of transactions that falls into two parts on disjoint IDs, in whatever way they are
  // interleaved: the final state is that of one part after the other, and each part receives the
  // replies it receives on its own.
  lemma {:induction false} EveryInterleaving(c: Codec, w: World, txs: seq<Tx>, mask: seq<bool>)
    requires |txs| == |mask| && Disjoint(Taken(txs, mask, true), Taken(txs, mask, false))
    ensures var a, b := Taken(txs, mask, true), Taken(txs, mask, false);
            var t := Run(c, w, txs);
            && t.state == Run(c, w, a + b).state
            && Taken(t.replies, mask, true) == Run(c, w, a).replies
            && Taken(t.replies, mask, false) == Run(c, w, b).replies
  {
    var a, b := Taken(txs, mask, true), Taken(txs, mask, false);
    MergeReachesAll(txs, mask);
    InterleavingIndependence(c, w, a, b, mask);
    TakenOfMerge(txs, mask, Run(c, w, a).replies, Run(c, w, b).replies);
  }
}
