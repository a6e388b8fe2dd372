/**
 A transaction other than the range scan concerns one key: its reply and its effect are decided by what
 is stored under that key, and nothing else changes. This holds in every world state, reachable or not.
 */
module Locality {
  import opened Wrappers
  import opened AssetJson
  import opened Ledger

  type Cell = Option<Bytes>

  function CellOf(w: World, id: string): Cell { if id in w then Some(w[id]) else None }

  function WithCell(w: World, id: string, cell: Cell): (r: World)
    ensures CellOf(r, id) == cell
    ensures forall k :: k != id ==> CellOf(r, k) == CellOf(w, k)
  {
    if cell.Some? then w[id := cell.value] else w - {id}
  }

  lemma {:induction false} SameCellsSameWorld(v: World, w: World)
    requires forall k :: CellOf(v, k) == CellOf(w, k)
    ensures v == w
  {
    forall k ensures k in v <==> k in w { assert CellOf(v, k) == CellOf(w, k); }
    forall k | k in v ensures v[k] == w[k] { assert CellOf(v, k) == CellOf(w, k); }
  }

  // The effect on the one cell: the same step, taken on a world holding that cell alone.
  function CellStep(c: Codec, cell: Cell, tx: Tx): (r: (Cell, Reply))
    requires !tx.call.GetAll?
  {
    var o := Step(c, WithCell(map[], tx.call.id, cell), tx);
    (CellOf(o.state, tx.call.id), o.reply)
  }

  lemma {:induction false} PutIsLocal(c: Codec, w: World, id: string, asset: Asset, faults: Faults, reply: Reply)
    ensures var alone := Put(c, WithCell(map[], id, CellOf(w, id)), id, asset, faults, reply);
            var o := Put(c, w, id, asset, faults, reply);
            && alone.reply == o.reply
            && CellOf(alone.state, id) == CellOf(o.state, id)
            && forall k :: k != id ==> CellOf(o.state, k) == CellOf(w, k)
  {
  }

  lemma {:induction false} StepIsLocal(c: Codec, w: World, tx: Tx)
    requires !tx.call.GetAll?
    ensures var (cell, reply) := CellStep(c, CellOf(w, tx.call.id), tx);
            var o := Step(c, w, tx);
            && o.reply == reply
            && CellOf(o.state, tx.call.id) == cell
            && forall k :: k != tx.call.id ==> CellOf(o.state, k) == CellOf(w, k)
  {
    var alone := WithCell(map[], tx.call.id, CellOf(w, tx.call.id));
    match tx.call
    case Create(id, color, size, owner, value) =>
      PutIsLocal(c, w, id, Asset(value, color, id, owner, size), tx.faults, Done);
    case Update(id, color, size, owner, value) =>
      PutIsLocal(c, w, id, Asset(value, color, id, owner, size), tx.faults, Done);
    case Transfer(id, newOwner) =>
      if ReadAsset(c, w, id, tx.faults).Success? {
        var asset := ReadAsset(c, w, id, tx.faults).value;
        PutIsLocal(c, w, id, asset.(owner := newOwner), tx.faults, OldOwner(asset.owner));
      }
    case _ =>
  }
}
