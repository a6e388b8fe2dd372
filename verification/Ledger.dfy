/**
 The asset contract as a state machine. One transaction is one step over the world state, which maps
 keys to stored bytes; the stub calls it makes may fail, and which of them fail is part of the
 transaction.
 */
module Ledger {
  import opened Wrappers
  import opened AssetJson
  import opened KeyOrder
  import Utf8

  type Bytes = Utf8.Bytes
  type World = map<string, Bytes>
  // How the contract writes an asset down and reads it back; in the source both are encoding/json.
  // Nothing below depends on the encoding, beyond its being faithful where that is asked for.
  datatype Codec = Codec(encode: Asset -> Bytes, decode: Bytes -> Option<Asset>)

  ghost predicate Faithful(c: Codec) { forall a :: c.decode(c.encode(a)) == Some(a) }

  function MarshalJson(a: Asset): Bytes { Utf8.Encode(AssetJson.Print(a)) }

  function UnmarshalJson(b: Bytes): Option<Asset> { AssetJson.Parse(Utf8.ReadText(b)) }

  const JSON: Codec := Codec(a => MarshalJson(a), b => UnmarshalJson(b))

  lemma {:induction false} JsonIsFaithful()
    ensures Faithful(JSON)
  {
    forall a ensures JSON.decode(JSON.encode(a)) == Some(a) {
      Utf8.ReadTextEncode(AssetJson.Print(a));
      AssetJson.RoundTrip(a);
    }
  }

  datatype Error =
    | ReadFailed(cause: string)     // "failed to read from world state: ..."
    | AlreadyExists(id: string)     // "the asset ... already exists"
    | DoesNotExist(id: string)      // "the asset ... does not exist"
    | StubFailed(cause: string)     // an error of the stub, passed on as it is
    | Malformed                     // stored bytes that do not decode

  // Which stub calls of a transaction fail. A transaction reads one key and writes one key at most;
  // a range scan may fail to open, or later at the iterator's Next call of the given number.
  datatype Faults = Faults(read: Option<string>, write: Option<string>, scan: Option<string>, next: Option<NextFault>)

  datatype NextFault = NextFault(at: nat, cause: string)

  const NO_FAULTS := Faults(None, None, None, None)

  datatype Call =
    | Create(id: string, color: string, size: Int64, owner: string, appraisedValue: Int64)
    | Update(id: string, color: string, size: Int64, owner: string, appraisedValue: Int64)
    | Read(id: string)
    | Exists(id: string)
    | Delete(id: string)
    | Transfer(id: string, newOwner: string)
    | GetAll

  datatype Tx = Tx(call: Call, faults: Faults)

  datatype Reply =
    | Done
    | Found(asset: Asset)
    | Present(present: bool)
    | OldOwner(owner: string)
    | All(assets: seq<Asset>)
    | Failed(error: Error)

  datatype Outcome<+S> = Outcome(state: S, reply: Reply)

  // ---- Over the world state ----

  function AssetExists(w: World, id: string, faults: Faults): Result<bool, Error> {
    match faults.read
    case Some(cause) => Failure(ReadFailed(cause))
    case None => Success(id in w)
  }

  function ReadAsset(c: Codec, w: World, id: string, faults: Faults): Result<Asset, Error> {
    match faults.read
    case Some(cause) => Failure(ReadFailed(cause))
    case None =>
      if id !in w then Failure(DoesNotExist(id))
      else
        match c.decode(w[id])
        case None => Failure(Malformed)
        case Some(asset) => Success(asset)
  }

  // The last statement of a transaction that writes: on a failed write nothing is written.
  function Put(c: Codec, w: World, id: string, asset: Asset, faults: Faults, reply: Reply): Outcome<World> {
    match faults.write
    case Some(cause) => Outcome(w, Failed(StubFailed(cause)))
    case None => Outcome(w[id := c.encode(asset)], reply)
  }

  function CreateAsset(c: Codec, w: World, asset: Asset, faults: Faults): Outcome<World> {
    match AssetExists(w, asset.id, faults)
    case Failure(e) => Outcome(w, Failed(e))
    case Success(present) =>
      if present then Outcome(w, Failed(AlreadyExists(asset.id))) else Put(c, w, asset.id, asset, faults, Done)
  }

  function UpdateAsset(c: Codec, w: World, asset: Asset, faults: Faults): Outcome<World> {
    match AssetExists(w, asset.id, faults)
    case Failure(e) => Outcome(w, Failed(e))
    case Success(present) =>
      if !present then Outcome(w, Failed(DoesNotExist(asset.id))) else Put(c, w, asset.id, asset, faults, Done)
  }

  function DeleteAsset(w: World, id: string, faults: Faults): Outcome<World> {
    match AssetExists(w, id, faults)
    case Failure(e) => Outcome(w, Failed(e))
    case Success(present) =>
      if !present then Outcome(w, Failed(DoesNotExist(id)))
      else
        match faults.write
        case Some(cause) => Outcome(w, Failed(StubFailed(cause)))
        case None => Outcome(w - {id}, Done)
  }

  function TransferAsset(c: Codec, w: World, id: string, newOwner: string, faults: Faults): Outcome<World> {
    match ReadAsset(c, w, id, faults)
    case Failure(e) => Outcome(w, Failed(e))
    case Success(asset) => Put(c, w, id, asset.(owner := newOwner), faults, OldOwner(asset.owner))
  }

  // Draining an iterator over the keys from number i on: the first failing Next and the first bytes
  // that do not decode end the scan.
  function Scan(c: Codec, w: World, keys: seq<string>, i: nat, next: Option<NextFault>): Result<seq<Asset>, Error>
    requires i <= |keys| && forall k :: k in keys ==> k in w
    decreases |keys| - i
  {
    if i == |keys| then Success([])
    else if next.Some? && next.value.at == i then Failure(StubFailed(next.value.cause))
    else
      match c.decode(w[keys[i]])
      case None => Failure(Malformed)
      case Some(asset) =>
        var rest :- Scan(c, w, keys, i + 1, next);
        Success([asset] + rest)
  }

  function GetAllAssets(c: Codec, w: World, faults: Faults): Result<seq<Asset>, Error> {
    match faults.scan
    case Some(cause) => Failure(StubFailed(cause))
    case None => Scan(c, w, SortedKeys(w.Keys), 0, faults.next)
  }

  function Step(c: Codec, w: World, tx: Tx): Outcome<World> {
    match tx.call
    case Create(id, color, size, owner, value) => CreateAsset(c, w, Asset(value, color, id, owner, size), tx.faults)
    case Update(id, color, size, owner, value) => UpdateAsset(c, w, Asset(value, color, id, owner, size), tx.faults)
    case Read(id) =>
      (match ReadAsset(c, w, id, tx.faults)
       case Failure(e) => Outcome(w, Failed(e))
       case Success(asset) => Outcome(w, Found(asset)))
    case Exists(id) =>
      (match AssetExists(w, id, tx.faults)
       case Failure(e) => Outcome(w, Failed(e))
       case Success(b) => Outcome(w, Present(b)))
    case Delete(id) => DeleteAsset(w, id, tx.faults)
    case Transfer(id, newOwner) => TransferAsset(c, w, id, newOwner, tx.faults)
    case GetAll =>
      (match GetAllAssets(c, w, tx.faults)
       case Failure(e) => Outcome(w, Failed(e))
       case Success(assets) => Outcome(w, All(assets)))
  }

  datatype Trace<+S> = Trace(state: S, replies: seq<Reply>)

  function Run(c: Codec, w: World, txs: seq<Tx>): (t: Trace<World>)
    ensures |t.replies| == |txs|
    decreases |txs|
  {
    if txs == [] then Trace(w, [])
    else
      var first := Step(c, w, txs[0]);
      var rest := Run(c, first.state, txs[1..]);
      Trace(rest.state, [first.reply] + rest.replies)
  }

  const EMPTY: World := map[]
}
