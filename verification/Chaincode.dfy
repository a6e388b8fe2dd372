/**
 The contract's methods as they update the world state in place through the stub, each proved against
 the step of the ledger it performs.
 */
module Chaincode {
  import opened Wrappers
  import opened AssetJson
  import opened KeyOrder
  import opened Ledger

  function Acknowledged(err: Option<Error>): Reply {
    if err.Some? then Failed(err.value) else Done
  }

  function Answered<T>(r: Result<T, Error>, wrap: T -> Reply): Reply {
    match r
    case Failure(e) => Failed(e)
    case Success(x) => wrap(x)
  }

  function Entries(w: World, keys: seq<string>): (entries: seq<(string, Bytes)>)
    requires forall k :: k in keys ==> k in w
    ensures |entries| == |keys|
    ensures forall i :: 0 <= i < |keys| ==> entries[i] == (keys[i], w[keys[i]])
  {
    if keys == [] then [] else [(keys[0], w[keys[0]])] + Entries(w, keys[1..])
  }

  // The result of a scan whose first assets have been collected already.
  function Collected(assets: seq<Asset>, rest: Result<seq<Asset>, Error>): Result<seq<Asset>, Error> {
    if rest.Failure? then rest else Success(assets + rest.value)
  }

  lemma {:induction false} CollectOne(c: Codec, w: World, keys: seq<string>, i: nat, next: Option<NextFault>, assets: seq<Asset>)
    requires i < |keys| && forall k :: k in keys ==> k in w
    requires next.Some? ==> next.value.at != i
    requires c.decode(w[keys[i]]).Some?
    ensures Collected(assets, Scan(c, w, keys, i, next)) ==
            Collected(assets + [c.decode(w[keys[i]]).value], Scan(c, w, keys, i + 1, next))
  {
    var asset, rest := c.decode(w[keys[i]]).value, Scan(c, w, keys, i + 1, next);
    if rest.Success? {
      assert assets + ([asset] + rest.value) == assets + [asset] + rest.value;
    }
  }

  /** The key/value pairs of a range query, handed out one at a time. */
  class StateIterator {
    const entries: seq<(string, Bytes)>
    const fault: Option<NextFault>
    var position: nat
    var closed: bool

    constructor (entries: seq<(string, Bytes)>, fault: Option<NextFault>)
      ensures this.entries == entries && this.fault == fault && position == 0 && !closed
    {
      this.entries, this.fault, position, closed := entries, fault, 0, false;
    }

    predicate HasNext()
      reads this
    {
      position < |entries|
    }

    method Next() returns (r: Result<(string, Bytes), string>)
      requires HasNext()
      modifies this`position
      ensures position == old(position) + 1
      ensures r == if fault.Some? && fault.value.at == old(position) then Failure(fault.value.cause)
                   else Success(entries[old(position)])
    {
      if fault.Some? && fault.value.at == position {
        r := Failure(fault.value.cause);
      } else {
        r := Success(entries[position]);
      }
      position := position + 1;
    }

    method Close()
      modifies this`closed
      ensures closed
    {
      closed := true;
    }
  }

  /** The world state as one transaction reaches it, with the calls that are going to fail. */
  class Stub {
    var state: World
    const faults: Faults

    constructor (state: World, faults: Faults)
      ensures this.state == state && this.faults == faults
    {
      this.state, this.faults := state, faults;
    }

    method GetState(key: string) returns (r: Result<Option<Bytes>, string>)
      ensures r == if faults.read.Some? then Failure(faults.read.value)
                   else Success(if key in state then Some(state[key]) else None)
    {
      if faults.read.Some? {
        return Failure(faults.read.value);
      }
      return Success(if key in state then Some(state[key]) else None);
    }

    method PutState(key: string, value: Bytes) returns (err: Option<string>)
      modifies this`state
      ensures err == faults.write
      ensures state == if err.Some? then old(state) else old(state)[key := value]
    {
      err := faults.write;
      if err.None? {
        state := state[key := value];
      }
    }

    method DelState(key: string) returns (err: Option<string>)
      modifies this`state
      ensures err == faults.write
      ensures state == if err.Some? then old(state) else old(state) - {key}
    {
      err := faults.write;
      if err.None? {
        state := state - {key};
      }
    }

    // The open-ended query: every key, in key order.
    method GetStateByRange() returns (r: Result<StateIterator, string>)
      ensures r.Failure? <==> faults.scan.Some?
      ensures r.Failure? ==> r.error == faults.scan.value
      ensures r.Success? ==>
                && fresh(r.value)
                && r.value.fault == faults.next && r.value.position == 0 && !r.value.closed
                && r.value.entries == Entries(state, SortedKeys(state.Keys))
    {
      if faults.scan.Some? {
        return Failure(faults.scan.value);
      }
      var resultsIterator := new StateIterator(Entries(state, SortedKeys(state.Keys)), faults.next);
      return Success(resultsIterator);
    }
  }

  class SmartContract {
    const codec: Codec

    constructor (codec: Codec)
      ensures this.codec == codec
    {
      this.codec := codec;
    }

    method AssetExists(ctx: Stub, id: string) returns (r: Result<bool, Error>)
      ensures r == Ledger.AssetExists(ctx.state, id, ctx.faults)
    {
      var assetJson := ctx.GetState(id);
      if assetJson.Failure? {
        return Failure(ReadFailed(assetJson.error));
      }
      return Success(assetJson.value.Some?);
    }

    method CreateAsset(ctx: Stub, id: string, color: string, size: Int64, owner: string, appraisedValue: Int64)
      returns (err: Option<Error>)
      modifies ctx`state
      ensures Outcome(ctx.state, Acknowledged(err)) ==
              Step(codec, old(ctx.state), Tx(Create(id, color, size, owner, appraisedValue), ctx.faults))
    {
      var present := AssetExists(ctx, id);
      if present.Failure? {
        return Some(present.error);
      }
      if present.value {
        return Some(AlreadyExists(id));
      }
      var asset := Asset(appraisedValue, color, id, owner, size);
      var failure := ctx.PutState(id, codec.encode(asset));
      return if failure.Some? then Some(StubFailed(failure.value)) else None;
    }

    method ReadAsset(ctx: Stub, id: string) returns (r: Result<Asset, Error>)
      ensures r == Ledger.ReadAsset(codec, ctx.state, id, ctx.faults)
    {
      var assetJson := ctx.GetState(id);
      if assetJson.Failure? {
        return Failure(ReadFailed(assetJson.error));
      }
      if assetJson.value.None? {
        return Failure(DoesNotExist(id));
      }
      var asset := codec.decode(assetJson.value.value);
      if asset.None? {
        return Failure(Malformed);
      }
      return Success(asset.value);
    }

    method UpdateAsset(ctx: Stub, id: string, color: string, size: Int64, owner: string, appraisedValue: Int64)
      returns (err: Option<Error>)
      modifies ctx`state
      ensures Outcome(ctx.state, Acknowledged(err)) ==
              Step(codec, old(ctx.state), Tx(Update(id, color, size, owner, appraisedValue), ctx.faults))
    {
      var present := AssetExists(ctx, id);
      if present.Failure? {
        return Some(present.error);
      }
      if !present.value {
        return Some(DoesNotExist(id));
      }
      var asset := Asset(appraisedValue, color, id, owner, size);
      var failure := ctx.PutState(id, codec.encode(asset));
      return if failure.Some? then Some(StubFailed(failure.value)) else None;
    }

    method DeleteAsset(ctx: Stub, id: string) returns (err: Option<Error>)
      modifies ctx`state
      ensures Outcome(ctx.state, Acknowledged(err)) == Step(codec, old(ctx.state), Tx(Delete(id), ctx.faults))
    {
      var present := AssetExists(ctx, id);
      if present.Failure? {
        return Some(present.error);
      }
      if !present.value {
        return Some(DoesNotExist(id));
      }
      var failure := ctx.DelState(id);
      return if failure.Some? then Some(StubFailed(failure.value)) else None;
    }

    // Only the transfer with the flag set is finished in the source.
    method TransferAsset(ctx: Stub, id: string, newOwner: string, flag: bool) returns (r: Result<string, Error>)
      requires flag
      modifies ctx`state
      ensures Outcome(ctx.state, Answered(r, o => OldOwner(o))) ==
              Step(codec, old(ctx.state), Tx(Transfer(id, newOwner), ctx.faults))
    {
      var found := ReadAsset(ctx, id);
      if found.Failure? {
        return Failure(found.error);
      }
      var asset := found.value;
      var oldOwner := asset.owner;
      asset := asset.(owner := newOwner);
      var failure := ctx.PutState(id, codec.encode(asset));
      if failure.Some? {
        return Failure(StubFailed(failure.value));
      }
      return Success(oldOwner);
    }

    method GetAllAssets(ctx: Stub) returns (r: Result<seq<Asset>, Error>)
      ensures r == Ledger.GetAllAssets(codec, ctx.state, ctx.faults)
    {
      var query := ctx.GetStateByRange();
      if query.Failure? {
        return Failure(StubFailed(query.error));
      }
      var resultsIterator := query.value;
      r := Drain(resultsIterator, ctx.state, SortedKeys(ctx.state.Keys));
      resultsIterator.Close();
    }

    // The loop of GetAllAssets, over the entries of the given keys.
    method Drain(resultsIterator: StateIterator, ghost w: World, ghost keys: seq<string>)
      returns (r: Result<seq<Asset>, Error>)
      requires forall k :: k in keys ==> k in w
      requires resultsIterator.entries == Entries(w, keys) && resultsIterator.position == 0
      modifies resultsIterator`position
      ensures r == Scan(codec, w, keys, 0, resultsIterator.fault)
    {
      ghost var whole := Scan(codec, w, keys, 0, resultsIterator.fault);
      var assets: seq<Asset> := [];
      assert whole.Success? ==> assets + whole.value == whole.value;
      while resultsIterator.HasNext()
        invariant resultsIterator.position <= |keys|
        invariant whole == Collected(assets, Scan(codec, w, keys, resultsIterator.position, resultsIterator.fault))
        decreases |keys| - resultsIterator.position
      {
        ghost var i := resultsIterator.position;
        var queryResponse := resultsIterator.Next();
        if queryResponse.Failure? {
          return Failure(StubFailed(queryResponse.error));
        }
        var asset := codec.decode(queryResponse.value.1);
        if asset.None? {
          return Failure(Malformed);
        }
        CollectOne(codec, w, keys, i, resultsIterator.fault, assets);
        assets := assets + [asset.value];
      }
      assert assets + [] == assets;
      return Success(assets);
    }
  }
}
