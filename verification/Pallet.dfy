/** The pallet: one stored number, an event log, and two calls that a signed account may make. */
module Pallet {
  import opened Wrappers

  const MAX_U32: nat := 0xFFFF_FFFF

  type U32 = x: int | 0 <= x <= MAX_U32

  type AccountId = nat

  datatype Origin = Signed(who: AccountId) | Root | Unsigned

  datatype Event = SomethingStored(something: U32, who: AccountId)

  datatype Error = BadOrigin | NoneValue | StorageOverflow

  datatype Call = DoSomething(origin: Origin, something: U32) | CauseError(origin: Origin)

  datatype State = State(something: Option<U32>, events: seq<Event>)

  datatype Outcome = Outcome(state: State, result: Result<(), Error>)

  const GENESIS := State(None, [])

  // ---- The calls, as they act on the pallet ----

  function EnsureSigned(origin: Origin): Result<AccountId, Error> {
    if origin.Signed? then Success(origin.who) else Failure(BadOrigin)
  }

  function CheckedAdd(a: U32, b: U32): Option<U32> { if a + b > MAX_U32 then None else Some(a + b) }

  function Dispatch(s: State, call: Call): Outcome {
    match call
    case DoSomething(origin, something) =>
      (match EnsureSigned(origin)
       case Failure(e) => Outcome(s, Failure(e))
       case Success(who) => Outcome(State(Some(something), s.events + [SomethingStored(something, who)]), Success(())))
    case CauseError(origin) =>
      (match EnsureSigned(origin)
       case Failure(e) => Outcome(s, Failure(e))
       case Success(_) =>
         match s.something
         case None => Outcome(s, Failure(NoneValue))
         case Some(old_) =>
           match CheckedAdd(old_, 1)
           case None => Outcome(s, Failure(StorageOverflow))
           case Some(new_) => Outcome(s.(something := Some(new_)), Success(())))
  }

  class Module {
    var something: Option<U32>
    var events: seq<Event>

    constructor ()
      ensures Now() == GENESIS
    {
      something, events := None, [];
    }

    function Now(): State
      reads this
    {
      State(something, events)
    }

    method DepositEvent(event: Event)
      modifies this`events
      ensures events == old(events) + [event]
    {
      events := events + [event];
    }

    method DoSomething(origin: Origin, value: U32) returns (result: Result<(), Error>)
      modifies this
      ensures Outcome(Now(), result) == Dispatch(old(Now()), Call.DoSomething(origin, value))
    {
      var who := EnsureSigned(origin);
      if who.Failure? {
        return Failure(who.error);
      }
      something := Some(value);
      DepositEvent(SomethingStored(value, who.value));
      return Success(());
    }

    method CauseError(origin: Origin) returns (result: Result<(), Error>)
      modifies this`something
      ensures Outcome(Now(), result) == Dispatch(old(Now()), Call.CauseError(origin))
    {
      var who := EnsureSigned(origin);
      if who.Failure? {
        return Failure(who.error);
      }
      if something.None? {
        return Failure(NoneValue);
      }
      var incremented := CheckedAdd(something.value, 1);
      if incremented.None? {
        return Failure(StorageOverflow);
      }
      something := incremented;
      return Success(());
    }
  }

  // ---- Runs ----

  datatype Trace = Trace(state: State, results: seq<Result<(), Error>>)

  function Run(s: State, calls: seq<Call>): (t: Trace)
    ensures |t.results| == |calls|
  {
    if calls == [] then Trace(s, [])
    else
      var before := Run(s, calls[..|calls| - 1]);
      var last := Dispatch(before.state, calls[|calls| - 1]);
      Trace(last.state, before.results + [last.result])
  }

  // ---- The same, told from the calls alone, without any state ----

  // The events of a run: its signed do_something calls, in order.
  function Stores(calls: seq<Call>): seq<Event> {
    if calls == [] then []
    else
      var last := calls[|calls| - 1];
      Stores(calls[..|calls| - 1])
      + (if last.DoSomething? && last.origin.Signed? then [SomethingStored(last.something, last.origin.who)] else [])
  }

  // The signed cause_error calls since the last signed do_something.
  function IncrementsSince(calls: seq<Call>): nat {
    if calls == [] then 0
    else
      var last := calls[|calls| - 1];
      if last.origin.Signed? && last.DoSomething? then 0
      else IncrementsSince(calls[..|calls| - 1]) + (if last.origin.Signed? then 1 else 0)
  }

  function Min(a: int, b: int): int { if a < b then a else b }

  // The last value stored plus the increments since, stopping at the largest number.
  function ValueAfter(calls: seq<Call>): Option<U32> {
    var stores := Stores(calls);
    if stores == [] then None else Some(Min(stores[|stores| - 1].something + IncrementsSince(calls), MAX_U32))
  }

  // How the call that follows these is answered.
  function Answer(before: seq<Call>, call: Call): Result<(), Error> {
    if !call.origin.Signed? then Failure(BadOrigin)
    else if call.DoSomething? then Success(())
    else if ValueAfter(before) == None then Failure(NoneValue)
    else if ValueAfter(before) == Some(MAX_U32) then Failure(StorageOverflow)
    else Success(())
  }

  lemma {:induction false} RunSnoc(s: State, before: seq<Call>, call: Call)
    ensures var t := Run(s, before);
            var o := Dispatch(t.state, call);
            Run(s, before + [call]) == Trace(o.state, t.results + [o.result])
  {
    assert (before + [call])[..|before|] == before;
  }

  // One more call, seen from the calls alone.
  lemma {:induction false} ToldSnoc(before: seq<Call>, call: Call)
    ensures Dispatch(State(ValueAfter(before), Stores(before)), call) ==
            Outcome(State(ValueAfter(before + [call]), Stores(before + [call])), Answer(before, call))
  {
    assert (before + [call])[..|before|] == before;
  }

  // In every run from genesis the stored value, the event log and the answer to each call are the
  // ones told from the calls alone; the value never wraps around.
  lemma {:induction false} RunCharacterised(calls: seq<Call>)
    ensures Run(GENESIS, calls).state == State(ValueAfter(calls), Stores(calls))
    ensures forall i :: 0 <= i < |calls| ==> Run(GENESIS, calls).results[i] == Answer(calls[..i], calls[i])
  {
    if calls != [] {
      var before, last := calls[..|calls| - 1], calls[|calls| - 1];
      assert calls == before + [last];
      RunCharacterised(before);
      RunSnoc(GENESIS, before, last);
      ToldSnoc(before, last);
      forall i | 0 <= i < |before| ensures before[..i] == calls[..i] {}
    }
  }

  // ---- The same, told from the events and the results ----

  predicate Stored(call: Call, result: Result<(), Error>) { call.DoSomething? && result.Success? }

  // The successful cause_error calls since the last successful do_something.
  function SuccessesSince(calls: seq<Call>, results: seq<Result<(), Error>>): nat
    requires |calls| == |results|
  {
    if calls == [] then 0
    else
      var n := |calls| - 1;
      if Stored(calls[n], results[n]) then 0
      else SuccessesSince(calls[..n], results[..n]) + (if results[n].Success? then 1 else 0)
  }

  // A value is stored exactly when some do_something has succeeded; it is the number in the last event
  // plus the successful increments since that event.
  ghost predicate Explained(s: State, calls: seq<Call>, results: seq<Result<(), Error>>)
    requires |calls| == |results|
  {
    && (s.something.Some? <==> exists i :: 0 <= i < |calls| && Stored(calls[i], results[i]))
    && (s.something.Some? <==> s.events != [])
    && (s.something.Some? ==>
          s.something.value == s.events[|s.events| - 1].something + SuccessesSince(calls, results))
  }

  lemma {:induction false} ExplainedSnoc(s: State, calls: seq<Call>, results: seq<Result<(), Error>>, call: Call)
    requires |calls| == |results| && Explained(s, calls, results)
    ensures var o := Dispatch(s, call); Explained(o.state, calls + [call], results + [o.result])
  {
    var o := Dispatch(s, call);
    var calls', results' := calls + [call], results + [o.result];
    assert calls'[..|calls|] == calls && results'[..|calls|] == results;
    if s.something.Some? {
      var i :| 0 <= i < |calls| && Stored(calls[i], results[i]);
      assert Stored(calls'[i], results'[i]);
    }
    assert Stored(call, o.result) ==> Stored(calls'[|calls|], results'[|calls|]);
    assert forall i :: 0 <= i < |calls| ==> calls'[i] == calls[i] && results'[i] == results[i];
  }

  lemma {:induction false} EveryRunExplained(calls: seq<Call>)
    ensures var t := Run(GENESIS, calls); Explained(t.state, calls, t.results)
  {
    if calls != [] {
      var before, last := calls[..|calls| - 1], calls[|calls| - 1];
      assert calls == before + [last];
      EveryRunExplained(before);
      RunSnoc(GENESIS, before, last);
      ExplainedSnoc(Run(GENESIS, before).state, before, Run(GENESIS, before).results, last);
    }
  }

  // A failing call changes neither the stored value nor the events.
  lemma {:induction false} FailureChangesNothing(s: State, call: Call)
    ensures Dispatch(s, call).result.Failure? ==> Dispatch(s, call).state == s
  {
  }

  // The calls that succeeded.
  function Effects(calls: seq<Call>, results: seq<Result<(), Error>>): seq<Call>
    requires |calls| == |results|
  {
    if calls == [] then []
    else
      var n := |calls| - 1;
      Effects(calls[..n], results[..n]) + (if results[n].Success? then [calls[n]] else [])
  }

  lemma {:induction false} EffectsSnoc(calls: seq<Call>, results: seq<Result<(), Error>>, call: Call, result: Result<(), Error>)
    requires |calls| == |results|
    ensures Effects(calls + [call], results + [result]) == Effects(calls, results) + (if result.Success? then [call] else [])
  {
    assert (calls + [call])[..|calls|] == calls && (results + [result])[..|calls|] == results;
  }

  predicate AllSucceed(results: seq<Result<(), Error>>) { forall i :: 0 <= i < |results| ==> results[i].Success? }

  lemma {:induction false} KeepOrStrike(s: State, kept: seq<Call>, call: Call)
    requires AllSucceed(Run(s, kept).results)
    ensures var o := Dispatch(Run(s, kept).state, call);
            var u := Run(s, kept + (if o.result.Success? then [call] else []));
            u.state == o.state && AllSucceed(u.results)
  {
    var o := Dispatch(Run(s, kept).state, call);
    if o.result.Success? {
      RunSnoc(s, kept, call);
    } else {
      FailureChangesNothing(Run(s, kept).state, call);
      assert kept + [] == kept;
    }
  }

  // Failing calls can be struck from any run: the rest ends in the same state, and all of it succeeds.
  lemma {:induction false} FailuresCanBeStruck(s: State, calls: seq<Call>)
    ensures var t := Run(s, calls);
            var u := Run(s, Effects(calls, t.results));
            u.state == t.state && AllSucceed(u.results)
  {
    if calls != [] {
      var before, last := calls[..|calls| - 1], calls[|calls| - 1];
      var t := Run(s, before);
      assert calls == before + [last];
      RunSnoc(s, before, last);
      EffectsSnoc(before, t.results, last, Dispatch(t.state, last).result);
      FailuresCanBeStruck(s, before);
      KeepOrStrike(s, Effects(before, t.results), last);
    }
  }

  // The overflow lies at the end of 32 bits.
  lemma {:induction false} OverflowAtMax(events: seq<Event>, who: AccountId)
    ensures Dispatch(State(Some(4294967294), events), CauseError(Signed(who))) ==
            Outcome(State(Some(4294967295), events), Success(()))
    ensures Dispatch(State(Some(4294967295), events), CauseError(Signed(who))) ==
            Outcome(State(Some(4294967295), events), Failure(StorageOverflow))
  {
  }

  // ---- A batch of increments ----

  function Batch(n: nat, who: AccountId): (calls: seq<Call>)
    ensures |calls| == n && forall i :: 0 <= i < n ==> calls[i] == CauseError(Signed(who))
  {
    if n == 0 then [] else Batch(n - 1, who) + [CauseError(Signed(who))]
  }

  lemma {:induction false} OneMore(s: State, v: U32, n: nat, who: AccountId)
    requires s.something == Some(Min(v + n, MAX_U32))
    ensures Dispatch(s, CauseError(Signed(who))) ==
            if n < MAX_U32 - v then Outcome(s.(something := Some(v + n + 1)), Success(())) else Outcome(s, Failure(StorageOverflow))
  {
  }

  // From a stored value v, n increments leave v + n or the largest number, whichever is less; the
  // first MAX - v of them succeed and all later ones overflow.
  lemma {:induction false} BatchSaturates(s: State, v: U32, n: nat, who: AccountId)
    requires s.something == Some(v)
    ensures Run(s, Batch(n, who)).state == s.(something := Some(Min(v + n, MAX_U32)))
    ensures forall i :: 0 <= i < n ==>
              Run(s, Batch(n, who)).results[i] == if i < MAX_U32 - v then Success(()) else Failure(StorageOverflow)
  {
    if n > 0 {
      var before := Run(s, Batch(n - 1, who));
      BatchSaturates(s, v, n - 1, who);
      RunSnoc(s, Batch(n - 1, who), CauseError(Signed(who)));
      OneMore(before.state, v, n - 1, who);
      var after := Run(s, Batch(n, who)).results;
      forall i | 0 <= i < n ensures after[i] == if i < MAX_U32 - v then Success(()) else Failure(StorageOverflow) {
        assert i < n - 1 ==> after[i] == before.results[i];
      }
    }
  }
}
