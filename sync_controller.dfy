/**
 * The application-facing sync controller: pass-through reads of the engine's
 * sync state and authentication error, sync/resync triggers, and one-shot
 * result callbacks that fire once, with the first state the engine reaches
 * that is neither `Loading` nor `Syncing`.
 *
 * Each result callback is connected through a receiver object of its own; the
 * receiver is named here by a number, and deleting it (which disconnects the
 * callback) is its removal from the pending receivers.
 */
module Sync {

  datatype Option<T> = None | Some(value: T)

  datatype SyncState = Disconnected | Connecting | Handshaking | Loading | Syncing | Synced | Error

  /** The states a result callback lets pass without firing. */
  predicate IsTransient(state: SyncState): (r: bool)
    ensures r <==> state in {Loading, Syncing}
  {
    state == Loading || state == Syncing
  }

  type ReceiverId = nat

  /** One invocation of the result callback connected through `receiver`. */
  datatype Call = Call(receiver: ReceiverId, state: SyncState)

  datatype TriggerKind = SyncPass | ResyncPass

  /** What the controller did, in order: connect a result callback, or ask the engine for a pass. */
  datatype Action = Register(receiver: ReceiverId) | Trigger(kind: TriggerKind)

  predicate Distinct(s: seq<ReceiverId>) {
    forall i, j :: 0 <= i < j < |s| ==> s[i] != s[j]
  }

  /**
   * One emission of `syncStateChanged(state)`: every connected receiver runs its
   * callback's filter in connection order. The result is the calls made and the
   * receivers still connected afterwards.
   */
  function Deliver(pending: seq<ReceiverId>, state: SyncState): (r: (seq<Call>, seq<ReceiverId>))
    ensures IsTransient(state) ==> r.0 == [] && r.1 == pending
    ensures !IsTransient(state) ==> r.1 == [] && |r.0| == |pending|
    ensures !IsTransient(state) ==> forall k :: 0 <= k < |pending| ==> r.0[k] == Call(pending[k], state)
  {
    if pending == [] then ([], [])
    else
      var (calls, kept) := Deliver(pending[..|pending| - 1], state);
      var receiver := pending[|pending| - 1];
      if IsTransient(state) then (calls, kept + [receiver])
      else (calls + [Call(receiver, state)], kept)
  }

  /** A sequence of emissions, starting from the receivers in `pending`. */
  function Run(pending: seq<ReceiverId>, states: seq<SyncState>): (seq<Call>, seq<ReceiverId>)
    decreases |states|
  {
    if states == [] then ([], pending)
    else
      var (calls, kept) := Deliver(pending, states[0]);
      var (later, left) := Run(kept, states[1..]);
      (calls + later, left)
  }

  /** The states with which the callback connected through `receiver` was invoked. */
  function StatesOf(receiver: ReceiverId, calls: seq<Call>): seq<SyncState> {
    if calls == [] then []
    else
      var last := calls[|calls| - 1];
      StatesOf(receiver, calls[..|calls| - 1]) + (if last.receiver == receiver then [last.state] else [])
  }

  /** The first state of `states` that is neither `Loading` nor `Syncing`, if there is one. */
  function FirstTerminal(states: seq<SyncState>): Option<SyncState> {
    if states == [] then None
    else if IsTransient(states[0]) then FirstTerminal(states[1..])
    else Some(states[0])
  }

  lemma {:induction false} StatesOfAppend(receiver: ReceiverId, a: seq<Call>, b: seq<Call>)
    ensures StatesOf(receiver, a + b) == StatesOf(receiver, a) + StatesOf(receiver, b)
  {
    if b != [] {
      assert (a + b)[..|a + b| - 1] == a + b[..|b| - 1];
      assert (a + b)[|a + b| - 1] == b[|b| - 1];
      StatesOfAppend(receiver, a, b[..|b| - 1]);
    } else {
      assert a + b == a;
    }
  }

  /** In one emission, a connected callback is invoked at most once, and only with a non-transient state. */
  lemma {:induction false} DeliverInvokesOnce(pending: seq<ReceiverId>, state: SyncState, receiver: ReceiverId)
    requires Distinct(pending)
    ensures StatesOf(receiver, Deliver(pending, state).0)
         == if receiver in pending && !IsTransient(state) then [state] else []
  {
    if pending != [] {
      var init := pending[..|pending| - 1];
      assert Distinct(init);
      DeliverInvokesOnce(init, state, receiver);
      var calls := Deliver(init, state).0;
      if !IsTransient(state) {
        var last := pending[|pending| - 1];
        assert Deliver(pending, state).0 == calls + [Call(last, state)];
        assert [Call(last, state)][..0] == [];
        assert StatesOf(receiver, calls + [Call(last, state)]) == StatesOf(receiver, calls) + StatesOf(receiver, [Call(last, state)]) by {
          StatesOfAppend(receiver, calls, [Call(last, state)]);
        }
        assert pending == init + [last];
        assert last == receiver ==> receiver !in init;
      }
    }
  }

  /** A receiver that is not connected is never invoked, however the state changes. */
  lemma {:induction false} RunSkipsDisconnected(pending: seq<ReceiverId>, states: seq<SyncState>, receiver: ReceiverId)
    requires Distinct(pending) && receiver !in pending
    ensures StatesOf(receiver, Run(pending, states).0) == []
    decreases |states|
  {
    if states != [] {
      var (calls, kept) := Deliver(pending, states[0]);
      DeliverInvokesOnce(pending, states[0], receiver);
      RunSkipsDisconnected(kept, states[1..], receiver);
      StatesOfAppend(receiver, calls, Run(kept, states[1..]).0);
    }
  }

  /**
   * The one-shot guarantee: across any sequence of state changes, a connected
   * result callback is invoked exactly once, with the first state that is
   * neither `Loading` nor `Syncing`, or never if there is no such state.
   * This rests on a receiver's deletion disconnecting it before the next
   * emission reaches it.
   */
  lemma {:induction false} ResultCallbackFiresOnce(pending: seq<ReceiverId>, states: seq<SyncState>, receiver: ReceiverId)
    requires Distinct(pending) && receiver in pending
    ensures StatesOf(receiver, Run(pending, states).0)
         == match FirstTerminal(states) case None => [] case Some(s) => [s]
    decreases |states|
  {
    if states != [] {
      var (calls, kept) := Deliver(pending, states[0]);
      DeliverInvokesOnce(pending, states[0], receiver);
      StatesOfAppend(receiver, calls, Run(kept, states[1..]).0);
      if IsTransient(states[0]) {
        ResultCallbackFiresOnce(kept, states[1..], receiver);
      } else {
        RunSkipsDisconnected(kept, states[1..], receiver);
      }
    }
  }

  /** After a run, the callbacks still connected are all of them if no terminal state came, and none otherwise. */
  lemma {:induction false} RunLeavesPending(pending: seq<ReceiverId>, states: seq<SyncState>)
    ensures Run(pending, states).1 == if FirstTerminal(states).None? then pending else []
    decreases |states|
  {
    if states != [] {
      var kept := Deliver(pending, states[0]).1;
      RunLeavesPending(kept, states[1..]);
      if !IsTransient(states[0]) {
        assert kept == [];
        RunOfNothing(states[1..]);
      }
    }
  }

  lemma {:induction false} RunOfNothing(states: seq<SyncState>)
    ensures Run([], states) == ([], [])
  {
    if states != [] {
      assert Deliver([], states[0]) == ([], []);
      RunOfNothing(states[1..]);
      var calls: seq<Call> := [];
      assert calls + [] == [];
      assert Run([], states) == (calls + Run([], states[1..]).0, Run([], states[1..]).1);
    }
  }

  /** Delivering to one more receiver extends the previous delivery by that receiver alone. */
  lemma DeliverStep(pending: seq<ReceiverId>, i: nat, state: SyncState)
    requires i < |pending|
    ensures var (calls, kept) := Deliver(pending[..i], state);
      Deliver(pending[..i + 1], state)
      == if IsTransient(state) then (calls, kept + [pending[i]]) else (calls + [Call(pending[i], state)], kept)
  {
    assert pending[..i + 1][..i] == pending[..i];
  }

  class SyncController {
    /** The engine's current sync state and authentication error, which the controller only reads. */
    var engineState: SyncState
    var engineAuthenticationError: string
    /** Receivers whose result callbacks are still connected, in connection order. */
    var pending: seq<ReceiverId>
    /** The next receiver number; every receiver created so far has a smaller one. */
    var nextReceiver: nat
    var history: seq<Action>

    ghost predicate Valid()
      reads this
    {
      (forall k :: 0 <= k < |pending| ==> pending[k] < nextReceiver) &&
      (forall i, j :: 0 <= i < j < |pending| ==> pending[i] < pending[j])
    }

    constructor (state: SyncState, authenticationError: string)
      ensures Valid()
      ensures engineState == state && engineAuthenticationError == authenticationError
      ensures pending == [] && history == []
    {
      engineState, engineAuthenticationError := state, authenticationError;
      pending, nextReceiver, history := [], 0, [];
    }

    /** `syncState()`: the engine's value, unchanged. */
    method CurrentSyncState() returns (state: SyncState)
      ensures state == engineState
    {
      state := engineState;
    }

    /** `authenticationError()`: the engine's value, unchanged. */
    method AuthenticationError() returns (error: string)
      ensures error == engineAuthenticationError
    {
      error := engineAuthenticationError;
    }

    /** Connects a result callback through a new receiver of its own. */
    method SetupTriggerResult() returns (receiver: ReceiverId)
      requires Valid()
      modifies this
      ensures Valid()
      ensures receiver !in old(pending)
      ensures pending == old(pending) + [receiver]
      ensures history == old(history) + [Register(receiver)]
      ensures engineState == old(engineState) && engineAuthenticationError == old(engineAuthenticationError)
    {
      receiver := nextReceiver;
      nextReceiver := nextReceiver + 1;
      pending := pending + [receiver];
      history := history + [Register(receiver)];
    }

    method TriggerSync()
      modifies this
      ensures history == old(history) + [Trigger(SyncPass)]
      ensures pending == old(pending) && nextReceiver == old(nextReceiver)
      ensures engineState == old(engineState) && engineAuthenticationError == old(engineAuthenticationError)
    {
      history := history + [Trigger(SyncPass)];
    }

    method TriggerResync()
      modifies this
      ensures history == old(history) + [Trigger(ResyncPass)]
      ensures pending == old(pending) && nextReceiver == old(nextReceiver)
      ensures engineState == old(engineState) && engineAuthenticationError == old(engineAuthenticationError)
    {
      history := history + [Trigger(ResyncPass)];
    }

    /** Connects the result callback first, then asks for a sync pass. */
    method TriggerSyncWithResult() returns (receiver: ReceiverId)
      requires Valid()
      modifies this
      ensures Valid()
      ensures receiver !in old(pending) && pending == old(pending) + [receiver]
      ensures history == old(history) + [Register(receiver), Trigger(SyncPass)]
      ensures engineState == old(engineState) && engineAuthenticationError == old(engineAuthenticationError)
    {
      receiver := SetupTriggerResult();
      TriggerSync();
    }

    /** Connects the result callback first, then asks for a resync pass. */
    method TriggerResyncWithResult() returns (receiver: ReceiverId)
      requires Valid()
      modifies this
      ensures Valid()
      ensures receiver !in old(pending) && pending == old(pending) + [receiver]
      ensures history == old(history) + [Register(receiver), Trigger(ResyncPass)]
      ensures engineState == old(engineState) && engineAuthenticationError == old(engineAuthenticationError)
    {
      receiver := SetupTriggerResult();
      TriggerResync();
    }

    /**
     * The engine's state becomes `state` and `syncStateChanged(state)` reaches
     * every connected receiver: a callback lets `Loading` and `Syncing` pass,
     * and on any other state it is invoked and its receiver deleted.
     */
    method EngineStateChanged(state: SyncState) returns (fired: seq<Call>)
      requires Valid()
      modifies this
      ensures Valid()
      ensures engineState == state && engineAuthenticationError == old(engineAuthenticationError)
      ensures (fired, pending) == Deliver(old(pending), state)
      ensures history == old(history) && nextReceiver == old(nextReceiver)
    {
      var kept;
      fired, kept := Emit(pending, state);
      assert kept == pending || kept == [];
      engineState := state;
      pending := kept;
    }
  }

  /** Runs the filter of each receiver in `receivers`, in connection order, on one emission of `state`. */
  method Emit(receivers: seq<ReceiverId>, state: SyncState) returns (fired: seq<Call>, kept: seq<ReceiverId>)
    ensures (fired, kept) == Deliver(receivers, state)
  {
    var i := 0;
    kept, fired := [], [];
    while i < |receivers|
      invariant 0 <= i <= |receivers|
      invariant (fired, kept) == Deliver(receivers[..i], state)
    {
      DeliverStep(receivers, i, state);
      if IsTransient(state) {
        kept := kept + [receivers[i]];
      } else {
        fired := fired + [Call(receivers[i], state)];
      }
      i := i + 1;
    }
    assert receivers[..i] == receivers;
  }

  /**
   * Two result callbacks wait through `Loading` and `Syncing`, both fire with
   * `Synced`, and a later `Error` reaches neither.
   */
  method TwoResultCallbacksFireTogether() returns (first: seq<Call>, second: seq<Call>, third: seq<Call>, fourth: seq<Call>)
    ensures first == [] && second == []
    ensures |third| == 2 && third[0].state == Synced && third[1].state == Synced
    ensures third[0].receiver != third[1].receiver
    ensures fourth == []
  {
    var controller := new SyncController(Disconnected, "");
    var a := controller.TriggerSyncWithResult();
    var b := controller.TriggerResyncWithResult();
    first := controller.EngineStateChanged(Loading);
    second := controller.EngineStateChanged(Syncing);
    third := controller.EngineStateChanged(Synced);
    fourth := controller.EngineStateChanged(Error);
  }
}
