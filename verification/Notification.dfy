/** The notification loop of an owned store (store.ts, `_notifyOwnedListeners`). Listeners may publish,
    subscribe, unsubscribe and dispose while they are being called; a publication made during the
    loop starts no second loop. */
module Notification {
  import opened JsonData

  const MAX_OWNED_NOTIFICATIONS: nat := 1024

  type Listener = nat
  type StateId = nat

  /** What one call of a listener leaves behind, or that it passed on another store's overflow. Any
      other exception of a listener is swallowed. */
  datatype Effect = Effect(state: StateId, listeners: seq<Listener>, disposed: bool, rethrows: bool)

  datatype Delivery = Delivery(listener: Listener, state: StateId)

  datatype Ending = Quiet | Disposed | Overflowed | Rethrown | Nested

  /** The last state every listener was given. */
  function Latest(log: seq<Delivery>): map<Listener, StateId> {
    if log == [] then map[] else Latest(log[..|log| - 1])[log[|log| - 1].listener := log[|log| - 1].state]
  }

  predicate UpToDate(delivered: map<Listener, StateId>, listener: Listener, state: StateId) {
    listener in delivered && delivered[listener] == state
  }

  ghost predicate AllUpToDate(delivered: map<Listener, StateId>, listeners: seq<Listener>, state: StateId) {
    forall i :: 0 <= i < |listeners| ==> UpToDate(delivered, listeners[i], state)
  }

  /** No delivery repeats what its listener was given last. */
  ghost predicate NoRepeats(log: seq<Delivery>) {
    forall i :: 0 <= i < |log| ==> !UpToDate(Latest(log[..i]), log[i].listener, log[i].state)
  }

  lemma LatestOfAppend(log: seq<Delivery>, d: Delivery)
    ensures Latest(log + [d]) == Latest(log)[d.listener := d.state]
  {
    assert (log + [d])[..|log|] == log;
  }

  lemma NoRepeatsOfAppend(log: seq<Delivery>, d: Delivery)
    requires NoRepeats(log) && !UpToDate(Latest(log), d.listener, d.state)
    ensures NoRepeats(log + [d])
  {
    var longer := log + [d];
    forall i | 0 <= i < |longer| ensures !UpToDate(Latest(longer[..i]), longer[i].listener, longer[i].state) {
      assert longer[..i] == log[..i];
    }
    assert longer[..|log|] == log == log[..|log|];
  }

  class Notifier {
    var state: StateId
    var listeners: seq<Listener>
    var disposed: bool
    var notifying: bool

    constructor (state: StateId)
      ensures this.state == state && listeners == [] && !disposed && !notifying
    {
      this.state := state;
      listeners := [];
      disposed := false;
      notifying := false;
    }

    method Apply(effect: Effect)
      modifies this`state, this`listeners, this`disposed
      ensures state == effect.state && listeners == effect.listeners && disposed == effect.disposed
    {
      state := effect.state;
      listeners := effect.listeners;
      disposed := effect.disposed;
    }

    /** One pass over the listeners subscribed when it starts. `react(k)` is what the k-th call of the
        whole loop does; every behaviour of the listeners is some such sequence. */
    method Pass(react: nat -> Effect, before: seq<Delivery>, delivered: map<Listener, StateId>)
      returns (log: seq<Delivery>, given: map<Listener, StateId>, ending: Option<Ending>)
      requires delivered == Latest(before) && NoRepeats(before) && |before| <= MAX_OWNED_NOTIFICATIONS && !disposed
      modifies this`state, this`listeners, this`disposed
      ensures given == Latest(log) && NoRepeats(log) && |before| <= |log| <= MAX_OWNED_NOTIFICATIONS
      ensures ending.None? && |log| == |before| ==> !disposed && AllUpToDate(given, listeners, state)
      ensures ending.Some? ==> ending.value.Disposed? || ending.value.Overflowed? || ending.value.Rethrown?
      ensures ending == Some(Disposed) ==> disposed
      ensures ending == Some(Overflowed) ==> |log| == MAX_OWNED_NOTIFICATIONS && Owes(given)
    {
      log, given, ending := before, delivered, None;
      var snapshot := listeners;
      for i := 0 to |snapshot|
        invariant given == Latest(log) && NoRepeats(log) && |before| <= |log| <= MAX_OWNED_NOTIFICATIONS
        invariant |log| == |before| ==> !disposed && listeners == snapshot && AllUpToDate(given, snapshot[..i], state)
      {
        var listener := snapshot[i];
        if disposed { return log, given, Some(Disposed); }
        if listener !in listeners || UpToDate(given, listener, state) {
          assert snapshot[..i + 1] == snapshot[..i] + [listener];
        } else {
          if |log| >= MAX_OWNED_NOTIFICATIONS { return log, given, Some(Overflowed); }
          var d := Delivery(listener, state);
          LatestOfAppend(log, d);
          NoRepeatsOfAppend(log, d);
          var effect := react(|log|);
          given := given[listener := state];
          log := log + [d];
          Apply(effect);
          if effect.rethrows { return log, given, Some(Rethrown); }
        }
      }
      assert snapshot[..|snapshot|] == snapshot;
    }

    /** Some subscribed listener has not been given the current state. */
    ghost predicate Owes(delivered: map<Listener, StateId>)
      reads this`listeners, this`state
    {
      exists l :: l in listeners && !UpToDate(delivered, l, state)
    }

    /** Whatever the listeners do, the loop ends after at most 1024 calls. A quiet end means that the
        last state each subscribed listener was given is the current one; an overflow means that one
        more call was due. */
    method NotifyOwned(react: nat -> Effect) returns (log: seq<Delivery>, ending: Ending)
      modifies this
      ensures |log| <= MAX_OWNED_NOTIFICATIONS && NoRepeats(log)
      ensures ending.Nested? <==> old(notifying)
      ensures ending.Nested? ==> log == [] && state == old(state) && listeners == old(listeners)
      ensures ending.Quiet? ==> !disposed && AllUpToDate(Latest(log), listeners, state)
      ensures ending.Disposed? ==> disposed
      ensures ending.Overflowed? ==> |log| == MAX_OWNED_NOTIFICATIONS && Owes(Latest(log))
      ensures !ending.Nested? ==> !notifying
    {
      log := [];
      if notifying { return log, Nested; }
      notifying := true;
      var delivered: map<Listener, StateId> := map[];
      while !disposed
        invariant delivered == Latest(log) && NoRepeats(log) && |log| <= MAX_OWNED_NOTIFICATIONS
        decreases MAX_OWNED_NOTIFICATIONS - |log|, !disposed
      {
        var calls := |log|;
        var stop: Option<Ending>;
        log, delivered, stop := Pass(react, log, delivered);
        if stop.Some? {
          notifying := false;
          return log, stop.value;
        }
        if |log| == calls {
          notifying := false;
          return log, Quiet;
        }
      }
      notifying := false;
      return log, Disposed;
    }
  }
}
