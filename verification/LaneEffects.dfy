/** What the steps of the action lanes bring about. */
module LaneEffects {
  /* The laws of `ActionLanes` hold whatever policy a call has; this says what the policies do, how an
     undisturbed call comes to its result, and what a cancellation leaves. */

  import opened JsonData
  import opened ActionLanes

  /** The call meets a lane that is owned and busy, and nothing speaks against it. */
  predicate Meets(e: Executor, c: CallId, l: LaneId, policy: Policy) {
    e.sweeps == [] && c < |e.calls| && e.calls[c] == Deciding(l, policy) && Owns(e, l) && Busy(e, l)
  }

  predicate OnlyCall(e: Executor, d: Executor, c: CallId, pc: Pc)
    requires c < |e.calls|
  {
    d == e.(calls := e.calls[c := pc])
  }

  /** A dropping call is dropped: the running one, the queue and what has been aborted stay. */
  lemma DropDrops(e: Executor, c: CallId, l: LaneId)
    requires Meets(e, c, l, DropNew)
    ensures OnlyCall(e, Step(e, Decide(c, false, false)), c, Resolved(Dropped))
  {
  }

  /** A queueing call waits behind all others, or is dropped, exactly when 32 are waiting. */
  lemma EnqueueWaits(e: Executor, c: CallId, l: LaneId)
    requires Meets(e, c, l, Enqueue)
    ensures (var d := Step(e, Decide(c, false, false));
      && d.lanes == e.lanes && d.aborted == e.aborted && |d.table| == |e.table| && d.table[l].active == e.table[l].active
      && (forall k :: 0 <= k < |e.table| && k != l ==> d.table[k] == e.table[k])
      && (if |e.table[l].queue| >= 32 then d.table == e.table && d.calls == e.calls[c := Resolved(Dropped)]
          else (d.table[l].queue == e.table[l].queue + [c] && d.calls == e.calls[c := Queued(l)])))
  {
  }

  /** A replacing call aborts exactly the running one and is never dropped; if nothing happens meanwhile,
      it starts on the lane. */
  lemma ReplaceTakesOver(e: Executor, c: CallId, l: LaneId)
    requires Meets(e, c, l, Replace)
    ensures (var d := Step(e, Decide(c, false, false));
      && d.aborted == e.aborted + {e.table[l].active.value} && d.table == e.table[l := e.table[l].(active := None)]
      && d.lanes == e.lanes && d.calls == e.calls[c := Replacing(l)]
      && Enabled(d, Replaced(c)) && Step(d, Replaced(c)).calls == e.calls[c := Starting(l)])
  {
  }

  /** What is diagnosed or throws fails, and a lane lost meanwhile aborts the call. */
  lemma DecisionsFail(e: Executor, c: CallId, l: LaneId, policy: Policy, diagnostic: bool, throws: bool)
    requires c < |e.calls| && e.calls[c] == Deciding(l, policy) && (throws || diagnostic || !Owns(e, l))
    ensures OnlyCall(e, DecideStep(e, c, diagnostic, throws), c, Resolved(if throws || Owns(e, l) then Failed else Aborted))
  {
  }

  // ---- an undisturbed call ----

  lemma FreeKeyFound(e: Executor, key: string, policy: Policy)
    requires e.sweeps == [] && !e.disposed && key !in e.lanes
    ensures (var c := |e.calls|; var d := Step(Step(e, Execute(key)), Locate(c, policy, false));
      && d.calls == e.calls + [Starting(|e.table|)] && d.table == e.table + [Lane(key, None, [])]
      && d.lanes == e.lanes[key := |e.table|] && d.aborted == e.aborted && d.sweeps == [] && !d.disposed)
  {
    assert Enabled(Step(e, Execute(key)), Locate(|e.calls|, policy, false));
  }

  lemma StartRuns(e: Executor, c: CallId, l: LaneId)
    requires e.sweeps == [] && c < |e.calls| && e.calls[c] == Starting(l) && Owns(e, l) && !Busy(e, l)
    ensures (var d := Step(Step(Step(e, Started(c, false)), Checked(c, false, false)), Published(c));
      && d.calls == e.calls[c := Running(l)] && d.table == e.table[l := e.table[l].(active := Some(c))]
      && d.lanes == e.lanes && d.aborted == e.aborted)
  {
  }

  /** A call for a lane that is not there runs at once, alone. */
  lemma FreeLaneRuns(e: Executor, key: string, policy: Policy)
    requires e.sweeps == [] && !e.disposed && key !in e.lanes
    ensures (var c, l := |e.calls|, |e.table|;
      var d := Step(Step(e, Execute(key)), Locate(c, policy, false));
      var r := Step(Step(Step(d, Started(c, false)), Checked(c, false, false)), Published(c));
      && r.calls == e.calls + [Running(l)] && r.lanes == e.lanes[key := l]
      && r.table == e.table + [Lane(key, Some(c), [])] && r.aborted == e.aborted)
  {
    var c, l := |e.calls|, |e.table|;
    FreeKeyFound(e, key, policy);
    StartRuns(Step(Step(e, Execute(key)), Locate(c, policy, false)), c, l);
  }

  /** A run that ends undisturbed resolves with its result, and the lane goes to the head of its queue or
      is forgotten. */
  lemma RunEnds(e: Executor, c: CallId, l: LaneId, result: Result)
    requires Ground(e) && e.sweeps == [] && c < |e.calls| && e.calls[c] == Running(l) && Owns(e, l) && e.table[l].active == Some(c)
    ensures (var d := Step(Step(e, RunEnded(c, result)), Finished(c));
      && c < |d.calls| && d.calls[c] == Resolved(result) && d.aborted == e.aborted
      && (if e.table[l].queue == [] then d.lanes == e.lanes - {e.table[l].key} && d.calls == e.calls[c := Resolved(result)]
          else (d.lanes == e.lanes && d.table == e.table[l := Lane(e.table[l].key, None, e.table[l].queue[1..])]
                && d.calls == e.calls[c := Resolved(result)][e.table[l].queue[0] := Starting(l)])))
  {
    MembersWaitAll(e, l);
    if e.table[l].queue != [] { assert e.table[l].queue[0] in e.table[l].queue; }
  }

  /** A run that was cancelled meanwhile resolves as aborted and leaves the lane alone. */
  lemma CancelledRunEnds(e: Executor, c: CallId, l: LaneId, result: Result)
    requires c < |e.calls| && e.calls[c] == Running(l) && l < |e.table| && e.table[l].active != Some(c)
    ensures OnlyCall(e, RunEndedStep(e, c, result), c, Resolved(Aborted))
  {
  }

  /** A start that fails resolves as failed and hands the lane on. */
  lemma StartFails(e: Executor, c: CallId, l: LaneId)
    requires Ground(e) && e.sweeps == [] && c < |e.calls| && e.calls[c] == Starting(l) && Owns(e, l) && !Busy(e, l) && e.table[l].queue == []
    ensures (var d := Step(Step(Step(e, Started(c, false)), Checked(c, true, false)), FailedOut(c));
      && d.calls == e.calls[c := Resolved(Failed)] && d.lanes == e.lanes - {e.table[l].key} && d.table == e.table && d.aborted == e.aborted)
  {
  }

  /** A call on a disposed executor, or during a cancellation, is aborted at once; so is one overtaken by
      a cancellation before its lane is found. */
  lemma LateCallsAbort(e: Executor, key: string, c: CallId, policy: Policy)
    ensures e.disposed || e.sweeps != [] ==> Step(e, Execute(key)).calls == e.calls + [Resolved(Aborted)]
    ensures c < |e.calls| && e.calls[c].Looking? && (e.disposed || e.calls[c].generation != e.generation) ==>
      OnlyCall(e, LocateStep(e, c, policy, false), c, Resolved(Aborted))
  {
  }

  // ---- cancelling ----

  /** A cancellation forgets every lane but that of the spared run, and will visit every lane there was. */
  lemma SweepForgets(e: Executor, except: Option<CallId>)
    ensures (var d := Step(e, BeginSweep(except, false));
      && d.generation == e.generation + 1 && d.calls == e.calls && d.table == e.table && d.aborted == e.aborted
      && d.disposed == e.disposed && d.sweeps == e.sweeps + [Sweep(e.lanes.Values, except)]
      && (forall key :: key in d.lanes <==>
            key in e.lanes && e.lanes[key] < |e.table| && except.Some? && e.table[e.lanes[key]].active == except)
      && (forall key :: key in d.lanes ==> d.lanes[key] == e.lanes[key]))
  {
  }

  /** Disposal spares nobody. */
  lemma DisposalForgetsAll(e: Executor, except: Option<CallId>)
    requires !e.disposed
    ensures (var d := Step(e, BeginSweep(except, true));
      d.disposed && d.lanes == map[] && d.sweeps == e.sweeps + [Sweep(e.lanes.Values, None)])
  {
    assert Step(e, BeginSweep(except, true)).lanes.Keys == {};
  }

  /** A visited lane: its waiting calls resolve as aborted, and its run is aborted unless it is spared. */
  lemma VisitCancels(e: Executor, l: LaneId)
    requires Ground(e) && Enabled(e, SweepLane(l))
    ensures (var d := Step(e, SweepLane(l)); var run := e.table[l].active;
      var ends := run.Some? && run != Top(e).except;
      && d.lanes == e.lanes && |d.calls| == |e.calls|
      && (forall c :: 0 <= c < |e.calls| ==> d.calls[c] == if c in e.table[l].queue then Resolved(Aborted) else e.calls[c])
      && d.table == e.table[l := Lane(e.table[l].key, if ends then None else run, [])]
      && d.aborted == e.aborted + (if ends then {run.value} else {})
      && d.sweeps != [] && Top(d) == Top(e).(lanes := Top(e).lanes - {l}))
  {
  }
}
