/** The action executor's lanes (action-executor.ts). */
module ActionLanes {
  /* Every stretch of its code between two points where foreign code may run (a state listener, an
     abort listener, the runtime port, an await) is one `Op`. A call of `execute` is a number; its `Pc`
     says where it stands, and a run's token is the number of its call. `cancelAll` runs to its end
     before anything it interrupted goes on, so the sweeps it makes form a stack and no call takes a
     step while one is under way. */

  import opened JsonData
  import opened Collections

  type CallId = nat
  type LaneId = nat

  datatype Policy = DropNew | Replace | Enqueue

  datatype Result = Aborted | Dropped | Failed | Completed

  datatype Pc =
    | Looking(key: string, generation: nat)
    | Deciding(lane: LaneId, policy: Policy)
    | Queued(lane: LaneId)
    | Replacing(lane: LaneId)
    | Starting(lane: LaneId)
    | Checking(lane: LaneId)
    | Pending(lane: LaneId)
    | Running(lane: LaneId)
    | Finishing(lane: LaneId, result: Result)
    | Failing(lane: LaneId)
    | Resolved(result: Result)

  datatype Lane = Lane(key: string, active: Option<CallId>, queue: seq<CallId>)

  /** The lanes a `cancelAll` has still to visit, and the run it spares. */
  datatype Sweep = Sweep(lanes: set<LaneId>, except: Option<CallId>)

  datatype Executor = Executor(
    lanes: map<string, LaneId>, table: seq<Lane>, calls: seq<Pc>, aborted: set<CallId>,
    sweeps: seq<Sweep>, disposed: bool, generation: nat)

  const MAX_WAITING_INTENTS: nat := 32

  function Fresh(): Executor {
    Executor(map[], [], [], {}, [], false, 0)
  }

  // ---- building blocks ----

  predicate Mapped(e: Executor, l: LaneId) {
    l < |e.table| && e.table[l].key in e.lanes && e.lanes[e.table[l].key] == l
  }

  predicate Owns(e: Executor, l: LaneId) {
    !e.disposed && Mapped(e, l)
  }

  predicate Busy(e: Executor, l: LaneId) {
    l < |e.table| && e.table[l].active.Some?
  }

  function SetPc(e: Executor, c: CallId, pc: Pc): Executor
    requires c < |e.calls|
  {
    e.(calls := e.calls[c := pc])
  }

  function WithActive(e: Executor, l: LaneId, active: Option<CallId>): Executor {
    if l < |e.table| then e.(table := e.table[l := e.table[l].(active := active)]) else e
  }

  function WithQueue(e: Executor, l: LaneId, queue: seq<CallId>): Executor {
    if l < |e.table| then e.(table := e.table[l := e.table[l].(queue := queue)]) else e
  }

  /** The active run of a lane is given up and its signal aborted. */
  function CancelActive(e: Executor, l: LaneId): Executor {
    if Busy(e, l) then WithActive(e, l, None).(aborted := e.aborted + {e.table[l].active.value}) else e
  }

  function Head(e: Executor, l: LaneId): Option<CallId> {
    if l < |e.table| && e.table[l].queue != [] then Some(e.table[l].queue[0]) else None
  }

  /** The oldest waiting intent starts; a lane with none left is forgotten. */
  function Drain(e: Executor, l: LaneId): Executor {
    if !Owns(e, l) || Busy(e, l) then e
    else match Head(e, l)
      case None => e.(lanes := e.lanes - {e.table[l].key})
      case Some(next) =>
        if next < |e.calls| then SetPc(WithQueue(e, l, e.table[l].queue[1..]), next, Starting(l)) else e
  }

  function ResolveAll(calls: seq<Pc>, waiting: seq<CallId>): (r: seq<Pc>)
    ensures |r| == |calls|
    ensures forall c :: 0 <= c < |calls| ==> r[c] == if c in waiting then Resolved(Aborted) else calls[c]
  {
    if waiting == [] then calls
    else
      var rest := ResolveAll(calls, waiting[1..]);
      if waiting[0] < |calls| then rest[waiting[0] := Resolved(Aborted)] else rest
  }

  // ---- the steps of a call ----

  function ExecuteStep(e: Executor, key: string): Executor {
    e.(calls := e.calls + [if e.disposed || e.sweeps != [] then Resolved(Aborted) else Looking(key, e.generation)])
  }

  /** The lane is looked up, or made, once the node's state is known. */
  function LocateStep(e: Executor, c: CallId, policy: Policy, throws: bool): Executor
    requires c < |e.calls| && e.calls[c].Looking?
  {
    var key := e.calls[c].key;
    if throws then SetPc(e, c, Resolved(Failed))
    else if e.disposed || e.calls[c].generation != e.generation then SetPc(e, c, Resolved(Aborted))
    else if key in e.lanes then
      SetPc(e, c, if Busy(e, e.lanes[key]) then Deciding(e.lanes[key], policy) else Starting(e.lanes[key]))
    else
      SetPc(e, c, Starting(|e.table|)).(lanes := e.lanes[key := |e.table|], table := e.table + [Lane(key, None, [])])
  }

  function DecideStep(e: Executor, c: CallId, diagnostic: bool, throws: bool): Executor
    requires c < |e.calls| && e.calls[c].Deciding?
  {
    var l := e.calls[c].lane;
    if throws then SetPc(e, c, Resolved(Failed))
    else if !Owns(e, l) then SetPc(e, c, Resolved(Aborted))
    else if diagnostic then SetPc(e, c, Resolved(Failed))
    else match e.calls[c].policy
      case Enqueue =>
        if |e.table[l].queue| >= MAX_WAITING_INTENTS then SetPc(e, c, Resolved(Dropped))
        else SetPc(WithQueue(e, l, e.table[l].queue + [c]), c, Queued(l))
      case DropNew => SetPc(e, c, Resolved(Dropped))
      case Replace => SetPc(CancelActive(e, l), c, Replacing(l))
  }

  function ReplacedStep(e: Executor, c: CallId): Executor
    requires c < |e.calls| && e.calls[c].Replacing?
  {
    var l := e.calls[c].lane;
    SetPc(e, c, if !Owns(e, l) || Busy(e, l) then Resolved(Aborted) else Starting(l))
  }

  function StartedStep(e: Executor, c: CallId, throws: bool): Executor
    requires c < |e.calls| && e.calls[c].Starting?
  {
    var l := e.calls[c].lane;
    if throws then SetPc(e, c, if Owns(e, l) then Failing(l) else Resolved(Aborted))
    else SetPc(e, c, if !Owns(e, l) || Busy(e, l) then Resolved(Aborted) else Checking(l))
  }

  function CheckedStep(e: Executor, c: CallId, diagnostic: bool, throws: bool): Executor
    requires c < |e.calls| && e.calls[c].Checking?
  {
    var l := e.calls[c].lane;
    if throws then SetPc(e, c, if Owns(e, l) then Failing(l) else Resolved(Aborted))
    else if !Owns(e, l) || Busy(e, l) then SetPc(e, c, Resolved(Aborted))
    else if diagnostic then SetPc(e, c, Failing(l))
    else SetPc(WithActive(e, l, Some(c)), c, Pending(l))
  }

  function PublishedStep(e: Executor, c: CallId): Executor
    requires c < |e.calls| && e.calls[c].Pending?
  {
    var l := e.calls[c].lane;
    SetPc(e, c, if Owns(e, l) && e.table[l].active == Some(c) then Running(l) else Resolved(Aborted))
  }

  function RunEndedStep(e: Executor, c: CallId, result: Result): Executor
    requires c < |e.calls| && e.calls[c].Running?
  {
    var l := e.calls[c].lane;
    if l < |e.table| && e.table[l].active == Some(c) then SetPc(WithActive(e, l, None), c, Finishing(l, result))
    else SetPc(e, c, Resolved(Aborted))
  }

  function FinishedStep(e: Executor, c: CallId): Executor
    requires c < |e.calls| && e.calls[c].Finishing?
  {
    var l := e.calls[c].lane;
    if !Owns(e, l) then SetPc(e, c, Resolved(Aborted)) else Drain(SetPc(e, c, Resolved(e.calls[c].result)), l)
  }

  function FailedStep(e: Executor, c: CallId): Executor
    requires c < |e.calls| && e.calls[c].Failing?
  {
    Drain(SetPc(e, c, Resolved(Failed)), e.calls[c].lane)
  }

  // ---- cancelling everything ----

  predicate Spared(e: Executor, l: LaneId, except: Option<CallId>) {
    l < |e.table| && except.Some? && e.table[l].active == except
  }

  function BeginSweepStep(e: Executor, except: Option<CallId>, dispose: bool): Executor {
    if dispose && e.disposed then e
    else
      var spared := if dispose then None else except;
      e.(disposed := e.disposed || dispose, generation := e.generation + 1,
         sweeps := e.sweeps + [Sweep(e.lanes.Values, spared)],
         lanes := map key | key in e.lanes && Spared(e, e.lanes[key], spared) :: e.lanes[key])
  }

  function Top(e: Executor): Sweep
    requires e.sweeps != []
  {
    e.sweeps[|e.sweeps| - 1]
  }

  function SweepLaneStep(e: Executor, l: LaneId): Executor
    requires e.sweeps != [] && l in Top(e).lanes && l < |e.table|
  {
    var top := Top(e);
    var visited := e.(sweeps := e.sweeps[|e.sweeps| - 1 := top.(lanes := top.lanes - {l})],
                      calls := ResolveAll(e.calls, e.table[l].queue));
    var emptied := WithQueue(visited, l, []);
    if e.table[l].active == top.except then emptied else CancelActive(emptied, l)
  }

  function EndSweepStep(e: Executor): Executor
    requires e.sweeps != []
  {
    e.(sweeps := e.sweeps[..|e.sweeps| - 1])
  }

  // ---- operations ----

  datatype Op =
    | Execute(key: string)
    | Locate(c: CallId, policy: Policy, throws: bool)
    | Decide(c: CallId, diagnostic: bool, throws: bool)
    | Replaced(c: CallId)
    | Started(c: CallId, throws: bool)
    | Checked(c: CallId, diagnostic: bool, throws: bool)
    | Published(c: CallId)
    | RunEnded(c: CallId, result: Result)
    | Finished(c: CallId)
    | FailedOut(c: CallId)
    | BeginSweep(except: Option<CallId>, dispose: bool)
    | SweepLane(l: LaneId)
    | EndSweep

  /** Whether the operation is the next one of its call, or of the sweep under way. */
  predicate Enabled(e: Executor, op: Op) {
    match op
    case Execute(_) => true
    case BeginSweep(_, _) => true
    case SweepLane(l) => e.sweeps != [] && l in Top(e).lanes && l < |e.table|
    case EndSweep => e.sweeps != [] && Top(e).lanes == {}
    case _ => e.sweeps == [] && op.c < |e.calls| && MayStep(e.calls[op.c], op)
  }

  predicate MayStep(pc: Pc, op: Op) {
    match op
    case Locate(_, _, _) => pc.Looking?
    case Decide(_, _, _) => pc.Deciding?
    case Replaced(_) => pc.Replacing?
    case Started(_, _) => pc.Starting?
    case Checked(_, _, _) => pc.Checking?
    case Published(_) => pc.Pending?
    case RunEnded(_, _) => pc.Running?
    case Finished(_) => pc.Finishing?
    case FailedOut(_) => pc.Failing?
    case _ => false
  }

  function Step(e: Executor, op: Op): Executor
    requires Enabled(e, op)
  {
    match op
    case Execute(key) => ExecuteStep(e, key)
    case Locate(c, policy, throws) => LocateStep(e, c, policy, throws)
    case Decide(c, diagnostic, throws) => DecideStep(e, c, diagnostic, throws)
    case Replaced(c) => ReplacedStep(e, c)
    case Started(c, throws) => StartedStep(e, c, throws)
    case Checked(c, diagnostic, throws) => CheckedStep(e, c, diagnostic, throws)
    case Published(c) => PublishedStep(e, c)
    case RunEnded(c, result) => RunEndedStep(e, c, result)
    case Finished(c) => FinishedStep(e, c)
    case FailedOut(c) => FailedStep(e, c)
    case BeginSweep(except, dispose) => BeginSweepStep(e, except, dispose)
    case SweepLane(l) => SweepLaneStep(e, l)
    case EndSweep => EndSweepStep(e)
  }

  // ---- who minds a lane ----

  /** A call that will either occupy the lane, drain it or find that another call does. */
  predicate Minds(pc: Pc, l: LaneId) {
    pc == Starting(l) || pc == Checking(l) || pc == Replacing(l) || pc == Failing(l) || (pc.Finishing? && pc.lane == l)
  }

  ghost predicate Attended(e: Executor, l: LaneId) {
    exists c :: 0 <= c < |e.calls| && Minds(e.calls[c], l)
  }

  ghost predicate MindedAt(e: Executor, l: LaneId) {
    Mapped(e, l) ==> Busy(e, l) || Attended(e, l)
  }

  ghost predicate Minded(e: Executor) {
    forall l :: 0 <= l < |e.table| ==> MindedAt(e, l)
  }

  /** Away from `l0` nothing that keeps a lane minded has changed. */
  ghost predicate OnlyAt(e: Executor, d: Executor, l0: LaneId) {
    && |e.table| == |d.table| && |e.calls| == |d.calls|
    && (forall l :: 0 <= l < |e.table| && l != l0 ==> (Mapped(d, l) ==> Mapped(e, l)) && (Busy(e, l) ==> Busy(d, l)))
    && (forall c :: 0 <= c < |e.calls| ==> CallKept(e.calls[c], d.calls[c], l0))
  }

  predicate CallKept(before: Pc, after: Pc, l0: LaneId) {
    before == after || Minds(before, l0) || !Minding(before)
  }

  predicate Minding(pc: Pc) {
    pc.Starting? || pc.Checking? || pc.Replacing? || pc.Failing? || pc.Finishing?
  }

  lemma MindedElsewhere(e: Executor, d: Executor, l0: LaneId)
    requires Minded(e) && OnlyAt(e, d, l0) && MindedAt(d, l0)
    ensures Minded(d)
  {
    forall l | 0 <= l < |d.table| && l != l0 ensures MindedAt(d, l) {
      assert MindedAt(e, l);
      if Mapped(d, l) && !Busy(d, l) {
        var c :| 0 <= c < |e.calls| && Minds(e.calls[c], l);
        assert CallKept(e.calls[c], d.calls[c], l0);
        assert Minds(d.calls[c], l);
      }
    }
    if l0 < |d.table| { assert MindedAt(d, l0); }
  }

  /** Draining settles the account of a lane: it is occupied, gone, or another call starts on it. */
  lemma DrainMinds(e: Executor, l: LaneId)
    requires e.disposed ==> e.lanes == map[]
    requires Head(e, l).Some? ==> Head(e, l).value < |e.calls| && e.calls[Head(e, l).value] == Queued(l)
    ensures OnlyAt(e, Drain(e, l), l) && MindedAt(Drain(e, l), l)
  {
    var d := Drain(e, l);
    if Owns(e, l) && !Busy(e, l) && Head(e, l).Some? {
      assert Minds(d.calls[Head(e, l).value], l);
    }
  }

  lemma OnlyAtTransitive(e: Executor, d: Executor, f: Executor, l0: LaneId)
    requires OnlyAt(e, d, l0) && OnlyAt(d, f, l0)
    ensures OnlyAt(e, f, l0)
  {
    forall c | 0 <= c < |e.calls| ensures CallKept(e.calls[c], f.calls[c], l0) {
      assert CallKept(e.calls[c], d.calls[c], l0) && CallKept(d.calls[c], f.calls[c], l0);
    }
  }

  // ---- the rest of the invariant ----

  predicate Waits(e: Executor, l: LaneId, i: nat)
    requires l < |e.table| && i < |e.table[l].queue|
  {
    e.table[l].queue[i] < |e.calls| && e.calls[e.table[l].queue[i]] == Queued(l)
  }

  predicate Occupies(e: Executor, c: CallId, l: LaneId) {
    c < |e.calls| && (e.calls[c] == Pending(l) || e.calls[c] == Running(l))
  }

  ghost predicate SweptSoon(e: Executor, l: LaneId) {
    exists i :: 0 <= i < |e.sweeps| && l in e.sweeps[i].lanes
  }

  ghost predicate LaneOk(e: Executor, l: LaneId)
    requires l < |e.table|
  {
    && |e.table[l].queue| <= MAX_WAITING_INTENTS && Distinct(e.table[l].queue)
    && (forall i :: 0 <= i < |e.table[l].queue| ==> Waits(e, l, i))
    && (e.table[l].active.Some? ==> Occupies(e, e.table[l].active.value, l))
    && (!Mapped(e, l) ==> (e.table[l].queue == [] && e.table[l].active.None?) || SweptSoon(e, l))
  }

  predicate CallOk(e: Executor, c: CallId)
    requires c < |e.calls|
  {
    match e.calls[c]
    case Queued(l) => l < |e.table| && c in e.table[l].queue
    case Pending(l) => l < |e.table| && (e.table[l].active == Some(c) || c in e.aborted)
    case Running(l) => l < |e.table| && (e.table[l].active == Some(c) || c in e.aborted)
    case Looking(_, _) => true
    case Resolved(_) => true
    case _ => e.calls[c].lane < |e.table|
  }

  ghost predicate MapOk(e: Executor) {
    && (e.disposed ==> e.lanes == map[])
    && (forall key :: key in e.lanes ==> e.lanes[key] < |e.table| && e.table[e.lanes[key]].key == key)
  }

  /** A lane still to be swept is either the one spared, or out of the map and not the one spared:
      a later sweep that took the spared lane out of the map visits it first. */
  ghost predicate SweepOk(e: Executor, i: nat, l: LaneId)
    requires i < |e.sweeps|
  {
    && l < |e.table|
    && (Mapped(e, l) ==> Spared(e, l, e.sweeps[i].except))
    && (!Mapped(e, l) && Spared(e, l, e.sweeps[i].except) ==> exists j :: i < j < |e.sweeps| && l in e.sweeps[j].lanes)
  }

  ghost predicate SweepsOk(e: Executor) {
    forall i, l :: 0 <= i < |e.sweeps| && l in e.sweeps[i].lanes ==> SweepOk(e, i, l)
  }

  ghost predicate Ground(e: Executor) {
    && MapOk(e)
    && (forall l :: 0 <= l < |e.table| ==> LaneOk(e, l))
    && (forall c :: 0 <= c < |e.calls| ==> CallOk(e, c))
  }

  // ---- lanes stay minded ----

  /** A step that leaves every minding call and every occupied lane alone. */
  lemma Unminding(e: Executor, d: Executor)
    requires Minded(e) && OnlyAt(e, d, |e.table|)
    ensures Minded(d)
  {
    MindedElsewhere(e, d, |e.table|);
  }

  lemma ExecuteMinds(e: Executor, key: string)
    requires Minded(e)
    ensures Minded(ExecuteStep(e, key))
  {
    var d := ExecuteStep(e, key);
    forall l | 0 <= l < |d.table| ensures MindedAt(d, l) {
      assert MindedAt(e, l);
      if Attended(e, l) {
        var c :| 0 <= c < |e.calls| && Minds(e.calls[c], l);
        assert Minds(d.calls[c], l);
      }
    }
  }

  lemma LocateMinds(e: Executor, c: CallId, policy: Policy, throws: bool)
    requires Minded(e) && MapOk(e) && c < |e.calls| && e.calls[c].Looking?
    ensures Minded(LocateStep(e, c, policy, throws))
  {
    var d := LocateStep(e, c, policy, throws);
    if d.table == e.table {
      Unminding(e, d);
    } else {
      forall l | 0 <= l < |d.table| ensures MindedAt(d, l) {
        if l < |e.table| {
          assert MindedAt(e, l);
          if Attended(e, l) {
            var x :| 0 <= x < |e.calls| && Minds(e.calls[x], l);
            assert Minds(d.calls[x], l);
          }
        } else {
          assert Minds(d.calls[c], l);
        }
      }
    }
  }

  lemma DecideMinds(e: Executor, c: CallId, diagnostic: bool, throws: bool)
    requires Minded(e) && MapOk(e) && c < |e.calls| && e.calls[c].Deciding?
    ensures Minded(DecideStep(e, c, diagnostic, throws))
  {
    var d, l := DecideStep(e, c, diagnostic, throws), e.calls[c].lane;
    if d.calls[c].Replacing? {
      assert Minds(d.calls[c], l);
      MindedElsewhere(e, d, l);
    } else {
      Unminding(e, d);
    }
  }

  lemma ReplacedMinds(e: Executor, c: CallId)
    requires Minded(e) && MapOk(e) && c < |e.calls| && e.calls[c].Replacing?
    ensures Minded(ReplacedStep(e, c))
  {
    var d, l := ReplacedStep(e, c), e.calls[c].lane;
    assert d.calls[c].Starting? ==> Minds(d.calls[c], l);
    MindedElsewhere(e, d, l);
  }

  lemma StartedMinds(e: Executor, c: CallId, throws: bool)
    requires Minded(e) && MapOk(e) && c < |e.calls| && e.calls[c].Starting?
    ensures Minded(StartedStep(e, c, throws))
  {
    var d, l := StartedStep(e, c, throws), e.calls[c].lane;
    assert !d.calls[c].Resolved? ==> Minds(d.calls[c], l);
    MindedElsewhere(e, d, l);
  }

  lemma CheckedMinds(e: Executor, c: CallId, diagnostic: bool, throws: bool)
    requires Minded(e) && MapOk(e) && c < |e.calls| && e.calls[c].Checking?
    ensures Minded(CheckedStep(e, c, diagnostic, throws))
  {
    var d, l := CheckedStep(e, c, diagnostic, throws), e.calls[c].lane;
    assert d.calls[c].Failing? ==> Minds(d.calls[c], l);
    MindedElsewhere(e, d, l);
  }

  lemma PublishedMinds(e: Executor, c: CallId)
    requires Minded(e) && c < |e.calls| && e.calls[c].Pending?
    ensures Minded(PublishedStep(e, c))
  {
    Unminding(e, PublishedStep(e, c));
  }

  lemma RunEndedMinds(e: Executor, c: CallId, result: Result)
    requires Minded(e) && c < |e.calls| && e.calls[c].Running?
    ensures Minded(RunEndedStep(e, c, result))
  {
    var d, l := RunEndedStep(e, c, result), e.calls[c].lane;
    if d.calls[c].Finishing? {
      assert Minds(d.calls[c], l);
      MindedElsewhere(e, d, l);
    } else {
      Unminding(e, d);
    }
  }

  ghost predicate HeadWaits(e: Executor, l: LaneId) {
    Head(e, l).Some? ==> Head(e, l).value < |e.calls| && e.calls[Head(e, l).value] == Queued(l)
  }

  lemma ResolvedAndDrained(e: Executor, c: CallId, l: LaneId, result: Result)
    requires Minded(e) && MapOk(e) && HeadWaits(e, l) && c < |e.calls| && Minds(e.calls[c], l)
    ensures Minded(Drain(SetPc(e, c, Resolved(result)), l))
  {
    var d := SetPc(e, c, Resolved(result));
    assert HeadWaits(d, l);
    DrainMinds(d, l);
    OnlyAtTransitive(e, d, Drain(d, l), l);
    MindedElsewhere(e, Drain(d, l), l);
  }

  lemma FinishedMinds(e: Executor, c: CallId)
    requires Minded(e) && MapOk(e) && c < |e.calls| && e.calls[c].Finishing? && HeadWaits(e, e.calls[c].lane)
    ensures Minded(FinishedStep(e, c))
  {
    var l := e.calls[c].lane;
    if Owns(e, l) {
      ResolvedAndDrained(e, c, l, e.calls[c].result);
    } else {
      MindedElsewhere(e, FinishedStep(e, c), l);
    }
  }

  lemma BeginSweepMinds(e: Executor, except: Option<CallId>, dispose: bool)
    requires Minded(e)
    ensures Minded(BeginSweepStep(e, except, dispose))
  {
    Unminding(e, BeginSweepStep(e, except, dispose));
  }

  lemma SweepLaneMinds(e: Executor, l: LaneId)
    requires Minded(e) && e.sweeps != [] && l in Top(e).lanes && l < |e.table|
    requires SweepOk(e, |e.sweeps| - 1, l) && forall i :: 0 <= i < |e.table[l].queue| ==> Waits(e, l, i)
    ensures Minded(SweepLaneStep(e, l))
  {
    var d := SweepLaneStep(e, l);
    forall c | 0 <= c < |e.calls| ensures CallKept(e.calls[c], d.calls[c], l) {
      if c in e.table[l].queue {
        var i :| 0 <= i < |e.table[l].queue| && e.table[l].queue[i] == c;
        assert Waits(e, l, i);
      }
    }
    SparedIsMinded(e, l);
    MindedElsewhere(e, d, l);
  }

  lemma SparedIsMinded(e: Executor, l: LaneId)
    requires e.sweeps != [] && l in Top(e).lanes && l < |e.table| && SweepOk(e, |e.sweeps| - 1, l)
    ensures MindedAt(SweepLaneStep(e, l), l)
  {
    assert Mapped(SweepLaneStep(e, l), l) <==> Mapped(e, l);
  }

  lemma StepMinds(e: Executor, op: Op)
    requires Minded(e) && Ground(e) && SweepsOk(e) && Enabled(e, op)
    ensures Minded(Step(e, op))
  {
    match op
    case Execute(key) => ExecuteMinds(e, key);
    case Locate(c, policy, throws) => LocateMinds(e, c, policy, throws);
    case Decide(c, diagnostic, throws) => DecideMinds(e, c, diagnostic, throws);
    case Replaced(c) => ReplacedMinds(e, c);
    case Started(c, throws) => StartedMinds(e, c, throws);
    case Checked(c, diagnostic, throws) => CheckedMinds(e, c, diagnostic, throws);
    case Published(c) => PublishedMinds(e, c);
    case RunEnded(c, result) => RunEndedMinds(e, c, result);
    case Finished(c) => HeadsWait(e, e.calls[c].lane); FinishedMinds(e, c);
    case FailedOut(c) => HeadsWait(e, e.calls[c].lane); ResolvedAndDrained(e, c, e.calls[c].lane, Failed);
    case BeginSweep(except, dispose) => BeginSweepMinds(e, except, dispose);
    case SweepLane(l) =>
      assert LaneOk(e, l) && SweepOk(e, |e.sweeps| - 1, l);
      SweepLaneMinds(e, l);
    case EndSweep => Unminding(e, EndSweepStep(e));
  }

  lemma HeadsWait(e: Executor, l: LaneId)
    requires Ground(e)
    ensures HeadWaits(e, l)
  {
    if Head(e, l).Some? { assert LaneOk(e, l) && Waits(e, l, 0); }
  }

  // ---- lanes and calls stay in step ----

  /** Everything a lane's record speaks of is as it was. */
  ghost predicate LaneAlone(e: Executor, d: Executor, l: LaneId)
    requires l < |e.table|
  {
    && l < |d.table| && d.table[l] == e.table[l] && |e.calls| <= |d.calls|
    && (forall c :: c in e.table[l].queue && c < |e.calls| ==> d.calls[c] == e.calls[c])
    && (e.table[l].active.Some? && e.table[l].active.value < |e.calls| ==> Occupies(d, e.table[l].active.value, l))
    && (Mapped(d, l) || (!Mapped(e, l) && (SweptSoon(e, l) ==> SweptSoon(d, l)))
        || (e.table[l].queue == [] && e.table[l].active.None?) || SweptSoon(d, l))
  }

  lemma LaneKept(e: Executor, d: Executor, l: LaneId)
    requires l < |e.table| && LaneOk(e, l) && LaneAlone(e, d, l)
    ensures LaneOk(d, l)
  {
    forall i | 0 <= i < |d.table[l].queue| ensures Waits(d, l, i) { assert Waits(e, l, i); }
  }

  predicate Plain(pc: Pc) {
    !pc.Queued? && !pc.Pending? && !pc.Running?
  }

  predicate InTable(e: Executor, pc: Pc) {
    pc.Looking? || pc.Resolved? || pc.lane < |e.table|
  }

  lemma MembersWait(e: Executor, c: CallId, l: LaneId)
    requires Ground(e) && l < |e.table|
    ensures c in e.table[l].queue ==> c < |e.calls| && e.calls[c] == Queued(l)
  {
    assert LaneOk(e, l);
    if c in e.table[l].queue {
      var i :| 0 <= i < |e.table[l].queue| && e.table[l].queue[i] == c;
      assert Waits(e, l, i);
    }
  }

  /** A call that holds nothing moves on to hold nothing. */
  lemma PlainGround(e: Executor, c: CallId, pc: Pc)
    requires Ground(e) && c < |e.calls| && Plain(e.calls[c]) && Plain(pc) && InTable(e, pc)
    ensures Ground(SetPc(e, c, pc))
  {
    var d := SetPc(e, c, pc);
    forall l | 0 <= l < |d.table| ensures LaneOk(d, l) {
      assert LaneOk(e, l);
      MembersWait(e, c, l);
      LaneKept(e, d, l);
    }
    forall x | 0 <= x < |d.calls| ensures CallOk(d, x) { assert CallOk(e, x); }
  }

  lemma ExecuteGround(e: Executor, key: string)
    requires Ground(e)
    ensures Ground(ExecuteStep(e, key))
  {
    var d := ExecuteStep(e, key);
    forall l | 0 <= l < |d.table| ensures LaneOk(d, l) {
      assert LaneOk(e, l);
      LaneKept(e, d, l);
    }
    forall x | 0 <= x < |d.calls| ensures CallOk(d, x) { if x < |e.calls| { assert CallOk(e, x); } }
  }

  function NewLane(e: Executor, key: string): Executor {
    e.(lanes := e.lanes[key := |e.table|], table := e.table + [Lane(key, None, [])])
  }

  lemma NewLaneGround(e: Executor, key: string)
    requires Ground(e) && key !in e.lanes && !e.disposed
    ensures Ground(NewLane(e, key))
  {
    var d := NewLane(e, key);
    forall l | 0 <= l < |d.table| ensures LaneOk(d, l) {
      if l < |e.table| {
        assert LaneOk(e, l);
        LaneKept(e, d, l);
      }
    }
    forall x | 0 <= x < |d.calls| ensures CallOk(d, x) { assert CallOk(e, x); }
  }

  lemma LocateGround(e: Executor, c: CallId, policy: Policy, throws: bool)
    requires Ground(e) && c < |e.calls| && e.calls[c].Looking?
    ensures Ground(LocateStep(e, c, policy, throws))
  {
    var key, d := e.calls[c].key, LocateStep(e, c, policy, throws);
    if d.table == e.table {
      PlainGround(e, c, d.calls[c]);
    } else {
      NewLaneGround(e, key);
      PlainGround(NewLane(e, key), c, Starting(|e.table|));
    }
  }

  /** A call that waits nowhere joins the end of a queue with room. */
  lemma EnqueueGround(e: Executor, c: CallId, l: LaneId)
    requires Ground(e) && c < |e.calls| && Plain(e.calls[c])
    requires l < |e.table| && |e.table[l].queue| < MAX_WAITING_INTENTS && Mapped(e, l)
    ensures Ground(SetPc(WithQueue(e, l, e.table[l].queue + [c]), c, Queued(l)))
  {
    var d := SetPc(WithQueue(e, l, e.table[l].queue + [c]), c, Queued(l));
    forall k | 0 <= k < |d.table| ensures LaneOk(d, k) {
      assert LaneOk(e, k);
      MembersWait(e, c, k);
      if k != l {
        LaneKept(e, d, k);
      } else {
        forall i | 0 <= i < |d.table[l].queue| ensures Waits(d, l, i) {
          assert i < |e.table[l].queue| ==> Waits(e, l, i);
        }
      }
    }
    forall x | 0 <= x < |d.calls| ensures CallOk(d, x) { assert CallOk(e, x); }
  }

  lemma CancelActiveGround(e: Executor, l: LaneId)
    requires Ground(e)
    ensures Ground(CancelActive(e, l))
  {
    var d := CancelActive(e, l);
    if Busy(e, l) {
      forall k | 0 <= k < |d.table| ensures LaneOk(d, k) {
        assert LaneOk(e, k);
        if k != l {
          LaneKept(e, d, k);
        } else {
          forall i | 0 <= i < |d.table[l].queue| ensures Waits(d, l, i) { assert Waits(e, l, i); }
          assert SweptSoon(e, l) ==> SweptSoon(d, l);
        }
      }
      forall x | 0 <= x < |d.calls| ensures CallOk(d, x) { assert CallOk(e, x); }
    }
  }

  lemma DecideGround(e: Executor, c: CallId, diagnostic: bool, throws: bool)
    requires Ground(e) && c < |e.calls| && e.calls[c].Deciding?
    ensures Ground(DecideStep(e, c, diagnostic, throws))
  {
    var l, d := e.calls[c].lane, DecideStep(e, c, diagnostic, throws);
    if d.calls[c].Queued? {
      EnqueueGround(e, c, l);
    } else if d.calls[c].Replacing? {
      CancelActiveGround(e, l);
      PlainGround(CancelActive(e, l), c, Replacing(l));
    } else {
      PlainGround(e, c, d.calls[c]);
    }
  }

  /** With no sweep under way, a lane outside the map is empty. */
  lemma UnmappedIsEmpty(e: Executor, l: LaneId)
    requires Ground(e) && e.sweeps == [] && l < |e.table| && !Mapped(e, l)
    ensures e.table[l].queue == [] && e.table[l].active.None?
  {
    assert LaneOk(e, l);
  }

  lemma OccupyGround(e: Executor, c: CallId, l: LaneId)
    requires Ground(e) && c < |e.calls| && Plain(e.calls[c]) && Mapped(e, l) && !Busy(e, l)
    ensures Ground(SetPc(WithActive(e, l, Some(c)), c, Pending(l)))
  {
    var d := SetPc(WithActive(e, l, Some(c)), c, Pending(l));
    forall k | 0 <= k < |d.table| ensures LaneOk(d, k) {
      assert LaneOk(e, k);
      MembersWait(e, c, k);
      if k != l {
        LaneKept(e, d, k);
      } else {
        forall i | 0 <= i < |d.table[l].queue| ensures Waits(d, l, i) { assert Waits(e, l, i); }
      }
    }
    forall x | 0 <= x < |d.calls| ensures CallOk(d, x) { assert CallOk(e, x); }
  }

  lemma PublishedGround(e: Executor, c: CallId)
    requires Ground(e) && e.sweeps == [] && c < |e.calls| && e.calls[c].Pending?
    ensures Ground(PublishedStep(e, c))
  {
    var d, l := PublishedStep(e, c), e.calls[c].lane;
    assert CallOk(e, c);
    if !Mapped(e, l) { UnmappedIsEmpty(e, l); }
    forall k | 0 <= k < |d.table| ensures LaneOk(d, k) {
      assert LaneOk(e, k);
      MembersWait(e, c, k);
      LaneKept(e, d, k);
    }
    forall x | 0 <= x < |d.calls| ensures CallOk(d, x) { assert CallOk(e, x); }
  }

  lemma RunEndedGround(e: Executor, c: CallId, result: Result)
    requires Ground(e) && e.sweeps == [] && c < |e.calls| && e.calls[c].Running?
    ensures Ground(RunEndedStep(e, c, result))
  {
    var d, l := RunEndedStep(e, c, result), e.calls[c].lane;
    assert CallOk(e, c);
    if !Mapped(e, l) { UnmappedIsEmpty(e, l); }
    forall k | 0 <= k < |d.table| ensures LaneOk(d, k) {
      assert LaneOk(e, k);
      MembersWait(e, c, k);
      if k != l || d.table == e.table {
        LaneKept(e, d, k);
      } else {
        forall i | 0 <= i < |d.table[l].queue| ensures Waits(d, l, i) { assert Waits(e, l, i); }
      }
    }
    forall x | 0 <= x < |d.calls| ensures CallOk(d, x) { assert CallOk(e, x); }
  }

  lemma DrainGround(e: Executor, l: LaneId)
    requires Ground(e)
    ensures Ground(Drain(e, l))
  {
    var d := Drain(e, l);
    if Owns(e, l) && !Busy(e, l) {
      HeadsWait(e, l);
      if Head(e, l).None? { ForgetGround(e, l); } else { DequeueGround(e, l); }
    }
  }

  lemma ForgetGround(e: Executor, l: LaneId)
    requires Ground(e) && Mapped(e, l) && !Busy(e, l) && Head(e, l).None?
    ensures Ground(e.(lanes := e.lanes - {e.table[l].key}))
  {
    var d := e.(lanes := e.lanes - {e.table[l].key});
    forall k | 0 <= k < |d.table| ensures LaneOk(d, k) {
      assert LaneOk(e, k);
      LaneKept(e, d, k);
    }
    forall x | 0 <= x < |d.calls| ensures CallOk(d, x) { assert CallOk(e, x); }
  }

  lemma DequeueGround(e: Executor, l: LaneId)
    requires Ground(e) && Mapped(e, l) && Head(e, l).Some? && HeadWaits(e, l)
    ensures Ground(SetPc(WithQueue(e, l, e.table[l].queue[1..]), Head(e, l).value, Starting(l)))
  {
    var next, q := Head(e, l).value, e.table[l].queue;
    var d := SetPc(WithQueue(e, l, q[1..]), next, Starting(l));
    forall k | 0 <= k < |d.table| ensures LaneOk(d, k) {
      assert LaneOk(e, k);
      if k != l {
        MembersWait(e, next, k);
        LaneKept(e, d, k);
      } else {
        forall i | 0 <= i < |q[1..]| ensures Waits(d, l, i) { assert Waits(e, l, i + 1); }
      }
    }
    forall x | 0 <= x < |d.calls| ensures CallOk(d, x) { assert CallOk(e, x); }
  }

  // ---- sweeps ----

  lemma BeginSweepGround(e: Executor, except: Option<CallId>, dispose: bool)
    requires Ground(e)
    ensures Ground(BeginSweepStep(e, except, dispose))
  {
    var d := BeginSweepStep(e, except, dispose);
    if d != e {
      forall l | 0 <= l < |d.table| ensures LaneOk(d, l) {
        assert LaneOk(e, l);
        SweepBegun(e, except, dispose, l);
        LaneKept(e, d, l);
      }
      forall x | 0 <= x < |d.calls| ensures CallOk(d, x) { assert CallOk(e, x); }
    }
  }

  /** A new sweep visits every lane that was in the map. */
  lemma SweepBegun(e: Executor, except: Option<CallId>, dispose: bool, l: LaneId)
    ensures var d := BeginSweepStep(e, except, dispose); d == e || ((SweptSoon(e, l) || Mapped(e, l)) ==> SweptSoon(d, l))
  {
    var d := BeginSweepStep(e, except, dispose);
    if d != e {
      var n := |e.sweeps|;
      if Mapped(e, l) {
        assert l in d.sweeps[n].lanes;
      } else if SweptSoon(e, l) {
        var i :| 0 <= i < |e.sweeps| && l in e.sweeps[i].lanes;
        assert d.sweeps[i] == e.sweeps[i];
      }
    }
  }

  lemma BeginSweepOk(e: Executor, except: Option<CallId>, dispose: bool)
    requires Ground(e) && SweepsOk(e)
    ensures SweepsOk(BeginSweepStep(e, except, dispose))
  {
    var d, n := BeginSweepStep(e, except, dispose), |e.sweeps|;
    if d != e {
      forall i, l | 0 <= i < |d.sweeps| && l in d.sweeps[i].lanes ensures SweepOk(d, i, l) {
        if i < n {
          assert SweepOk(e, i, l);
          assert d.sweeps[i] == e.sweeps[i];
          if !Mapped(e, l) && Spared(e, l, e.sweeps[i].except) {
            var j :| i < j < |e.sweeps| && l in e.sweeps[j].lanes;
            assert d.sweeps[j] == e.sweeps[j];
          }
          assert Mapped(e, l) ==> l in d.sweeps[n].lanes;
        } else {
          var key :| key in e.lanes && e.lanes[key] == l;
        }
      }
    }
  }

  lemma SweepLaneOk(e: Executor, l: LaneId)
    requires Ground(e) && SweepsOk(e) && e.sweeps != [] && l in Top(e).lanes && l < |e.table|
    ensures SweepsOk(SweepLaneStep(e, l))
  {
    var d, n := SweepLaneStep(e, l), |e.sweeps| - 1;
    assert SweepOk(e, n, l);
    forall i, k | 0 <= i < |d.sweeps| && k in d.sweeps[i].lanes ensures SweepOk(d, i, k) {
      assert SweepOk(e, i, k);
      if !Mapped(e, k) && Spared(e, k, e.sweeps[i].except) {
        var j :| i < j < |e.sweeps| && k in e.sweeps[j].lanes;
        assert k != l ==> k in d.sweeps[j].lanes;
        assert k == l && j < n ==> k in d.sweeps[j].lanes;
      }
    }
  }

  lemma EndSweepOk(e: Executor)
    requires SweepsOk(e) && e.sweeps != [] && Top(e).lanes == {}
    ensures SweepsOk(EndSweepStep(e))
  {
    var d := EndSweepStep(e);
    forall i, l | 0 <= i < |d.sweeps| && l in d.sweeps[i].lanes ensures SweepOk(d, i, l) {
      assert SweepOk(e, i, l);
      if !Mapped(e, l) && Spared(e, l, e.sweeps[i].except) {
        var j :| i < j < |e.sweeps| && l in e.sweeps[j].lanes;
        assert d.sweeps[j] == e.sweeps[j];
      }
    }
  }

  lemma StillSwept(e: Executor, d: Executor, l: LaneId)
    requires |d.sweeps| <= |e.sweeps| && SweptSoon(e, l)
    requires forall i :: |d.sweeps| <= i < |e.sweeps| ==> l !in e.sweeps[i].lanes
    requires forall i :: 0 <= i < |d.sweeps| && l in e.sweeps[i].lanes ==> l in d.sweeps[i].lanes
    ensures SweptSoon(d, l)
  {
    var i :| 0 <= i < |e.sweeps| && l in e.sweeps[i].lanes;
    assert i < |d.sweeps|;
  }

  lemma EndSweepGround(e: Executor)
    requires Ground(e) && e.sweeps != [] && Top(e).lanes == {}
    ensures Ground(EndSweepStep(e))
  {
    var d := EndSweepStep(e);
    forall l | 0 <= l < |d.table| ensures LaneOk(d, l) {
      assert LaneOk(e, l);
      if SweptSoon(e, l) { StillSwept(e, d, l); }
      LaneKept(e, d, l);
    }
    forall x | 0 <= x < |d.calls| ensures CallOk(d, x) { assert CallOk(e, x); }
  }

  lemma SweepLaneGround(e: Executor, l: LaneId)
    requires Ground(e) && SweepsOk(e) && e.sweeps != [] && l in Top(e).lanes && l < |e.table|
    ensures Ground(SweepLaneStep(e, l))
  {
    var d := SweepLaneStep(e, l);
    assert SweepOk(e, |e.sweeps| - 1, l) && LaneOk(e, l);
    forall k | 0 <= k < |d.table| ensures LaneOk(d, k) {
      assert LaneOk(e, k);
      if k != l { SweepOther(e, l, k); } else { MembersWaitAll(e, l); }
    }
    forall x | 0 <= x < |d.calls| ensures CallOk(d, x) {
      assert CallOk(e, x);
      MembersWait(e, x, l);
    }
  }

  lemma MembersWaitAll(e: Executor, l: LaneId)
    requires Ground(e) && l < |e.table|
    ensures forall c :: c in e.table[l].queue ==> c < |e.calls| && e.calls[c] == Queued(l)
  {
    forall c | c in e.table[l].queue ensures c < |e.calls| && e.calls[c] == Queued(l) { MembersWait(e, c, l); }
  }

  lemma SweepOther(e: Executor, l: LaneId, k: LaneId)
    requires Ground(e) && e.sweeps != [] && l in Top(e).lanes && l < |e.table| && k < |e.table| && k != l && LaneOk(e, k)
    ensures LaneOk(SweepLaneStep(e, l), k)
  {
    var d := SweepLaneStep(e, l);
    MembersWaitAll(e, l);
    MembersWaitAll(e, k);
    if SweptSoon(e, k) { StillSwept(e, d, k); }
    LaneKept(e, d, k);
  }

  // ---- every step ----

  ghost predicate Inv(e: Executor) {
    Ground(e) && SweepsOk(e) && Minded(e)
  }

  lemma StepSweeps(e: Executor, op: Op)
    requires Ground(e) && SweepsOk(e) && Enabled(e, op)
    ensures SweepsOk(Step(e, op))
  {
    match op
    case Execute(key) =>
      forall i, l | 0 <= i < |e.sweeps| && l in e.sweeps[i].lanes ensures SweepOk(Step(e, op), i, l) { assert SweepOk(e, i, l); }
    case BeginSweep(except, dispose) => BeginSweepOk(e, except, dispose);
    case SweepLane(l) => SweepLaneOk(e, l);
    case EndSweep => EndSweepOk(e);
    case _ => assert Step(e, op).sweeps == [];
  }

  lemma StepGround(e: Executor, op: Op)
    requires Ground(e) && SweepsOk(e) && Enabled(e, op)
    ensures Ground(Step(e, op))
  {
    match op
    case Execute(key) => ExecuteGround(e, key);
    case Locate(c, policy, throws) => LocateGround(e, c, policy, throws);
    case Decide(c, diagnostic, throws) => DecideGround(e, c, diagnostic, throws);
    case Published(c) => PublishedGround(e, c);
    case RunEnded(c, result) => RunEndedGround(e, c, result);
    case BeginSweep(except, dispose) => BeginSweepGround(e, except, dispose);
    case SweepLane(l) => SweepLaneGround(e, l);
    case EndSweep => EndSweepGround(e);
    case _ => PlainStepGround(e, op);
  }

  lemma PlainStepGround(e: Executor, op: Op)
    requires Ground(e) && Enabled(e, op) && (op.Replaced? || op.Started? || op.Checked? || op.Finished? || op.FailedOut?)
    ensures Ground(Step(e, op))
  {
    var l := e.calls[op.c].lane;
    assert CallOk(e, op.c);
    if op.Checked? && Step(e, op).calls[op.c].Pending? {
      OccupyGround(e, op.c, l);
    } else if op.FailedOut? {
      PlainGround(e, op.c, Resolved(Failed));
      DrainGround(SetPc(e, op.c, Resolved(Failed)), l);
    } else if op.Finished? && Owns(e, l) {
      PlainGround(e, op.c, Resolved(e.calls[op.c].result));
      DrainGround(SetPc(e, op.c, Resolved(e.calls[op.c].result)), l);
    } else {
      PlainGround(e, op.c, Step(e, op).calls[op.c]);
    }
  }

  // ---- runs ----

  /** An operation that is not due does not happen. */
  function Next(e: Executor, op: Op): Executor {
    if Enabled(e, op) then Step(e, op) else e
  }

  function After(ops: seq<Op>): Executor {
    if ops == [] then Fresh() else Next(After(ops[..|ops| - 1]), ops[|ops| - 1])
  }

  lemma {:induction false} RunKeeps(ops: seq<Op>)
    ensures Inv(After(ops))
  {
    if ops != [] {
      var e, op := After(ops[..|ops| - 1]), ops[|ops| - 1];
      RunKeeps(ops[..|ops| - 1]);
      if Enabled(e, op) {
        StepGround(e, op);
        StepSweeps(e, op);
        StepMinds(e, op);
      }
    }
  }

  /** No code is under way: every call has resolved, waits in a queue or awaits its run. */
  ghost predicate Quiescent(e: Executor) {
    && e.sweeps == []
    && (forall c :: 0 <= c < |e.calls| ==> e.calls[c].Resolved? || e.calls[c].Running? || e.calls[c].Queued?)
  }

  /** The lane has one live run, and its waiting intents are its queue. */
  ghost predicate Served(e: Executor, l: LaneId)
    requires l < |e.table|
  {
    && e.table[l].active.Some? && e.table[l].active.value < |e.calls| && e.calls[e.table[l].active.value] == Running(l)
    && (forall c :: 0 <= c < |e.calls| && e.calls[c] == Running(l) && c !in e.aborted ==> e.table[l].active == Some(c))
    && |e.table[l].queue| <= MAX_WAITING_INTENTS && Distinct(e.table[l].queue)
    && (forall c :: 0 <= c < |e.calls| ==> (c in e.table[l].queue <==> e.calls[c] == Queued(l)))
  }

  /** Lane discipline. After any run, once no code is under way, every lane in the map has exactly
      one active run and at most 32 waiting intents. */
  lemma LanesAreServed(ops: seq<Op>, l: LaneId)
    requires Quiescent(After(ops)) && Mapped(After(ops), l)
    ensures Served(After(ops), l)
  {
    var e := After(ops);
    RunKeeps(ops);
    assert LaneOk(e, l) && MindedAt(e, l);
    MembersWaitAll(e, l);
    forall c | 0 <= c < |e.calls| ensures c in e.table[l].queue <==> e.calls[c] == Queued(l) { assert CallOk(e, c); }
    forall c | 0 <= c < |e.calls| && e.calls[c] == Running(l) && c !in e.aborted ensures e.table[l].active == Some(c) {
      assert CallOk(e, c);
    }
  }

  /** And no call is lost: it has resolved, or its aborted run is about to end, or it runs or waits in
      a lane that is still in the map. */
  lemma NoCallIsLost(ops: seq<Op>, c: CallId)
    requires Quiescent(After(ops)) && c < |After(ops).calls|
    ensures (var e := After(ops); match e.calls[c]
      case Running(l) => c in e.aborted || (Mapped(e, l) && e.table[l].active == Some(c))
      case Queued(l) => Mapped(e, l) && c in e.table[l].queue
      case other => other.Resolved?)
  {
    var e := After(ops);
    RunKeeps(ops);
    assert CallOk(e, c);
    if !e.calls[c].Resolved? {
      var l := e.calls[c].lane;
      if !Mapped(e, l) { UnmappedIsEmpty(e, l); }
    }
  }

  // ---- each call resolves once, in boundedly many steps ----

  function Rank(pc: Pc): nat {
    match pc
    case Looking(_, _) => 0
    case Deciding(_, _) => 1
    case Queued(_) => 2
    case Replacing(_) => 2
    case Starting(_) => 3
    case Checking(_) => 4
    case Pending(_) => 5
    case Running(_) => 6
    case Finishing(_, _) => 7
    case Failing(_) => 7
    case Resolved(_) => 8
  }

  predicate Rises(before: Pc, after: Pc) {
    before == after || Rank(before) < Rank(after)
  }

  ghost predicate AllRise(a: seq<Pc>, b: seq<Pc>) {
    |a| <= |b| && forall c :: 0 <= c < |a| ==> Rises(a[c], b[c])
  }

  lemma DrainRises(e: Executor, l: LaneId)
    requires HeadWaits(e, l)
    ensures AllRise(e.calls, Drain(e, l).calls) && |Drain(e, l).calls| == |e.calls|
  {
  }

  lemma AllRiseTransitive(a: seq<Pc>, b: seq<Pc>, c: seq<Pc>)
    requires AllRise(a, b) && AllRise(b, c)
    ensures AllRise(a, c)
  {
    forall i | 0 <= i < |a| ensures Rises(a[i], c[i]) { assert Rises(a[i], b[i]) && Rises(b[i], c[i]); }
  }

  lemma ResolveAndDrainRises(e: Executor, c: CallId, l: LaneId, result: Result)
    requires Ground(e) && c < |e.calls| && Plain(e.calls[c]) && !e.calls[c].Resolved?
    ensures AllRise(e.calls, Drain(SetPc(e, c, Resolved(result)), l).calls)
    ensures Drain(SetPc(e, c, Resolved(result)), l).calls[c].Resolved?
  {
    var d := SetPc(e, c, Resolved(result));
    HeadsWait(e, l);
    assert HeadWaits(d, l);
    DrainRises(d, l);
    assert AllRise(e.calls, d.calls);
    AllRiseTransitive(e.calls, d.calls, Drain(d, l).calls);
    assert Rises(d.calls[c], Drain(d, l).calls[c]);
  }

  predicate IsCallStep(op: Op) {
    !op.Execute? && !op.BeginSweep? && !op.SweepLane? && !op.EndSweep?
  }

  lemma DecideRises(e: Executor, c: CallId, diagnostic: bool, throws: bool)
    requires c < |e.calls| && e.calls[c].Deciding?
    ensures AllRise(e.calls, DecideStep(e, c, diagnostic, throws).calls)
    ensures Rank(e.calls[c]) < Rank(DecideStep(e, c, diagnostic, throws).calls[c])
  {
  }

  lemma FinishedRises(e: Executor, c: CallId)
    requires Ground(e) && c < |e.calls| && e.calls[c].Finishing?
    ensures AllRise(e.calls, FinishedStep(e, c).calls)
    ensures Rank(e.calls[c]) < Rank(FinishedStep(e, c).calls[c])
  {
    if Owns(e, e.calls[c].lane) { ResolveAndDrainRises(e, c, e.calls[c].lane, e.calls[c].result); }
  }

  lemma RunEndedRises(e: Executor, c: CallId, result: Result)
    requires c < |e.calls| && e.calls[c].Running?
    ensures AllRise(e.calls, RunEndedStep(e, c, result).calls)
    ensures Rank(e.calls[c]) < Rank(RunEndedStep(e, c, result).calls[c])
  {
  }

  lemma LocateRises(e: Executor, c: CallId, policy: Policy, throws: bool)
    requires c < |e.calls| && e.calls[c].Looking?
    ensures AllRise(e.calls, LocateStep(e, c, policy, throws).calls)
    ensures Rank(e.calls[c]) < Rank(LocateStep(e, c, policy, throws).calls[c])
  {
  }

  lemma CheckedRises(e: Executor, c: CallId, diagnostic: bool, throws: bool)
    requires c < |e.calls| && e.calls[c].Checking?
    ensures AllRise(e.calls, CheckedStep(e, c, diagnostic, throws).calls)
    ensures Rank(e.calls[c]) < Rank(CheckedStep(e, c, diagnostic, throws).calls[c])
  {
  }

  /** Every step takes its own call strictly forward and no call back; a resolved call never moves. */
  lemma StepRises(e: Executor, op: Op)
    requires Inv(e) && Enabled(e, op)
    ensures AllRise(e.calls, Step(e, op).calls)
    ensures IsCallStep(op) ==> Rank(e.calls[op.c]) < Rank(Step(e, op).calls[op.c])
  {
    match op
    case Finished(c) => FinishedRises(e, c);
    case FailedOut(c) => ResolveAndDrainRises(e, c, e.calls[c].lane, Failed);
    case SweepLane(l) => MembersWaitAll(e, l);
    case Decide(c, diagnostic, throws) => DecideRises(e, c, diagnostic, throws);
    case Locate(c, policy, throws) => LocateRises(e, c, policy, throws);
    case Checked(c, diagnostic, throws) => CheckedRises(e, c, diagnostic, throws);
    case RunEnded(c, result) => RunEndedRises(e, c, result);
    case _ =>
  }

  /** A call that has resolved keeps its result whatever happens afterwards. */
  lemma {:induction false} ResolvedForGood(ops: seq<Op>, more: seq<Op>, c: CallId)
    requires c < |After(ops).calls| && After(ops).calls[c].Resolved?
    ensures c < |After(ops + more).calls| && After(ops + more).calls[c] == After(ops).calls[c]
  {
    if more == [] {
      assert ops + more == ops;
    } else {
      var front, op := more[..|more| - 1], more[|more| - 1];
      var e := After(ops + front);
      ResolvedForGood(ops, front, c);
      RunKeeps(ops + front);
      assert (ops + more)[..|ops + more| - 1] == ops + front && (ops + more)[|ops + more| - 1] == op;
      if Enabled(e, op) {
        StepRises(e, op);
        assert Rises(e.calls[c], Step(e, op).calls[c]);
      }
    }
  }

  function TotalRank(calls: seq<Pc>): nat {
    if calls == [] then 0 else TotalRank(calls[..|calls| - 1]) + Rank(calls[|calls| - 1])
  }

  lemma {:induction false} TotalRises(a: seq<Pc>, b: seq<Pc>, c: nat)
    requires |a| == |b| && AllRise(a, b)
    ensures TotalRank(a) <= TotalRank(b)
    ensures c < |a| && Rank(a[c]) < Rank(b[c]) ==> TotalRank(a) < TotalRank(b)
  {
    if a != [] {
      var n := |a| - 1;
      assert forall i :: 0 <= i < n ==> Rises(a[i], b[i]);
      TotalRises(a[..n], b[..n], c);
      assert Rises(a[n], b[n]);
    }
  }

  lemma {:induction false} TotalIsBounded(calls: seq<Pc>)
    ensures TotalRank(calls) <= 8 * |calls|
  {
    if calls != [] { TotalIsBounded(calls[..|calls| - 1]); }
  }

  function CallSteps(ops: seq<Op>): nat {
    if ops == [] then 0
    else
      var front, op := ops[..|ops| - 1], ops[|ops| - 1];
      CallSteps(front) + (if Enabled(After(front), op) && IsCallStep(op) then 1 else 0)
  }

  lemma {:induction false} StepsAreCounted(ops: seq<Op>)
    ensures CallSteps(ops) <= TotalRank(After(ops).calls)
  {
    if ops != [] {
      var front, op := ops[..|ops| - 1], ops[|ops| - 1];
      var e := After(front);
      StepsAreCounted(front);
      RunKeeps(front);
      if Enabled(e, op) {
        StepRises(e, op);
        var d := Step(e, op);
        if op.Execute? {
          assert d.calls[..|e.calls|] == e.calls;
        } else {
          TotalRises(e.calls, d.calls, if IsCallStep(op) then op.c else 0);
        }
      }
    }
  }

  /** Starting, failing and draining cannot go on for ever: over any run, all calls together take at
      most eight steps for each `execute`. */
  lemma StepsAreBounded(ops: seq<Op>)
    ensures CallSteps(ops) <= 8 * |After(ops).calls|
  {
    StepsAreCounted(ops);
    TotalIsBounded(After(ops).calls);
  }

  // ---- first in, first out ----

  /** A queue grows at its end, gives up its head to be started, or is resolved as a whole. */
  predicate QueueMoves(e: Executor, d: Executor, l: LaneId)
    requires l < |e.table| && l < |d.table|
  {
    var before, after := e.table[l].queue, d.table[l].queue;
    || after == before
    || (after != [] && after[..|after| - 1] == before && |before| < MAX_WAITING_INTENTS)
    || (before != [] && after == before[1..] && before[0] < |d.calls| && d.calls[before[0]] == Starting(l))
    || (after == [] && forall i :: 0 <= i < |before| && before[i] < |d.calls| ==> d.calls[before[i]] == Resolved(Aborted))
  }

  lemma DrainMoves(e: Executor, l: LaneId, k: LaneId)
    requires HeadWaits(e, l) && k < |e.table|
    ensures k < |Drain(e, l).table| && QueueMoves(e, Drain(e, l), k)
  {
  }

  lemma DrainedMoves(e: Executor, c: CallId, l: LaneId, result: Result, k: LaneId)
    requires Ground(e) && c < |e.calls| && Plain(e.calls[c]) && k < |e.table|
    ensures k < |Drain(SetPc(e, c, Resolved(result)), l).table| && QueueMoves(e, Drain(SetPc(e, c, Resolved(result)), l), k)
  {
    HeadsWait(e, l);
    assert HeadWaits(SetPc(e, c, Resolved(result)), l);
    DrainMoves(SetPc(e, c, Resolved(result)), l, k);
  }

  /** Waiting intents of a lane start in the order they came. */
  lemma QueuesAreFifo(e: Executor, op: Op, k: LaneId)
    requires Inv(e) && Enabled(e, op) && k < |e.table|
    ensures k < |Step(e, op).table| && QueueMoves(e, Step(e, op), k)
  {
    match op
    case Finished(c) =>
      if Owns(e, e.calls[c].lane) { DrainedMoves(e, c, e.calls[c].lane, e.calls[c].result, k); }
    case FailedOut(c) => DrainedMoves(e, c, e.calls[c].lane, Failed, k);
    case SweepLane(l) => MembersWaitAll(e, l);
    case Decide(c, diagnostic, throws) =>
      assert Step(e, op).table[k].queue == e.table[k].queue || Step(e, op).table[k].queue == e.table[k].queue + [c];
    case _ =>
  }
}
