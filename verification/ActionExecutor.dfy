/** The executor as the object it is (action-executor.ts). A lane object is named by its position in
    the table of lanes made so far. */
module ActionExecutors {
  /* The small methods carry out one step of `ActionLanes` each. The large ones are `execute`, `start`,
     `run` and `cancelAll`, which put them together. Wherever they run foreign code (a state or abort
     listener, the runtime port) that code may call the executor again, as often and as deeply as it
     likes: `moves` lists what it will do, and the methods are mutually recursive through it. */

  import opened JsonData
  import opened ActionLanes

  /** What foreign code answers when it returns. */
  datatype Answer = Answer(policy: Policy, throws: bool, diagnostic: bool)

  /** A call of foreign code into the executor, or its return. */
  datatype Move = Call(key: string) | Cancel(except: Option<CallId>) | DisposeAll | Return(answer: Answer)

  /** The call's code is under way: it has neither resolved nor does it wait or await its run. */
  predicate UnderWay(pc: Pc) {
    !pc.Resolved? && !pc.Running? && !pc.Queued?
  }

  ghost predicate LeftAlone(before: seq<Pc>, after: seq<Pc>, k: CallId)
    requires k < |after|
  {
    if k < |before| && UnderWay(before[k]) then after[k] == before[k] else !UnderWay(after[k])
  }

  /** A resolved call keeps its result, and of the calls outside `mine` those under way stand where
      they stood while all others are settled. */
  ghost predicate Leaves(before: seq<Pc>, after: seq<Pc>, mine: set<CallId>) {
    && |before| <= |after|
    && (forall k :: 0 <= k < |before| && before[k].Resolved? ==> after[k] == before[k])
    && (forall k :: 0 <= k < |after| && k !in mine ==> LeftAlone(before, after, k))
  }

  lemma LeavesTransitive(a: seq<Pc>, b: seq<Pc>, c: seq<Pc>, mine: set<CallId>)
    requires Leaves(a, b, mine) && Leaves(b, c, mine)
    ensures Leaves(a, c, mine)
  {
    forall k | 0 <= k < |c| && k !in mine ensures LeftAlone(a, c, k) {
      assert LeftAlone(b, c, k);
      if k < |b| { assert LeftAlone(a, b, k); }
    }
  }

  /** A step of a call touches no other call, unless it drains the lane. */
  lemma StepLeaves(e: Executor, op: Op)
    requires Enabled(e, op) && IsCallStep(op) && !op.Finished? && !op.FailedOut?
    ensures Leaves(e.calls, Step(e, op).calls, {op.c}) && |Step(e, op).calls| == |e.calls| && Step(e, op).sweeps == e.sweeps
  {
  }

  lemma SweepLeaves(e: Executor, l: LaneId)
    requires Inv(e) && Enabled(e, SweepLane(l))
    ensures Leaves(e.calls, SweepLaneStep(e, l).calls, {})
  {
    MembersWaitAll(e, l);
  }

  /** The call has resolved, and `next` is the intent its lane `l` goes on with. */
  ghost predicate Handed(e: Executor, d: Executor, c: CallId, l: LaneId, next: Option<CallId>) {
    && |d.calls| == |e.calls| && c < |d.calls| && d.calls[c].Resolved? && d.sweeps == e.sweeps
    && (match next
        case None => Leaves(e.calls, d.calls, {c})
        case Some(n) => Leaves(e.calls, d.calls, {c, n}) && Promoted(e, d, l, n) && n != c)
  }

  /** The intent at the head of the queue has left it and starts. */
  ghost predicate Promoted(e: Executor, d: Executor, l: LaneId, n: CallId) {
    && n < |e.calls| && e.calls[n].Queued? && n < |d.calls| && d.calls[n] == Starting(l)
    && l < |e.table| && l < |d.table| && |d.table[l].queue| < |e.table[l].queue|
  }

  function NextIntent(e: Executor, l: LaneId): Option<CallId> {
    if Owns(e, l) && !Busy(e, l) then Head(e, l) else None
  }

  lemma DrainHands(e: Executor, c: CallId, l: LaneId, result: Result)
    requires Ground(e) && c < |e.calls| && (e.calls[c].Failing? || e.calls[c].Finishing?) && l < |e.table|
    ensures Handed(e, Drain(SetPc(e, c, Resolved(result)), l), c, l, NextIntent(e, l))
  {
    MembersWaitAll(e, l);
    if Head(e, l).Some? { assert Head(e, l).value in e.table[l].queue; }
  }

  lemma AfterStep(ops: seq<Op>, op: Op)
    ensures After(ops + [op]) == Next(After(ops), op)
  {
    assert (ops + [op])[..|ops|] == ops;
  }

  lemma {:induction false} DisposedStays(ops: seq<Op>, more: seq<Op>)
    requires After(ops).disposed && ops <= more
    ensures After(more).disposed
    decreases |more|
  {
    if ops != more {
      var front := more[..|more| - 1];
      DisposedStays(ops, front);
      DisposalIsFinal(After(front), more[|more| - 1]);
    }
  }

  lemma DisposalIsFinal(e: Executor, op: Op)
    requires e.disposed
    ensures Next(e, op).disposed
  {
  }

  /** No code is under way, and every lane in the map is served. */
  ghost predicate AtRest(e: Executor) {
    Quiescent(e) && forall l :: Mapped(e, l) ==> Served(e, l)
  }

  lemma RestStays(before: Executor, after: Executor, ops: seq<Op>, mine: set<CallId>)
    requires Quiescent(before) && after == After(ops) && after.sweeps == []
    requires Leaves(before.calls, after.calls, mine) && forall c :: c in mine ==> c < |after.calls| && !UnderWay(after.calls[c])
    ensures AtRest(after)
  {
    forall c | 0 <= c < |after.calls| ensures !UnderWay(after.calls[c]) {
      if c !in mine { assert LeftAlone(before.calls, after.calls, c); }
    }
    forall l | Mapped(after, l) ensures Served(after, l) { LanesAreServed(ops, l); }
  }

  /** A call that began and went on until it was settled has left nothing under way. */
  lemma BegunLeaves(before: seq<Pc>, begun: seq<Pc>, after: seq<Pc>, c: CallId)
    requires c == |before| && |begun| == c + 1 && begun[..c] == before
    requires Leaves(begun, after, {c}) && !UnderWay(after[c])
    ensures Leaves(before, after, {})
  {
    assert forall k :: 0 <= k < c ==> begun[k] == before[k];
    forall k | 0 <= k < |after| ensures LeftAlone(before, after, k) {
      if k != c { assert LeftAlone(begun, after, k); }
    }
  }

  /** A call has handed its lane on, and the intent it went to is settled by now. */
  lemma HandedLeaves(before: seq<Pc>, handed: seq<Pc>, after: seq<Pc>, c: CallId, next: Option<CallId>)
    requires c < |before| && |handed| == |before| && handed[c].Resolved?
    requires match next
      case None => Leaves(before, handed, {c}) && after == handed
      case Some(n) =>
        && n < |before| && n != c && before[n].Queued? && Leaves(before, handed, {c, n})
        && Leaves(handed, after, {n}) && !UnderWay(after[n])
    ensures Leaves(before, after, {c}) && after[c] == handed[c]
  {
    if next.Some? {
      forall k | 0 <= k < |after| && k !in {c} ensures LeftAlone(before, after, k) {
        if k != next.value {
          assert LeftAlone(handed, after, k);
          if k < |handed| { assert LeftAlone(before, handed, k); }
        }
      }
    }
  }

  /** What the policy of a call does when it meets an owned lane and nothing speaks against it. */
  ghost predicate Decided(e: Executor, d: Executor, c: CallId, a: Answer) {
    c < |e.calls| && c < |d.calls| && e.calls[c].Deciding? && Owns(e, e.calls[c].lane) && !a.throws && !a.diagnostic ==>
      var l := e.calls[c].lane;
      && |d.table| == |e.table|
      && match e.calls[c].policy
         case DropNew => d.calls[c] == Resolved(Dropped) && d.table == e.table && d.aborted == e.aborted
         case Enqueue =>
           && d.aborted == e.aborted && d.table[l].active == e.table[l].active
           && (if |e.table[l].queue| >= 32 then d.calls[c] == Resolved(Dropped) && d.table == e.table
               else d.calls[c] == Queued(l) && d.table[l].queue == e.table[l].queue + [c])
         case Replace =>
           && d.calls[c] == Replacing(l) && d.table[l].queue == e.table[l].queue && d.table[l].active.None?
           && d.aborted == e.aborted + (if e.table[l].active.Some? then {e.table[l].active.value} else {})
  }

  class DeclarativeActionExecutor {
    var lanes: map<string, LaneId>
    var table: seq<Lane>
    var calls: seq<Pc>
    var aborted: set<CallId>
    var sweeps: seq<Sweep>
    var disposed: bool
    var generation: nat
    var moves: seq<Move>
    ghost var ops: seq<Op>

    ghost function Contents(): Executor
      reads this
    {
      Executor(lanes, table, calls, aborted, sweeps, disposed, generation)
    }

    /** The fields are those after the steps taken so far. */
    ghost predicate Valid()
      reads this
    {
      Contents() == After(ops)
    }

    /** The run goes on from where it was. */
    ghost predicate Continues(taken: seq<Op>, left: nat)
      reads this
    {
      Valid() && taken <= ops && |moves| <= left
    }

    constructor (moves: seq<Move>)
      ensures Valid() && Contents() == Fresh() && this.moves == moves
    {
      lanes, table, calls, aborted, sweeps, disposed, generation := map[], [], [], {}, [], false, 0;
      this.moves := moves;
      ops := [];
    }

    ghost method Record(op: Op, before: Executor)
      requires before == After(ops) && Enabled(before, op) && Contents() == Step(before, op)
      modifies this`ops
      ensures Valid() && ops == old(ops) + [op]
    {
      AfterStep(ops, op);
      ops := ops + [op];
    }

    method OwnsLane(l: LaneId) returns (ok: bool)
      ensures ok == Owns(Contents(), l)
    {
      ok := !disposed && l < |table| && table[l].key in lanes && lanes[table[l].key] == l;
    }

    method Settle(c: CallId, pc: Pc)
      requires c < |calls|
      modifies this`calls
      ensures Contents() == SetPc(old(Contents()), c, pc)
    {
      calls := calls[c := pc];
    }

    method Begin(key: string) returns (c: CallId)
      requires Valid()
      modifies this`calls, this`ops
      ensures Valid() && ops == old(ops) + [ActionLanes.Execute(key)]
      ensures Contents() == ExecuteStep(old(Contents()), key) && c == |old(calls)|
    {
      c := |calls|;
      calls := calls + [if disposed || sweeps != [] then Resolved(Aborted) else Looking(key, generation)];
      Record(ActionLanes.Execute(key), old(Contents()));
    }

    method FindLane(c: CallId, a: Answer)
      requires Valid() && Enabled(Contents(), Locate(c, a.policy, a.throws))
      modifies this`calls, this`lanes, this`table, this`ops
      ensures Valid() && ops == old(ops) + [Locate(c, a.policy, a.throws)]
      ensures Leaves(old(calls), calls, {c}) && |calls| == |old(calls)|
      ensures calls[c].Deciding? || calls[c].Starting? || calls[c].Resolved?
    {
      RunKeeps(ops);
      var key := calls[c].key;
      if a.throws {
        Settle(c, Resolved(Failed));
      } else if disposed || calls[c].generation != generation {
        Settle(c, Resolved(Aborted));
      } else if key in lanes {
        var l := lanes[key];
        Settle(c, if table[l].active.Some? then Deciding(l, a.policy) else Starting(l));
      } else {
        var l := |table|;
        table := table + [Lane(key, None, [])];
        lanes := lanes[key := l];
        Settle(c, Starting(l));
      }
      StepLeaves(old(Contents()), Locate(c, a.policy, a.throws));
      Record(Locate(c, a.policy, a.throws), old(Contents()));
    }

    method CancelLane(l: LaneId)
      requires l < |table|
      modifies this`table, this`aborted
      ensures Contents() == CancelActive(old(Contents()), l)
    {
      if table[l].active.Some? {
        aborted := aborted + {table[l].active.value};
        table := table[l := table[l].(active := None)];
      }
    }

    /** A call that finds its lane busy: refused, dropped, queued, or it takes the lane over. */
    method MeetBusyLane(c: CallId, a: Answer)
      requires Valid() && Enabled(Contents(), Decide(c, a.diagnostic, a.throws))
      modifies this`calls, this`table, this`aborted, this`ops
      ensures Valid() && ops == old(ops) + [Decide(c, a.diagnostic, a.throws)]
      ensures Leaves(old(calls), calls, {c}) && |calls| == |old(calls)|
      ensures calls[c].Replacing? || calls[c].Queued? || calls[c].Resolved?
      ensures Decided(old(Contents()), Contents(), c, a)
    {
      var l := calls[c].lane;
      var owned := OwnsLane(l);
      if a.throws {
        Settle(c, Resolved(Failed));
      } else if !owned {
        Settle(c, Resolved(Aborted));
      } else if a.diagnostic {
        Settle(c, Resolved(Failed));
      } else if calls[c].policy.Enqueue? {
        if |table[l].queue| >= MAX_WAITING_INTENTS {
          Settle(c, Resolved(Dropped));
        } else {
          table := table[l := table[l].(queue := table[l].queue + [c])];
          Settle(c, Queued(l));
        }
      } else if !calls[c].policy.Replace? {
        Settle(c, Resolved(Dropped));
      } else {
        CancelLane(l);
        Settle(c, Replacing(l));
      }
      StepLeaves(old(Contents()), Decide(c, a.diagnostic, a.throws));
      Record(Decide(c, a.diagnostic, a.throws), old(Contents()));
    }

    /** The replaced run has been told; its lane may have changed hands meanwhile. */
    method TakeOver(c: CallId)
      requires Valid() && Enabled(Contents(), Replaced(c))
      modifies this`calls, this`ops
      ensures Valid() && ops == old(ops) + [Replaced(c)]
      ensures Leaves(old(calls), calls, {c}) && |calls| == |old(calls)|
      ensures calls[c].Starting? || calls[c].Resolved?
    {
      RunKeeps(ops);
      assert CallOk(Contents(), c);
      var l := calls[c].lane;
      var owned := OwnsLane(l);
      Settle(c, if !owned || table[l].active.Some? then Resolved(Aborted) else Starting(l));
      StepLeaves(old(Contents()), Replaced(c));
      Record(Replaced(c), old(Contents()));
    }

    /** The node of a starting call has been read. */
    method Prepare(c: CallId, throws: bool)
      requires Valid() && Enabled(Contents(), Started(c, throws))
      modifies this`calls, this`ops
      ensures Valid() && ops == old(ops) + [Started(c, throws)]
      ensures Leaves(old(calls), calls, {c}) && |calls| == |old(calls)|
      ensures calls[c].Resolved? || ((calls[c].Checking? || calls[c].Failing?) && calls[c].lane == old(calls[c].lane))
    {
      RunKeeps(ops);
      assert CallOk(Contents(), c);
      var l := calls[c].lane;
      var owned := OwnsLane(l);
      if throws {
        Settle(c, if owned then Failing(l) else Resolved(Aborted));
      } else {
        Settle(c, if !owned || table[l].active.Some? then Resolved(Aborted) else Checking(l));
      }
      StepLeaves(old(Contents()), Started(c, throws));
      Record(Started(c, throws), old(Contents()));
    }

    /** The preflight of a starting call has answered. */
    method Occupy(c: CallId, a: Answer)
      requires Valid() && Enabled(Contents(), Checked(c, a.diagnostic, a.throws))
      modifies this`calls, this`table, this`ops
      ensures Valid() && ops == old(ops) + [Checked(c, a.diagnostic, a.throws)]
      ensures Leaves(old(calls), calls, {c}) && |calls| == |old(calls)|
      ensures calls[c].Resolved? || ((calls[c].Pending? || (calls[c].Failing? && table == old(table))) && calls[c].lane == old(calls[c].lane))
    {
      RunKeeps(ops);
      assert CallOk(Contents(), c);
      var l := calls[c].lane;
      var owned := OwnsLane(l);
      if a.throws {
        Settle(c, if owned then Failing(l) else Resolved(Aborted));
      } else if !owned || table[l].active.Some? {
        Settle(c, Resolved(Aborted));
      } else if a.diagnostic {
        Settle(c, Failing(l));
      } else {
        table := table[l := table[l].(active := Some(c))];
        Settle(c, Pending(l));
      }
      StepLeaves(old(Contents()), Checked(c, a.diagnostic, a.throws));
      Record(Checked(c, a.diagnostic, a.throws), old(Contents()));
    }

    /** Listeners know that the call is pending; it runs if it still holds its lane. */
    method BeginRun(c: CallId)
      requires Valid() && Enabled(Contents(), Published(c))
      modifies this`calls, this`ops
      ensures Valid() && ops == old(ops) + [Published(c)]
      ensures Leaves(old(calls), calls, {c}) && |calls| == |old(calls)|
      ensures calls[c].Running? || calls[c].Resolved?
    {
      var l := calls[c].lane;
      var owned := OwnsLane(l);
      Settle(c, if owned && table[l].active == Some(c) then Running(l) else Resolved(Aborted));
      StepLeaves(old(Contents()), Published(c));
      Record(Published(c), old(Contents()));
    }

    /** The head of the queue starts, or the lane is forgotten. */
    method DrainLane(l: LaneId) returns (next: Option<CallId>)
      requires l < |table| && forall c :: c in table[l].queue ==> c < |calls|
      modifies this`calls, this`table, this`lanes
      ensures Contents() == Drain(old(Contents()), l)
      ensures next == NextIntent(old(Contents()), l)
    {
      var owned := OwnsLane(l);
      if !owned || table[l].active.Some? { return None; }
      if table[l].queue == [] {
        lanes := lanes - {table[l].key};
        return None;
      }
      var first := table[l].queue[0];
      assert first in table[l].queue;
      table := table[l := table[l].(queue := table[l].queue[1..])];
      Settle(first, Starting(l));
      return Some(first);
    }

    method EndRun(c: CallId, result: Result)
      requires Valid() && Enabled(Contents(), RunEnded(c, result))
      modifies this`calls, this`table, this`ops
      ensures Valid() && ops == old(ops) + [RunEnded(c, result)]
      ensures Leaves(old(calls), calls, {c}) && |calls| == |old(calls)|
      ensures calls[c].Finishing? || calls[c].Resolved?
    {
      var l := calls[c].lane;
      if l < |table| && table[l].active == Some(c) {
        table := table[l := table[l].(active := None)];
        Settle(c, Finishing(l, result));
      } else {
        Settle(c, Resolved(Aborted));
      }
      StepLeaves(old(Contents()), RunEnded(c, result));
      Record(RunEnded(c, result), old(Contents()));
    }

    /** What follows once the listeners know the outcome of a run. */
    method FinishRun(c: CallId) returns (next: Option<CallId>)
      requires Valid() && Enabled(Contents(), Finished(c))
      modifies this`calls, this`table, this`lanes, this`ops
      ensures Valid() && ops == old(ops) + [Finished(c)]
      ensures Handed(old(Contents()), Contents(), c, old(calls[c].lane), next)
    {
      var l, result := calls[c].lane, calls[c].result;
      RunKeeps(ops);
      assert CallOk(Contents(), c);
      MembersWaitAll(Contents(), l);
      DrainHands(Contents(), c, l, result);
      var owned := OwnsLane(l);
      if !owned {
        Settle(c, Resolved(Aborted));
        next := None;
      } else {
        Settle(c, Resolved(result));
        next := DrainLane(l);
      }
      Record(Finished(c), old(Contents()));
    }

    /** What follows once the listeners know of a failed start. */
    method FailOut(c: CallId) returns (next: Option<CallId>)
      requires Valid() && Enabled(Contents(), FailedOut(c))
      modifies this`calls, this`table, this`lanes, this`ops
      ensures Valid() && ops == old(ops) + [FailedOut(c)]
      ensures Handed(old(Contents()), Contents(), c, old(calls[c].lane), next)
    {
      var l := calls[c].lane;
      RunKeeps(ops);
      assert CallOk(Contents(), c);
      MembersWaitAll(Contents(), l);
      DrainHands(Contents(), c, l, Failed);
      Settle(c, Resolved(Failed));
      next := DrainLane(l);
      Record(FailedOut(c), old(Contents()));
    }

    /** The first part of `cancelAll`: the map is cleared but for the lane of the spared run. */
    method StartSweep(except: Option<CallId>, dispose: bool)
      requires Valid() && !(dispose && disposed)
      modifies this`lanes, this`sweeps, this`disposed, this`generation, this`ops
      ensures Valid() && ops == old(ops) + [BeginSweep(except, dispose)]
      ensures |sweeps| == |old(sweeps)| + 1 && sweeps[..|old(sweeps)|] == old(sweeps) && disposed == (old(disposed) || dispose)
    {
      RunKeeps(ops);
      var spared := if dispose then None else except;
      disposed := disposed || dispose;
      generation := generation + 1;
      sweeps := sweeps + [Sweep(lanes.Values, spared)];
      lanes := map key | key in lanes && spared.Some? && table[lanes[key]].active == spared :: lanes[key];
      Record(BeginSweep(except, dispose), old(Contents()));
    }

    /** One lane of the sweep: its intents are resolved in their order, then its run is cancelled. */
    method SweepOne(l: LaneId)
      requires Valid() && Enabled(Contents(), SweepLane(l))
      modifies this`calls, this`table, this`aborted, this`sweeps, this`ops
      ensures Valid() && ops == old(ops) + [SweepLane(l)]
      ensures Leaves(old(calls), calls, {})
      ensures sweeps == old(sweeps)[|old(sweeps)| - 1 := old(Top(Contents())).(lanes := old(Top(Contents())).lanes - {l})]
    {
      RunKeeps(ops);
      MembersWaitAll(Contents(), l);
      SweepLeaves(Contents(), l);
      var n := |sweeps| - 1;
      var except := sweeps[n].except;
      sweeps := sweeps[n := sweeps[n].(lanes := sweeps[n].lanes - {l})];
      ResolveQueue(table[l].queue);
      table := table[l := table[l].(queue := [])];
      if table[l].active != except { CancelLane(l); }
      Record(SweepLane(l), old(Contents()));
    }

    method ResolveQueue(waiting: seq<CallId>)
      requires forall c :: c in waiting ==> c < |calls|
      modifies this`calls
      ensures calls == ResolveAll(old(calls), waiting)
    {
      for i := 0 to |waiting|
        invariant |calls| == |old(calls)|
        invariant forall c :: 0 <= c < |calls| ==> calls[c] == if c in waiting[..i] then Resolved(Aborted) else old(calls)[c]
      {
        assert waiting[..i + 1] == waiting[..i] + [waiting[i]] && waiting[i] in waiting;
        calls := calls[waiting[i] := Resolved(Aborted)];
      }
      assert waiting[..|waiting|] == waiting;
    }

    method FinishSweep()
      requires Valid() && Enabled(Contents(), EndSweep)
      modifies this`sweeps, this`ops
      ensures Valid() && ops == old(ops) + [EndSweep]
      ensures sweeps == old(sweeps)[..|old(sweeps)| - 1]
    {
      sweeps := sweeps[..|sweeps| - 1];
      Record(EndSweep, old(Contents()));
    }

    // ---- put together ----

    /** Foreign code runs: it calls back into the executor until it returns. */
    method Foreign() returns (a: Answer)
      requires Valid()
      modifies this
      ensures Continues(old(ops), |old(moves)|) && sweeps == old(sweeps) && Leaves(old(calls), calls, {})
      ensures |moves| == |old(moves)| ==> Contents() == old(Contents())
      decreases |moves|, 0, 0
    {
      while moves != []
        invariant Continues(old(ops), |old(moves)|) && sweeps == old(sweeps) && Leaves(old(calls), calls, {})
        invariant |moves| == |old(moves)| ==> Contents() == old(Contents())
        decreases |moves|
      {
        var move := moves[0];
        ghost var before := calls;
        moves := moves[1..];
        match move {
          case Return(answer) => return answer;
          case Call(key) => var c := Execute(key);
          case Cancel(except) => CancelAll(except);
          case DisposeAll => Dispose();
        }
        LeavesTransitive(old(calls), before, calls, {});
      }
      return Answer(DropNew, false, false);
    }

    /** Foreign code runs in the middle of a call, which it does not touch. */
    method Interrupt(c: CallId) returns (a: Answer)
      requires Valid() && c < |calls| && UnderWay(calls[c])
      modifies this
      ensures Goes(old(ops), |old(moves)|, old(sweeps), old(calls), c) && calls[c] == old(calls[c])
      ensures |moves| == |old(moves)| ==> Contents() == old(Contents())
      decreases |moves|, 0, 1
    {
      a := Foreign();
      assert LeftAlone(old(calls), calls, c);
    }

    /** One call has gone on, and with it perhaps others that are settled by now. */
    ghost predicate Goes(taken: seq<Op>, left: nat, stack: seq<Sweep>, before: seq<Pc>, c: CallId)
      reads this
    {
      Continues(taken, left) && sweeps == stack && c < |before| && Leaves(before, calls, {c})
    }

    /** A call of `execute` leaves nothing under way: it has resolved, waits in its lane's queue, or
        its run has begun. At rest before, the executor is at rest after: every lane in the map has one
        live run, and at most 32 waiting intents. */
    method Execute(key: string) returns (c: CallId)
      requires Valid()
      modifies this
      ensures Continues(old(ops), |old(moves)|) && sweeps == old(sweeps) && Leaves(old(calls), calls, {})
      ensures c == |old(calls)| < |calls| && !UnderWay(calls[c])
      ensures Quiescent(old(Contents())) ==> AtRest(Contents())
      decreases |moves|, 3, 0
    {
      c := Begin(key);
      ghost var begun := calls;
      if !calls[c].Resolved? { Proceed(c); }
      BegunLeaves(old(calls), begun, calls, c);
      if Quiescent(old(Contents())) { RestStays(old(Contents()), Contents(), ops, {}); }
    }

    /** The call is under way: its lane is found, busy or not. */
    method Proceed(c: CallId)
      requires Valid() && sweeps == [] && c < |calls| && calls[c].Looking?
      modifies this
      ensures Goes(old(ops), |old(moves)|, [], old(calls), c) && !UnderWay(calls[c])
      decreases |moves|, 2, 1
    {
      var a := Interrupt(c);
      ghost var before := calls;
      FindLane(c, a);
      LeavesTransitive(old(calls), before, calls, {c});
      before := calls;
      if calls[c].Deciding? {
        Contend(c);
      } else if a.throws {
        a := Foreign();
      }
      LeavesTransitive(old(calls), before, calls, {c});
      before := calls;
      if calls[c].Starting? { Start(c); }
      LeavesTransitive(old(calls), before, calls, {c});
    }

    /** The lane is busy. */
    method Contend(c: CallId)
      requires Valid() && sweeps == [] && c < |calls| && calls[c].Deciding?
      modifies this
      ensures Goes(old(ops), |old(moves)|, [], old(calls), c) && (calls[c].Starting? || !UnderWay(calls[c]))
      decreases |moves|, 1, 0
    {
      var a := Interrupt(c);
      ghost var before := calls;
      MeetBusyLane(c, a);
      LeavesTransitive(old(calls), before, calls, {c});
      before := calls;
      if calls[c].Replacing? {
        a := Interrupt(c);
        LeavesTransitive(old(calls), before, calls, {c});
        before := calls;
        TakeOver(c);
        LeavesTransitive(old(calls), before, calls, {c});
      } else if a.throws {
        a := Foreign();
        LeavesTransitive(old(calls), before, calls, {c});
      }
    }

    /** How many intents wait behind a starting or failing call. */
    ghost function Behind(c: CallId): nat
      reads this
    {
      if c < |calls| && (calls[c].Starting? || calls[c].Failing?) && calls[c].lane < |table|
      then |table[calls[c].lane].queue| else 0
    }

    /** Starts a call and, should it fail, the next one of its lane, and so on: the queue gets shorter
        each time, unless foreign code has made one of its finitely many moves. */
    method Start(c: CallId)
      requires Valid() && sweeps == [] && c < |calls| && calls[c].Starting?
      modifies this
      ensures Goes(old(ops), |old(moves)|, [], old(calls), c) && !UnderWay(calls[c])
      decreases |moves|, 1, Behind(c), 1
    {
      TryStart(c);
      ghost var before := calls;
      if calls[c].Failing? { Fail(c); }
      LeavesTransitive(old(calls), before, calls, {c});
    }

    /** The call occupies its lane and runs, unless the lane is lost or a check fails. */
    method TryStart(c: CallId)
      requires Valid() && sweeps == [] && c < |calls| && calls[c].Starting?
      modifies this
      ensures Goes(old(ops), |old(moves)|, [], old(calls), c) && (calls[c].Failing? || !UnderWay(calls[c]))
      ensures calls[c].Failing? && |moves| == |old(moves)| ==> calls[c].lane == old(calls[c].lane) && table == old(table)
      decreases |moves|, 0, 3
    {
      var a := Interrupt(c);
      ghost var before := calls;
      Prepare(c, a.throws);
      LeavesTransitive(old(calls), before, calls, {c});
      before := calls;
      if calls[c].Checking? { Check(c); }
      LeavesTransitive(old(calls), before, calls, {c});
    }

    method Check(c: CallId)
      requires Valid() && sweeps == [] && c < |calls| && calls[c].Checking?
      modifies this
      ensures Goes(old(ops), |old(moves)|, [], old(calls), c) && (calls[c].Failing? || !UnderWay(calls[c]))
      ensures calls[c].Failing? && |moves| == |old(moves)| ==> calls[c].lane == old(calls[c].lane) && table == old(table)
      decreases |moves|, 0, 2
    {
      var a := Interrupt(c);
      ghost var before := calls;
      Occupy(c, a);
      LeavesTransitive(old(calls), before, calls, {c});
      before := calls;
      if calls[c].Pending? {
        a := Interrupt(c);
        LeavesTransitive(old(calls), before, calls, {c});
        before := calls;
        BeginRun(c);
        LeavesTransitive(old(calls), before, calls, {c});
      }
    }

    /** Listeners are told of the failed start, and the next intent of the lane starts. */
    method Fail(c: CallId)
      requires Valid() && sweeps == [] && c < |calls| && calls[c].Failing?
      modifies this
      ensures Goes(old(ops), |old(moves)|, [], old(calls), c) && calls[c].Resolved?
      decreases |moves|, 1, Behind(c), 0
    {
      var a := Interrupt(c);
      ghost var before := calls;
      var next := FailOut(c);
      ghost var handed := calls;
      if next.Some? { Start(next.value); }
      HandedLeaves(before, handed, calls, c, next);
      LeavesTransitive(old(calls), before, calls, {c});
    }

    /** The run of a call has settled: listeners are told, and the next intent of the lane starts. */
    method RunSettled(c: CallId, result: Result)
      requires Valid() && sweeps == [] && c < |calls| && calls[c].Running?
      modifies this
      ensures Goes(old(ops), |old(moves)|, [], old(calls), c) && calls[c].Resolved?
      ensures Quiescent(old(Contents())) ==> AtRest(Contents())
    {
      EndRun(c, result);
      ghost var before := calls;
      if calls[c].Finishing? { Finish(c); }
      LeavesTransitive(old(calls), before, calls, {c});
      if Quiescent(old(Contents())) { RestStays(old(Contents()), Contents(), ops, {c}); }
    }

    method Finish(c: CallId)
      requires Valid() && sweeps == [] && c < |calls| && calls[c].Finishing?
      modifies this
      ensures Goes(old(ops), |old(moves)|, [], old(calls), c) && calls[c].Resolved?
    {
      var a := Interrupt(c);
      ghost var before := calls;
      var next := FinishRun(c);
      ghost var handed := calls;
      if next.Some? { Start(next.value); }
      HandedLeaves(before, handed, calls, c, next);
      LeavesTransitive(old(calls), before, calls, {c});
    }

    /** `cancelAll`: nested cancellations included, it ends with its sweep done. */
    method CancelAll(except: Option<CallId>)
      requires Valid()
      modifies this
      ensures Continues(old(ops), |old(moves)|) && sweeps == old(sweeps) && Leaves(old(calls), calls, {})
      ensures Quiescent(old(Contents())) ==> AtRest(Contents())
      decreases |moves|, 2, 0
    {
      StartSweep(except, false);
      SweepAll();
      if Quiescent(old(Contents())) { RestStays(old(Contents()), Contents(), ops, {}); }
    }

    /** After disposal no lane is left in the map. */
    method Dispose()
      requires Valid()
      modifies this
      ensures Continues(old(ops), |old(moves)|) && sweeps == old(sweeps) && Leaves(old(calls), calls, {})
      ensures disposed && lanes == map[]
      ensures Quiescent(old(Contents())) ==> AtRest(Contents())
      decreases |moves|, 2, 0
    {
      if !disposed {
        StartSweep(None, true);
        ghost var begun := ops;
        SweepAll();
        DisposedStays(begun, ops);
      }
      RunKeeps(ops);
      if Quiescent(old(Contents())) { RestStays(old(Contents()), Contents(), ops, {}); }
    }

    /** Visits the lanes of the sweep on top, in any order. */
    method SweepAll()
      requires Valid() && sweeps != []
      modifies this
      ensures Valid() && old(ops) <= ops && |moves| <= |old(moves)|
      ensures sweeps == old(sweeps)[..|old(sweeps)| - 1] && Leaves(old(calls), calls, {})
      decreases |moves|, 1, 0
    {
      var n := |sweeps| - 1;
      while sweeps[n].lanes != {}
        invariant Valid() && old(ops) <= ops && |moves| <= |old(moves)|
        invariant |sweeps| == n + 1 && sweeps[..n] == old(sweeps)[..n] && Leaves(old(calls), calls, {})
        decreases sweeps[n].lanes
      {
        var l :| l in sweeps[n].lanes;
        ghost var before := calls;
        RunKeeps(ops);
        assert SweepOk(Contents(), n, l);
        SweepOne(l);
        LeavesTransitive(old(calls), before, calls, {});
        before := calls;
        var a := Foreign();
        LeavesTransitive(old(calls), before, calls, {});
      }
      FinishSweep();
    }
  }
}
