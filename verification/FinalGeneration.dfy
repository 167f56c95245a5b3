/** The witness of a FINAL submit attempt (final-generation.ts). */
module FinalGenerations {
  /* In its surroundings: the synchronous and foreground generation counters, the guard of the
     prepared candidate and the bound submit lane that calls `onSubmit` (guarded-submit-validation.ts,
     submit-handler.ts). Everything that can happen between two awaits is an `Act`; any sequence of
     them is a history. */

  import opened JsonData

  /** What the attempt does not control. */
  datatype Env = Env(sync: nat, async: nat, revision: nat, write: nat, aborted: bool, active: bool)

  /** The closure variables of `beginFinalGeneration`. */
  datatype Lanes = Lanes(
    beforeSync: nat, beforeAsync: nat, ownSync: Option<nat>, ownAsync: Option<nat>,
    settledSync: bool, settledAsync: bool)

  function TakeWitness(sync: nat, async: nat): Lanes {
    Lanes(sync, async, None, None, false, false)
  }

  function BeginSync(w: Lanes, generation: nat, guard: bool): Lanes {
    if w.ownSync.Some? || generation != w.beforeSync + 1 || !guard then w else w.(ownSync := Some(generation))
  }

  function SettleSync(w: Lanes, generation: nat, sync: nat, guard: bool): Lanes {
    w.(settledSync := w.ownSync == Some(generation) && sync == generation && guard)
  }

  function BeginAsync(w: Lanes, generation: nat, guard: bool): Lanes {
    if w.ownAsync.Some? || generation != w.beforeAsync + 1 || !guard || !w.settledSync then w
    else w.(ownAsync := Some(generation))
  }

  function SettleAsync(w: Lanes, generation: nat, async: nat, guard: bool): Lanes {
    w.(settledAsync := w.ownAsync == Some(generation) && async == generation && guard)
  }

  predicate SyncIsCurrent(w: Lanes, sync: nat, async: nat, guard: bool) {
    w.settledSync && guard && w.ownSync == Some(sync) && async == w.beforeAsync
  }

  predicate IsCurrent(w: Lanes, sync: nat, async: nat, guard: bool) {
    w.settledSync && w.settledAsync && guard && w.ownSync == Some(sync) && w.ownAsync == Some(async)
  }

  // ---- the attempt among everything else ----

  /** `Mutated` is a coordinator mutation, which starts a foreground generation of its own; `Written`
      a semantic store write. `SyncSettled` reports the generation it was started with.

      The acts from `SyncChecked` on are the stretches of the bound lane, each of which begins by
      asking the witness; `ok` says whether everything else it needs is there (a completed result, an
      attempt that may submit, no exception), `handler` whether there is an `onSubmit`. */
  datatype Act =
    | OtherSync | OtherAsync | Written | Mutated | AbortSignal | Deactivated
    | Prepared | SyncRun | SyncSettled(generation: nat) | AsyncRun | AsyncSettled
    | SyncChecked(ok: bool) | ResultReceived(ok: bool) | GateReached(ok: bool)
    | HandlerReached(ok: bool, handler: bool) | HandlerReturned(ok: bool) | HandlerSettled(ok: bool)

  /** How far the bound lane has come. `Finished` keeps the instant its outcome was accepted. */
  datatype Stage = Started | Synced | Answered | Checked | Calling | Returned | Finished(at: nat) | Refused

  /** `time` counts the acts so far, and `calls` the instants at which `onSubmit` was called. */
  datatype Attempt = Attempt(
    env: Env, lanes: Lanes, prepared: bool, expected: nat, baseline: nat, stage: Stage, time: nat, calls: seq<nat>)

  function Begin(env: Env): Attempt {
    Attempt(env, TakeWitness(env.sync, env.async), false, 0, 0, Started, 0, [])
  }

  /** The candidate's own guard: false until the candidate is prepared. */
  predicate Guard(a: Attempt) {
    a.prepared && !a.env.aborted && a.env.active && a.env.revision == a.expected && a.env.write == a.baseline
  }

  predicate Current(a: Attempt) {
    IsCurrent(a.lanes, a.env.sync, a.env.async, Guard(a))
  }

  function Happen(a: Attempt, act: Act): Attempt {
    match act
    case OtherSync => a.(env := a.env.(sync := a.env.sync + 1))
    case OtherAsync => a.(env := a.env.(async := a.env.async + 1))
    case Written => a.(env := a.env.(write := a.env.write + 1))
    case Mutated => a.(env := a.env.(revision := a.env.revision + 1, async := a.env.async + 1))
    case AbortSignal => a.(env := a.env.(aborted := true))
    case Deactivated => a.(env := a.env.(active := false))
    case Prepared => if a.prepared then a else a.(prepared := true, expected := a.env.revision, baseline := a.env.write)
    case SyncRun =>
      var generation := a.env.sync + 1;
      a.(env := a.env.(sync := generation), lanes := BeginSync(a.lanes, generation, Guard(a)))
    case SyncSettled(generation) => a.(lanes := SettleSync(a.lanes, generation, a.env.sync, Guard(a)))
    case AsyncRun =>
      var generation := a.env.async + 1;
      a.(env := a.env.(async := generation), lanes := BeginAsync(a.lanes, generation, Guard(a)))
    case AsyncSettled => a.(lanes := SettleAsync(a.lanes, a.env.async, a.env.async, Guard(a)))
    case _ => a
  }

  function Advance(a: Attempt, to: Stage, ok: bool): Attempt {
    a.(stage := if ok then to else Refused)
  }

  /** The bound lane: validateGuardedSubmitCandidate, submitBound and executeHandler. */
  function Walk(a: Attempt, act: Act): Attempt {
    match (a.stage, act)
    case (Started, SyncChecked(ok)) => Advance(a, Synced, ok && SyncIsCurrent(a.lanes, a.env.sync, a.env.async, Guard(a)))
    case (Synced, ResultReceived(ok)) => Advance(a, Answered, ok && Current(a))
    case (Answered, GateReached(ok)) => Advance(a, Checked, ok && Current(a))
    case (Checked, HandlerReached(ok, handler)) =>
      if !ok || !Current(a) then Advance(a, Refused, false)
      else if handler then a.(stage := Calling, calls := a.calls + [a.time])
      else Advance(a, Finished(a.time), true)
    case (Calling, HandlerReturned(ok)) => Advance(a, Returned, ok && Current(a))
    case (Returned, HandlerSettled(ok)) => Advance(a, Finished(a.time), ok && Current(a))
    case _ => a
  }

  function Next(a: Attempt, act: Act): Attempt {
    Walk(Happen(a, act), act).(time := a.time + 1)
  }

  function After(env: Env, acts: seq<Act>): Attempt {
    if acts == [] then Begin(env) else Next(After(env, acts[..|acts| - 1]), acts[|acts| - 1])
  }

  predicate StartsSync(act: Act) { act.OtherSync? || act.SyncRun? }

  predicate StartsAsync(act: Act) { act.OtherAsync? || act.Mutated? || act.AsyncRun? }

  predicate Disturbs(act: Act) { act.Written? || act.Mutated? || act.AbortSignal? || act.Deactivated? }

  function SyncStarts(acts: seq<Act>): nat {
    if acts == [] then 0 else SyncStarts(acts[..|acts| - 1]) + (if StartsSync(acts[|acts| - 1]) then 1 else 0)
  }

  function AsyncStarts(acts: seq<Act>): nat {
    if acts == [] then 0 else AsyncStarts(acts[..|acts| - 1]) + (if StartsAsync(acts[|acts| - 1]) then 1 else 0)
  }

  // ---- what a current witness proves about the past ----

  predicate CalmSince(acts: seq<Act>, p: nat) {
    p < |acts| && acts[p].Prepared? && forall m :: p < m < |acts| ==> !Disturbs(acts[m])
  }

  ghost predicate PreparedAt(acts: seq<Act>, p: nat) {
    p < |acts| && acts[p].Prepared? && forall m :: 0 <= m < p ==> !acts[m].Prepared?
  }

  /** The own synchronous run: the first to start at all, after the preparation. */
  ghost predicate SyncAt(acts: seq<Act>, p: nat, i: nat) {
    PreparedAt(acts, p) && p < i < |acts| && acts[i].SyncRun? && SyncStarts(acts[..i]) == 0
  }

  ghost predicate SettledAt(acts: seq<Act>, p: nat, i: nat, j: nat) {
    SyncAt(acts, p, i) && i < j < |acts| && acts[j].SyncSettled?
  }

  /** The own foreground run: the first to start at all, after the synchronous one has settled. */
  ghost predicate AsyncAt(acts: seq<Act>, p: nat, i: nat, j: nat, k: nat) {
    SettledAt(acts, p, i, j) && j < k < |acts| && acts[k].AsyncRun? && AsyncStarts(acts[..k]) == 0
  }

  ghost predicate DoneAt(acts: seq<Act>, p: nat, i: nat, j: nat, k: nat, l: nat) {
    AsyncAt(acts, p, i, j, k) && k < l < |acts| && acts[l].AsyncSettled?
  }

  ghost predicate HasSync(acts: seq<Act>) { exists p, i :: SyncAt(acts, p, i) }

  ghost predicate HasSettled(acts: seq<Act>) { exists p, i, j :: SettledAt(acts, p, i, j) }

  ghost predicate HasAsync(acts: seq<Act>) { exists p, i, j, k :: AsyncAt(acts, p, i, j, k) }

  ghost predicate HasDone(acts: seq<Act>) { exists p, i, j, k, l :: DoneAt(acts, p, i, j, k, l) }

  ghost predicate NonePrepared(acts: seq<Act>) { forall m :: 0 <= m < |acts| ==> !acts[m].Prepared? }

  ghost predicate HasPrepared(acts: seq<Act>) { exists p :: PreparedAt(acts, p) }

  ghost predicate IsCalm(acts: seq<Act>) { exists p :: PreparedAt(acts, p) && CalmSince(acts, p) }

  lemma PreparedIsUnique(acts: seq<Act>, p: nat, q: nat)
    requires PreparedAt(acts, p) && PreparedAt(acts, q)
    ensures p == q
  {
  }

  lemma PreparedStays(acts: seq<Act>, act: Act, p: nat)
    requires PreparedAt(acts, p)
    ensures PreparedAt(acts + [act], p)
  {
  }

  lemma SyncStays(acts: seq<Act>, act: Act, p: nat, i: nat)
    requires SyncAt(acts, p, i)
    ensures SyncAt(acts + [act], p, i)
  {
    assert (acts + [act])[..i] == acts[..i];
  }

  lemma AsyncStays(acts: seq<Act>, act: Act, p: nat, i: nat, j: nat, k: nat)
    requires AsyncAt(acts, p, i, j, k)
    ensures AsyncAt(acts + [act], p, i, j, k)
  {
    SyncStays(acts, act, p, i);
    assert (acts + [act])[..k] == acts[..k];
  }

  lemma HistoryStays(acts: seq<Act>, act: Act)
    ensures HasPrepared(acts) ==> HasPrepared(acts + [act])
    ensures HasSync(acts) ==> HasSync(acts + [act])
    ensures HasSettled(acts) ==> HasSettled(acts + [act])
  {
    if p :| PreparedAt(acts, p) { PreparedStays(acts, act, p); }
    if p, i :| SyncAt(acts, p, i) { SyncStays(acts, act, p, i); }
    if p, i, j :| SettledAt(acts, p, i, j) {
      SyncStays(acts, act, p, i);
      assert SettledAt(acts + [act], p, i, j);
    }
  }

  lemma AsyncHistoryStays(acts: seq<Act>, act: Act)
    ensures HasAsync(acts) ==> HasAsync(acts + [act])
    ensures HasDone(acts) ==> HasDone(acts + [act])
  {
    if p, i, j, k :| AsyncAt(acts, p, i, j, k) { AsyncStays(acts, act, p, i, j, k); }
    if p, i, j, k, l :| DoneAt(acts, p, i, j, k, l) {
      AsyncStays(acts, act, p, i, j, k);
      assert DoneAt(acts + [act], p, i, j, k, l);
    }
  }

  predicate Counted(env: Env, a: Attempt, acts: seq<Act>) {
    && a.env.sync == env.sync + SyncStarts(acts) && a.env.async == env.async + AsyncStarts(acts)
    && a.lanes.beforeSync == env.sync && a.lanes.beforeAsync == env.async
    && (a.lanes.ownSync.Some? ==> a.lanes.ownSync.value == env.sync + 1 && SyncStarts(acts) > 0)
    && (a.lanes.ownAsync.Some? ==> a.lanes.ownAsync.value == env.async + 1 && AsyncStarts(acts) > 0)
    && (a.lanes.settledSync ==> a.lanes.ownSync.Some?) && (a.lanes.settledAsync ==> a.lanes.ownAsync.Some?)
    && (a.lanes.ownSync.Some? ==> a.prepared) && (a.lanes.ownAsync.Some? ==> a.lanes.ownSync.Some?)
    && (a.prepared ==> a.expected <= a.env.revision && a.baseline <= a.env.write)
  }

  lemma CountsStep(acts: seq<Act>, act: Act)
    ensures SyncStarts(acts + [act]) == SyncStarts(acts) + (if StartsSync(act) then 1 else 0)
    ensures AsyncStarts(acts + [act]) == AsyncStarts(acts) + (if StartsAsync(act) then 1 else 0)
  {
    assert (acts + [act])[..|acts|] == acts;
  }

  lemma CountedStep(env: Env, a: Attempt, acts: seq<Act>, act: Act)
    requires Counted(env, a, acts)
    ensures Counted(env, Happen(a, act), acts + [act])
  {
    CountsStep(acts, act);
  }

  lemma WalkKeeps(a: Attempt, act: Act)
    ensures Walk(a, act) == a.(stage := Walk(a, act).stage, calls := Walk(a, act).calls)
  {
  }

  lemma {:induction false} CountsHold(env: Env, acts: seq<Act>)
    ensures Counted(env, After(env, acts), acts)
  {
    if acts != [] {
      var front, act := acts[..|acts| - 1], acts[|acts| - 1];
      assert acts == front + [act];
      CountsHold(env, front);
      CountedStep(env, After(env, front), front, act);
      WalkKeeps(Happen(After(env, front), act), act);
    }
  }

  ghost predicate Explained(a: Attempt, acts: seq<Act>) {
    && (if a.prepared then HasPrepared(acts) else NonePrepared(acts))
    && (Guard(a) ==> IsCalm(acts))
    && (a.lanes.ownSync.Some? ==> HasSync(acts))
    && (a.lanes.settledSync ==> HasSettled(acts))
    && (a.lanes.ownAsync.Some? ==> HasAsync(acts))
    && (a.lanes.settledAsync ==> HasDone(acts))
  }

  lemma PreparationExplained(a: Attempt, acts: seq<Act>, act: Act)
    requires if a.prepared then HasPrepared(acts) else NonePrepared(acts)
    ensures if Next(a, act).prepared then HasPrepared(acts + [act]) else NonePrepared(acts + [act])
  {
    HistoryStays(acts, act);
    if !a.prepared && act.Prepared? { assert PreparedAt(acts + [act], |acts|); }
  }

  lemma CalmExplained(a: Attempt, acts: seq<Act>, act: Act)
    requires a.prepared ==> a.expected <= a.env.revision && a.baseline <= a.env.write
    requires if a.prepared then HasPrepared(acts) else NonePrepared(acts)
    requires Guard(a) ==> IsCalm(acts)
    ensures Guard(Next(a, act)) ==> IsCalm(acts + [act])
  {
    var longer := acts + [act];
    if Guard(Next(a, act)) {
      if a.prepared {
        var p :| PreparedAt(acts, p) && CalmSince(acts, p);
        PreparedStays(acts, act, p);
        assert CalmSince(longer, p);
      } else {
        assert PreparedAt(longer, |acts|) && CalmSince(longer, |acts|);
      }
    }
  }

  lemma SyncExplained(env: Env, a: Attempt, acts: seq<Act>, act: Act)
    requires Counted(env, a, acts) && Explained(a, acts)
    ensures Next(a, act).lanes.ownSync.Some? ==> HasSync(acts + [act])
    ensures Next(a, act).lanes.settledSync ==> HasSettled(acts + [act])
  {
    var longer := acts + [act];
    HistoryStays(acts, act);
    assert longer[..|acts|] == acts;
    if a.lanes.ownSync.None? && Next(a, act).lanes.ownSync.Some? {
      var p :| PreparedAt(acts, p);
      PreparedStays(acts, act, p);
      assert SyncAt(longer, p, |acts|);
    }
    if act.SyncSettled? && a.lanes.ownSync.Some? {
      var p, i :| SyncAt(acts, p, i);
      SyncStays(acts, act, p, i);
      assert SettledAt(longer, p, i, |acts|);
    }
  }

  lemma AsyncExplained(env: Env, a: Attempt, acts: seq<Act>, act: Act)
    requires Counted(env, a, acts) && Explained(a, acts)
    ensures Next(a, act).lanes.ownAsync.Some? ==> HasAsync(acts + [act])
    ensures Next(a, act).lanes.settledAsync ==> HasDone(acts + [act])
  {
    var longer := acts + [act];
    AsyncHistoryStays(acts, act);
    assert longer[..|acts|] == acts;
    if a.lanes.ownAsync.None? && Next(a, act).lanes.ownAsync.Some? {
      var p, i, j :| SettledAt(acts, p, i, j);
      SyncStays(acts, act, p, i);
      assert AsyncAt(longer, p, i, j, |acts|);
    }
    if act.AsyncSettled? && a.lanes.ownAsync.Some? {
      var p, i, j, k :| AsyncAt(acts, p, i, j, k);
      AsyncStays(acts, act, p, i, j, k);
      assert DoneAt(longer, p, i, j, k, |acts|);
    }
  }

  lemma {:induction false} HistoryExplains(env: Env, acts: seq<Act>)
    ensures Explained(After(env, acts), acts)
  {
    if acts != [] {
      var front, act := acts[..|acts| - 1], acts[|acts| - 1];
      var a := After(env, front);
      assert acts == front + [act];
      HistoryExplains(env, front);
      CountsHold(env, front);
      PreparationExplained(a, front, act);
      CalmExplained(a, front, act);
      SyncExplained(env, a, front, act);
      AsyncExplained(env, a, front, act);
    }
  }

  /** In any history the witness is current only if, since it was taken, exactly one synchronous and
      one foreground run were started, both by this attempt, in the order prepare, start and settle
      the synchronous run, start and settle the foreground run; and since the preparation there was
      no write, no mutation, no abort and no deactivation. */
  lemma CurrentIsExclusive(env: Env, acts: seq<Act>)
    requires Current(After(env, acts))
    ensures SyncStarts(acts) == 1 && AsyncStarts(acts) == 1
    ensures exists p, i, j, k, l :: DoneAt(acts, p, i, j, k, l) && CalmSince(acts, p)
  {
    CountsHold(env, acts);
    HistoryExplains(env, acts);
    var p, i, j, k, l :| DoneAt(acts, p, i, j, k, l);
    var q :| PreparedAt(acts, q) && CalmSince(acts, q);
    PreparedIsUnique(acts, p, q);
  }

  // ---- the bound lane ----

  /** Since the witness was taken exactly one run of each kind was started, both by this attempt and
      both settled in order, and nothing disturbed it since the preparation. */
  ghost predicate Exclusive(acts: seq<Act>) {
    && SyncStarts(acts) == 1 && AsyncStarts(acts) == 1
    && exists p, i, j, k, l :: DoneAt(acts, p, i, j, k, l) && CalmSince(acts, p)
  }

  /** The gate let the candidate through before `c`, while the witness was current. */
  ghost predicate GateBefore(env: Env, acts: seq<Act>, c: nat) {
    exists v: nat :: v < c && v < |acts| && acts[v].GateReached? && Current(After(env, acts[..v]))
  }

  ghost predicate CalledAt(env: Env, acts: seq<Act>, c: nat) {
    && c < |acts| && acts[c].HandlerReached? && Current(After(env, acts[..c])) && GateBefore(env, acts, c)
  }

  predicate BeforeCall(s: Stage) {
    s.Started? || s.Synced? || s.Answered? || s.Checked?
  }

  ghost predicate LaneExplained(env: Env, a: Attempt, acts: seq<Act>) {
    && a.time == |acts|
    && |a.calls| <= 1 && (BeforeCall(a.stage) ==> a.calls == [])
    && (a.stage.Checked? ==> GateBefore(env, acts, |acts|))
    && (forall n :: 0 <= n < |a.calls| ==> CalledAt(env, acts, a.calls[n]))
    && (a.stage.Finished? ==> a.stage.at < |acts| && Current(After(env, acts[..a.stage.at])))
  }

  lemma CalledStays(env: Env, acts: seq<Act>, act: Act, c: nat)
    ensures GateBefore(env, acts, c) ==> GateBefore(env, acts + [act], c)
    ensures CalledAt(env, acts, c) ==> CalledAt(env, acts + [act], c)
  {
    if v: nat :| v < c && v < |acts| && acts[v].GateReached? && Current(After(env, acts[..v])) {
      assert (acts + [act])[..v] == acts[..v] && (acts + [act])[v] == acts[v];
    }
    if c < |acts| { assert (acts + [act])[..c] == acts[..c]; }
  }

  /** An act of the lane leaves everything else as it is. */
  lemma LaneActsOnly(a: Attempt, act: Act)
    ensures Happen(a, act).stage == a.stage && Happen(a, act).calls == a.calls && Happen(a, act).time == a.time
    ensures act.ResultReceived? || act.GateReached? || act.HandlerReached? || act.HandlerReturned? || act.HandlerSettled? ==> Happen(a, act) == a
  {
  }

  lemma NowCalled(env: Env, acts: seq<Act>, act: Act)
    requires LaneExplained(env, After(env, acts), acts)
    requires Next(After(env, acts), act).calls != After(env, acts).calls
    ensures Next(After(env, acts), act).calls == [|acts|] && CalledAt(env, acts + [act], |acts|)
  {
    LaneActsOnly(After(env, acts), act);
    CalledStays(env, acts, act, |acts|);
    assert (acts + [act])[..|acts|] == acts;
  }

  lemma NowChecked(env: Env, acts: seq<Act>, act: Act)
    requires LaneExplained(env, After(env, acts), acts)
    requires Next(After(env, acts), act).stage.Checked?
    ensures GateBefore(env, acts + [act], |acts| + 1)
  {
    var longer := acts + [act];
    LaneActsOnly(After(env, acts), act);
    assert longer[..|acts|] == acts;
    if After(env, acts).stage.Checked? {
      CalledStays(env, acts, act, |acts|);
    } else {
      assert longer[|acts|].GateReached? && Current(After(env, longer[..|acts|]));
    }
  }

  lemma LaneStep(env: Env, acts: seq<Act>, act: Act)
    requires LaneExplained(env, After(env, acts), acts)
    ensures LaneExplained(env, Next(After(env, acts), act), acts + [act])
  {
    var a, longer := After(env, acts), acts + [act];
    var n := Next(a, act);
    LaneActsOnly(a, act);
    assert longer[..|acts|] == acts;
    if n.calls != a.calls { NowCalled(env, acts, act); }
    if n.stage.Checked? { NowChecked(env, acts, act); }
    forall m | 0 <= m < |a.calls| ensures CalledAt(env, longer, a.calls[m]) { CalledStays(env, acts, act, a.calls[m]); }
    if a.stage.Finished? { assert longer[..a.stage.at] == acts[..a.stage.at]; }
  }

  lemma {:induction false} LaneHistory(env: Env, acts: seq<Act>)
    ensures LaneExplained(env, After(env, acts), acts)
  {
    if acts != [] {
      LaneHistory(env, acts[..|acts| - 1]);
      LaneStep(env, acts[..|acts| - 1], acts[|acts| - 1]);
      assert acts == acts[..|acts| - 1] + [acts[|acts| - 1]];
    }
  }

  /** In any history `onSubmit` is called at most once, by a lane whose candidate had passed the gate,
      and at that instant no other validation run, write or lifecycle change has intervened. */
  lemma SubmitIsExclusive(env: Env, acts: seq<Act>)
    ensures |After(env, acts).calls| <= 1
    ensures forall n :: 0 <= n < |After(env, acts).calls| ==>
      (var c := After(env, acts).calls[n];
       c < |acts| && acts[c].HandlerReached? && GateBefore(env, acts, c) && Exclusive(acts[..c]))
  {
    LaneHistory(env, acts);
    forall n | 0 <= n < |After(env, acts).calls| ensures Exclusive(acts[..After(env, acts).calls[n]]) {
      var c := After(env, acts).calls[n];
      assert CalledAt(env, acts, c);
      CurrentIsExclusive(env, acts[..c]);
    }
  }

  /** The handler's outcome is accepted only if the same still holds when it has settled. */
  lemma OutcomeIsExclusive(env: Env, acts: seq<Act>)
    requires After(env, acts).stage.Finished?
    ensures After(env, acts).stage.at < |acts| && Exclusive(acts[..After(env, acts).stage.at])
  {
    LaneHistory(env, acts);
    CurrentIsExclusive(env, acts[..After(env, acts).stage.at]);
  }

  /** The witness can still become current: nothing has disturbed the attempt, and every run that
      has started is its own, claimed when it started. */
  predicate Recoverable(a: Attempt) {
    && !a.env.aborted && a.env.active && (a.prepared ==> Guard(a))
    && a.env.sync == (if a.lanes.ownSync.Some? then a.lanes.ownSync.value else a.lanes.beforeSync)
    && a.env.async == (if a.lanes.ownAsync.Some? then a.lanes.ownAsync.value else a.lanes.beforeAsync)
  }

  /** The witness is lost: some other run has started, be it the first of its kind, or a run of its own
      that it could not claim, or the attempt was disturbed. */
  predicate Lost(env: Env, acts: seq<Act>) {
    !Recoverable(After(env, acts))
  }

  /** A run that belongs to nobody's attempt, or a mutation, loses the witness at once. */
  lemma ForeignStartLoses(env: Env, acts: seq<Act>, act: Act)
    requires act.OtherSync? || act.OtherAsync? || act.Mutated?
    ensures Lost(env, acts + [act])
  {
    AfterStep(env, acts, act);
    CountsHold(env, acts);
  }

  lemma LostStep(env: Env, acts: seq<Act>, act: Act)
    requires Lost(env, acts)
    ensures Lost(env, acts + [act])
  {
    AfterStep(env, acts, act);
    CountsHold(env, acts);
    WalkKeeps(Happen(After(env, acts), act), act);
    LostHappens(env, After(env, acts), acts, act);
  }

  lemma LostHappens(env: Env, a: Attempt, acts: seq<Act>, act: Act)
    requires Counted(env, a, acts) && !Recoverable(a)
    ensures !Recoverable(Happen(a, act))
  {
  }

  lemma CurrentIsRecoverable(a: Attempt)
    requires Current(a)
    ensures Recoverable(a)
  {
  }

  lemma {:induction false} OvertakenForGood(env: Env, acts: seq<Act>, more: seq<Act>)
    requires Lost(env, acts)
    ensures Lost(env, acts + more) && !Current(After(env, acts + more))
  {
    if more == [] {
      assert acts + more == acts;
    } else {
      var front, act := more[..|more| - 1], more[|more| - 1];
      OvertakenForGood(env, acts, front);
      LostStep(env, acts + front, act);
      assert acts + more == acts + front + [act];
    }
    if Current(After(env, acts + more)) { CurrentIsRecoverable(After(env, acts + more)); }
  }

  lemma Prepares(env: Env, acts: seq<Act>) returns (h: seq<Act>)
    requires Recoverable(After(env, acts))
    ensures acts <= h && var d := After(env, h); Recoverable(d) && d.prepared
  {
    if After(env, acts).prepared {
      h := acts;
    } else {
      h := acts + [Prepared];
      AfterStep(env, acts, Prepared);
      CountsHold(env, acts);
    }
  }

  lemma StartsOwnSync(env: Env, acts: seq<Act>) returns (h: seq<Act>)
    requires Recoverable(After(env, acts)) && After(env, acts).prepared
    ensures acts <= h && var d := After(env, h); Recoverable(d) && d.prepared && d.lanes.ownSync.Some?
  {
    if After(env, acts).lanes.ownSync.Some? {
      h := acts;
    } else {
      h := acts + [SyncRun];
      AfterStep(env, acts, SyncRun);
      CountsHold(env, acts);
    }
  }

  lemma SettlesOwnSync(env: Env, acts: seq<Act>) returns (h: seq<Act>)
    requires Recoverable(After(env, acts)) && After(env, acts).prepared && After(env, acts).lanes.ownSync.Some?
    ensures acts <= h && var d := After(env, h); Recoverable(d) && d.prepared && d.lanes.ownSync.Some? && d.lanes.settledSync
  {
    var act := SyncSettled(After(env, acts).env.sync);
    h := acts + [act];
    AfterStep(env, acts, act);
  }

  lemma StartsOwnAsync(env: Env, acts: seq<Act>) returns (h: seq<Act>)
    requires Recoverable(After(env, acts)) && After(env, acts).prepared && After(env, acts).lanes.settledSync
    ensures acts <= h && var d := After(env, h); Recoverable(d) && d.prepared && d.lanes.settledSync && d.lanes.ownAsync.Some?
  {
    if After(env, acts).lanes.ownAsync.Some? {
      h := acts;
    } else {
      h := acts + [AsyncRun];
      AfterStep(env, acts, AsyncRun);
      CountsHold(env, acts);
    }
  }

  lemma SettlesOwnAsync(env: Env, acts: seq<Act>) returns (h: seq<Act>)
    requires Recoverable(After(env, acts)) && After(env, acts).prepared
    requires After(env, acts).lanes.settledSync && After(env, acts).lanes.ownAsync.Some?
    ensures acts <= h && Current(After(env, h))
  {
    h := acts + [AsyncSettled];
    AfterStep(env, acts, AsyncSettled);
    CountsHold(env, acts);
  }

  /** From every state that is not lost the witness can be made current. */
  lemma Recovers(env: Env, acts: seq<Act>) returns (more: seq<Act>)
    requires !Lost(env, acts)
    ensures Current(After(env, acts + more))
  {
    var h := Prepares(env, acts);
    h := StartsOwnSync(env, h);
    h := SettlesOwnSync(env, h);
    h := StartsOwnAsync(env, h);
    h := SettlesOwnAsync(env, h);
    more := h[|acts|..];
    assert acts + more == h;
  }

  /** Lost means exactly this: whatever happens, the witness never becomes current again. */
  lemma LostIffNeverCurrent(env: Env, acts: seq<Act>)
    ensures Lost(env, acts) <==> forall more :: !Current(After(env, acts + more))
  {
    if Lost(env, acts) {
      forall more ensures !Current(After(env, acts + more)) { OvertakenForGood(env, acts, more); }
    } else {
      var more := Recovers(env, acts);
    }
  }

  predicate Silent(a: Attempt, d: Attempt) {
    d.calls == a.calls && (d.stage.Finished? ==> a.stage.Finished?)
  }

  lemma LostLaneStep(a: Attempt, act: Act)
    requires !Current(a)
    ensures Silent(a, Next(a, act))
  {
    LaneActsOnly(a, act);
  }

  /** A lane that lost its witness neither calls `onSubmit` nor accepts an outcome any more. */
  lemma {:induction false} LostLaneIsSilent(env: Env, acts: seq<Act>, more: seq<Act>)
    requires Lost(env, acts)
    ensures Silent(After(env, acts), After(env, acts + more))
  {
    if more == [] {
      assert acts + more == acts;
    } else {
      var front, act := more[..|more| - 1], more[|more| - 1];
      LostLaneIsSilent(env, acts, front);
      OvertakenForGood(env, acts, front);
      assert acts + more == acts + front + [act];
      SilentStep(env, acts + front, act);
    }
  }

  lemma SilentStep(env: Env, acts: seq<Act>, act: Act)
    requires Lost(env, acts)
    ensures Silent(After(env, acts), After(env, acts + [act]))
  {
    AfterStep(env, acts, act);
    OvertakenForGood(env, acts, []);
    assert acts + [] == acts;
    LaneActsOnly(After(env, acts), act);
    LostLaneStep(After(env, acts), act);
  }

  lemma AfterStep(env: Env, acts: seq<Act>, act: Act)
    ensures After(env, acts + [act]) == Next(After(env, acts), act)
  {
    assert (acts + [act])[..|acts|] == acts;
  }

  /** The acts of an attempt that nothing disturbs, in their order. */
  function OwnAct(env: Env, k: nat): Act {
    if k == 0 then Prepared
    else if k == 1 then SyncRun
    else if k == 2 then SyncSettled(env.sync + 1)
    else if k == 3 then SyncChecked(true)
    else if k == 4 then AsyncRun
    else if k == 5 then AsyncSettled
    else if k == 6 then ResultReceived(true)
    else if k == 7 then GateReached(true)
    else if k == 8 then HandlerReached(true, true)
    else if k == 9 then HandlerReturned(true)
    else HandlerSettled(true)
  }

  function OwnActs(env: Env, n: nat): seq<Act> {
    if n == 0 then [] else OwnActs(env, n - 1) + [OwnAct(env, n - 1)]
  }

  lemma OwnStep(env: Env, n: nat)
    ensures After(env, OwnActs(env, n + 1)) == Next(After(env, OwnActs(env, n)), OwnAct(env, n))
  {
    AfterStep(env, OwnActs(env, n), OwnAct(env, n));
  }

  lemma OwnSyncSettles(env: Env)
    requires !env.aborted && env.active
    ensures var d := After(env, OwnActs(env, 3));
      && Guard(d) && d.stage.Started? && d.calls == [] && d.time == 3 && d.env.async == env.async
      && d.env.sync == env.sync + 1
      && d.lanes == Lanes(env.sync, env.async, Some(env.sync + 1), None, true, false)
  {
    OwnStep(env, 0);
    OwnStep(env, 1);
    OwnStep(env, 2);
  }

  lemma OwnRunsSettle(env: Env)
    requires !env.aborted && env.active
    ensures var d := After(env, OwnActs(env, 6));
      Current(d) && d.stage.Synced? && d.time == 6 && d.calls == []
  {
    OwnSyncSettles(env);
    OwnStep(env, 3);
    OwnStep(env, 4);
    OwnStep(env, 5);
  }

  lemma LaneMoves(a: Attempt)
    requires Current(a)
    ensures a.stage.Synced? ==> Next(a, ResultReceived(true)) == a.(stage := Answered, time := a.time + 1)
    ensures a.stage.Answered? ==> Next(a, GateReached(true)) == a.(stage := Checked, time := a.time + 1)
    ensures a.stage.Checked? ==>
      Next(a, HandlerReached(true, true)) == a.(stage := Calling, calls := a.calls + [a.time], time := a.time + 1)
    ensures a.stage.Calling? ==> Next(a, HandlerReturned(true)) == a.(stage := Returned, time := a.time + 1)
    ensures a.stage.Returned? ==> Next(a, HandlerSettled(true)) == a.(stage := Finished(a.time), time := a.time + 1)
  {
  }

  lemma CurrentIgnoresLane(a: Attempt, d: Attempt)
    requires d == a.(stage := d.stage, time := d.time, calls := d.calls)
    ensures Current(d) <==> Current(a)
  {
  }

  /** An undisturbed attempt becomes current, calls `onSubmit` once and accepts its outcome. */
  lemma UndisturbedIsCurrent(env: Env)
    requires !env.aborted && env.active
    ensures var d := After(env, OwnActs(env, 11)); Current(d) && d.calls == [8] && d.stage == Finished(10)
  {
    OwnRunsSettle(env);
    var a := After(env, OwnActs(env, 6));
    for n := 6 to 11
      invariant After(env, OwnActs(env, n)) == OwnLane(a, n)
    {
      OwnStep(env, n);
      CurrentIgnoresLane(a, OwnLane(a, n));
      LaneMoves(OwnLane(a, n));
    }
    CurrentIgnoresLane(a, OwnLane(a, 11));
  }

  /** The lane of an undisturbed attempt after `n` acts, from its current witness `a` on. */
  function OwnLane(a: Attempt, n: nat): Attempt {
    a.(time := n,
       calls := if n > 8 then [8] else [],
       stage := if n <= 6 then Synced else if n == 7 then Answered else if n == 8 then Checked
                else if n == 9 then Calling else if n == 10 then Returned else Finished(10))
  }

  // ---- in place ----

  /** The object `beginFinalGeneration` returns. `acts` is all that has happened since, its own
      methods included; the closures it was given read the counters and the guard of that history. */
  class FinalGeneration {
    const beforeSync: nat
    const beforeAsync: nat
    var ownSync: Option<nat>
    var ownAsync: Option<nat>
    var settledSync: bool
    var settledAsync: bool
    ghost const env: Env
    ghost var acts: seq<Act>

    ghost function Contents(): Lanes
      reads this
    {
      Lanes(beforeSync, beforeAsync, ownSync, ownAsync, settledSync, settledAsync)
    }

    ghost function Now(): Attempt
      reads this
    {
      After(env, acts)
    }

    ghost predicate Valid()
      reads this
    {
      Contents() == Now().lanes
    }

    /** The closures read the counters and the guard as they are. */
    ghost predicate Reads(sync: nat, async: nat, guard: bool)
      reads this
    {
      sync == Now().env.sync && async == Now().env.async && guard == Guard(Now())
    }

    constructor (sync: nat, async: nat, ghost env: Env)
      requires sync == env.sync && async == env.async
      ensures Valid() && acts == [] && this.env == env
    {
      beforeSync, beforeAsync := sync, async;
      ownSync, ownAsync, settledSync, settledAsync := None, None, false, false;
      this.env := env;
      acts := [];
    }

    /** Whatever happens elsewhere leaves the witness as it is. */
    ghost method Observe(act: Act)
      requires Valid() && !act.SyncRun? && !act.SyncSettled? && !act.AsyncRun? && !act.AsyncSettled?
      modifies this`acts
      ensures Valid() && acts == old(acts) + [act]
    {
      Record(act);
    }

    ghost method Record(act: Act)
      modifies this`acts
      ensures acts == old(acts) + [act] && Now() == Next(old(Now()), act)
      ensures Contents() == old(Contents())
    {
      AfterStep(env, acts, act);
      acts := acts + [act];
    }

    /** Claims the synchronous generation just started: exactly when it is the first since the
        witness was taken and the guard holds. */
    method SyncBegin(generation: nat, guard: bool) returns (ok: bool)
      requires Valid() && Now().env.sync + 1 == generation && guard == Guard(Now())
      modifies this
      ensures Valid() && acts == old(acts) + [SyncRun]
      ensures ok <==> SyncStarts(old(acts)) == 0 && guard
    {
      CountsHold(env, acts);
      Record(SyncRun);
      if ownSync.Some? || generation != beforeSync + 1 || !guard { return false; }
      ownSync := Some(generation);
      return true;
    }

    method SyncSettle(generation: nat, sync: nat, guard: bool)
      requires Valid() && Reads(sync, Now().env.async, guard)
      modifies this
      ensures Valid() && acts == old(acts) + [SyncSettled(generation)]
    {
      Record(SyncSettled(generation));
      settledSync := ownSync == Some(generation) && sync == generation && guard;
    }

    /** Claims the foreground generation just started: exactly when it is the first since the witness
        was taken, the guard holds, and the own synchronous run was the last to settle. */
    method AsyncBegin(generation: nat, guard: bool) returns (ok: bool)
      requires Valid() && Now().env.async + 1 == generation && guard == Guard(Now())
      modifies this
      ensures Valid() && acts == old(acts) + [AsyncRun]
      ensures ok <==> AsyncStarts(old(acts)) == 0 && guard && old(settledSync)
    {
      CountsHold(env, acts);
      Record(AsyncRun);
      if ownAsync.Some? || generation != beforeAsync + 1 || !guard || !settledSync { return false; }
      ownAsync := Some(generation);
      return true;
    }

    method AsyncSettle(generation: nat, guard: bool)
      requires Valid() && Reads(Now().env.sync, generation, guard)
      modifies this
      ensures Valid() && acts == old(acts) + [AsyncSettled]
    {
      Record(AsyncSettled);
      settledAsync := ownAsync == Some(generation) && guard;
    }

    /** Says yes only after the own synchronous run, with no foreground run started yet. */
    method SyncCurrent(sync: nat, async: nat, guard: bool) returns (ok: bool)
      requires Valid() && Reads(sync, async, guard)
      ensures ok <==> SyncIsCurrent(Now().lanes, Now().env.sync, Now().env.async, Guard(Now()))
      ensures ok ==> SyncStarts(acts) == 1 && AsyncStarts(acts) == 0 && HasSettled(acts) && IsCalm(acts)
    {
      CountsHold(env, acts);
      HistoryExplains(env, acts);
      ok := settledSync && guard && ownSync == Some(sync) && async == beforeAsync;
    }

    /** Says yes only when the whole history was this attempt's own. */
    method CurrentNow(sync: nat, async: nat, guard: bool) returns (ok: bool)
      requires Valid() && Reads(sync, async, guard)
      ensures ok <==> Current(Now())
      ensures ok ==> Exclusive(acts)
    {
      ok := settledSync && settledAsync && guard && ownSync == Some(sync) && ownAsync == Some(async);
      if ok { CurrentIsExclusive(env, acts); }
    }
  }
}
