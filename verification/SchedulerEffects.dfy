/** What the operations of the field scheduler bring about. */
module SchedulerEffects {
  /* The laws of `Schedulers` speak of issues, observations and of who may publish; this says which runs
     an event schedules and when, which issues it revokes, and what the other operations do. */

  import opened JsonData
  import opened Schedulers

  // ---- which fields an event schedules ----

  /** The run of a key was pending and unfinished. */
  predicate WasPending(s: Scheduler, k: Key) {
    k in s.pending && s.pending[k] < |s.tokens| && !s.tokens[s.pending[k]].finished
  }

  /** The event selects the field, or it is a change and the field's run is to be repeated. */
  predicate Wanted(s: Scheduler, event: Event, f: Field) {
    f.selected || (event.OnChange? && WasPending(s, f.key))
  }

  /** A selected field is due after its debounce from now on, a repeated one when it was due before. */
  function DeadlineOf(s: Scheduler, f: Field, now: int): int {
    if f.selected then now + f.debounce
    else if WasPending(s, f.key) then s.tokens[s.pending[f.key]].deadline else 0
  }

  ghost predicate SomeWanted(s: Scheduler, event: Event, fields: seq<Field>, k: Key) {
    exists i :: 0 <= i < |fields| && fields[i].key == k && Wanted(s, event, fields[i])
  }

  /** The deadline of the last wanted field of a key. */
  ghost predicate LastWanted(s: Scheduler, event: Event, fields: seq<Field>, i: nat) {
    && i < |fields| && Wanted(s, event, fields[i])
    && forall j :: i < j < |fields| && fields[j].key == fields[i].key ==> !Wanted(s, event, fields[j])
  }

  /** A new run of the key waits, made after the first `first` tokens. */
  predicate NewRun(d: Scheduler, first: nat, k: Key, deadline: int) {
    && k in d.pending && first <= d.pending[k] < |d.tokens|
    && d.tokens[d.pending[k]] == Token(k, d.revision, d.lifecycle, deadline, false, false, false, false)
  }

  lemma ScheduleMakes(s: Scheduler, k: Key, deadline: int)
    requires TokensOk(s.tokens, s.pending)
    ensures (var d := Schedule(s, k, deadline);
      && NewRun(d, |s.tokens|, k, deadline) && d.pending.Keys == s.pending.Keys + {k}
      && d.revision == s.revision && d.lifecycle == s.lifecycle)
  {
    var clear := if k in s.pending then Cancel(s, s.pending[k]) else s;
    if k in s.pending { assert Newest(s.tokens, s.pending, k); }
    assert |clear.tokens| == |s.tokens| && clear.pending == s.pending - {k};
  }

  lemma ScheduleKeepsOther(s: Scheduler, k: Key, deadline: int, other: Key)
    requires TokensOk(s.tokens, s.pending) && other != k && other in s.pending
    ensures (var d := Schedule(s, k, deadline);
      && other in d.pending && d.pending[other] == s.pending[other] && s.pending[other] < |s.tokens| && s.pending[other] < |d.tokens|
      && d.tokens[d.pending[other]] == s.tokens[s.pending[other]])
  {
    assert Newest(s.tokens, s.pending, other);
    if k in s.pending { assert Newest(s.tokens, s.pending, k); }
  }

  /** What scheduling the due fields leaves: a new run for each wanted key, the others as they were. */
  ghost predicate ScheduledAt(s: Scheduler, late: Scheduler, d: Scheduler, event: Event, fields: seq<Field>, now: int, k: Key) {
    if SomeWanted(s, event, fields, k) then
      forall i: nat :: LastWanted(s, event, fields, i) && fields[i].key == k ==> NewRun(d, |late.tokens|, k, DeadlineOf(s, fields[i], now))
    else
      && (k in d.pending <==> k in late.pending)
      && (k in late.pending ==> d.pending[k] == late.pending[k] && late.pending[k] < |late.tokens| && late.pending[k] < |d.tokens|
                                && d.tokens[d.pending[k]] == late.tokens[late.pending[k]])
  }

  ghost predicate ScheduledAll(s: Scheduler, late: Scheduler, d: Scheduler, event: Event, fields: seq<Field>, now: int) {
    && |late.tokens| <= |d.tokens| && d.revision == late.revision && d.lifecycle == late.lifecycle
    && forall k :: ScheduledAt(s, late, d, event, fields, now, k)
  }

  lemma WantedOfMore(s: Scheduler, event: Event, front: seq<Field>, f: Field, k: Key)
    ensures SomeWanted(s, event, front + [f], k) <==> SomeWanted(s, event, front, k) || (f.key == k && Wanted(s, event, f))
  {
    var all := front + [f];
    assert all[|front|] == f;
    if i :| 0 <= i < |front| && front[i].key == k && Wanted(s, event, front[i]) { assert all[i] == front[i]; }
  }

  lemma LastOfMore(s: Scheduler, event: Event, front: seq<Field>, f: Field, i: nat)
    ensures i < |front| ==> (LastWanted(s, event, front + [f], i) <==>
      LastWanted(s, event, front, i) && !(f.key == front[i].key && Wanted(s, event, f)))
    ensures LastWanted(s, event, front + [f], |front|) <==> Wanted(s, event, f)
  {
    var all := front + [f];
    assert all[|front|] == f;
    if i < |front| {
      assert all[i] == front[i];
      assert forall j :: 0 <= j < |front| ==> all[j] == front[j];
    }
  }

  /** Where some field of a key is wanted, there is a last one. */
  lemma {:induction false} LastExists(s: Scheduler, event: Event, fields: seq<Field>, k: Key)
    requires SomeWanted(s, event, fields, k)
    ensures exists i: nat :: LastWanted(s, event, fields, i) && fields[i].key == k
  {
    var front, f := fields[..|fields| - 1], fields[|fields| - 1];
    assert fields == front + [f];
    LastOfMore(s, event, front, f, |front|);
    WantedOfMore(s, event, front, f, k);
    if !(f.key == k && Wanted(s, event, f)) {
      LastExists(s, event, front, k);
      var i: nat :| LastWanted(s, event, front, i) && front[i].key == k;
      LastOfMore(s, event, front, f, i);
      assert fields[i] == front[i];
    }
  }

  lemma {:induction false} DueSchedules(s: Scheduler, late: Scheduler, event: Event, fields: seq<Field>, now: int)
    requires TokensOk(late.tokens, late.pending)
    ensures TokensOk(ScheduleEach(late, Due(s, fields, event, now)).tokens, ScheduleEach(late, Due(s, fields, event, now)).pending)
    ensures ScheduledAll(s, late, ScheduleEach(late, Due(s, fields, event, now)), event, fields, now)
  {
    ScheduleEachOk(late, Due(s, fields, event, now));
    if fields == [] {
      forall k ensures ScheduledAt(s, late, late, event, fields, now, k) {
        if k in late.pending { assert Newest(late.tokens, late.pending, k); }
      }
    } else {
      var front, f := fields[..|fields| - 1], fields[|fields| - 1];
      assert fields == front + [f];
      DueSchedules(s, late, event, front, now);
      DueLast(s, late, event, front, f, now);
    }
  }

  lemma DueLast(s: Scheduler, late: Scheduler, event: Event, front: seq<Field>, f: Field, now: int)
    requires TokensOk(ScheduleEach(late, Due(s, front, event, now)).tokens, ScheduleEach(late, Due(s, front, event, now)).pending)
    requires ScheduledAll(s, late, ScheduleEach(late, Due(s, front, event, now)), event, front, now)
    ensures ScheduledAll(s, late, ScheduleEach(late, Due(s, front + [f], event, now)), event, front + [f], now)
  {
    var b := ScheduleEach(late, Due(s, front, event, now));
    var d := ScheduleEach(late, Due(s, front + [f], event, now));
    DueOfMore(s, event, front, f, now);
    if Wanted(s, event, f) {
      ScheduledMore(late, Due(s, front, event, now), f.key, DeadlineOf(s, f, now));
      ScheduleMakes(b, f.key, DeadlineOf(s, f, now));
    }
    forall k ensures ScheduledAt(s, late, d, event, front + [f], now, k) {
      assert ScheduledAt(s, late, b, event, front, now, k);
      if Wanted(s, event, f) { WantedLast(s, late, b, event, front, f, now, k); } else { UnwantedLast(s, late, b, event, front, f, now, k); }
    }
  }

  lemma DueOfMore(s: Scheduler, event: Event, front: seq<Field>, f: Field, now: int)
    ensures Due(s, front + [f], event, now) ==
      Due(s, front, event, now) + (if Wanted(s, event, f) then [(f.key, DeadlineOf(s, f, now))] else [])
  {
    assert (front + [f])[..|front|] == front;
  }

  lemma ScheduledMore(late: Scheduler, due: seq<(Key, int)>, k: Key, deadline: int)
    ensures ScheduleEach(late, due + [(k, deadline)]) == Schedule(ScheduleEach(late, due), k, deadline)
  {
    assert (due + [(k, deadline)])[..|due|] == due;
  }

  lemma UnwantedLast(s: Scheduler, late: Scheduler, b: Scheduler, event: Event, front: seq<Field>, f: Field, now: int, k: Key)
    requires ScheduledAt(s, late, b, event, front, now, k) && !Wanted(s, event, f)
    ensures ScheduledAt(s, late, b, event, front + [f], now, k)
  {
    WantedOfMore(s, event, front, f, k);
    forall i: nat | LastWanted(s, event, front + [f], i) && (front + [f])[i].key == k
      ensures i < |front| && LastWanted(s, event, front, i) && (front + [f])[i] == front[i]
    {
      LastOfMore(s, event, front, f, i);
    }
  }

  lemma WantedLast(s: Scheduler, late: Scheduler, b: Scheduler, event: Event, front: seq<Field>, f: Field, now: int, k: Key)
    requires TokensOk(b.tokens, b.pending) && |late.tokens| <= |b.tokens|
    requires ScheduledAt(s, late, b, event, front, now, k) && Wanted(s, event, f)
    ensures ScheduledAt(s, late, Schedule(b, f.key, DeadlineOf(s, f, now)), event, front + [f], now, k)
  {
    var d := Schedule(b, f.key, DeadlineOf(s, f, now));
    WantedOfMore(s, event, front, f, k);
    ScheduleMakes(b, f.key, DeadlineOf(s, f, now));
    if k == f.key {
      forall i: nat | LastWanted(s, event, front + [f], i) && (front + [f])[i].key == k ensures i == |front| {
        LastOfMore(s, event, front, f, i);
      }
    } else {
      if k in b.pending { ScheduleKeepsOther(b, f.key, DeadlineOf(s, f, now), k); }
      forall i: nat | LastWanted(s, event, front + [f], i) && (front + [f])[i].key == k
        ensures i < |front| && LastWanted(s, event, front, i) && (front + [f])[i] == front[i]
      {
        LastOfMore(s, event, front, f, i);
      }
    }
  }

  // ---- an event ----

  /** The revocation of an event succeeds, whatever subscribers have done meanwhile. If nothing has moved
      the generation, each key of the projection with a wanted field has a new pending run, due as its
      last wanted field is; every other key keeps the run it has. */
  lemma EventSchedules(s: Scheduler, event: Event, p: Projection, now: int, mark: nat, nested: seq<Op>, timedOut: bool)
    requires RunsOk(s) && !s.disposed
    requires (var o := Step(s, Scheduled(event, Some(p), false, now, mark));
      StaysAbove(o, nested, |s.frames|) && |From(o, nested).frames| == |s.frames| + 1)
    ensures (var late := From(Step(s, Scheduled(event, Some(p), false, now, mark)), nested);
      var d := Step(late, Succeeded(timedOut));
      if late.disposed || late.foregroundGeneration != s.foregroundGeneration + 1 then d.pending == late.pending && d.tokens == late.tokens
      else ScheduledAll(s, late, d, event, p.fields, now))
  {
    var o := Step(s, Scheduled(event, Some(p), false, now, mark));
    EventRuns(s, event, Some(p), false, now, mark);
    RunRunsOk(o, nested);
    FrameStaysAll(o, nested, |s.frames|);
    EventPlans(s, event, p, now, mark);
    PlanSchedules(s, From(o, nested), event, p.fields, now, timedOut);
  }

  lemma PlanSchedules(s: Scheduler, late: Scheduler, event: Event, fields: seq<Field>, now: int, timedOut: bool)
    requires TokensOk(late.tokens, late.pending) && late.frames != [] && Top(late).Revoking?
    requires Top(late).plan == Some(Plan(Due(s, fields, event, now), s.foregroundGeneration + 1))
    ensures (var d := Step(late, Succeeded(timedOut));
      if late.disposed || late.foregroundGeneration != s.foregroundGeneration + 1 then d.pending == late.pending && d.tokens == late.tokens
      else ScheduledAll(s, late, d, event, fields, now))
  {
    var p, d := Pop(late), Step(late, Succeeded(timedOut));
    if !late.disposed && late.foregroundGeneration == s.foregroundGeneration + 1 {
      DueSchedules(s, p, event, fields, now);
      forall k ensures ScheduledAt(s, late, d, event, fields, now, k) { assert ScheduledAt(s, p, d, event, fields, now, k); }
    }
  }

  lemma EventPlans(s: Scheduler, event: Event, p: Projection, now: int, mark: nat)
    requires !s.disposed
    ensures (var o := Step(s, Scheduled(event, Some(p), false, now, mark));
      && |o.frames| == |s.frames| + 1 && Top(o).Revoking?
      && Top(o).plan == Some(Plan(Due(s, p.fields, event, now), s.foregroundGeneration + 1)))
  {
  }

  /** The issues an event revokes: those of a foreground publication under way, of fields that are gone or
      whose observation no longer holds, and, on a change, of fields whose run is to be repeated. */
  predicate Outdated(s: Scheduler, event: Event, p: Projection, k: Key) {
    || k in s.publishing
    || (k !in FieldKeys(p.fields) || k in p.stale)
    || (event.OnChange? && WasPending(s, k) && k in FieldKeys(p.fields))
  }

  /** An event counts the generation on, forgets who was being published, on a change aborts every pending
      run, and empties exactly the outdated issues. */
  lemma EventRevokes(s: Scheduler, event: Event, p: Projection, now: int, mark: nat)
    requires !s.disposed && RunsOk(s)
    ensures (var o := Step(s, Scheduled(event, Some(p), false, now, mark));
      && o.foregroundGeneration == s.foregroundGeneration + 1 && o.publishing == {} && o.emitted.Keys == s.emitted.Keys
      && (forall k :: k in s.emitted ==>
            o.emitted[k] == if Outdated(s, event, p, k) && s.emitted[k].size > 0 then IssueList(mark, 0) else s.emitted[k])
      && (forall k :: k in s.emitted && s.emitted[k].size > 0 && Outdated(s, event, p, k) ==> k !in o.observations)
      && (if event.OnChange? then o.pending == map[] else o.pending == s.pending && o.tokens == s.tokens))
  {
    var o := Step(s, Scheduled(event, Some(p), false, now, mark));
    forall k | k in s.emitted ensures k in Revoked(s, event, p) <==> Outdated(s, event, p, k) { }
    if event.OnChange? { assert o.pending.Keys == {}; }
  }

  /** And on a change every run that was pending has been aborted. */
  lemma ChangeAborts(s: Scheduler, projection: Option<Projection>, throws: bool, now: int, mark: nat, k: Key)
    requires !s.disposed && RunsOk(s) && k in s.pending
    ensures (var o := Step(s, Scheduled(OnChange, projection, throws, now, mark));
      s.pending[k] < |o.tokens| && o.tokens[s.pending[k]].aborted && k !in o.pending)
  {
    assert Newest(s.tokens, s.pending, k);
  }

  // ---- a run ----

  /** A pending run that is current starts when its timer fires, publishes once when it settles while its
      projection is current, and is finished when that publication succeeds. */
  lemma LiveRunPublishes(s: Scheduler, t: TokenId, issues: IssueList, observation: Observation)
    requires Current(s, t) && !s.tokens[t].started && !s.tokens[t].settled
    ensures (var a := Step(s, TimerFired(t)); var b := Step(a, Settled(t, issues, observation, true)); var c := Step(b, Succeeded(false));
      && b.published == s.published + [t] && b.emitted == s.emitted[s.tokens[t].key := issues]
      && (s.tokens[t].key in b.observations <==> issues.size > 0)
      && (issues.size > 0 ==> b.observations[s.tokens[t].key] == observation)
      && c.emitted == b.emitted && c.observations == b.observations && c.pending == s.pending
      && t < |c.tokens| && c.tokens[t].finished && !c.tokens[t].aborted && c.frames == s.frames)
  {
    var b := Step(Step(s, TimerFired(t)), Settled(t, issues, observation, true));
    assert b.frames[..|b.frames| - 1] == s.frames;
  }

  /** A run that is not current, or whose projection is not, settles without a trace. */
  lemma OutdatedRunIsSilent(s: Scheduler, t: TokenId, issues: IssueList, observation: Observation, projectionCurrent: bool)
    requires !Current(s, t) || !projectionCurrent
    ensures (var d := Step(s, Settled(t, issues, observation, projectionCurrent));
      d.emitted == s.emitted && d.observations == s.observations && d.published == s.published && d.pending == s.pending && d.frames == s.frames)
  {
  }

  /** A run whose publication throws is aborted and pending no more. */
  lemma ThrowingRunIsCancelled(s: Scheduler, t: TokenId, issues: IssueList, observation: Observation)
    requires Current(s, t) && s.tokens[t].started && !s.tokens[t].settled
    ensures (var d := Step(Step(s, Settled(t, issues, observation, true)), Thrown);
      t < |d.tokens| && d.tokens[t].aborted && s.tokens[t].key !in d.pending)
  {
  }

  // ---- a foreground run ----

  /** Preparing a foreground run aborts the pending runs of exactly its keys. */
  lemma PrepareAborts(s: Scheduler, keys: set<Key>, k: Key)
    requires RunsOk(s) && k in s.pending
    ensures (var d := Step(s, Prepared(keys)); var t := s.pending[k];
      && t < |s.tokens| && t < |d.tokens| && d.foregroundGeneration == s.foregroundGeneration + 1
      && (if k in keys then k !in d.pending && d.tokens[t].aborted else k in d.pending && d.pending[k] == t && d.tokens[t] == s.tokens[t]))
  {
    assert Newest(s.tokens, s.pending, k);
  }

  /** A staged publication puts the results under its keys, and when it succeeds they stay. */
  lemma StagingPublishes(s: Scheduler, staged: map<Key, IssueList>, observed: map<Key, Observation>, k: Key)
    ensures (var o := Step(s, Staged(staged, observed)); var d := Step(o, Succeeded(false));
      && Get(o.emitted, k) == (if k in staged then Some(staged[k]) else Get(s.emitted, k))
      && Get(o.observations, k) == (if k in staged then (if staged[k].size > 0 then Get(observed, k) else None) else Get(s.observations, k))
      && (k in o.publishing <==> k in s.publishing || k in staged)
      && d.emitted == o.emitted && d.observations == o.observations && (k in staged ==> k !in d.publishing))
  {
  }

  /** A reset aborts every pending run, forgets issues and observations, and starts a new lifecycle. */
  lemma ResetForgets(s: Scheduler, dispose: bool)
    requires RunsOk(s)
    ensures (var d := Step(s, Reset(dispose));
      && d.pending == map[] && d.emitted == map[] && d.observations == map[] && d.publishing == {}
      && d.lifecycle == s.lifecycle + 1 && d.foregroundGeneration == s.foregroundGeneration + 1 && d.disposed == (s.disposed || dispose)
      && |d.tokens| == |s.tokens| && forall k :: k in s.pending ==> s.pending[k] < |d.tokens| && d.tokens[s.pending[k]].aborted)
  {
    var d := Step(s, Reset(dispose));
    assert d.pending.Keys == {};
    forall k | k in s.pending ensures s.pending[k] < |d.tokens| && d.tokens[s.pending[k]].aborted { assert Newest(s.tokens, s.pending, k); }
  }
}
