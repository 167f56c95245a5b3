/** What the operations of the validation runtime bring about. */
module ValidationEffects {
  /* The laws over runs say what never happens; this says what does: which runs a change leaves pending,
     what a foreground start takes over, what a reset ends, and that a live run that settles publishes. */

  import opened JsonData
  import opened Validation
  import opened ValidationInvariant
  import opened ValidationRuns

  // ---- freeing slots ----

  function Get(m: map<string, TokenId>, id: string): Option<TokenId> {
    if id in m then Some(m[id]) else None
  }

  /** Only one token may differ. */
  ghost predicate OthersSame(r: Runtime, d: Runtime, t: Option<TokenId>) {
    |d.tokens| == |r.tokens| && forall u :: 0 <= u < |r.tokens| && Some(u) != t ==> d.tokens[u] == r.tokens[u]
  }

  predicate SameTimes(r: Runtime, d: Runtime) {
    d.revision == r.revision && d.lifecycle == r.lifecycle
  }

  lemma CancelFrees(r: Runtime, t: TokenId, slots: set<string>)
    requires t < |r.tokens| && r.tokens[t].cancellation.None?
    requires slots == set id | id in r.tokens[t].gens && id in r.automatic && r.automatic[id] == t
    ensures (var d := Cancel(r, t, Superseded);
      d.automatic == r.automatic - slots && d.automaticPaths == r.automaticPaths - slots && OthersSame(r, d, Some(t)) && SameTimes(r, d))
  {
    var marked := r.(tokens := r.tokens[t := r.tokens[t].(cancellation := Some(Superseded))]);
    assert Slots(marked, t) == slots;
  }

  /** Cancelling a validator's pending run frees its slot and touches no other run. */
  lemma AutomaticFreed(r: Runtime, id: string)
    requires Shape(r)
    ensures (var d := CancelAutomatic(r, id);
      && d.automatic == r.automatic - {id} && d.automaticPaths == r.automaticPaths - {id}
      && OthersSame(r, d, Get(r.automatic, id)) && SameTimes(r, d))
  {
    if id in r.automatic {
      var t := r.automatic[id];
      assert SlotAt(r, id) && HeldAt(r, t) && TokenOk(r.tokens[t]);
      CancelFrees(r, t, {id});
    }
  }

  /** The foreground run holds no slot of an automatic one. */
  lemma ForegroundFreed(r: Runtime)
    requires Shape(r)
    ensures (var d := CancelForeground(r);
      d.automatic == r.automatic && d.automaticPaths == r.automaticPaths && OthersSame(r, d, r.foreground) && SameTimes(r, d))
  {
    if r.foreground.Some? {
      var f := r.foreground.value;
      assert ForegroundAt(r, f) && HeldAt(r, f);
      CancelFrees(r, f, {});
    }
  }

  // ---- pending runs ----

  /** A run of the validator waits for its timer, at the current revision and over the fields the
      validator names, or else the path that triggered it. */
  ghost predicate Pends(vs: seq<Validator>, r: Runtime, id: string) {
    && id in r.automatic && id in r.automaticPaths && r.automatic[id] < |r.tokens|
    && Waits(r, r.tokens[r.automatic[id]], id)
    && exists v :: v in vs && v.id == id && r.tokens[r.automatic[id]].paths == PathsOf(v, r.automaticPaths[id])
  }

  predicate Waits(r: Runtime, token: Token, id: string) {
    && token.kind == Automatic(id) && token.cancellation.None? && token.snapshot.None?
    && token.revision == r.revision && token.lifecycle == r.lifecycle
  }

  function PathsOf(v: Validator, path: Path): seq<Path> {
    if v.fields == [] then [path] else v.fields
  }

  lemma ClearedSlots(r: Runtime, id: string)
    requires Inv(r)
    ensures (var d := Clear(r, id);
      d.automatic == r.automatic - {id} && d.automaticPaths == r.automaticPaths - {id} && |d.tokens| == |r.tokens| && SameTimes(r, d))
  {
    CountedKeeps(r);
    AutomaticFreed(Counted(r), id);
    SlotIsFreed(Counted(r), id);
    ForegroundFreed(CancelAutomatic(Counted(r), id));
  }

  lemma ClearedOthers(r: Runtime, id: string, other: string)
    requires Inv(r) && other != id && other in r.automatic
    ensures r.automatic[other] < |r.tokens| && r.automatic[other] < |Clear(r, id).tokens|
    ensures Clear(r, id).tokens[r.automatic[other]] == r.tokens[r.automatic[other]]
  {
    SlotsDiffer(r, other, id);
    assert SlotAt(r, other);
    CountedKeeps(r);
    AutomaticFreed(Counted(r), id);
    SlotIsFreed(Counted(r), id);
    ForegroundFreed(CancelAutomatic(Counted(r), id));
    ForegroundStays(r, id);
  }

  lemma ForegroundStays(r: Runtime, id: string)
    ensures (var d := CancelAutomatic(Counted(r), id); d.foreground.Some? ==> d.foreground == r.foreground)
  {
  }

  lemma SlotsDiffer(r: Runtime, a: string, b: string)
    requires Shape(r) && a != b && a in r.automatic
    ensures Get(r.automatic, b) != Some(r.automatic[a]) && r.foreground != Some(r.automatic[a])
  {
    assert SlotAt(r, a);
    if b in r.automatic { assert SlotAt(r, b); }
    if r.foreground.Some? { assert ForegroundAt(r, r.foreground.value); }
  }

  /** The run, its slot and its trigger path are what they were. */
  predicate Untouched(r: Runtime, n: Runtime, id: string) {
    && id in r.automatic && id in n.automatic && n.automatic[id] == r.automatic[id]
    && r.automatic[id] < |r.tokens| && r.automatic[id] < |n.tokens| && n.tokens[r.automatic[id]] == r.tokens[r.automatic[id]]
    && id in r.automaticPaths && id in n.automaticPaths && n.automaticPaths[id] == r.automaticPaths[id]
  }

  lemma SlotMaps(r: Runtime, v: Validator, path: Path)
    requires Inv(r)
    ensures (var n := Schedule(r, v, path);
      && n.automaticPaths == r.automaticPaths[v.id := path] && n.automatic == r.automatic[v.id := |r.tokens|] && SameTimes(r, n)
      && |n.tokens| == |r.tokens| + 1 && Waits(n, n.tokens[|r.tokens|], v.id) && n.tokens[|r.tokens|].paths == PathsOf(v, path))
  {
    ClearedSlots(r, v.id);
    SlotMapsFrom(r, Clear(r, v.id), v, path);
  }

  lemma SlotMapsFrom(r: Runtime, c: Runtime, v: Validator, path: Path)
    requires c.automatic == r.automatic - {v.id} && c.automaticPaths == r.automaticPaths - {v.id}
    requires |c.tokens| == |r.tokens| && SameTimes(r, c)
    ensures (var n := StartAutomatic(c, v.id, PathsOf(v, path), path);
      && n.automaticPaths == r.automaticPaths[v.id := path] && n.automatic == r.automatic[v.id := |r.tokens|] && SameTimes(r, n)
      && |n.tokens| == |r.tokens| + 1 && Waits(n, n.tokens[|r.tokens|], v.id) && n.tokens[|r.tokens|].paths == PathsOf(v, path))
  {
    StartsWaiting(c, v.id, PathsOf(v, path), path);
  }

  lemma SchedulesSlot(vs: seq<Validator>, r: Runtime, v: Validator, path: Path)
    requires Inv(r) && v in vs
    ensures (var n := Schedule(r, v, path);
      && n.automaticPaths == r.automaticPaths[v.id := path] && n.automatic == r.automatic[v.id := |r.tokens|]
      && SameTimes(r, n) && Pends(vs, n, v.id))
  {
    SlotMaps(r, v, path);
  }

  lemma StartsWaiting(c: Runtime, id: string, paths: seq<Path>, path: Path)
    ensures (var n := StartAutomatic(c, id, paths, path);
      && n.automatic == c.automatic[id := |c.tokens|] && n.automaticPaths == c.automaticPaths[id := path] && SameTimes(c, n)
      && |n.tokens| == |c.tokens| + 1 && n.tokens[..|c.tokens|] == c.tokens
      && Waits(n, n.tokens[|c.tokens|], id) && n.tokens[|c.tokens|].paths == paths)
  {
  }

  lemma SchedulesBeside(r: Runtime, v: Validator, path: Path, id: string)
    requires Inv(r) && id != v.id && id in r.automatic
    ensures Untouched(r, Schedule(r, v, path), id)
  {
    ClearedSlots(r, v.id);
    ClearedOthers(r, v.id, id);
    StartsWaiting(Clear(r, v.id), v.id, PathsOf(v, path), path);
    var c, n := Clear(r, v.id), Schedule(r, v, path);
    assert n.tokens[..|c.tokens|][r.automatic[id]] == n.tokens[r.automatic[id]];
  }

  /** The validators of `ids` have new pending runs at the path; every other pending run is untouched. */
  ghost predicate Extended(vs: seq<Validator>, r: Runtime, n: Runtime, ids: set<string>, path: Path) {
    && n.automatic.Keys == r.automatic.Keys + ids && SameTimes(r, n)
    && forall id :: ExtendedAt(vs, r, n, ids, path, id)
  }

  lemma PendsBeside(vs: seq<Validator>, r: Runtime, v: Validator, path: Path, id: string)
    requires Inv(r) && v in vs && id != v.id && Pends(vs, r, id)
    ensures Pends(vs, Schedule(r, v, path), id) && Schedule(r, v, path).automaticPaths[id] == r.automaticPaths[id]
  {
    SchedulesBeside(r, v, path, id);
    SlotMaps(r, v, path);
    UntouchedPends(vs, r, Schedule(r, v, path), id);
  }

  lemma UntouchedBeside(r: Runtime, b: Runtime, v: Validator, path: Path, id: string)
    requires Inv(b) && id != v.id && Untouched(r, b, id)
    ensures Untouched(r, Schedule(b, v, path), id)
  {
    SchedulesBeside(b, v, path, id);
  }

  ghost predicate ExtendedAt(vs: seq<Validator>, r: Runtime, n: Runtime, ids: set<string>, path: Path, id: string) {
    if id in ids then Pends(vs, n, id) && n.automaticPaths[id] == path else id in r.automatic ==> Untouched(r, n, id)
  }

  lemma ExtendedBeside(vs: seq<Validator>, r: Runtime, b: Runtime, ids: set<string>, v: Validator, path: Path, id: string)
    requires Inv(b) && v in vs && id != v.id && ExtendedAt(vs, r, b, ids, path, id)
    ensures ExtendedAt(vs, r, Schedule(b, v, path), ids, path, id)
  {
    if id in ids {
      PendsBeside(vs, b, v, path, id);
    } else if id in r.automatic {
      UntouchedBeside(r, b, v, path, id);
    }
  }

  lemma ExtendedOnce(vs: seq<Validator>, r: Runtime, b: Runtime, ids: set<string>, v: Validator, path: Path)
    requires Inv(b) && Extended(vs, r, b, ids, path) && v in vs
    ensures Extended(vs, r, Schedule(b, v, path), ids + {v.id}, path)
  {
    SchedulesSlot(vs, b, v, path);
    forall id ensures ExtendedAt(vs, r, Schedule(b, v, path), ids + {v.id}, path, id) { ExtendedThen(vs, r, b, ids, v, path, id); }
  }

  lemma ExtendedThen(vs: seq<Validator>, r: Runtime, b: Runtime, ids: set<string>, v: Validator, path: Path, id: string)
    requires Inv(b) && v in vs && ExtendedAt(vs, r, b, ids, path, id)
    ensures ExtendedAt(vs, r, Schedule(b, v, path), ids + {v.id}, path, id)
  {
    if id == v.id {
      SchedulesSlot(vs, b, v, path);
    } else {
      ExtendedBeside(vs, r, b, ids, v, path, id);
    }
  }

  lemma UntouchedPends(vs: seq<Validator>, r: Runtime, n: Runtime, id: string)
    requires Pends(vs, r, id) && Untouched(r, n, id) && SameTimes(r, n)
    ensures Pends(vs, n, id)
  {
  }

  lemma {:induction false} SchedulesEach(vs: seq<Validator>, r: Runtime, chosen: seq<Validator>, path: Path)
    requires Inv(r) && forall v :: v in chosen ==> v in vs
    ensures Inv(ScheduleEach(r, chosen, path)) && Extended(vs, r, ScheduleEach(r, chosen, path), Ids(chosen), path)
  {
    if chosen == [] {
      assert Ids(chosen) == {};
      forall id ensures ExtendedAt(vs, r, r, {}, path, id) { if id in r.automatic { assert SlotAt(r, id); } }
    } else {
      var front, v := chosen[..|chosen| - 1], chosen[|chosen| - 1];
      SchedulesEach(vs, r, front, path);
      ScheduleKeeps(ScheduleEach(r, front, path), v, path);
      ExtendedOnce(vs, r, ScheduleEach(r, front, path), Ids(front), v, path);
      IdsOfLast(chosen);
    }
  }

  lemma IdsOfLast(chosen: seq<Validator>)
    requires chosen != []
    ensures Ids(chosen) == Ids(chosen[..|chosen| - 1]) + {chosen[|chosen| - 1].id}
  {
    var front, v := chosen[..|chosen| - 1], chosen[|chosen| - 1];
    assert forall w :: w in chosen <==> w in front || w == v;
  }

  ghost predicate AllPend(vs: seq<Validator>, r: Runtime) {
    forall id :: id in r.automatic ==> Pends(vs, r, id)
  }

  lemma PendsStill(vs: seq<Validator>, r: Runtime, v: Validator, path: Path)
    requires Inv(r) && AllPend(vs, r) && v in vs
    ensures AllPend(vs, Schedule(r, v, path))
  {
    SchedulesSlot(vs, r, v, path);
    forall id | id in Schedule(r, v, path).automatic ensures Pends(vs, Schedule(r, v, path), id) {
      if id != v.id { PendsBeside(vs, r, v, path, id); }
    }
  }

  /** The unselected pending validators that are still there, each with its own path. */
  ghost predicate Repeated(vs: seq<Validator>, r: Runtime, n: Runtime, retained: seq<(string, Path)>) {
    && SameTimes(r, n)
    && (forall id :: id in n.automaticPaths <==> exists k :: 0 <= k < |retained| && retained[k].0 == id && Find(vs, id).Some?)
    && (forall id :: id in n.automaticPaths ==> (id, n.automaticPaths[id]) in retained)
  }

  lemma {:induction false} RepeatsEach(vs: seq<Validator>, r: Runtime, retained: seq<(string, Path)>)
    requires Inv(r) && r.automatic == map[]
    ensures Inv(Reschedule(r, vs, retained)) && AllPend(vs, Reschedule(r, vs, retained)) && Repeated(vs, r, Reschedule(r, vs, retained), retained)
  {
    if retained != [] {
      var front, last := retained[..|retained| - 1], retained[|retained| - 1];
      RepeatsEach(vs, r, front);
      RepeatsLast(vs, r, Reschedule(r, vs, front), front, last);
      assert retained == front + [last];
    }
  }

  function RescheduleOne(b: Runtime, vs: seq<Validator>, last: (string, Path)): Runtime {
    match Find(vs, last.0) case None => b case Some(v) => Schedule(b, v, last.1)
  }

  lemma RepeatsLast(vs: seq<Validator>, r: Runtime, b: Runtime, front: seq<(string, Path)>, last: (string, Path))
    requires Inv(b) && AllPend(vs, b) && Repeated(vs, r, b, front)
    ensures var n := RescheduleOne(b, vs, last); Inv(n) && AllPend(vs, n) && Repeated(vs, r, n, front + [last])
  {
    if Find(vs, last.0).Some? {
      var v := Find(vs, last.0).value;
      ScheduleKeeps(b, v, last.1);
      SchedulesSlot(vs, b, v, last.1);
      PendsStill(vs, b, v, last.1);
    }
    RepeatsOne(vs, r, b, RescheduleOne(b, vs, last), front, last);
  }

  lemma RepeatsOne(vs: seq<Validator>, r: Runtime, b: Runtime, n: Runtime, front: seq<(string, Path)>, last: (string, Path))
    requires Repeated(vs, r, b, front)
    requires SameTimes(b, n)
    requires n.automaticPaths == if Find(vs, last.0).Some? then b.automaticPaths[last.0 := last.1] else b.automaticPaths
    ensures Repeated(vs, r, n, front + [last])
  {
    var all := front + [last];
    assert all[|front|] == last;
    forall id
      ensures (exists k :: 0 <= k < |all| && all[k].0 == id && Find(vs, id).Some?) <==>
        (exists k :: 0 <= k < |front| && front[k].0 == id && Find(vs, id).Some?) || (id == last.0 && Find(vs, id).Some?)
    {
      if k :| 0 <= k < |front| && front[k].0 == id && Find(vs, id).Some? { assert all[k].0 == id; }
    }
    forall id | id in n.automaticPaths ensures (id, n.automaticPaths[id]) in all {
      if Find(vs, last.0).Some? && id == last.0 { assert (id, n.automaticPaths[id]) == last; }
    }
  }

  lemma {:induction false} RetainedMembers(r: Runtime, order: seq<string>, selected: set<string>, id: string, path: Path)
    ensures (id, path) in Retained(r, order, selected) <==>
      id in order && id !in selected && id in r.automaticPaths && r.automaticPaths[id] == path
  {
    if order != [] { RetainedMembers(r, order[..|order| - 1], selected, id, path); }
  }

  // ---- a change ----

  /** The validators an event at a path calls for: those of its trigger that name no field, or one that
      overlaps the path. */
  ghost predicate Calls(v: Validator, path: Path, event: Event) {
    v.trigger == event && (v.fields == [] || exists i :: 0 <= i < |v.fields| && Overlap(v.fields[i], path))
  }

  ghost predicate Called(vs: seq<Validator>, path: Path, event: Event, id: string) {
    exists v :: v in vs && v.id == id && Calls(v, path, event)
  }

  ghost predicate Named(vs: seq<Validator>, id: string) {
    exists v :: v in vs && v.id == id
  }

  lemma SelectedAreCalled(vs: seq<Validator>, path: Path, event: Event)
    ensures forall id :: id in Ids(SelectValidators(vs, path, Some(event))) <==> Called(vs, path, event, id)
  {
    var selected := SelectValidators(vs, path, Some(event));
    forall id ensures id in Ids(selected) <==> Called(vs, path, event, id) {
      if id in Ids(selected) {
        var v :| v in selected && v.id == id;
        assert v in vs && Selects(v, path, Some(event)) && Calls(v, path, event);
      }
      if Called(vs, path, event, id) {
        var v :| v in vs && v.id == id && Calls(v, path, event);
        assert Selects(v, path, Some(event)) && v in selected;
      }
    }
  }

  lemma PendingGone(r: Runtime, order: seq<string>)
    requires Inv(r) && Covers(r, order)
    ensures (var b := CancelForeground(Bump(r)); var p := CancelPending(b, order);
      && b.automaticPaths == r.automaticPaths && b.revision == r.revision + 1
      && Inv(p) && p.automatic == map[] && p.automaticPaths == map[] && p.revision == r.revision + 1)
  {
    var b := CancelForeground(Bump(r));
    CounterIsFree(r, Bump(r));
    ForegroundFreed(Bump(r));
    ForegroundIsFreed(Bump(r));
    PendingAreFreed(b, order);
    BumpedKeeps(r, order);
    assert CancelPending(b, order).automatic.Keys == {};
    assert CancelPending(b, order).automaticPaths.Keys == {};
  }

  lemma RetainedNamed(vs: seq<Validator>, r: Runtime, b: Runtime, p: Runtime, s: Runtime, order: seq<string>, selected: set<string>, id: string)
    requires Shape(r) && Covers(r, order) && b.automaticPaths == r.automaticPaths
    requires Repeated(vs, p, s, Retained(b, order, selected))
    ensures id in s.automaticPaths <==> id in r.automatic && id !in selected && Named(vs, id)
  {
    var retained := Retained(b, order, selected);
    if id in s.automaticPaths {
      RetainedMembers(b, order, selected, id, s.automaticPaths[id]);
      assert Find(vs, id).Some?;
    }
    if id in r.automatic && id !in selected && Named(vs, id) {
      RetainedMembers(b, order, selected, id, r.automaticPaths[id]);
      var k :| 0 <= k < |retained| && retained[k] == (id, r.automaticPaths[id]);
      var v :| v in vs && v.id == id;
      assert Find(vs, id).Some?;
    }
  }

  /** Half way through a change: the unselected validators are pending again. */
  ghost predicate Repeating(vs: seq<Validator>, r: Runtime, s: Runtime, path: Path, event: Event) {
    && s.revision == r.revision + 1
    && (forall id :: id in s.automatic <==> id in r.automatic && !Called(vs, path, event, id) && Named(vs, id))
    && (forall id :: id in s.automatic ==> id in r.automaticPaths && id in s.automaticPaths && s.automaticPaths[id] == r.automaticPaths[id])
  }

  lemma ChangeRepeats(vs: seq<Validator>, r: Runtime, path: Path, event: Event, order: seq<string>)
    requires Inv(r) && Covers(r, order)
    ensures (var b := CancelForeground(Bump(r));
      var retained := Retained(b, order, Ids(SelectValidators(vs, path, Some(event))));
      var s := Reschedule(CancelPending(b, order), vs, retained);
      Inv(s) && AllPend(vs, s) && Repeating(vs, r, s, path, event))
  {
    var b := CancelForeground(Bump(r));
    var ids := Ids(SelectValidators(vs, path, Some(event)));
    var p := CancelPending(b, order);
    PendingGone(r, order);
    RepeatsEach(vs, p, Retained(b, order, ids));
    var s := Reschedule(p, vs, Retained(b, order, ids));
    SelectedAreCalled(vs, path, event);
    forall id ensures id in s.automaticPaths <==> id in r.automatic && !Called(vs, path, event, id) && Named(vs, id) {
      RetainedNamed(vs, r, b, p, s, order, ids, id);
    }
    forall id | id in s.automaticPaths ensures id in r.automaticPaths && s.automaticPaths[id] == r.automaticPaths[id] {
      RetainedMembers(b, order, ids, id, s.automaticPaths[id]);
    }
  }

  /** After a change exactly these validators have a pending run: those the event calls for, at the
      event's path, and those that had one before, each at the path that had triggered it. Every one of
      the runs is new, live and of the new revision. */
  lemma ChangeReschedules(vs: seq<Validator>, r: Runtime, path: Path, event: Event, order: seq<string>)
    requires Inv(r) && Covers(r, order)
    ensures (var n := Trigger(r, vs, path, event, true, order);
      && n.revision == r.revision + 1
      && (forall id :: id in n.automatic <==> Called(vs, path, event, id) || (id in r.automatic && Named(vs, id)))
      && (forall id :: id in n.automatic ==>
            && Pends(vs, n, id) && n.automatic[id] in n.active
            && n.automaticPaths[id] == if Called(vs, path, event, id) then path else r.automaticPaths[id]))
  {
    var selected := SelectValidators(vs, path, Some(event));
    var b := CancelForeground(Bump(r));
    var s := Reschedule(CancelPending(b, order), vs, Retained(b, order, Ids(selected)));
    var n := ScheduleEach(s, selected, path);
    ChangeRepeats(vs, r, path, event, order);
    SchedulesEach(vs, s, selected, path);
    SelectedAreCalled(vs, path, event);
    forall id ensures id in n.automatic <==> Called(vs, path, event, id) || (id in r.automatic && Named(vs, id)) {
      assert Called(vs, path, event, id) ==> Named(vs, id);
    }
    forall id | id in n.automatic
      ensures Pends(vs, n, id) && n.automatic[id] in n.active
      ensures n.automaticPaths[id] == if Called(vs, path, event, id) then path else r.automaticPaths[id]
    {
      assert SlotAt(n, id) && ExtendedAt(vs, s, n, Ids(selected), path, id);
      if !Called(vs, path, event, id) {
        assert Untouched(s, n, id);
        UntouchedPends(vs, s, n, id);
      }
    }
  }

  /** An event without a change schedules those it calls for anew and leaves every other run alone. */
  lemma BlurSchedules(vs: seq<Validator>, r: Runtime, path: Path, event: Event, order: seq<string>)
    requires Inv(r)
    ensures (var n := Trigger(r, vs, path, event, false, order);
      && n.revision == r.revision
      && (forall id :: id in n.automatic <==> Called(vs, path, event, id) || id in r.automatic)
      && (forall id :: Called(vs, path, event, id) ==> Pends(vs, n, id) && n.automaticPaths[id] == path)
      && (forall id :: id in r.automatic && !Called(vs, path, event, id) ==> Untouched(r, n, id)))
  {
    var selected := SelectValidators(vs, path, Some(event));
    var n := ScheduleEach(r, selected, path);
    SchedulesEach(vs, r, selected, path);
    SelectedAreCalled(vs, path, event);
    forall id | Called(vs, path, event, id) ensures Pends(vs, n, id) && n.automaticPaths[id] == path {
      assert ExtendedAt(vs, r, n, Ids(selected), path, id);
    }
    forall id | id in r.automatic && !Called(vs, path, event, id) ensures Untouched(r, n, id) {
      assert ExtendedAt(vs, r, n, Ids(selected), path, id);
    }
  }

  // ---- settling ----

  /** An automatic run that settles publishes once if it is live, has read its values and the semantic
      guard holds; otherwise nothing happens. */
  lemma AutomaticPublishes(vs: seq<Validator>, r: Runtime, t: TokenId, semantic: bool)
    requires Inv(r) && t < |r.tokens| && r.tokens[t].kind.Automatic?
    ensures Step(vs, r, AutomaticSettled(t, semantic)) ==
      if t in r.active && r.tokens[t].snapshot.Some? && semantic then r.(published := r.published + [Publication(t, r.revision)]) else r
  {
    LiveIffCurrent(r, t);
  }

  /** A foreground run that settles publishes once if it is live, the semantic guard holds and it is no
      candidate; when it is live and the guard does not hold it is superseded. */
  lemma ForegroundPublishes(vs: seq<Validator>, r: Runtime, t: TokenId, semantic: bool, candidate: bool)
    requires Inv(r) && t < |r.tokens| && r.tokens[t].kind.Foreground?
    ensures (var n := Step(vs, r, ForegroundSettled(t, semantic, candidate));
      if t !in r.active then n == r
      else if semantic then n == (if candidate then r else r.(published := r.published + [Publication(t, r.revision)]))
      else t !in n.active && t < |n.tokens| && n.tokens[t].cancellation == Some(Superseded) && n.published == r.published)
  {
    LiveIffCurrent(r, t);
    if t in r.active { assert HeldAt(r, t); }
  }

  /** When its timer fires, a waiting run reads the values of the current revision. */
  lemma TimerReads(vs: seq<Validator>, r: Runtime, id: string)
    requires Pends(vs, r, id)
    ensures var t := r.automatic[id]; Step(vs, r, TimerFired(t)) == r.(tokens := r.tokens[t := r.tokens[t].(snapshot := Some(r.revision))])
  {
  }

  // ---- ending everything ----

  predicate EndedAs(a: Token, b: Token, reason: Cancellation) {
    b == a.(cancellation := Some(reason))
  }

  lemma {:induction false} CancelledStay(r: Runtime, ts: seq<TokenId>, reason: Cancellation, t: TokenId)
    requires t < |r.tokens|
    ensures |CancelEach(r, ts, reason).tokens| == |r.tokens|
    ensures (var n := CancelEach(r, ts, reason);
      n.tokens[t] == if t in ts && r.tokens[t].cancellation.None? then r.tokens[t].(cancellation := Some(reason)) else r.tokens[t])
  {
    if ts != [] {
      var front, last := ts[..|ts| - 1], ts[|ts| - 1];
      CancelledStay(r, front, reason, t);
      assert t in ts <==> t in front || t == last;
    }
  }

  ghost predicate AllEnded(r: Runtime, n: Runtime, reason: Cancellation) {
    && n.active == [] && n.automatic == map[] && n.automaticPaths == map[] && n.foreground.None?
    && n.published == r.published && n.generations == r.generations && |n.tokens| == |r.tokens|
    && (forall t :: 0 <= t < |r.tokens| ==>
          if t in r.active then EndedAs(r.tokens[t], n.tokens[t], reason) else n.tokens[t] == r.tokens[t])
  }

  lemma EndsAll(r: Runtime, b: Runtime, reason: Cancellation)
    requires Inv(r)
    requires b == r.(foregroundGeneration := b.foregroundGeneration, revision := b.revision, lifecycle := b.lifecycle, disposed := b.disposed)
    ensures AllEnded(r, CancelEach(b, r.active, reason), reason)
    ensures SameTimes(b, CancelEach(b, r.active, reason)) && CancelEach(b, r.active, reason).disposed == b.disposed
  {
    var n := CancelEach(b, r.active, reason);
    CounterIsFree(r, b);
    EachIsCancelled(b, r.active, reason);
    forall t | 0 <= t < |r.tokens|
      ensures if t in r.active then EndedAs(r.tokens[t], n.tokens[t], reason) else n.tokens[t] == r.tokens[t]
    {
      CancelledStay(b, r.active, reason, t);
      if t in r.active { assert HeldAt(r, t); }
    }
    NothingLeft(r, n);
  }

  lemma HasMember(s: seq<TokenId>)
    requires s != []
    ensures exists t :: t in s
  {
    assert s[0] in s;
  }

  lemma NothingLeft(r: Runtime, n: Runtime)
    requires Shape(n) && (forall t :: t in n.active ==> t in r.active) && forall t :: t in r.active ==> t !in n.active
    ensures n.active == [] && n.automatic == map[] && n.automaticPaths == map[] && n.foreground.None?
  {
    if n.active != [] { HasMember(n.active); }
    forall id ensures id !in n.automatic { assert id in n.automatic ==> SlotAt(n, id); }
    assert n.foreground.Some? ==> ForegroundAt(n, n.foreground.value);
    assert n.automaticPaths.Keys == {};
  }

  /** A change of unknown place supersedes every live run and schedules none. */
  lemma ChangeOfAllEnds(vs: seq<Validator>, r: Runtime)
    requires Inv(r)
    ensures AllEnded(r, Step(vs, r, MutatedAll), Superseded) && Step(vs, r, MutatedAll).revision == r.revision + 1
  {
    EndsAll(r, Bump(r), Superseded);
  }

  /** The end of a lifecycle aborts every live run; disposal is for good. */
  lemma LifecycleEndAborts(vs: seq<Validator>, r: Runtime, dispose: bool)
    requires Inv(r)
    ensures (var n := Step(vs, r, LifecycleEnded(dispose));
      && AllEnded(r, n, Aborted) && n.lifecycle == r.lifecycle + 1 && n.revision == r.revision + 1
      && n.disposed == (r.disposed || dispose))
  {
    EndsAll(r, Bump(r).(lifecycle := r.lifecycle + 1, disposed := r.disposed || dispose), Aborted);
  }

  // ---- a foreground run ----

  /** The validators of `ids` have been taken from their automatic runs; others are untouched. */
  ghost predicate Taken(r: Runtime, n: Runtime, ids: set<string>) {
    && n.automatic.Keys == r.automatic.Keys - ids && SameTimes(r, n) && |n.tokens| == |r.tokens|
    && forall id :: id in r.automatic && id !in ids ==> Untouched(r, n, id)
  }

  function GenerationOf(r: Runtime, id: string): nat {
    if id in r.generations then r.generations[id] else 0
  }

  /** Their generations have been counted on, and no others. */
  ghost predicate CountedOn(r: Runtime, n: Runtime, ids: set<string>) {
    forall id :: (id in ids ==> id in n.generations && GenerationOf(n, id) > GenerationOf(r, id)) && (id !in ids ==> GenerationOf(n, id) == GenerationOf(r, id))
  }

  lemma {:induction false} ClaimTakes(r: Runtime, chosen: seq<Validator>)
    requires Inv(r) && r.foreground.None?
    ensures Inv(Claim(r, chosen)) && Claim(r, chosen).foreground.None?
    ensures Taken(r, Claim(r, chosen), Ids(chosen)) && CountedOn(r, Claim(r, chosen), Ids(chosen))
  {
    ClaimKeeps(r, chosen);
    if chosen == [] {
      forall id | id in r.automatic ensures Untouched(r, r, id) { assert SlotAt(r, id); }
      assert Ids(chosen) == {};
    } else {
      ClaimTakes(r, chosen[..|chosen| - 1]);
      TakesOne(r, Claim(r, chosen[..|chosen| - 1]), Ids(chosen[..|chosen| - 1]), chosen[|chosen| - 1].id);
      CountsOne(r, Claim(r, chosen[..|chosen| - 1]), Ids(chosen[..|chosen| - 1]), chosen[|chosen| - 1].id);
      IdsOfLast(chosen);
    }
  }

  lemma TakesOne(r: Runtime, b: Runtime, ids: set<string>, id: string)
    requires Inv(b) && Taken(r, b, ids)
    ensures Taken(r, NextGeneration(CancelAutomatic(b, id), id), ids + {id})
  {
    AutomaticFreed(b, id);
    forall k | k in r.automatic && k !in ids + {id} ensures Untouched(r, NextGeneration(CancelAutomatic(b, id), id), k) {
      assert Untouched(r, b, k);
      BesideFreed(b, id, k);
    }
  }

  lemma BesideFreed(b: Runtime, id: string, k: string)
    requires Inv(b) && k != id && k in b.automatic
    ensures Untouched(b, NextGeneration(CancelAutomatic(b, id), id), k)
  {
    AutomaticFreed(b, id);
    SlotsDiffer(b, k, id);
    assert SlotAt(b, k);
  }

  lemma CountsOne(r: Runtime, b: Runtime, ids: set<string>, id: string)
    requires CountedOn(r, b, ids)
    ensures CountedOn(r, NextGeneration(CancelAutomatic(b, id), id), ids + {id})
  {
    assert CancelAutomatic(b, id).generations == b.generations;
  }

  lemma StartTaken(r: Runtime, chosen: seq<Validator>)
    requires Inv(r)
    ensures (var c := Claim(Cleared(r), chosen);
      && Inv(c) && c.foreground.None? && SameTimes(r, c) && |c.tokens| == |r.tokens| && c.automatic.Keys == r.automatic.Keys - Ids(chosen)
      && (forall id :: id in Ids(chosen) ==> id in c.generations)
      && (forall id :: id in r.automatic && id !in Ids(chosen) ==> Untouched(r, c, id)))
  {
    var b := Cleared(r);
    CountedKeeps(r);
    ForegroundFreed(Counted(r));
    CancelForegroundKeeps(Counted(r));
    ClaimTakes(b, chosen);
    forall id | id in r.automatic && id !in Ids(chosen) ensures Untouched(r, Claim(b, chosen), id) {
      assert SlotAt(r, id) && Untouched(b, Claim(b, chosen), id);
      if r.foreground.Some? { assert ForegroundAt(r, r.foreground.value); }
    }
  }

  /** The start itself, once the validators have been taken. */
  function Opened(c: Runtime, ids: set<string>, paths: seq<Path>, expected: nat, held: bool): Runtime {
    var started := OpenForeground(c, ForegroundToken(c, ids, paths, expected));
    if held then started else Cancel(started, |c.tokens|, Superseded)
  }

  predicate OpenedToken(token: Token, c: Runtime, ids: set<string>, paths: seq<Path>, expected: nat) {
    && token.kind.Foreground? && token.paths == paths && token.gens.Keys == ids && token.snapshot == Some(expected)
    && token.revision == c.revision && token.lifecycle == c.lifecycle
  }

  lemma Opens(c: Runtime, ids: set<string>, paths: seq<Path>, expected: nat)
    requires c.foreground.None? && (forall id :: id in ids ==> id in c.generations && id !in c.automatic)
    ensures (var n := OpenForeground(c, ForegroundToken(c, ids, paths, expected));
      && |n.tokens| == |c.tokens| + 1 && n.tokens[..|c.tokens|] == c.tokens && OpenedToken(n.tokens[|c.tokens|], c, ids, paths, expected)
      && n.tokens[|c.tokens|].cancellation.None? && n.foreground == Some(|c.tokens|) && n.active == c.active + [|c.tokens|]
      && n.automatic == c.automatic && n.automaticPaths == c.automaticPaths && SameTimes(c, n))
  {
    assert Claimed(c, ids).Keys == ids;
  }

  lemma NotHeld(r: Runtime, t: TokenId)
    requires t + 1 == |r.tokens| && r.tokens[t].cancellation.None? && r.foreground == Some(t)
    ensures (var n := Cancel(r, t, Superseded);
      && n.tokens[..t] == r.tokens[..t] && n.tokens[t] == r.tokens[t].(cancellation := Some(Superseded))
      && n.foreground.None? && t !in n.active)
  {
  }

  lemma OpensOrNot(c: Runtime, ids: set<string>, paths: seq<Path>, expected: nat, held: bool)
    requires Shape(c) && c.foreground.None? && (forall id :: id in ids ==> id in c.generations && id !in c.automatic)
    ensures (var n := Opened(c, ids, paths, expected, held); var t := |c.tokens|;
      && |n.tokens| == t + 1 && n.tokens[..t] == c.tokens && OpenedToken(n.tokens[t], c, ids, paths, expected)
      && n.automatic == c.automatic && n.automaticPaths == c.automaticPaths && SameTimes(c, n)
      && (if held then n.foreground == Some(t) && t in n.active && n.tokens[t].cancellation.None?
          else n.foreground.None? && t !in n.active && n.tokens[t].cancellation == Some(Superseded)))
  {
    Opens(c, ids, paths, expected);
    var started := OpenForeground(c, ForegroundToken(c, ids, paths, expected));
    var t := |c.tokens|;
    assert (set id | id in started.tokens[t].gens && id in started.automatic && started.automatic[id] == t) == {};
    CancelFrees(started, t, {});
    NotHeld(started, t);
  }

  /** A foreground start, unless it is refused, takes its validators from their automatic runs, leaves all
      other automatic runs alone, and its run is live exactly when its preparation held and its values
      are of the current revision. */
  lemma StartTakesOver(vs: seq<Validator>, r: Runtime, chosen: seq<Validator>, paths: seq<Path>, expected: nat, candidate: bool, prepared: bool)
    requires Inv(r) && !(candidate && (r.disposed || expected != r.revision))
    ensures (var n := Step(vs, r, ForegroundStarted(chosen, paths, expected, candidate, prepared));
      var t := |r.tokens|;
      && |n.tokens| == t + 1 && OpenedToken(n.tokens[t], r, Ids(chosen), paths, expected) && SameTimes(r, n)
      && (if prepared && expected == r.revision then n.foreground == Some(t) && t in n.active && n.tokens[t].cancellation.None?
          else n.foreground.None? && t !in n.active && n.tokens[t].cancellation == Some(Superseded))
      && n.automatic.Keys == r.automatic.Keys - Ids(chosen)
      && (forall id :: id in r.automatic && id !in Ids(chosen) ==> Untouched(r, n, id)))
  {
    StartIsOpening(vs, r, chosen, paths, expected, candidate, prepared);
    OpeningTakesOver(r, Claim(Cleared(r), chosen), chosen, paths, expected, prepared);
  }

  lemma StartIsOpening(vs: seq<Validator>, r: Runtime, chosen: seq<Validator>, paths: seq<Path>, expected: nat, candidate: bool, prepared: bool)
    requires !(candidate && (r.disposed || expected != r.revision))
    ensures (var c := Claim(Cleared(r), chosen);
      Step(vs, r, ForegroundStarted(chosen, paths, expected, candidate, prepared)) ==
      Opened(c, Ids(chosen), paths, expected, prepared && expected == c.revision))
  {
  }

  lemma OpeningTakesOver(r: Runtime, c: Runtime, chosen: seq<Validator>, paths: seq<Path>, expected: nat, prepared: bool)
    requires Inv(r) && c == Claim(Cleared(r), chosen)
    ensures (var n := Opened(c, Ids(chosen), paths, expected, prepared && expected == c.revision);
      var t := |r.tokens|;
      && |n.tokens| == t + 1 && OpenedToken(n.tokens[t], r, Ids(chosen), paths, expected) && SameTimes(r, n)
      && (if prepared && expected == r.revision then n.foreground == Some(t) && t in n.active && n.tokens[t].cancellation.None?
          else n.foreground.None? && t !in n.active && n.tokens[t].cancellation == Some(Superseded))
      && n.automatic.Keys == r.automatic.Keys - Ids(chosen)
      && (forall id :: id in r.automatic && id !in Ids(chosen) ==> Untouched(r, n, id)))
  {
    StartTaken(r, chosen);
    OpensOrNot(c, Ids(chosen), paths, expected, prepared && expected == c.revision);
    StillUntouched(r, c, Opened(c, Ids(chosen), paths, expected, prepared && expected == c.revision), Ids(chosen));
  }

  lemma StillUntouched(r: Runtime, c: Runtime, n: Runtime, ids: set<string>)
    requires forall id :: id in r.automatic && id !in ids ==> Untouched(r, c, id)
    requires |c.tokens| <= |n.tokens| && n.tokens[..|c.tokens|] == c.tokens
    requires n.automatic == c.automatic && n.automaticPaths == c.automaticPaths
    ensures forall id :: id in r.automatic && id !in ids ==> Untouched(r, n, id)
  {
    forall id | id in r.automatic && id !in ids ensures Untouched(r, n, id) {
      assert Untouched(r, c, id);
      assert n.tokens[..|c.tokens|][r.automatic[id]] == n.tokens[r.automatic[id]];
    }
  }

  /** Whatever foreground run there was before is live no more. */
  lemma StartSupersedes(vs: seq<Validator>, r: Runtime, chosen: seq<Validator>, paths: seq<Path>, expected: nat, candidate: bool, prepared: bool)
    requires Inv(r) && r.foreground.Some? && !(candidate && (r.disposed || expected != r.revision))
    ensures r.foreground.value !in Step(vs, r, ForegroundStarted(chosen, paths, expected, candidate, prepared)).active
  {
    var f, op := r.foreground.value, ForegroundStarted(chosen, paths, expected, candidate, prepared);
    var n := Step(vs, r, op);
    assert ForegroundAt(r, f);
    StepKeeps(vs, r, op);
    StepTicks(vs, r, op);
    StartTakesOver(vs, r, chosen, paths, expected, candidate, prepared);
    assert Kept(r.tokens[f], n.tokens[f]);
    assert f in n.active ==> HeldAt(n, f);
  }

  /** A candidate for another revision, or after disposal, starts nothing. */
  lemma StartRefused(vs: seq<Validator>, r: Runtime, chosen: seq<Validator>, paths: seq<Path>, expected: nat, prepared: bool)
    requires r.disposed || expected != r.revision
    ensures Step(vs, r, ForegroundStarted(chosen, paths, expected, true, prepared)) == r
  {
  }
}
