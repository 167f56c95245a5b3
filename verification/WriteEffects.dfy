/** What writes, array writes and array plans do. */
module WriteEffects {
  import opened JsonData
  import opened ImmutableWrite
  import opened FormStates
  import opened Stores
  import opened FieldArrays
  import Rows = RowMetadata

  // ---- immutable writes without an admitted target ----

  lemma LevelWritten(j: Json, path: Path, value: Json)
    requires path != [] && CopyPath(j, path, value).Written?
    ensures (var below := CopyPath(ChildToCopy(j, path[0], path[1..]), path[1..], value);
      below.Written? && Resolve(CopyPath(j, path, value).root, path[0]) == Some(below.root))
  {
  }

  /** Whatever is written can be read. */
  lemma {:induction false} WrittenReads(j: Json, path: Path, value: Json)
    requires CopyPath(j, path, value).Written?
    ensures ResolveAt(CopyPath(j, path, value).root, path) == Some(value)
    decreases |path|
  {
    if path != [] {
      LevelWritten(j, path, value);
      WrittenReads(ChildToCopy(j, path[0], path[1..]), path[1..], value);
    }
  }

  lemma OtherSegmentKept(j: Json, path: Path, value: Json, s: Segment)
    requires path != [] && CopyPath(j, path, value).Written? && SegmentText(s) != SegmentText(path[0])
    ensures Resolve(CopyPath(j, path, value).root, s) == Resolve(j, s)
  {
    SameTextSameIndex(s, path[0]);
  }

  lemma NothingInNew(j: Json, s: Segment, rest: Path, q: Path)
    requires q != []
    ensures ResolveAt(ChildToCopy(j, s, rest), q) == (match Resolve(j, s) case Some(c) => ResolveAt(c, q) case None => None)
  {
    assert ResolveAt(DefaultChild(rest), q).None?;
  }

  /** Every path that does not touch the written one reads as before, new containers or not. */
  lemma {:induction false} WrittenKeeps(j: Json, path: Path, value: Json, q: Path)
    requires CopyPath(j, path, value).Written? && !Touch(path, q)
    ensures ResolveAt(CopyPath(j, path, value).root, q) == ResolveAt(j, q)
    decreases |path|
  {
    if SegmentText(q[0]) != SegmentText(path[0]) {
      OtherSegmentKept(j, path, value, q[0]);
    } else {
      LevelWritten(j, path, value);
      SameTextResolves(j, q[0], path[0]);
      SameTextResolves(CopyPath(j, path, value).root, q[0], path[0]);
      TouchTail(path, q);
      WrittenKeeps(ChildToCopy(j, path[0], path[1..]), path[1..], value, q[1..]);
      NothingInNew(j, path[0], path[1..], q[1..]);
    }
  }

  // ---- writes of a field ----

  /** Nothing but the array's own entry changes, and that one is touched and, if it was not before, dirty. */
  ghost predicate EntryMarked(before: map<string, FieldMeta>, after: map<string, FieldMeta>, key: string) {
    && after.Keys == before.Keys + {key} && (forall k :: k in before && k != key ==> after[k] == before[k])
    && after[key].touched && (key !in before || !before[key].touched ==> after[key].dirty)
    && (key in before && before[key].touched ==> after[key] == before[key])
    && after[key].listenerTriggered == (key in before && before[key].listenerTriggered)
    && after[key].isValidating == (key in before && before[key].isValidating)
  }

  /** An accepted write is read back, keeps what it does not touch, and marks its entry. */
  lemma AcceptedWrite(c: Core, f: Field, value: Json, ok: bool, q: Path)
    requires WellKeyed(f) && Rows.Bounded(f.base, c.state.fieldMeta) && SetStep(c, f, value, ok).1
    ensures (var d := SetStep(c, f, value, ok).0;
      && ResolveAt(d.state.data, f.path) == Some(value)
      && (!Touch(f.path, q) ==> ResolveAt(d.state.data, q) == ResolveAt(c.state.data, q))
      && EntryMarked(c.state.fieldMeta, d.state.fieldMeta, f.key)
      && d.state.uiState == c.state.uiState && d.state.policy == c.state.policy && d.active.None?)
  {
    WrittenApplies(c, f, value, ok);
    WrittenReads(c.state.data, f.path, value);
    if !Touch(f.path, q) { WrittenKeeps(c.state.data, f.path, value, q); }
  }

  /** It is accepted exactly when nothing else is under way, nothing vetoes and the target can be written. */
  lemma AcceptedIff(c: Core, f: Field, value: Json, ok: bool)
    ensures SetStep(c, f, value, ok).1 <==>
      c.active.None? && ok && Writable(c.state.data, f.path) && StartsArrays(FreshPart(c.state.data, f.path))
    ensures !SetStep(c, f, value, ok).1 ==> SetStep(c, f, value, ok).0 == c
  {
    WriteIsDense(c.state.data, f.path, value);
  }

  // ---- plans of array actions ----

  /** The named row, or the row of the action's own scope. */
  predicate Names(index: Option<int>, fallback: Option<int>, at: int) {
    (index == Some(at) || (index.None? && fallback == Some(at))) && IsSafeInteger(at)
  }

  lemma InsertPlanned(index: Option<int>, fallback: Option<int>, length: nat, plan: Rows.Planned)
    ensures Rows.InsertPlan(index, fallback, length) == plan <==>
      match plan
      case Ready(InsertAt(at)) => Names(index, fallback, at) && 0 <= at <= length
      case BadPayload => forall at :: 0 <= at <= length ==> !Names(index, fallback, at)
      case _ => false
  {
    var named := if index.None? then fallback else index;
    assert named.Some? && IsSafeInteger(named.value) ==> Names(index, fallback, named.value);
  }

  lemma RemovePlanned(index: Option<int>, fallback: Option<int>, length: nat, plan: Rows.Planned)
    ensures Rows.RemovePlan(index, fallback, length) == plan <==>
      match plan
      case Ready(RemoveAt(at)) => Names(index, fallback, at) && 0 <= at < length
      case BadPayload => forall at :: 0 <= at < length ==> !Names(index, fallback, at)
      case _ => false
  {
    var named := if index.None? then fallback else index;
    assert named.Some? && IsSafeInteger(named.value) ==> Names(index, fallback, named.value);
  }

  /** The plan of a move or a swap, by name. */
  predicate Carries(swap: bool, plan: Rows.Plan, source: int, target: int) {
    match plan
    case MoveTo(a, b) => !swap && a == source && b == target
    case SwapWith(a, b) => swap && a == source && b == target
    case _ => false
  }

  lemma ReorderPlanned(swap: bool, source: Option<int>, target: Option<int>, fallback: Option<int>, length: nat, a: int, b: int)
    requires Names(source, fallback, a) && target == Some(b) && IsSafeInteger(b)
    ensures (var planned := Rows.ReorderPlan(swap, source, target, fallback, length);
      if 0 <= a < length && 0 <= b < length && a != b then planned.Ready? && Carries(swap, planned.plan, a, b) else planned.Boundary?)
  {
  }

  lemma ReorderRefused(swap: bool, source: Option<int>, target: Option<int>, fallback: Option<int>, length: nat)
    ensures Rows.ReorderPlan(swap, source, target, fallback, length).BadPayload? <==>
      !(exists a, b :: Names(source, fallback, a) && Names(target, None, b))
  {
    if !Rows.ReorderPlan(swap, source, target, fallback, length).BadPayload? {
      assert Names(source, fallback, (if source.None? then fallback else source).value) && Names(target, None, target.value);
    }
  }

  lemma OffsetPlanned(swap: bool, offset: int, fallback: Option<int>, length: nat)
    ensures (var planned := Rows.OffsetPlan(swap, offset, fallback, length);
      if (offset != -1 && offset != 1) || fallback.None? || !IsSafeInteger(fallback.value) then planned.BadPayload?
      else if 0 <= fallback.value + offset < length && IsSafeInteger(fallback.value + offset)
        then planned.Ready? && Carries(swap, planned.plan, fallback.value, fallback.value + offset)
      else planned.Boundary?)
  {
  }
}
