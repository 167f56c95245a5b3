/** What the ownership model decides. */
module OwnershipDecisions {
  /* Nothing here mentions the protection step, the classification or the tallies behind them: an owner
     is described by its own flags and by the bindings of the other owners. */

  import opened JsonData
  import opened Bindings
  import opened OverlapIndex
  import opened Ownership

  // ---- counting visible owners ----

  lemma {:induction false} CountConcat(a: seq<Binding>, b: seq<Binding>, r: Relation, q: Binding)
    ensures Count(a + b, r, q) == Count(a, r, q) + Count(b, r, q)
  {
    if b == [] {
      assert a + b == a;
    } else {
      assert (a + b)[..|a + b| - 1] == a + b[..|b| - 1];
      CountConcat(a, b[..|b| - 1], r, q);
    }
  }

  lemma {:induction false} VisibleConcat(a: seq<Owner>, b: seq<Owner>)
    ensures Visible(a + b) == Visible(a) + Visible(b)
  {
    if a == [] {
      assert a + b == b;
    } else {
      assert (a + b)[1..] == a[1..] + b;
      VisibleConcat(a[1..], b);
    }
  }

  ghost predicate SomeVisible(os: seq<Owner>, r: Relation, q: Binding) {
    exists k :: 0 <= k < |os| && os[k].visible && Related(r, os[k].binding, q)
  }

  lemma VisibleCounted(os: seq<Owner>, r: Relation, q: Binding)
    ensures Count(Visible(os), r, q) > 0 <==> SomeVisible(os, r, q)
  {
    CountPositive(Visible(os), r, q);
    if i :| 0 <= i < |Visible(os)| && Related(r, Visible(os)[i], q) {
      assert Visible(os)[i] in Visible(os);
      var o :| o in os && o.visible && o.binding == Visible(os)[i];
      var k :| 0 <= k < |os| && os[k] == o;
    }
    if k :| 0 <= k < |os| && os[k].visible && Related(r, os[k].binding, q) {
      assert os[k] in os && os[k].binding in Visible(os);
      var i :| 0 <= i < |Visible(os)| && Visible(os)[i] == os[k].binding;
    }
  }

  /** Another visible owner overlaps owner `j`. */
  ghost predicate OtherVisible(os: seq<Owner>, j: nat)
    requires j < |os|
  {
    exists k :: 0 <= k < |os| && k != j && os[k].visible && Overlaps(os[k].binding, os[j].binding)
  }

  lemma CountAround(os: seq<Owner>, j: nat, q: Binding)
    requires j < |os|
    ensures Count(Visible(os), Overlapping, q) ==
      Count(Visible(os[..j]), Overlapping, q) + Count(Visible([os[j]]), Overlapping, q) + Count(Visible(os[j + 1..]), Overlapping, q)
  {
    var front, back := os[..j], os[j + 1..];
    assert os == front + [os[j]] + back;
    VisibleConcat(front + [os[j]], back);
    VisibleConcat(front, [os[j]]);
    CountConcat(Visible(front) + Visible([os[j]]), Visible(back), Overlapping, q);
    CountConcat(Visible(front), Visible([os[j]]), Overlapping, q);
  }

  lemma OthersCounted(os: seq<Owner>, j: nat)
    requires j < |os|
    ensures Count(Visible(os), Overlapping, os[j].binding) > (if os[j].visible then 1 else 0) <==> OtherVisible(os, j)
  {
    CountAround(os, j, os[j].binding);
    SelfCounted(os[j]);
    VisibleCounted(os[..j], Overlapping, os[j].binding);
    VisibleCounted(os[j + 1..], Overlapping, os[j].binding);
    SplitOthers(os, j);
  }

  lemma SelfCounted(o: Owner)
    ensures Count(Visible([o]), Overlapping, o.binding) == if o.visible then 1 else 0
  {
    assert [o][1..] == [];
    assert Visible([o]) == if o.visible then [o.binding] else [];
    if o.visible { CountAppend([], o.binding, Overlapping, o.binding); }
    assert [] + [o.binding] == [o.binding];
  }

  lemma SplitOthers(os: seq<Owner>, j: nat)
    requires j < |os|
    ensures OtherVisible(os, j) <==>
      SomeVisible(os[..j], Overlapping, os[j].binding) || SomeVisible(os[j + 1..], Overlapping, os[j].binding)
  {
    var front, back, q := os[..j], os[j + 1..], os[j].binding;
    if k :| 0 <= k < |os| && k != j && os[k].visible && Overlaps(os[k].binding, q) {
      if k < j { assert front[k] == os[k]; } else { assert back[k - j - 1] == os[k]; }
    }
    if k :| 0 <= k < |front| && front[k].visible && Related(Overlapping, front[k].binding, q) { assert os[k] == front[k]; }
    if k :| 0 <= k < |back| && back[k].visible && Related(Overlapping, back[k].binding, q) { assert os[j + 1 + k] == back[k]; }
  }

  // ---- the snapshot ----

  /** A visible repeater's binding lies strictly below. */
  ghost predicate RepeaterBelow(repeaters: seq<Owner>, b: Binding) {
    exists k :: 0 <= k < |repeaters| && repeaters[k].visible && repeaters[k].binding.namespace == b.namespace
      && b.segments < repeaters[k].binding.segments
  }

  ghost predicate FieldGuarded(fields: seq<Owner>, repeaters: seq<Owner>, j: nat)
    requires j < |fields|
  {
    OtherVisible(fields, j) || RepeaterBelow(repeaters, fields[j].binding)
  }

  /** For a repeater only visible fields count: where it lies itself never protects a cell. */
  ghost predicate RepeaterGuarded(fields: seq<Owner>, b: Binding) {
    exists k :: 0 <= k < |fields| && fields[k].visible && Overlaps(fields[k].binding, b)
  }

  ghost predicate ActiveTouches(fields: seq<Owner>, b: Binding) {
    exists k :: 0 <= k < |fields| && (fields[k].visible || fields[k].submitWhenHidden) && Overlaps(fields[k].binding, b)
  }

  ghost predicate UnclaimedTouches(unknown: seq<Binding>, b: Binding) {
    exists u :: u in unknown && Overlaps(u, b)
  }

  /** Neither guarded nor safely bound. */
  ghost predicate StrayField(fields: seq<Owner>, repeaters: seq<Owner>, unknown: seq<Binding>, j: nat)
    requires j < |fields|
  {
    !FieldGuarded(fields, repeaters, j) && (!fields[j].eligible || UnclaimedTouches(unknown, fields[j].binding))
  }

  ghost predicate StrayRepeater(fields: seq<Owner>, repeaters: seq<Owner>, unknown: seq<Binding>, j: nat)
    requires j < |repeaters|
  {
    !RepeaterGuarded(fields, repeaters[j].binding) && (!repeaters[j].eligible || UnclaimedTouches(unknown, repeaters[j].binding))
  }

  ghost predicate StrayTouches(fields: seq<Owner>, repeaters: seq<Owner>, unknown: seq<Binding>, b: Binding) {
    || (exists k :: 0 <= k < |fields| && Overlaps(fields[k].binding, b) && StrayField(fields, repeaters, unknown, k))
    || (exists k :: 0 <= k < |repeaters| && Overlaps(repeaters[k].binding, b) && StrayRepeater(fields, repeaters, unknown, k))
  }

  /** Something unclaimed or stray overlaps the binding. */
  ghost predicate Doubtful(fields: seq<Owner>, repeaters: seq<Owner>, unknown: seq<Binding>, b: Binding) {
    UnclaimedTouches(unknown, b) || StrayTouches(fields, repeaters, unknown, b)
  }

  // ---- what the model holds ----

  lemma UnclaimedCounted(unknown: seq<Binding>, q: Binding)
    ensures Count(unknown, Overlapping, q) > 0 <==> UnclaimedTouches(unknown, q)
  {
    CountPositive(unknown, Overlapping, q);
    if i :| 0 <= i < |unknown| && Related(Overlapping, unknown[i], q) { assert unknown[i] in unknown && Overlaps(unknown[i], q); }
    if u :| u in unknown && Overlaps(u, q) {
      var i :| 0 <= i < |unknown| && unknown[i] == u;
    }
  }

  lemma FieldProtected(fields: seq<Owner>, repeaters: seq<Owner>, unknown: seq<Binding>, j: nat)
    requires j < |fields|
    ensures (var p := Protect(fields[j], false, Visible(fields), Visible(repeaters), unknown, false);
      && p.binding == fields[j].binding && p.visible == fields[j].visible && p.submitWhenHidden == fields[j].submitWhenHidden
      && (p.protected <==> FieldGuarded(fields, repeaters, j))
      && (p.eligible <==> fields[j].eligible && !FieldGuarded(fields, repeaters, j) && !UnclaimedTouches(unknown, fields[j].binding)))
  {
    OthersCounted(fields, j);
    VisibleCounted(repeaters, Extends, fields[j].binding);
    UnclaimedCounted(unknown, fields[j].binding);
    assert SomeVisible(repeaters, Extends, fields[j].binding) <==> RepeaterBelow(repeaters, fields[j].binding);
  }

  lemma RepeaterProtected(fields: seq<Owner>, repeaters: seq<Owner>, unknown: seq<Binding>, j: nat)
    requires j < |repeaters|
    ensures (var p := Protect(repeaters[j], true, Visible(fields), Visible(repeaters), unknown, false);
      && p.binding == repeaters[j].binding && p.visible == repeaters[j].visible && p.submitWhenHidden == repeaters[j].submitWhenHidden
      && (p.protected <==> RepeaterGuarded(fields, repeaters[j].binding))
      && (p.eligible <==>
            repeaters[j].eligible && !RepeaterGuarded(fields, repeaters[j].binding) && !UnclaimedTouches(unknown, repeaters[j].binding)))
  {
    VisibleCounted(fields, Overlapping, repeaters[j].binding);
    UnclaimedCounted(unknown, repeaters[j].binding);
    assert SomeVisible(fields, Overlapping, repeaters[j].binding) <==> RepeaterGuarded(fields, repeaters[j].binding);
  }

  ghost function SnapshotModel(root: Json, fields: seq<Owner>, repeaters: seq<Owner>): Model {
    ModelOf(root, fields, repeaters, false, true)
  }

  lemma ActiveCounted(root: Json, fields: seq<Owner>, repeaters: seq<Owner>, q: Binding)
    ensures Count(Active(SnapshotModel(root, fields, repeaters).fields), Overlapping, q) > 0 <==> ActiveTouches(fields, q)
  {
    var os := SnapshotModel(root, fields, repeaters).fields;
    CountPositive(Active(os), Overlapping, q);
    if i :| 0 <= i < |Active(os)| && Related(Overlapping, Active(os)[i], q) {
      assert Active(os)[i] in Active(os);
      var o :| o in os && IsActive(o) && o.binding == Active(os)[i];
      var k :| 0 <= k < |os| && os[k] == o;
      assert fields[k].binding == o.binding && (fields[k].visible || fields[k].submitWhenHidden);
    }
    if k :| 0 <= k < |fields| && (fields[k].visible || fields[k].submitWhenHidden) && Overlaps(fields[k].binding, q) {
      assert os[k] in os && IsActive(os[k]) && os[k].binding in Active(os);
      var i :| 0 <= i < |Active(os)| && Active(os)[i] == os[k].binding;
    }
  }

  lemma StrayListed(os: seq<Owner>, q: Binding)
    ensures UnclaimedTouches(Stray(os), q) <==> exists k :: 0 <= k < |os| && IsStray(os[k]) && Overlaps(os[k].binding, q)
  {
    if u :| u in Stray(os) && Overlaps(u, q) {
      var o :| o in os && IsStray(o) && o.binding == u;
      var k :| 0 <= k < |os| && os[k] == o;
    }
    if k :| 0 <= k < |os| && IsStray(os[k]) && Overlaps(os[k].binding, q) {
      assert os[k] in os && os[k].binding in Stray(os);
    }
  }

  lemma StrayFields(root: Json, fields: seq<Owner>, repeaters: seq<Owner>, q: Binding)
    ensures (var m := SnapshotModel(root, fields, repeaters);
      UnclaimedTouches(Stray(m.fields), q) <==>
        exists k :: 0 <= k < |fields| && Overlaps(fields[k].binding, q) && StrayField(fields, repeaters, m.unknown, k))
  {
    var m := SnapshotModel(root, fields, repeaters);
    StrayListed(m.fields, q);
    forall k | 0 <= k < |fields|
      ensures m.fields[k].binding == fields[k].binding && (IsStray(m.fields[k]) <==> StrayField(fields, repeaters, m.unknown, k))
    {
      FieldProtected(fields, repeaters, m.unknown, k);
    }
  }

  lemma StrayRepeaters(root: Json, fields: seq<Owner>, repeaters: seq<Owner>, q: Binding)
    ensures (var m := SnapshotModel(root, fields, repeaters);
      UnclaimedTouches(Stray(m.repeaters), q) <==>
        exists k :: 0 <= k < |repeaters| && Overlaps(repeaters[k].binding, q) && StrayRepeater(fields, repeaters, m.unknown, k))
  {
    var m := SnapshotModel(root, fields, repeaters);
    StrayListed(m.repeaters, q);
    forall k | 0 <= k < |repeaters|
      ensures m.repeaters[k].binding == repeaters[k].binding && (IsStray(m.repeaters[k]) <==> StrayRepeater(fields, repeaters, m.unknown, k))
    {
      RepeaterProtected(fields, repeaters, m.unknown, k);
    }
  }

  lemma DoubtCounted(root: Json, fields: seq<Owner>, repeaters: seq<Owner>, q: Binding)
    ensures (var m := SnapshotModel(root, fields, repeaters);
      Count(UnknownOf(m), Overlapping, q) > 0 <==> Doubtful(fields, repeaters, m.unknown, q))
  {
    var m := SnapshotModel(root, fields, repeaters);
    UnclaimedCounted(UnknownOf(m), q);
    StrayFields(root, fields, repeaters, q);
    StrayRepeaters(root, fields, repeaters, q);
    assert forall u :: u in UnknownOf(m) <==> u in m.unknown || u in Stray(m.fields) || u in Stray(m.repeaters);
  }

  // ---- the decisions ----

  predicate Omittable(b: Binding) {
    b.namespace == "data" && b.segments != [] && Last(b.segments).Key?
  }

  /** A field is decided exclusive exactly when it is bound and inactive, and neither an active field
      nor anything unclaimed nor a stray owner overlaps it, nor does a visible repeater lie strictly
      below it. A visible repeater above it does not matter: its hidden cells can be omitted. */
  lemma FieldIsExclusive(root: Json, fields: seq<Owner>, repeaters: seq<Owner>, i: nat)
    requires Snapshot(fields, root) && i < |fields|
    ensures (var f, m := fields[i], SnapshotModel(root, fields, repeaters);
      Decide(m, m.fields[i], true).Exclusive? <==>
        && f.eligible && !f.visible && !f.submitWhenHidden
        && !ActiveTouches(fields, f.binding) && !RepeaterBelow(repeaters, f.binding)
        && !Doubtful(fields, repeaters, m.unknown, f.binding))
  {
    var f, m := fields[i], SnapshotModel(root, fields, repeaters);
    assert f in fields;
    FieldProtected(fields, repeaters, m.unknown, i);
    ActiveCounted(root, fields, repeaters, f.binding);
    DoubtCounted(root, fields, repeaters, f.binding);
    if k :| 0 <= k < |fields| && k != i && fields[k].visible && Overlaps(fields[k].binding, f.binding) {
      assert ActiveTouches(fields, f.binding);
    }
  }

  /** A field is decided protected exactly when it is active, or when it could be omitted, nothing
      doubtful overlaps it, and an active field overlaps it or a visible repeater lies strictly below. */
  lemma FieldIsProtected(root: Json, fields: seq<Owner>, repeaters: seq<Owner>, i: nat)
    requires i < |fields|
    ensures (var f, m := fields[i], SnapshotModel(root, fields, repeaters);
      Decide(m, m.fields[i], true).Protected? <==>
        || f.visible || f.submitWhenHidden
        || (Omittable(f.binding) && !Doubtful(fields, repeaters, m.unknown, f.binding)
            && (ActiveTouches(fields, f.binding) || RepeaterBelow(repeaters, f.binding))))
  {
    var f, m := fields[i], SnapshotModel(root, fields, repeaters);
    FieldProtected(fields, repeaters, m.unknown, i);
    ActiveCounted(root, fields, repeaters, f.binding);
    DoubtCounted(root, fields, repeaters, f.binding);
    if k :| 0 <= k < |fields| && k != i && fields[k].visible && Overlaps(fields[k].binding, f.binding) {
      assert ActiveTouches(fields, f.binding);
    }
  }

  /** The same for a repeater, whose own place and other repeaters protect nothing. */
  lemma RepeaterIsExclusive(root: Json, fields: seq<Owner>, repeaters: seq<Owner>, i: nat)
    requires Snapshot(repeaters, root) && i < |repeaters|
    ensures (var r, m := repeaters[i], SnapshotModel(root, fields, repeaters);
      Decide(m, m.repeaters[i], true).Exclusive? <==>
        && r.eligible && !r.visible && !r.submitWhenHidden
        && !ActiveTouches(fields, r.binding) && !Doubtful(fields, repeaters, m.unknown, r.binding))
  {
    var r, m := repeaters[i], SnapshotModel(root, fields, repeaters);
    assert r in repeaters;
    RepeaterProtected(fields, repeaters, m.unknown, i);
    ActiveCounted(root, fields, repeaters, r.binding);
    DoubtCounted(root, fields, repeaters, r.binding);
    if k :| 0 <= k < |fields| && fields[k].visible && Overlaps(fields[k].binding, r.binding) {
      assert ActiveTouches(fields, r.binding);
    }
  }

  /** With diagnostics, without omission or once the capture is outdated, nothing is decided. */
  lemma NothingDecided(m: Model, o: Owner, current: bool)
    requires m.diagnostics || !m.omitInactive || !current
    ensures Decide(m, o, current).Unknown?
  {
  }

  // ---- what is unclaimed ----

  /** A field names the position or something below it, or it is a container on a repeater's way. */
  ghost predicate ClaimedBy(fields: seq<Binding>, repeaters: seq<Binding>, p: Path, value: Json) {
    || (exists i :: 0 <= i < |fields| && fields[i].namespace == "data" && p <= fields[i].segments)
    || (IsContainer(value) && exists i :: 0 <= i < |repeaters| && Overlaps(repeaters[i], Binding("data", p)))
  }

  lemma ClaimedCounted(fields: seq<Binding>, repeaters: seq<Binding>, p: Path, value: Json)
    ensures Claimed(fields, repeaters, Binding("data", p), value) <==> ClaimedBy(fields, repeaters, p, value)
  {
    var b := Binding("data", p);
    CountPositive(fields, Same, b);
    CountPositive(fields, Extends, b);
    CountPositive(repeaters, Overlapping, b);
    if i :| 0 <= i < |fields| && fields[i].namespace == "data" && p <= fields[i].segments {
      assert Related(Same, fields[i], b) || Related(Extends, fields[i], b);
    }
    if i :| 0 <= i < |repeaters| && Overlaps(repeaters[i], b) { assert Related(Overlapping, repeaters[i], b); }
  }

  ghost predicate ClaimedTo(value: Json, fields: seq<Binding>, repeaters: seq<Binding>, at: Path, p: Path, n: nat)
    requires at <= p && |at| <= n <= |p|
  {
    At(value, p[|at|..n]).Some? && ClaimedBy(fields, repeaters, p[..n], At(value, p[|at|..n]).value)
  }

  /** The position is there, everything above it from `at` on is claimed, and it is itself unclaimed or a
      container that cannot be captured. */
  ghost predicate Outermost(value: Json, fields: seq<Binding>, repeaters: seq<Binding>, at: Path, p: Path)
    requires at <= p
  {
    && At(value, p[|at|..]).Some?
    && (forall n :: |at| < n < |p| ==> ClaimedTo(value, fields, repeaters, at, p, n))
    && ((|at| < |p| && !ClaimedTo(value, fields, repeaters, at, p, |p|)) || At(value, p[|at|..]).value.Foreign?)
  }

  lemma {:induction false} ListedFrom(value: Json, at: Path, fields: seq<Binding>, repeaters: seq<Binding>, i: nat, u: Binding)
    ensures u in UnclaimedFrom(value, at, fields, repeaters, i) <==>
      exists k :: i <= k < |ChildSegments(value)| && u in UnclaimedAt(value, at, fields, repeaters, ChildSegments(value)[k])
    decreases |ChildSegments(value)| - i
  {
    if i < |ChildSegments(value)| { ListedFrom(value, at, fields, repeaters, i + 1, u); }
  }

  /** Whatever is reported lies in the data, at or below where the visit started. */
  lemma {:induction false} ReportedBelow(value: Json, at: Path, fields: seq<Binding>, repeaters: seq<Binding>, u: Binding)
    requires u in Unclaimed(value, at, fields, repeaters)
    ensures u.namespace == "data" && at <= u.segments
    decreases value
  {
    if IsContainer(value) && !value.Foreign? {
      ListedFrom(value, at, fields, repeaters, 0, u);
      var k :| 0 <= k < |ChildSegments(value)| && u in UnclaimedAt(value, at, fields, repeaters, ChildSegments(value)[k]);
      ReportedBelowChild(value, at, fields, repeaters, ChildSegments(value)[k], u);
    }
  }

  lemma {:induction false} ReportedBelowChild(value: Json, at: Path, fields: seq<Binding>, repeaters: seq<Binding>, s: Segment, u: Binding)
    requires u in UnclaimedAt(value, at, fields, repeaters, s)
    ensures u.namespace == "data" && at + [s] <= u.segments
    decreases value, 0
  {
    var child := Child(value, s).value;
    if Claimed(fields, repeaters, Binding("data", at + [s]), child) { ReportedBelow(child, at + [s], fields, repeaters, u); }
  }

  /** The child on the way to a position alone can report it. */
  lemma ReportedByChild(value: Json, at: Path, fields: seq<Binding>, repeaters: seq<Binding>, p: Path)
    requires Ordered(value) && IsContainer(value) && !value.Foreign? && at <= p && |at| < |p|
    ensures Binding("data", p) in Unclaimed(value, at, fields, repeaters) <==>
      Binding("data", p) in UnclaimedAt(value, at, fields, repeaters, p[|at|])
  {
    var u, s := Binding("data", p), p[|at|];
    ListedFrom(value, at, fields, repeaters, 0, u);
    if k :| 0 <= k < |ChildSegments(value)| && u in UnclaimedAt(value, at, fields, repeaters, ChildSegments(value)[k]) {
      ReportedBelowChild(value, at, fields, repeaters, ChildSegments(value)[k], u);
      assert (at + [ChildSegments(value)[k]])[|at|] == p[|at|];
    }
    if u in UnclaimedAt(value, at, fields, repeaters, s) {
      ChildrenListed(value, s);
      var k :| 0 <= k < |ChildSegments(value)| && ChildSegments(value)[k] == s;
    }
  }

  lemma ClaimedBelow(value: Json, child: Json, fields: seq<Binding>, repeaters: seq<Binding>, at: Path, p: Path, n: nat)
    requires at <= p && |at| < n <= |p| && Child(value, p[|at|]) == Some(child)
    ensures at + [p[|at|]] <= p
    ensures ClaimedTo(value, fields, repeaters, at, p, n) <==> ClaimedTo(child, fields, repeaters, at + [p[|at|]], p, n)
  {
    assert p[|at|..n][0] == p[|at|] && p[|at|..n][1..] == p[|at| + 1..n];
  }

  lemma OutermostBelow(value: Json, child: Json, fields: seq<Binding>, repeaters: seq<Binding>, at: Path, p: Path)
    requires at <= p && |at| < |p| && Child(value, p[|at|]) == Some(child)
    requires ClaimedBy(fields, repeaters, at + [p[|at|]], child)
    ensures at + [p[|at|]] <= p
    ensures Outermost(value, fields, repeaters, at, p) <==> Outermost(child, fields, repeaters, at + [p[|at|]], p)
  {
    var next := at + [p[|at|]];
    assert p[|at|..][0] == p[|at|] && p[|at|..][1..] == p[|at| + 1..] && p[..|next|] == next;
    forall n | |at| < n <= |p|
      ensures ClaimedTo(value, fields, repeaters, at, p, n) <==> ClaimedTo(child, fields, repeaters, next, p, n)
    {
      ClaimedBelow(value, child, fields, repeaters, at, p, n);
    }
    assert p[|next|..|next|] == [] && ClaimedTo(child, fields, repeaters, next, p, |next|);
  }

  /** Reported as unclaimed are exactly the outermost such positions. */
  lemma {:induction false} ReportedIffOutermost(value: Json, at: Path, fields: seq<Binding>, repeaters: seq<Binding>, p: Path)
    requires Ordered(value)
    ensures Binding("data", p) in Unclaimed(value, at, fields, repeaters) <==> at <= p && Outermost(value, fields, repeaters, at, p)
    decreases value
  {
    var u := Binding("data", p);
    if u in Unclaimed(value, at, fields, repeaters) { ReportedBelow(value, at, fields, repeaters, u); }
    if at <= p && |at| < |p| && IsContainer(value) && !value.Foreign? {
      ReportedByChild(value, at, fields, repeaters, p);
      ReportedChild(value, at, fields, repeaters, p);
    } else if at <= p && |p| == |at| {
      assert p == at && p[|at|..] == [];
      if u in Unclaimed(value, at, fields, repeaters) { NotItself(value, at, fields, repeaters); }
    }
  }

  lemma NotItself(value: Json, at: Path, fields: seq<Binding>, repeaters: seq<Binding>)
    requires Binding("data", at) in Unclaimed(value, at, fields, repeaters)
    ensures value.Foreign?
  {
    if IsContainer(value) && !value.Foreign? {
      ListedFrom(value, at, fields, repeaters, 0, Binding("data", at));
      var k :| 0 <= k < |ChildSegments(value)| && Binding("data", at) in UnclaimedAt(value, at, fields, repeaters, ChildSegments(value)[k]);
      ReportedBelowChild(value, at, fields, repeaters, ChildSegments(value)[k], Binding("data", at));
    }
  }

  lemma {:induction false} ReportedChild(value: Json, at: Path, fields: seq<Binding>, repeaters: seq<Binding>, p: Path)
    requires Ordered(value) && at <= p && |at| < |p|
    ensures Binding("data", p) in UnclaimedAt(value, at, fields, repeaters, p[|at|]) <==> Outermost(value, fields, repeaters, at, p)
    decreases value, 0
  {
    var s, next := p[|at|], at + [p[|at|]];
    assert p[|at|..][0] == s && p[|at|..][1..] == p[|at| + 1..] && p[..|next|] == next;
    match Child(value, s) {
      case None =>
      case Some(child) =>
        ClaimedCounted(fields, repeaters, next, child);
        if ClaimedBy(fields, repeaters, next, child) {
          OutermostBelow(value, child, fields, repeaters, at, p);
          ReportedIffOutermost(child, next, fields, repeaters, p);
        } else {
          ClaimedBelow(value, child, fields, repeaters, at, p, |next|);
          assert p[|next|..|next|] == [];
          assert !ClaimedTo(value, fields, repeaters, at, p, |next|);
          if |p| == |next| { assert p == next; }
        }
    }
  }
}
