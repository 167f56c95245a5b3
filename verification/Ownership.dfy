/** Which bindings may be omitted: the concrete ownership model of runtime-ownership.ts and the
    classification of exclusive-binding-decision.ts.

    The projected runtime snapshot (fields and repeaters with their bindings and visibility) and
    the captured data tree are inputs. */
module Ownership {
  import opened JsonData
  import opened Bindings
  import opened OverlapIndex

  datatype Owner = Owner(
    binding: Binding,
    visible: bool,
    submitWhenHidden: bool,
    eligible: bool,
    protected: bool)

  datatype Model = Model(
    omitInactive: bool,
    fields: seq<Owner>,
    repeaters: seq<Owner>,
    unknown: seq<Binding>,
    diagnostics: bool)

  // ---- binding presence ----

  predicate IsContainer(j: Json) {
    j.List? || j.Record? || j.Foreign?
  }

  /** The binding names a record field that is present, through typed own segments. */
  ghost predicate IsBound(root: Json, b: Binding) {
    && b.namespace == "data" && b.segments != []
    && (forall i :: 0 <= i < |b.segments| ==> TypedSegment(b.segments[i]))
    && Last(b.segments).Key?
    && At(root, b.segments).Some?
  }

  method Bound(root: Json, b: Binding) returns (ok: bool)
    ensures ok <==> IsBound(root, b)
  {
    if b.namespace != "data" || b.segments == [] { return false; }
    var value := root;
    var i := 0;
    while i < |b.segments|
      invariant 0 <= i <= |b.segments|
      invariant forall k :: 0 <= k < i ==> TypedSegment(b.segments[k])
      invariant At(root, b.segments) == At(value, b.segments[i..])
      invariant i == |b.segments| ==> Last(b.segments).Key?
    {
      var segment := b.segments[i];
      assert b.segments[i..][1..] == b.segments[i + 1..];
      if !TypedSegment(segment) { return false; }
      if i == |b.segments| - 1 && segment.Index? { return false; }
      var child := Child(value, segment);
      if child.None? { return false; }
      value := child.value;
      i := i + 1;
    }
    ok := true;
  }

  // ---- data no field claims ----

  predicate Claimed(fields: seq<Binding>, repeaters: seq<Binding>, b: Binding, value: Json) {
    || Count(fields, Same, b) > 0
    || Count(fields, Extends, b) > 0
    || (Count(repeaters, Overlapping, b) > 0 && IsContainer(value))
  }

  function ChildSegments(j: Json): seq<Segment> {
    match j
    case List(items) => seq(|items|, i => Index(i))
    case Record(keys, _) => seq(|keys|, i requires 0 <= i < |keys| => Key(keys[i]))
    case _ => []
  }

  lemma ChildrenListed(j: Json, s: Segment)
    requires Ordered(j)
    ensures s in ChildSegments(j) <==> Child(j, s).Some?
  {
    match j
    case List(items) =>
      if Child(j, s).Some? { assert ChildSegments(j)[s.index] == s; }
    case Record(keys, _) =>
      if Child(j, s).Some? {
        var i :| 0 <= i < |keys| && keys[i] == s.key;
        assert ChildSegments(j)[i] == s;
      }
    case _ =>
  }

  /** Positions below `value` that no field claims, outermost only, in visiting order. */
  ghost function Unclaimed(value: Json, at: Path, fields: seq<Binding>, repeaters: seq<Binding>): seq<Binding>
    decreases value, 1, 0
  {
    if !IsContainer(value) then []
    else if value.Foreign? then [Binding("data", at)]
    else UnclaimedFrom(value, at, fields, repeaters, 0)
  }

  ghost function UnclaimedFrom(value: Json, at: Path, fields: seq<Binding>, repeaters: seq<Binding>, i: nat): seq<Binding>
    decreases value, 0, |ChildSegments(value)| - i
  {
    if i >= |ChildSegments(value)| then []
    else
      var s := ChildSegments(value)[i];
      UnclaimedAt(value, at, fields, repeaters, s) + UnclaimedFrom(value, at, fields, repeaters, i + 1)
  }

  ghost function UnclaimedAt(value: Json, at: Path, fields: seq<Binding>, repeaters: seq<Binding>, s: Segment): seq<Binding>
    decreases value, 0, 0
  {
    match Child(value, s)
    case None => []
    case Some(child) =>
      var b := Binding("data", at + [s]);
      if Claimed(fields, repeaters, b, child) then Unclaimed(child, at + [s], fields, repeaters) else [b]
  }

  /** The recursive visit over the captured data. */
  method Visit(value: Json, at: Path, fields: OwnershipOverlapIndex, repeaters: OwnershipOverlapIndex)
    returns (unknown: seq<Binding>)
    requires fields.Valid() && repeaters.Valid() && Ordered(value)
    ensures unknown == Unclaimed(value, at, fields.bindings, repeaters.bindings)
    decreases value, 1
  {
    if !IsContainer(value) { return []; }
    if value.Foreign? { return [Binding("data", at)]; }
    unknown := [];
    var segments := ChildSegments(value);
    ghost var fs, rs := fields.bindings, repeaters.bindings;
    ghost var all := Unclaimed(value, at, fs, rs);
    for i := 0 to |segments|
      invariant ReportedSoFar(value, at, fs, rs, i, unknown, all)
    {
      ChildrenListed(value, segments[i]);
      var more := VisitChild(value, at, fields, repeaters, segments[i]);
      ReportOne(value, at, fs, rs, i, unknown, more, all);
      unknown := unknown + more;
    }
  }

  /** What is reported and what the remaining children will report make up the whole. */
  ghost predicate ReportedSoFar(value: Json, at: Path, fields: seq<Binding>, repeaters: seq<Binding>, i: nat,
                                unknown: seq<Binding>, all: seq<Binding>) {
    all == unknown + UnclaimedFrom(value, at, fields, repeaters, i)
  }

  lemma ReportOne(value: Json, at: Path, fields: seq<Binding>, repeaters: seq<Binding>, i: nat,
                  unknown: seq<Binding>, more: seq<Binding>, all: seq<Binding>)
    requires i < |ChildSegments(value)| && ReportedSoFar(value, at, fields, repeaters, i, unknown, all)
    requires more == UnclaimedAt(value, at, fields, repeaters, ChildSegments(value)[i])
    ensures ReportedSoFar(value, at, fields, repeaters, i + 1, unknown + more, all)
  {
  }

  method VisitChild(value: Json, at: Path, fields: OwnershipOverlapIndex, repeaters: OwnershipOverlapIndex, s: Segment)
    returns (unknown: seq<Binding>)
    requires fields.Valid() && repeaters.Valid() && Ordered(value)
    requires Child(value, s).Some?
    ensures unknown == UnclaimedAt(value, at, fields.bindings, repeaters.bindings, s)
    decreases value, 0
  {
    var child, b := Child(value, s).value, Binding("data", at + [s]);
    var claimed := IsClaimed(fields, repeaters, b, child);
    if !claimed { return [b]; }
    unknown := Visit(child, at + [s], fields, repeaters);
  }

  method IsClaimed(fields: OwnershipOverlapIndex, repeaters: OwnershipOverlapIndex, b: Binding, child: Json) returns (ok: bool)
    requires fields.Valid() && repeaters.Valid()
    ensures ok <==> Claimed(fields.bindings, repeaters.bindings, b, child)
  {
    var exact, descendants, _ := fields.Query(b);
    var _, _, structural := repeaters.Query(b);
    ok := exact > 0 || descendants > 0 || (structural > 0 && IsContainer(child));
  }

  /** `l` is claimed by a field at or below it, or some outermost unclaimed position is on its way. */
  ghost predicate Accounted(l: Path, fields: seq<Binding>, unclaimed: seq<Binding>) {
    || Count(fields, Below, Binding("data", l)) > 0
    || exists u :: u in unclaimed && u.namespace == "data" && u.segments <= l
  }

  /** Nothing escapes the visit: every leaf is claimed by a field or reported. */
  lemma {:induction false} LeavesAccounted(value: Json, at: Path, fields: seq<Binding>, repeaters: seq<Binding>, l: Path)
    requires Ordered(value) && at <= l && At(value, l[|at|..]).Some?
    requires var leaf := At(value, l[|at|..]).value; leaf.Foreign? || (!IsContainer(leaf) && |at| < |l|)
    ensures Accounted(l, fields, Unclaimed(value, at, fields, repeaters))
    decreases |l| - |at|
  {
    if |at| == |l| {
      assert l == at;
      assert Binding("data", at) in Unclaimed(value, at, fields, repeaters);
    } else {
      var s := l[|at|];
      assert l[|at|..][0] == s && l[|at|..][1..] == l[|at| + 1..];
      ChildrenListed(value, s);
      var i :| 0 <= i < |ChildSegments(value)| && ChildSegments(value)[i] == s;
      ReportedFrom(value, at, fields, repeaters, 0, i);
      LeafBelow(value, at, fields, repeaters, l);
    }
  }

  lemma {:induction false} LeafBelow(value: Json, at: Path, fields: seq<Binding>, repeaters: seq<Binding>, l: Path)
    requires Ordered(value) && at <= l && |at| < |l| && At(value, l[|at|..]).Some?
    requires var leaf := At(value, l[|at|..]).value; leaf.Foreign? || !IsContainer(leaf)
    ensures Accounted(l, fields, UnclaimedAt(value, at, fields, repeaters, l[|at|]))
    decreases |l| - |at|, 0
  {
    var s := l[|at|];
    assert l[|at|..][0] == s && l[|at|..][1..] == l[|at| + 1..];
    var child, next := Child(value, s).value, at + [s];
    assert next <= l;
    var b := Binding("data", next);
    if !Claimed(fields, repeaters, b, child) {
      assert b in UnclaimedAt(value, at, fields, repeaters, s);
    } else if next == l && !IsContainer(child) {
      BelowSplit(fields, b);
    } else {
      LeavesAccounted(child, next, fields, repeaters, l);
    }
  }

  lemma {:induction false} ReportedFrom(value: Json, at: Path, fields: seq<Binding>, repeaters: seq<Binding>, k: nat, i: nat)
    requires k <= i < |ChildSegments(value)|
    ensures forall u :: u in UnclaimedAt(value, at, fields, repeaters, ChildSegments(value)[i]) ==>
      u in UnclaimedFrom(value, at, fields, repeaters, k)
    decreases i - k
  {
    if k < i { ReportedFrom(value, at, fields, repeaters, k + 1, i); }
  }

  // ---- protection and classification ----

  function BindingsOf(owners: seq<Owner>): (r: seq<Binding>)
    ensures |r| == |owners| && forall i :: 0 <= i < |r| ==> r[i] == owners[i].binding
  {
    seq(|owners|, i requires 0 <= i < |owners| => owners[i].binding)
  }

  predicate IsActive(o: Owner) {
    o.visible || o.submitWhenHidden
  }

  predicate IsStray(o: Owner) {
    !o.eligible && !o.protected
  }

  function Visible(owners: seq<Owner>): (r: seq<Binding>)
    ensures forall b :: b in r <==> exists o :: o in owners && o.visible && o.binding == b
  {
    if owners == [] then []
    else (if owners[0].visible then [owners[0].binding] else []) + Visible(owners[1..])
  }

  function Active(owners: seq<Owner>): (r: seq<Binding>)
    ensures forall b :: b in r <==> exists o :: o in owners && IsActive(o) && o.binding == b
  {
    if owners == [] then []
    else (if IsActive(owners[0]) then [owners[0].binding] else []) + Active(owners[1..])
  }

  function Stray(owners: seq<Owner>): (r: seq<Binding>)
    ensures forall b :: b in r <==> exists o :: o in owners && IsStray(o) && o.binding == b
  {
    if owners == [] then []
    else (if IsStray(owners[0]) then [owners[0].binding] else []) + Stray(owners[1..])
  }

  method BuildIndex(bs: seq<Binding>) returns (ix: OwnershipOverlapIndex)
    ensures fresh(ix) && fresh(ix.Repr) && ix.Valid() && ix.bindings == bs
  {
    ix := new OwnershipOverlapIndex();
    for i := 0 to |bs|
      invariant fresh(ix) && fresh(ix.Repr) && ix.Valid() && ix.bindings == bs[..i]
    {
      ix.Add(bs[i]);
      assert bs[..i + 1] == bs[..i] + [bs[i]];
    }
    assert bs[..|bs|] == bs;
  }

  /** An owner is protected when another visible field overlaps it, or, for a field, when a visible
      repeater lies strictly below it; protected and unknown-touching owners are not eligible. */
  function Protect(o: Owner, container: bool, visibleFields: seq<Binding>, visibleRepeaters: seq<Binding>,
                   unknown: seq<Binding>, diagnostics: bool): Owner
  {
    var byField := Count(visibleFields, Overlapping, o.binding) > (if container || !o.visible then 0 else 1);
    var byContainer := !container && Count(visibleRepeaters, Extends, o.binding) > 0;
    o.(eligible := o.eligible && !diagnostics && !(byField || byContainer) && Count(unknown, Overlapping, o.binding) == 0,
       protected := byField || byContainer)
  }

  function ProtectAll(os: seq<Owner>, container: bool, visibleFields: seq<Binding>, visibleRepeaters: seq<Binding>,
                      unknown: seq<Binding>, diagnostics: bool): seq<Owner>
  {
    seq(|os|, i requires 0 <= i < |os| => Protect(os[i], container, visibleFields, visibleRepeaters, unknown, diagnostics))
  }

  method ProtectEach(os: seq<Owner>, container: bool, visibleFields: OwnershipOverlapIndex,
                     visibleRepeaters: OwnershipOverlapIndex, unknown: OwnershipOverlapIndex, diagnostics: bool)
    returns (r: seq<Owner>)
    requires visibleFields.Valid() && visibleRepeaters.Valid() && unknown.Valid()
    ensures r == ProtectAll(os, container, visibleFields.bindings, visibleRepeaters.bindings, unknown.bindings, diagnostics)
  {
    r := [];
    for i := 0 to |os|
      invariant |r| == i && forall j :: 0 <= j < i ==>
        r[j] == Protect(os[j], container, visibleFields.bindings, visibleRepeaters.bindings, unknown.bindings, diagnostics)
    {
      var o := ProtectOne(os[i], container, visibleFields, visibleRepeaters, unknown, diagnostics);
      r := r + [o];
    }
  }

  method ProtectOne(o: Owner, container: bool, visibleFields: OwnershipOverlapIndex,
                    visibleRepeaters: OwnershipOverlapIndex, unknown: OwnershipOverlapIndex, diagnostics: bool)
    returns (r: Owner)
    requires visibleFields.Valid() && visibleRepeaters.Valid() && unknown.Valid()
    ensures r == Protect(o, container, visibleFields.bindings, visibleRepeaters.bindings, unknown.bindings, diagnostics)
  {
    var _, _, byFields := visibleFields.Query(o.binding);
    var _, below, _ := visibleRepeaters.Query(o.binding);
    var _, _, touched := unknown.Query(o.binding);
    var protected := byFields > (if container || !o.visible then 0 else 1) || (!container && below > 0);
    r := o.(eligible := o.eligible && !diagnostics && !protected && touched == 0, protected := protected);
  }

  /** The owners of a snapshot before protection: eligible when bound in the data. */
  ghost predicate Snapshot(owners: seq<Owner>, root: Json) {
    forall o :: o in owners ==> !o.protected && (o.eligible ==> IsBound(root, o.binding))
  }

  ghost function ModelOf(root: Json, fields: seq<Owner>, repeaters: seq<Owner>, diagnostics: bool, omitInactive: bool): Model {
    var unknown := Unclaimed(root, [], BindingsOf(fields), BindingsOf(repeaters));
    Model(omitInactive,
          ProtectAll(fields, false, Visible(fields), Visible(repeaters), unknown, diagnostics),
          ProtectAll(repeaters, true, Visible(fields), Visible(repeaters), unknown, diagnostics),
          unknown, diagnostics)
  }

  /** The read model of one capture (`projectConcreteOwnership` after its runtime snapshot). */
  method ProjectOwnership(root: Json, fields: seq<Owner>, repeaters: seq<Owner>, diagnostics: bool, omitInactive: bool)
    returns (m: Model)
    requires Ordered(root)
    ensures m == ModelOf(root, fields, repeaters, diagnostics, omitInactive)
  {
    var unknown := FindUnclaimed(root, fields, repeaters);
    var ownedFields, ownedRepeaters := ProtectOwners(fields, repeaters, unknown, diagnostics);
    m := Model(omitInactive, ownedFields, ownedRepeaters, unknown, diagnostics);
  }

  method ProtectOwners(fields: seq<Owner>, repeaters: seq<Owner>, unknown: seq<Binding>, diagnostics: bool)
    returns (ownedFields: seq<Owner>, ownedRepeaters: seq<Owner>)
    ensures ownedFields == ProtectAll(fields, false, Visible(fields), Visible(repeaters), unknown, diagnostics)
    ensures ownedRepeaters == ProtectAll(repeaters, true, Visible(fields), Visible(repeaters), unknown, diagnostics)
  {
    var visibleFields := BuildIndex(Visible(fields));
    var visibleRepeaters := BuildIndex(Visible(repeaters));
    var unknownIndex := BuildIndex(unknown);
    ownedFields := ProtectEach(fields, false, visibleFields, visibleRepeaters, unknownIndex, diagnostics);
    ownedRepeaters := ProtectEach(repeaters, true, visibleFields, visibleRepeaters, unknownIndex, diagnostics);
  }

  method FindUnclaimed(root: Json, fields: seq<Owner>, repeaters: seq<Owner>) returns (unknown: seq<Binding>)
    requires Ordered(root)
    ensures unknown == Unclaimed(root, [], BindingsOf(fields), BindingsOf(repeaters))
  {
    var allFields := BuildIndex(BindingsOf(fields));
    var allRepeaters := BuildIndex(BindingsOf(repeaters));
    unknown := Visit(root, [], allFields, allRepeaters);
  }

  function Classify(o: Owner, diagnostics: bool, active: nat, unknown: nat): Decision {
    if diagnostics then Unknown
    else if IsActive(o) then Protected
    else if o.binding.namespace != "data" || o.binding.segments == [] then Unknown
    else if Last(o.binding.segments).Index? then Unknown
    else if unknown > 0 then Unknown
    else if active > 0 || o.protected then Protected
    else if !o.eligible then Unknown
    else Exclusive
  }

  function UnknownOf(m: Model): seq<Binding> {
    m.unknown + Stray(m.fields) + Stray(m.repeaters)
  }

  /** The decision for one owner of the model; `current` is the liveness of the capture. */
  function Decide(m: Model, o: Owner, current: bool): Decision {
    if m.omitInactive && current
    then Classify(o, m.diagnostics, Count(Active(m.fields), Overlapping, o.binding), Count(UnknownOf(m), Overlapping, o.binding))
    else Unknown
  }

  function DecideAll(m: Model, os: seq<Owner>, current: bool): (r: seq<Decided>)
    ensures |r| == |os| && forall i :: 0 <= i < |r| ==> r[i] == Decided(os[i].binding, Decide(m, os[i], current))
  {
    seq(|os|, i requires 0 <= i < |os| => Decided(os[i].binding, Decide(m, os[i], current)))
  }

  method DecideOne(m: Model, o: Owner, current: bool, active: OwnershipOverlapIndex, unknown: OwnershipOverlapIndex)
    returns (d: Decision)
    requires active.Valid() && unknown.Valid()
    requires active.bindings == Active(m.fields) && unknown.bindings == UnknownOf(m)
    ensures d == Decide(m, o, current)
  {
    var _, _, live := active.Query(o.binding);
    var _, _, foreign := unknown.Query(o.binding);
    d := if m.omitInactive && current then Classify(o, m.diagnostics, live, foreign) else Unknown;
  }

  method DecideEach(m: Model, os: seq<Owner>, current: bool, active: OwnershipOverlapIndex, unknown: OwnershipOverlapIndex)
    returns (r: seq<Decided>)
    requires active.Valid() && unknown.Valid()
    requires active.bindings == Active(m.fields) && unknown.bindings == UnknownOf(m)
    ensures r == DecideAll(m, os, current)
  {
    r := [];
    for i := 0 to |os|
      invariant r == DecideAll(m, os, current)[..i]
    {
      var decision := DecideOne(m, os[i], current, active, unknown);
      r := r + [Decided(os[i].binding, decision)];
    }
  }

  method DecideExclusiveBindings(m: Model, current: bool) returns (fields: seq<Decided>, repeaters: seq<Decided>)
    ensures fields == DecideAll(m, m.fields, current)
    ensures repeaters == DecideAll(m, m.repeaters, current)
  {
    var active := BuildIndex(Active(m.fields));
    var unknown := BuildIndex(UnknownOf(m));
    fields := DecideEach(m, m.fields, current, active, unknown);
    repeaters := DecideEach(m, m.repeaters, current, active, unknown);
  }

  // ---- omission safety ----

  lemma CountNone(bs: seq<Binding>, q: Binding)
    requires Count(bs, Overlapping, q) == 0
    ensures forall b :: b in bs ==> !Overlaps(b, q)
  {
    CountPositive(bs, Overlapping, q);
    forall b | b in bs ensures !Overlaps(b, q) {
      var i :| 0 <= i < |bs| && bs[i] == b;
      assert !Related(Overlapping, bs[i], q);
    }
  }

  /** A field classified exclusive is present in the data, so removing it cannot fail. */
  lemma ExclusiveIsBound(root: Json, fields: seq<Owner>, repeaters: seq<Owner>, diagnostics: bool, omitInactive: bool,
                         current: bool, i: nat)
    requires Snapshot(fields, root) && i < |fields|
    requires var m := ModelOf(root, fields, repeaters, diagnostics, omitInactive);
      Decide(m, m.fields[i], current).Exclusive?
    ensures IsBound(root, fields[i].binding)
  {
    assert fields[i] in fields;
  }

  /** An exclusive owner overlaps no active field and nothing unknown. */
  lemma ExclusiveIsClear(m: Model, o: Owner, current: bool)
    requires Decide(m, o, current).Exclusive?
    ensures !IsActive(o) && o.eligible && !m.diagnostics
    ensures forall f :: f in m.fields && Overlaps(f.binding, o.binding) ==> !IsActive(f)
    ensures forall u :: u in m.unknown ==> !Overlaps(u, o.binding)
  {
    CountNone(Active(m.fields), o.binding);
    CountNone(UnknownOf(m), o.binding);
    forall f | f in m.fields && Overlaps(f.binding, o.binding) ensures !IsActive(f) {
      assert IsActive(f) ==> f.binding in Active(m.fields);
    }
    forall u | u in m.unknown ensures !Overlaps(u, o.binding) { assert u in UnknownOf(m); }
  }

  ghost predicate IsLeaf(j: Json) {
    j.Foreign? || !IsContainer(j)
  }

  /** The field's binding names the position or something below it. */
  predicate Claims(f: Owner, l: Path) {
    f.binding.namespace == "data" && l <= f.binding.segments
  }

  lemma ClaimedLeaf(root: Json, fields: seq<Owner>, repeaters: seq<Owner>, diagnostics: bool, omitInactive: bool, l: Path)
    requires var m := ModelOf(root, fields, repeaters, diagnostics, omitInactive);
      Count(BindingsOf(fields), Below, Binding("data", l)) > 0
    ensures var m := ModelOf(root, fields, repeaters, diagnostics, omitInactive);
      exists f :: f in m.fields && Claims(f, l)
  {
    var m := ModelOf(root, fields, repeaters, diagnostics, omitInactive);
    CountPositive(BindingsOf(fields), Below, Binding("data", l));
    var i :| 0 <= i < |fields| && Related(Below, BindingsOf(fields)[i], Binding("data", l));
    assert m.fields[i].binding == fields[i].binding;
    assert m.fields[i] in m.fields && Claims(m.fields[i], l);
  }

  /** Omission safety: everything a leaf at or below an exclusive binding holds is named or extended
      by some field's binding, and no field whose binding touches the leaf is visible or kept when
      hidden. */
  lemma OmissionIsSafe(root: Json, fields: seq<Owner>, repeaters: seq<Owner>, diagnostics: bool, omitInactive: bool,
                       current: bool, o: Owner, l: Path)
    requires Ordered(root)
    requires var m := ModelOf(root, fields, repeaters, diagnostics, omitInactive);
      Decide(m, o, current).Exclusive?
    requires o.binding.segments <= l && At(root, l).Some? && IsLeaf(At(root, l).value)
    ensures var m := ModelOf(root, fields, repeaters, diagnostics, omitInactive);
      && (exists f :: f in m.fields && Claims(f, l))
      && (forall f :: f in m.fields && Overlaps(f.binding, Binding("data", l)) ==> !IsActive(f))
  {
    var m := ModelOf(root, fields, repeaters, diagnostics, omitInactive);
    ExclusiveIsClear(m, o, current);
    assert l[0..] == l;
    LeavesAccounted(root, [], BindingsOf(fields), BindingsOf(repeaters), l);
    forall u | u in m.unknown && u.namespace == "data" ensures !(u.segments <= l) {
      assert !Overlaps(u, o.binding);
    }
    ClaimedLeaf(root, fields, repeaters, diagnostics, omitInactive, l);
    forall f | f in m.fields && Overlaps(f.binding, Binding("data", l)) ensures !IsActive(f) {
      assert Overlaps(f.binding, o.binding);
    }
  }
}
