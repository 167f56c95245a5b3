/** The independent checker of a submit projection (`verify` in submit-adapter-proof.ts).

    It receives the original data, the projected data, the final data and a witness, and accepts
    only when the witness accounts for every difference. A thrown "invalid witness" is a `false`. */
module WitnessChecker {
  import opened JsonData
  import opened Collections

  const MAX_SEGMENTS := 32
  const MAX_ENTRIES := 256

  datatype Kind = NoOmission | Omission
  datatype ProtectedValue = ProtectedValue(path: Path, value: Json)
  datatype Anchor = Anchor(rows: Path, key: Path)
  datatype Witness = Witness(
    kind: Kind,
    omitted: seq<Path>,
    protected: seq<ProtectedValue>,
    rowAnchors: seq<Anchor>)

  function Entries(w: Witness): nat {
    |w.omitted| + |w.protected| + |w.rowAnchors|
  }

  predicate ValidSegment(s: Segment) {
    match s
    case Key(k) => k !in UNSAFE_KEYS
    case Index(i) => IsSafeInteger(i) && i >= 0
  }

  predicate ValidPath(path: Path, allowRoot: bool := false) {
    && (allowRoot || path != [])
    && |path| <= MAX_SEGMENTS
    && forall i :: 0 <= i < |path| ==> ValidSegment(path[i])
  }

  predicate IsPrimitive(j: Json) {
    j.Boolean? || j.Number? || j.Text?
  }

  // ---- what acceptance means ----

  /** `p` is `o` with some record fields deleted, at any depth, and nothing else changed
      (the order of the keys that stay is not looked at). */
  ghost predicate Prunes(o: Json, p: Json) {
    match o
    case List(items) =>
      && p.List?
      && |items| == |p.items|
      && (forall i :: 0 <= i < |items| ==> Prunes(items[i], p.items[i]))
    case Record(_, fields) =>
      && p.Record?
      && p.fields.Keys <= fields.Keys
      && (forall k :: k in p.fields ==> Prunes(fields[k], p.fields[k]))
    case _ => o == p
  }

  /** `r` is a topmost deleted position: present in `o`, absent from `p`, its parent still in `p`. */
  ghost predicate Missing(o: Json, p: Json, r: Path) {
    r != [] && At(o, r).Some? && At(p, r).None? && At(p, Front(r)).Some?
  }

  /** The containers on the way to an omission still have the same shape in the final data. */
  predicate SameContainer(before: Option<Json>, after: Option<Json>) {
    && before.Some? && after.Some?
    && !before.value.Null? && !after.value.Null?
    && before.value.List? == after.value.List?
    && TypeOf(before.value) == TypeOf(after.value)
    && (before.value.List? ==> |before.value.items| == |after.value.items|)
  }

  datatype JsType = ObjectType | BooleanType | NumberType | StringType

  function TypeOf(j: Json): JsType {
    match j
    case Boolean(_) => BooleanType
    case Number(_) => NumberType
    case Text(_) => StringType
    case _ => ObjectType
  }

  predicate Exists(j: Json, path: Path) {
    At(j, path).Some?
  }

  predicate ValidOmission(path: Path) {
    ValidPath(path) && Last(path).Key?
  }

  ghost predicate OmissionHolds(o: Json, p: Json, f: Json, path: Path) {
    && ValidOmission(path)
    && Exists(o, path)
    && !Exists(p, path)
    && !Exists(f, path)
    && Exists(p, Front(path))
    && ContainersHold(p, f, path)
  }

  ghost predicate ContainersHold(p: Json, f: Json, path: Path) {
    forall i :: 0 <= i < |path| ==> SameContainer(At(p, path[..i]), At(f, path[..i]))
  }

  ghost predicate OmissionsHold(w: Witness, o: Json, p: Json, f: Json) {
    && Distinct(w.omitted)
    && EachOmissionHolds(o, p, f, w.omitted)
    && AreMissing(w.omitted, o, p)
  }

  ghost predicate EachOmissionHolds(o: Json, p: Json, f: Json, omitted: seq<Path>) {
    forall i :: 0 <= i < |omitted| ==> OmissionHolds(o, p, f, omitted[i])
  }

  ghost predicate AreMissing(omitted: seq<Path>, o: Json, p: Json) {
    forall r: Path :: r in omitted <==> Missing(o, p, r)
  }

  ghost predicate ProtectionHolds(w: Witness, p: Json, f: Json, i: nat)
    requires i < |w.protected|
  {
    var e := w.protected[i];
    && ValidPath(e.path)
    && (forall j :: 0 <= j < i ==> !Overlap(w.protected[j].path, e.path))
    && (forall j :: 0 <= j < |w.omitted| ==> !Overlap(w.omitted[j], e.path))
    && At(p, e.path) == Some(e.value)
    && At(f, e.path) == Some(e.value)
  }

  ghost predicate EachProtectionHolds(w: Witness, p: Json, f: Json, n: nat)
    requires n <= |w.protected|
  {
    forall i :: 0 <= i < n ==> ProtectionHolds(w, p, f, i)
  }

  function RowPath(a: Anchor, i: int): Path {
    a.rows + [Index(i)] + a.key
  }

  ghost predicate RowsHold(a: Anchor, o: Json, p: Json, f: Json) {
    && var n := RowCount(p, a.rows);
    && n.Some?
    && RowCount(o, a.rows) == n == RowCount(f, a.rows)
    && EachRowHolds(a, o, p, f, n.value)
    && RowsDiffer(a, p, n.value)
  }

  /** The number of rows of the array at a path, if there is an array. */
  function RowCount(j: Json, path: Path): Option<nat> {
    match At(j, path)
    case Some(List(items)) => Some(|items|)
    case _ => None
  }

  ghost predicate EachRowHolds(a: Anchor, o: Json, p: Json, f: Json, n: int) {
    forall i :: 0 <= i < n ==> RowHolds(a, o, p, f, i)
  }

  ghost predicate RowsDiffer(a: Anchor, p: Json, n: int) {
    forall i, j :: 0 <= i < j < n ==> At(p, RowPath(a, i)) != At(p, RowPath(a, j))
  }

  ghost predicate RowHolds(a: Anchor, o: Json, p: Json, f: Json, i: int) {
    && At(p, RowPath(a, i)).Some?
    && IsPrimitive(At(p, RowPath(a, i)).value)
    && At(o, RowPath(a, i)) == At(p, RowPath(a, i)) == At(f, RowPath(a, i))
  }

  /** The arrays some omitted path goes through by index. */
  ghost predicate IndexedArray(omitted: seq<Path>, rows: Path) {
    exists n, i :: 0 <= n < |omitted| && 0 <= i < |omitted[n]| && omitted[n][i].Index? && omitted[n][..i] == rows
  }

  predicate ValidAnchor(a: Anchor) {
    ValidPath(a.rows, true) && ValidPath(a.key) && forall k :: 0 <= k < |a.key| ==> a.key[k].Key?
  }

  ghost predicate AnchorHolds(w: Witness, o: Json, p: Json, f: Json, i: nat)
    requires i < |w.rowAnchors|
  {
    var a := w.rowAnchors[i];
    && ValidAnchor(a)
    && IndexedArray(w.omitted, a.rows)
    && !AnchoredBefore(w, i, a.rows)
    && RowsHold(a, o, p, f)
  }

  ghost predicate AnchorsHold(w: Witness, o: Json, p: Json, f: Json) {
    && EachAnchorHolds(w, o, p, f, |w.rowAnchors|)
    && (forall a: Path :: IndexedArray(w.omitted, a) ==> AnchoredBefore(w, |w.rowAnchors|, a))
  }

  ghost predicate EachAnchorHolds(w: Witness, o: Json, p: Json, f: Json, n: nat)
    requires n <= |w.rowAnchors|
  {
    forall i :: 0 <= i < n ==> AnchorHolds(w, o, p, f, i)
  }

  ghost predicate AnchoredBefore(w: Witness, n: nat, a: Path)
    requires n <= |w.rowAnchors|
  {
    exists i :: 0 <= i < n && w.rowAnchors[i].rows == a
  }

  /** The declarative reading of a checked witness. */
  ghost predicate Accepts(w: Witness, o: Json, p: Json, f: Json) {
    && Entries(w) <= MAX_ENTRIES
    && Prunes(o, p)
    && (w.kind.NoOmission? <==> w.omitted == [])
    && OmissionsHold(w, o, p, f)
    && EachProtectionHolds(w, p, f, |w.protected|)
    && AnchorsHold(w, o, p, f)
  }

  // ---- the checker ----

  /** What a finished walk below the segments in `done` has to have found. */
  ghost predicate Found(o: Json, p: Json, path: Path, done: seq<Segment>, d: Path) {
    |path| < |d| && path <= d && d[|path|] in done && Missing(o, p, d[|path|..])
  }

  ghost predicate FoundBelow(o: Json, p: Json, path: Path, d: Path) {
    path <= d && Missing(o, p, d[|path|..])
  }

  lemma MissingCons(o: Json, p: Json, s: Segment, r: Path)
    ensures Missing(o, p, [s] + r) <==>
      Child(o, s).Some? && (if Child(p, s).None? then r == [] else Missing(Child(o, s).value, Child(p, s).value, r))
  {
    assert ([s] + r)[1..] == r;
    if r != [] {
      assert Front([s] + r) == [s] + Front(r);
      assert ([s] + Front(r))[1..] == Front(r);
    } else {
      assert [s] + r == [s] && [s][1..] == [] && Front([s]) == [];
      assert At(o, [s]) == Child(o, s) && At(p, [s]) == Child(p, s);
    }
  }

  lemma FoundStep(o: Json, p: Json, path: Path, s: Segment, d: Path)
    requires Child(o, s).Some? && Child(p, s).Some?
    ensures FoundBelow(Child(o, s).value, Child(p, s).value, path + [s], d)
      <==> |path| < |d| && path <= d && d[|path|] == s && Missing(o, p, d[|path|..])
  {
    if |path| < |d| {
      assert d[|path|..] == [d[|path|]] + d[|path| + 1..];
      MissingCons(o, p, d[|path|], d[|path| + 1..]);
      if path + [s] <= d {
        assert d[..|path|] == path;
        assert d[|path|] == s;
      }
      if path <= d && d[|path|] == s {
        assert path + [s] <= d;
      }
    }
  }

  lemma FoundSteps(o: Json, p: Json, path: Path, s: Segment, more: seq<Path>)
    requires Child(o, s).Some? && Child(p, s).Some?
    requires forall d :: d in more <==> FoundBelow(Child(o, s).value, Child(p, s).value, path + [s], d)
    ensures forall d :: d in more <==> |path| < |d| && path <= d && d[|path|] == s && Missing(o, p, d[|path|..])
  {
    forall d ensures d in more <==> |path| < |d| && path <= d && d[|path|] == s && Missing(o, p, d[|path|..]) {
      FoundStep(o, p, path, s, d);
    }
  }

  lemma DeletedChild(o: Json, p: Json, path: Path, key: string, d: Path)
    requires Child(o, Key(key)).Some? && Child(p, Key(key)).None?
    ensures d == path + [Key(key)]
      <==> |path| < |d| && path <= d && d[|path|] == Key(key) && Missing(o, p, d[|path|..])
  {
    if |path| < |d| {
      assert d[|path|..] == [d[|path|]] + d[|path| + 1..];
      MissingCons(o, p, d[|path|], d[|path| + 1..]);
      if path <= d && d[|path|] == Key(key) && d[|path| + 1..] == [] {
        assert d == path + [Key(key)];
      }
    }
  }

  lemma DistinctConcat<T>(a: seq<T>, b: seq<T>)
    requires Distinct(a) && Distinct(b)
    requires forall x :: x in a ==> x !in b
    ensures Distinct(a + b)
  {
    var c := a + b;
    forall i, j | 0 <= i < j < |c| ensures c[i] != c[j] {
      if i < |a| <= j {
        assert c[i] in a && c[j] in b;
      }
    }
  }

  /** Since `found`, the walk has collected exactly what is missing below the segments in `done`. */
  ghost predicate Walked(o: Json, p: Json, path: Path, done: seq<Segment>, found: seq<Path>, now: seq<Path>) {
    && found <= now && Distinct(now[|found|..])
    && forall d :: d in now[|found|..] <==> Found(o, p, path, done, d)
  }

  /** One more child walked: what was found before and what was found below `s` make up the whole. */
  lemma ExtendFound(o: Json, p: Json, path: Path, done: seq<Segment>, s: Segment,
                    found: seq<Path>, before: seq<Path>, after: seq<Path>)
    requires Walked(o, p, path, done, found, before) && before <= after && s !in done
    requires Distinct(after[|before|..])
    requires forall d :: d in after[|before|..] <==> |path| < |d| && path <= d && d[|path|] == s && Missing(o, p, d[|path|..])
    ensures Walked(o, p, path, done + [s], found, after)
  {
    assert after[|found|..] == before[|found|..] + after[|before|..];
    DistinctConcat(before[|found|..], after[|before|..]);
  }

  lemma FoundAll(o: Json, p: Json, path: Path, done: seq<Segment>)
    requires forall s :: Child(o, s).Some? ==> s in done
    ensures forall d :: Found(o, p, path, done, d) <==> FoundBelow(o, p, path, d)
  {
    forall d | FoundBelow(o, p, path, d) ensures Found(o, p, path, done, d) {
      var r := d[|path|..];
      assert Child(o, r[0]).Some? && r[0] == d[|path|];
    }
  }

  /** Walks both trees and appends every topmost deleted path; `false` when anything but a
      deletion of a record field differs. */
  method Compare(o: Json, p: Json, path: Path, found: seq<Path>) returns (ok: bool, deleted: seq<Path>)
    requires Ordered(o) && Ordered(p)
    ensures ok <==> Prunes(o, p)
    ensures ok ==> found <= deleted && Distinct(deleted[|found|..])
    ensures ok ==> forall d :: d in deleted[|found|..] <==> FoundBelow(o, p, path, d)
    decreases o, 1, 0
  {
    match o
    case List(items) =>
      if !p.List? || |items| != |p.items| { return false, found; }
      ok, deleted := CompareItems(o, p, path, found);
    case Record(_, _) =>
      if !p.Record? { return false, found; }
      var i := 0;
      while i < |p.keys|
        invariant 0 <= i <= |p.keys|
        invariant forall j :: 0 <= j < i ==> p.keys[j] in o.fields
      {
        if p.keys[i] !in o.fields {
          assert p.keys[i] in p.fields.Keys;
          return false, found;
        }
        i := i + 1;
      }
      ok, deleted := CompareFields(o, p, path, found);
    case _ =>
      if o != p { return false, found; }
      return true, found;
  }

  method CompareItems(o: Json, p: Json, path: Path, found: seq<Path>) returns (ok: bool, deleted: seq<Path>)
    requires Ordered(o) && Ordered(p)
    requires o.List? && p.List? && |o.items| == |p.items|
    ensures ok <==> Prunes(o, p)
    ensures ok ==> found <= deleted && Distinct(deleted[|found|..])
    ensures ok ==> forall d :: d in deleted[|found|..] <==> FoundBelow(o, p, path, d)
    decreases o, 0, 1
  {
    deleted := found;
    ghost var done: seq<Segment> := [];
    var i := 0;
    while i < |o.items|
      invariant 0 <= i <= |o.items| && done == Indices(i)
      invariant forall j :: 0 <= j < i ==> Prunes(o.items[j], p.items[j])
      invariant Walked(o, p, path, done, found, deleted)
    {
      ok, deleted := CompareItem(o, p, path, i, found, deleted);
      if !ok { return false, found; }
      done := Indices(i + 1);
      i := i + 1;
    }
    ok := true;
    assert forall s :: Child(o, s).Some? ==> s in done by {
      forall s | Child(o, s).Some? ensures s in done { assert done[s.index] == s; }
    }
    FoundAll(o, p, path, done);
  }

  ghost function Indices(n: nat): (r: seq<Segment>)
    ensures |r| == n && forall j :: 0 <= j < n ==> r[j] == Index(j)
  {
    seq(n, j => Index(j))
  }

  method CompareItem(o: Json, p: Json, path: Path, i: nat, ghost found: seq<Path>, before: seq<Path>)
    returns (ok: bool, deleted: seq<Path>)
    requires Ordered(o) && Ordered(p)
    requires o.List? && p.List? && |o.items| == |p.items| && i < |o.items|
    requires Walked(o, p, path, Indices(i), found, before)
    ensures ok <==> Prunes(o.items[i], p.items[i])
    ensures ok ==> Walked(o, p, path, Indices(i + 1), found, deleted)
    decreases o, 0, 0
  {
    ok, deleted := Compare(o.items[i], p.items[i], path + [Index(i)], before);
    if ok {
      FoundSteps(o, p, path, Index(i), deleted[|before|..]);
      ExtendFound(o, p, path, Indices(i), Index(i), found, before, deleted);
      assert Indices(i) + [Index(i)] == Indices(i + 1);
    }
  }

  method CompareFields(o: Json, p: Json, path: Path, found: seq<Path>) returns (ok: bool, deleted: seq<Path>)
    requires Ordered(o) && Ordered(p)
    requires o.Record? && p.Record?
    requires forall k :: k in p.fields ==> k in o.fields
    ensures ok <==> Prunes(o, p)
    ensures ok ==> found <= deleted && Distinct(deleted[|found|..])
    ensures ok ==> forall d :: d in deleted[|found|..] <==> FoundBelow(o, p, path, d)
    decreases o, 0, 0
  {
    deleted := found;
    ghost var done: seq<Segment> := [];
    var i := 0;
    while i < |o.keys|
      invariant 0 <= i <= |o.keys| && |done| == i
      invariant forall j :: 0 <= j < i ==> done[j] == Key(o.keys[j])
      invariant forall j :: 0 <= j < i && o.keys[j] in p.fields ==> Prunes(o.fields[o.keys[j]], p.fields[o.keys[j]])
      invariant Walked(o, p, path, done, found, deleted)
    {
      var key, before := o.keys[i], deleted;
      assert key in o.fields;
      if key !in p.fields {
        deleted := before + [path + [Key(key)]];
        forall d ensures d in deleted[|before|..] <==> |path| < |d| && path <= d && d[|path|] == Key(key) && Missing(o, p, d[|path|..]) {
          DeletedChild(o, p, path, key, d);
          assert deleted[|before|..] == [path + [Key(key)]];
        }
      } else {
        ok, deleted := Compare(o.fields[key], p.fields[key], path + [Key(key)], before);
        if !ok { return false, found; }
        FoundSteps(o, p, path, Key(key), deleted[|before|..]);
      }
      ExtendFound(o, p, path, done, Key(key), found, before, deleted);
      done := done + [Key(key)];
      i := i + 1;
    }
    ok := true;
    FoundAll(o, p, path, done);
  }

  method Lookup(root: Json, path: Path) returns (r: Option<Json>)
    ensures r == At(root, path)
  {
    var current := root;
    var i := 0;
    while i < |path|
      invariant 0 <= i <= |path|
      invariant At(root, path) == At(current, path[i..])
    {
      match Child(current, path[i]) {
        case None => return None;
        case Some(c) =>
          assert path[i..][1..] == path[i + 1..];
          current := c;
      }
      i := i + 1;
    }
    r := Some(current);
  }

  method ContainersAgree(p: Json, f: Json, path: Path) returns (ok: bool)
    ensures ok <==> ContainersHold(p, f, path)
  {
    var i := 0;
    while i < |path|
      invariant 0 <= i <= |path|
      invariant forall k :: 0 <= k < i ==> SameContainer(At(p, path[..k]), At(f, path[..k]))
    {
      var before := Lookup(p, path[..i]);
      var after := Lookup(f, path[..i]);
      if !SameContainer(before, after) { return false; }
      i := i + 1;
    }
    ok := true;
  }

  method Has(root: Json, path: Path) returns (ok: bool)
    ensures ok <==> Exists(root, path)
  {
    var value := Lookup(root, path);
    ok := value.Some?;
  }

  method VerifyOmission(o: Json, p: Json, f: Json, path: Path) returns (ok: bool)
    ensures ok <==> OmissionHolds(o, p, f, path)
  {
    if !ValidOmission(path) { return false; }
    var original := Has(o, path);
    var projected := Has(p, path);
    var final := Has(f, path);
    var parent := Has(p, Front(path));
    var containers := ContainersAgree(p, f, path);
    ok := original && !projected && !final && parent && containers;
  }

  ghost predicate SameMembers(a: seq<Path>, b: seq<Path>) {
    forall r :: r in a <==> r in b
  }

  /** `omitted` has the members of the witness list; the deletions found must be the same paths. */
  method SamePaths(declared: seq<Path>, omitted: set<Path>, deleted: seq<Path>) returns (ok: bool)
    requires Distinct(declared) && Distinct(deleted)
    requires omitted == set x | x in declared
    ensures ok <==> SameMembers(declared, deleted)
  {
    DistinctSize(declared);
    DistinctSize(deleted);
    assert SameMembers(declared, deleted) ==> omitted == set x | x in deleted;
    if |omitted| != |deleted| { return false; }
    var k := 0;
    while k < |deleted|
      invariant 0 <= k <= |deleted|
      invariant forall j :: 0 <= j < k ==> deleted[j] in omitted
    {
      if deleted[k] !in omitted { return false; }
      k := k + 1;
    }
    EqualBySize(declared, deleted);
    ok := true;
  }

  lemma EachOmissionStep(o: Json, p: Json, f: Json, omitted: seq<Path>, i: nat)
    requires i < |omitted|
    ensures EachOmissionHolds(o, p, f, omitted[..i + 1])
      <==> EachOmissionHolds(o, p, f, omitted[..i]) && OmissionHolds(o, p, f, omitted[i])
  {
    assert omitted[..i + 1] == omitted[..i] + [omitted[i]];
  }

  lemma EachOmissionPrefix(o: Json, p: Json, f: Json, omitted: seq<Path>, i: nat)
    requires i <= |omitted|
    ensures EachOmissionHolds(o, p, f, omitted) ==> EachOmissionHolds(o, p, f, omitted[..i])
  {
  }

  lemma DistinctStep<T>(s: seq<T>, i: nat)
    requires i < |s|
    ensures Distinct(s[..i + 1]) <==> Distinct(s[..i]) && s[i] !in s[..i]
  {
    assert s[..i + 1] == s[..i] + [s[i]];
  }

  lemma DistinctPrefix<T>(s: seq<T>, i: nat)
    requires i <= |s|
    ensures Distinct(s) ==> Distinct(s[..i])
  {
  }

  method VerifyEachOmission(o: Json, p: Json, f: Json, paths: seq<Path>) returns (ok: bool, omitted: set<Path>)
    ensures ok <==> Distinct(paths) && EachOmissionHolds(o, p, f, paths)
    ensures ok ==> omitted == set x | x in paths
  {
    omitted := {};
    var i := 0;
    while i < |paths|
      invariant 0 <= i <= |paths|
      invariant omitted == set x | x in paths[..i]
      invariant Distinct(paths[..i]) && EachOmissionHolds(o, p, f, paths[..i])
    {
      var holds := VerifyOmission(o, p, f, paths[i]);
      EachOmissionStep(o, p, f, paths, i);
      DistinctStep(paths, i);
      if !holds || paths[i] in omitted {
        EachOmissionPrefix(o, p, f, paths, i + 1);
        DistinctPrefix(paths, i + 1);
        return false, {};
      }
      omitted := omitted + {paths[i]};
      i := i + 1;
    }
    assert paths[..i] == paths;
    ok := true;
  }

  /** Every declared omission is well formed, and together they are exactly the deletions found. */
  method VerifyOmissions(w: Witness, o: Json, p: Json, f: Json, deleted: seq<Path>) returns (ok: bool)
    requires Distinct(deleted)
    requires AreMissing(deleted, o, p)
    ensures ok <==> OmissionsHold(w, o, p, f)
  {
    var each, omitted := VerifyEachOmission(o, p, f, w.omitted);
    if each {
      ok := SamePaths(w.omitted, omitted, deleted);
      MissingOnce(w.omitted, deleted, o, p);
    } else {
      ok := false;
    }
  }

  lemma MissingOnce(a: seq<Path>, b: seq<Path>, o: Json, p: Json)
    requires AreMissing(b, o, p)
    ensures SameMembers(a, b) <==> AreMissing(a, o, p)
  {
  }

  /** Protected values are disjoint from each other and from the omissions, and survive unchanged. */
  method VerifyProtected(w: Witness, p: Json, f: Json) returns (ok: bool)
    ensures ok <==> EachProtectionHolds(w, p, f, |w.protected|)
  {
    var i := 0;
    while i < |w.protected|
      invariant 0 <= i <= |w.protected|
      invariant EachProtectionHolds(w, p, f, i)
    {
      var entry := w.protected[i];
      var captured := Lookup(p, entry.path);
      var result := Lookup(f, entry.path);
      if || !ValidPath(entry.path)
         || (exists j :: 0 <= j < i && Overlap(w.protected[j].path, entry.path))
         || (exists j :: 0 <= j < |w.omitted| && Overlap(w.omitted[j], entry.path))
         || captured != Some(entry.value)
         || result != Some(entry.value)
      {
        assert !ProtectionHolds(w, p, f, i);
        return false;
      }
      i := i + 1;
    }
    ok := true;
  }

  method VerifyRow(a: Anchor, o: Json, p: Json, f: Json, i: nat) returns (ok: bool, identity: Option<Json>)
    ensures ok <==> RowHolds(a, o, p, f, i)
    ensures identity == At(p, RowPath(a, i))
  {
    var x := Lookup(o, RowPath(a, i));
    var z := Lookup(f, RowPath(a, i));
    identity := Lookup(p, RowPath(a, i));
    ok := identity.Some? && IsPrimitive(identity.value) && x == identity && identity == z;
  }

  /** Same rows in the same places: one primitive key column agrees in all three trees and is unique. */
  method VerifyAnchorRows(a: Anchor, o: Json, p: Json, f: Json) returns (ok: bool)
    ensures ok <==> RowsHold(a, o, p, f)
  {
    var rows := CountRows(p, a.rows);
    var before := CountRows(o, a.rows);
    var after := CountRows(f, a.rows);
    ok := rows.Some? && before == rows && rows == after;
    if ok {
      ok := VerifyRows(a, o, p, f, rows.value);
    }
  }

  method CountRows(root: Json, path: Path) returns (n: Option<nat>)
    ensures n == RowCount(root, path)
  {
    var rows := Lookup(root, path);
    n := match rows case Some(List(items)) => Some(|items|) case _ => None;
  }

  lemma EachRowStep(a: Anchor, o: Json, p: Json, f: Json, i: nat)
    ensures EachRowHolds(a, o, p, f, i + 1) <==> EachRowHolds(a, o, p, f, i) && RowHolds(a, o, p, f, i)
  {
  }

  lemma EachRowFewer(a: Anchor, o: Json, p: Json, f: Json, i: nat, n: nat)
    requires i < n && EachRowHolds(a, o, p, f, n)
    ensures RowHolds(a, o, p, f, i)
  {
  }

  /** `s` lists the identities of the first rows. */
  ghost predicate Identities(a: Anchor, p: Json, s: seq<Option<Json>>) {
    forall k :: 0 <= k < |s| ==> s[k] == At(p, RowPath(a, k))
  }

  lemma RowsDifferStep(a: Anchor, p: Json, s: seq<Option<Json>>)
    requires Identities(a, p, s) && RowsDiffer(a, p, |s|)
    requires At(p, RowPath(a, |s|)) !in s
    ensures RowsDiffer(a, p, |s| + 1)
  {
  }

  lemma RowRepeated(a: Anchor, p: Json, s: seq<Option<Json>>, n: nat)
    requires Identities(a, p, s) && |s| < n
    requires At(p, RowPath(a, |s|)) in s
    ensures !RowsDiffer(a, p, n)
  {
    var k :| 0 <= k < |s| && s[k] == At(p, RowPath(a, |s|));
    assert At(p, RowPath(a, k)) == At(p, RowPath(a, |s|));
  }

  method VerifyRows(a: Anchor, o: Json, p: Json, f: Json, n: nat) returns (ok: bool)
    ensures ok <==> EachRowHolds(a, o, p, f, n) && RowsDiffer(a, p, n)
  {
    var identities: set<Option<Json>> := {};
    ghost var seen: seq<Option<Json>> := [];
    var i := 0;
    while i < n
      invariant 0 <= i <= n && |seen| == i && Identities(a, p, seen)
      invariant forall x :: x in identities <==> x in seen
      invariant EachRowHolds(a, o, p, f, i) && RowsDiffer(a, p, i)
    {
      var holds, identity := VerifyRow(a, o, p, f, i);
      EachRowStep(a, o, p, f, i);
      if !holds {
        if EachRowHolds(a, o, p, f, n) { EachRowFewer(a, o, p, f, i, n); }
        return false;
      }
      if identity in identities {
        RowRepeated(a, p, seen, n);
        return false;
      }
      RowsDifferStep(a, p, seen);
      identities, seen := identities + {identity}, seen + [identity];
      i := i + 1;
    }
    ok := true;
  }

  /** The arrays crossed by index below the first `n` omissions and the first `m` segments of the next. */
  ghost predicate Crossed(omitted: seq<Path>, n: int, m: int, rows: Path) {
    exists k, i {:trigger omitted[k][i]} ::
      && 0 <= k < |omitted| && 0 <= i < |omitted[k]|
      && (k < n || (k == n && i < m))
      && omitted[k][i].Index? && omitted[k][..i] == rows
  }

  method CollectArrays(omitted: seq<Path>) returns (arrays: set<Path>)
    ensures forall a :: a in arrays <==> IndexedArray(omitted, a)
  {
    arrays := {};
    var n := 0;
    while n < |omitted|
      invariant 0 <= n <= |omitted|
      invariant forall a :: a in arrays <==> Crossed(omitted, n, 0, a)
    {
      var i := 0;
      while i < |omitted[n]|
        invariant 0 <= i <= |omitted[n]|
        invariant forall a :: a in arrays <==> Crossed(omitted, n, i, a)
      {
        if omitted[n][i].Index? { arrays := arrays + {omitted[n][..i]}; }
        CrossedStep(omitted, n, i);
        i := i + 1;
      }
      assert forall a :: Crossed(omitted, n, i, a) <==> Crossed(omitted, n + 1, 0, a);
      n := n + 1;
    }
    assert forall a :: Crossed(omitted, n, 0, a) <==> IndexedArray(omitted, a);
  }

  lemma CrossedStep(omitted: seq<Path>, n: nat, i: nat)
    requires n < |omitted| && i < |omitted[n]|
    ensures forall a :: Crossed(omitted, n, i + 1, a) <==>
      Crossed(omitted, n, i, a) || (omitted[n][i].Index? && omitted[n][..i] == a)
  {
  }

  method VerifyAnchor(w: Witness, o: Json, p: Json, f: Json, arrays: set<Path>, declared: set<Path>, i: nat)
    returns (ok: bool)
    requires i < |w.rowAnchors|
    requires forall a :: a in arrays <==> IndexedArray(w.omitted, a)
    requires forall a :: a in declared <==> AnchoredBefore(w, i, a)
    ensures ok <==> AnchorHolds(w, o, p, f, i)
  {
    var a := w.rowAnchors[i];
    var rows := VerifyAnchorRows(a, o, p, f);
    ok := rows && ValidAnchor(a) && a.rows in arrays && a.rows !in declared;
  }


  lemma AnchorStep(w: Witness, o: Json, p: Json, f: Json, i: nat)
    requires i < |w.rowAnchors|
    ensures EachAnchorHolds(w, o, p, f, i + 1) <==> EachAnchorHolds(w, o, p, f, i) && AnchorHolds(w, o, p, f, i)
  {
  }

  lemma EachAnchorFewer(w: Witness, o: Json, p: Json, f: Json, i: nat)
    requires i < |w.rowAnchors|
    ensures EachAnchorHolds(w, o, p, f, |w.rowAnchors|) ==> AnchorHolds(w, o, p, f, i)
  {
  }

  lemma AnchoredStep(w: Witness, i: nat)
    requires i < |w.rowAnchors|
    ensures forall a :: AnchoredBefore(w, i + 1, a) <==> AnchoredBefore(w, i, a) || a == w.rowAnchors[i].rows
  {
    assert AnchoredBefore(w, i + 1, w.rowAnchors[i].rows);
  }

  method VerifyEachAnchor(w: Witness, o: Json, p: Json, f: Json, arrays: set<Path>)
    returns (ok: bool, declared: set<Path>)
    requires forall a :: a in arrays <==> IndexedArray(w.omitted, a)
    ensures ok <==> EachAnchorHolds(w, o, p, f, |w.rowAnchors|)
    ensures ok ==> declared <= arrays && forall a :: a in declared <==> AnchoredBefore(w, |w.rowAnchors|, a)
  {
    declared := {};
    var i := 0;
    while i < |w.rowAnchors|
      invariant 0 <= i <= |w.rowAnchors|
      invariant forall a :: a in declared <==> AnchoredBefore(w, i, a)
      invariant declared <= arrays
      invariant EachAnchorHolds(w, o, p, f, i)
    {
      var holds := VerifyAnchor(w, o, p, f, arrays, declared, i);
      AnchorStep(w, o, p, f, i);
      if !holds {
        EachAnchorFewer(w, o, p, f, i);
        return false, {};
      }
      AnchoredStep(w, i);
      declared := declared + {w.rowAnchors[i].rows};
      i := i + 1;
    }
    ok := true;
  }

  /** Exactly the indexed arrays are anchored, each once, each by rows that hold. */
  method VerifyAnchors(w: Witness, o: Json, p: Json, f: Json) returns (ok: bool)
    ensures ok <==> AnchorsHold(w, o, p, f)
  {
    var arrays := CollectArrays(w.omitted);
    var declared;
    ok, declared := VerifyEachAnchor(w, o, p, f, arrays);
    if ok {
      ok := |declared| == |arrays|;
      if ok {
        EqualSetsBySize(declared, arrays);
      } else {
        assert declared != arrays;
      }
    }
  }

  lemma EqualSetsBySize<T>(a: set<T>, b: set<T>)
    requires a <= b && |a| == |b|
    ensures a == b
  {
    if x :| x in b && x !in a {
      SubsetSize(a + {x}, b);
    }
  }

  /** The whole check. Acceptance is exactly the declarative reading of the witness. */
  method Verify(w: Witness, o: Json, p: Json, f: Json) returns (ok: bool)
    requires Ordered(o) && Ordered(p)
    ensures ok <==> Accepts(w, o, p, f)
  {
    if Entries(w) > MAX_ENTRIES { return false; }
    var same, deleted := Compare(o, p, [], []);
    if !same { return false; }
    assert deleted[0..] == deleted;
    forall d ensures d in deleted <==> Missing(o, p, d) {
      assert d[0..] == d;
      assert d in deleted[0..] <==> FoundBelow(o, p, [], d);
    }
    if w.kind.NoOmission? && (|deleted| != 0 || w.omitted != []) {
      assert deleted != [] ==> deleted[0] in deleted;
      return false;
    }
    if w.kind.Omission? && |deleted| == 0 {
      assert w.omitted != [] ==> w.omitted[0] in w.omitted;
      return false;
    }
    ok := VerifyOmissions(w, o, p, f, deleted);
    if !ok { return; }
    assert w.kind.Omission? ==> deleted[0] in w.omitted;
    ok := VerifyProtected(w, p, f);
    if !ok { return; }
    ok := VerifyAnchors(w, o, p, f);
  }

  // ---- what acceptance guarantees ----

  /** The paths of `paths` that start with `s`, seen from below `s`. */
  ghost function Below(paths: set<Path>, s: Segment): set<Path> {
    set p | p in paths && p != [] && p[0] == s :: p[1..]
  }

  /** Reference removal: every path of the set disappears at once, nothing else changes. */
  ghost function Omit(j: Json, paths: set<Path>): Json {
    match j
    case List(items) =>
      List(seq(|items|, i requires 0 <= i < |items| => Omit(items[i], Below(paths, Index(i)))))
    case Record(keys, fields) =>
      Record(KeepKeys(keys, paths),
             map k | k in fields && [Key(k)] !in paths :: Omit(fields[k], Below(paths, Key(k))))
    case _ => j
  }

  ghost function KeepKeys(keys: seq<string>, paths: set<Path>): seq<string> {
    if keys == [] then []
    else (if [Key(keys[0])] in paths then [] else [keys[0]]) + KeepKeys(keys[1..], paths)
  }

  lemma BelowMember(paths: set<Path>, s: Segment, r: Path)
    ensures r in Below(paths, s) <==> [s] + r in paths
  {
    assert ([s] + r)[1..] == r;
    if r in Below(paths, s) {
      var p :| p in paths && p != [] && p[0] == s && p[1..] == r;
      assert p == [s] + r;
    }
  }

  lemma MissingBelow(o: Json, p: Json, omitted: set<Path>, s: Segment)
    requires forall r: Path :: r in omitted <==> Missing(o, p, r)
    requires Child(o, s).Some? && Child(p, s).Some?
    ensures forall r: Path :: r in Below(omitted, s) <==> Missing(Child(o, s).value, Child(p, s).value, r)
    ensures [s] !in omitted
  {
    forall r: Path ensures r in Below(omitted, s) <==> Missing(Child(o, s).value, Child(p, s).value, r) {
      BelowMember(omitted, s, r);
      MissingCons(o, p, s, r);
    }
    MissingCons(o, p, s, []);
    assert [s] + [] == [s];
  }

  /** A pruned tree is the original with its missing paths removed. */
  lemma {:induction false} PrunedIsOmit(o: Json, p: Json, omitted: set<Path>)
    requires Prunes(o, p)
    requires forall r: Path :: r in omitted <==> Missing(o, p, r)
    ensures SameTree(Omit(o, omitted), p)
    decreases o
  {
    match o
    case List(items) =>
      forall i | 0 <= i < |items| ensures SameTree(Omit(items[i], Below(omitted, Index(i))), p.items[i]) {
        MissingBelow(o, p, omitted, Index(i));
        PrunedIsOmit(items[i], p.items[i], Below(omitted, Index(i)));
      }
    case Record(_, fields) =>
      forall k | k in fields ensures [Key(k)] in omitted <==> k !in p.fields {
        MissingCons(o, p, Key(k), []);
        assert [Key(k)] + [] == [Key(k)];
      }
      forall k | k in p.fields ensures SameTree(Omit(fields[k], Below(omitted, Key(k))), p.fields[k]) {
        MissingBelow(o, p, omitted, Key(k));
        PrunedIsOmit(fields[k], p.fields[k], Below(omitted, Key(k)));
      }
      assert Omit(o, omitted).fields.Keys == p.fields.Keys;
    case _ =>
  }

  /** Acceptance: the projection is the original minus the witness's omissions and nothing else. */
  lemma AcceptedProjection(w: Witness, o: Json, p: Json, f: Json)
    requires Accepts(w, o, p, f)
    ensures SameTree(Omit(o, set x | x in w.omitted), p)
  {
    PrunedIsOmit(o, p, set x | x in w.omitted);
  }

  /** Nothing at or below an omitted path is left in the projection or in the final data. */
  lemma AcceptedOmission(w: Witness, o: Json, p: Json, f: Json, r: Path, d: Path)
    requires Accepts(w, o, p, f)
    requires r in w.omitted && r <= d
    ensures !Exists(p, d) && !Exists(f, d)
  {
    var i :| 0 <= i < |w.omitted| && w.omitted[i] == r;
    assert OmissionHolds(o, p, f, w.omitted[i]);
    if At(p, d).Some? { AtPrefix(p, r, d); }
    if At(f, d).Some? { AtPrefix(f, r, d); }
  }

  /** A protected value, and everything inside it, is the witnessed one in projection and final data. */
  lemma AcceptedProtection(w: Witness, o: Json, p: Json, f: Json, e: ProtectedValue, d: Path)
    requires Accepts(w, o, p, f)
    requires e in w.protected && e.path <= d
    ensures At(p, d) == At(e.value, d[|e.path|..]) == At(f, d)
  {
    var i :| 0 <= i < |w.protected| && w.protected[i] == e;
    assert ProtectionHolds(w, p, f, i);
    assert d == e.path + d[|e.path|..];
    AtConcat(p, e.path, d[|e.path|..]);
    AtConcat(f, e.path, d[|e.path|..]);
  }

  /** No permutation of rows passes: an omission below row `i` of an array names the row that is
      row `i` of the original, of the projection and of the final data, and no other row. */
  lemma AcceptedRows(w: Witness, o: Json, p: Json, f: Json, n: nat, k: nat) returns (a: Anchor)
    requires Accepts(w, o, p, f)
    requires n < |w.omitted| && k < |w.omitted[n]| && w.omitted[n][k].Index?
    ensures a in w.rowAnchors && a.rows == w.omitted[n][..k]
    ensures RowCount(o, a.rows).Some? && RowCount(o, a.rows) == RowCount(f, a.rows)
    ensures forall i, j :: 0 <= i < RowCount(o, a.rows).value && 0 <= j < RowCount(o, a.rows).value ==>
      (At(f, RowPath(a, i)) == At(o, RowPath(a, j)) <==> i == j)
  {
    assert IndexedArray(w.omitted, w.omitted[n][..k]);
    assert AnchoredBefore(w, |w.rowAnchors|, w.omitted[n][..k]);
    var i :| 0 <= i < |w.rowAnchors| && w.rowAnchors[i].rows == w.omitted[n][..k];
    a := w.rowAnchors[i];
    assert AnchorHolds(w, o, p, f, i);
    var count := RowCount(p, a.rows).value;
    forall i, j | 0 <= i < count && 0 <= j < count ensures At(f, RowPath(a, i)) == At(o, RowPath(a, j)) <==> i == j {
      assert RowHolds(a, o, p, f, i) && RowHolds(a, o, p, f, j);
    }
  }
}
