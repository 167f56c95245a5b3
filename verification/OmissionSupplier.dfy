/** The producer side of a checked omission (`projectParts` in omission-supplier.ts with the tree
    operations of omission-structure.ts): it removes the exclusively owned hidden values from a
    copy of the captured data and states, in a witness, everything the checker will look at.
    A thrown error is `None`. */
module OmissionSupplier {
  import opened JsonData
  import opened Collections
  import opened Bindings
  import Checker = WitnessChecker

  // ---- removal ----

  /** Deletes one record field; fails where the program throws "missing object property". */
  function Remove(j: Json, path: Path): Option<Json> {
    if path == [] then None
    else if |path| == 1 then
      if path[0].Key? && Child(j, path[0]).Some?
      then Some(Record(Without(j.keys, path[0].key), j.fields - {path[0].key}))
      else None
    else match Child(j, path[0])
      case None => None
      case Some(c) =>
        match Remove(c, path[1..])
        case None => None
        case Some(d) => Some(Replace(j, path[0], d))
  }

  function Replace(j: Json, s: Segment, c: Json): Json
    requires Child(j, s).Some?
  {
    match s
    case Index(i) => List(j.items[i := c])
    case Key(k) => Record(j.keys, j.fields[k := c])
  }

  function RemoveAll(j: Json, paths: seq<Path>): Option<Json>
    decreases |paths|
  {
    if paths == [] then Some(j)
    else match Remove(j, paths[0])
      case None => None
      case Some(d) => RemoveAll(d, paths[1..])
  }

  predicate Removable(j: Json, path: Path) {
    path != [] && Last(path).Key? && At(j, path).Some?
  }

  lemma {:induction false} RemoveDefined(j: Json, path: Path)
    ensures Remove(j, path).Some? <==> Removable(j, path)
    decreases |path|
  {
    if |path| > 1 {
      match Child(j, path[0]) {
        case None =>
        case Some(c) => RemoveDefined(c, path[1..]);
      }
    } else if |path| == 1 {
      assert path[1..] == [];
      assert At(j, path) == Child(j, path[0]);
    }
  }

  lemma {:induction false} RemoveElsewhere(j: Json, path: Path, r: Path)
    requires Remove(j, path).Some? && !Overlap(path, r)
    ensures At(Remove(j, path).value, r) == At(j, r)
    decreases |path|
  {
    var d := Remove(j, path).value;
    if |path| == 1 {
      assert r[0] != path[0];
      assert Child(d, r[0]) == Child(j, r[0]);
    } else {
      var c := Child(j, path[0]).value;
      if r[0] == path[0] {
        assert Child(d, r[0]) == Some(Remove(c, path[1..]).value);
        OverlapTail(path, r);
        RemoveElsewhere(c, path[1..], r[1..]);
      } else {
        assert Child(d, r[0]) == Child(j, r[0]);
      }
    }
  }

  lemma OverlapTail(a: Path, b: Path)
    requires a != [] && b != [] && a[0] == b[0]
    ensures Overlap(a, b) <==> Overlap(a[1..], b[1..])
  {
    assert a == [a[0]] + a[1..] && b == [b[0]] + b[1..];
  }

  lemma {:induction false} RemoveGone(j: Json, path: Path)
    requires Remove(j, path).Some?
    ensures At(Remove(j, path).value, path).None?
    decreases |path|
  {
    if |path| > 1 {
      var c := Child(j, path[0]).value;
      assert Child(Remove(j, path).value, path[0]) == Remove(c, path[1..]);
      RemoveGone(c, path[1..]);
    }
  }

  lemma {:induction false} RemoveAbove(j: Json, path: Path, r: Path)
    requires Remove(j, path).Some? && r < path
    ensures At(Remove(j, path).value, r).Some?
    decreases |path|
  {
    if r != [] {
      var c := Child(j, path[0]).value;
      assert Child(Remove(j, path).value, path[0]) == Remove(c, path[1..]);
      RemoveAbove(c, path[1..], r[1..]);
    }
  }

  lemma {:induction false} PrunesReflexive(j: Json)
    ensures Checker.Prunes(j, j)
  {
    match j
    case List(items) =>
      forall i | 0 <= i < |items| ensures Checker.Prunes(items[i], items[i]) { PrunesReflexive(items[i]); }
    case Record(_, fields) =>
      forall k | k in fields ensures Checker.Prunes(fields[k], fields[k]) { PrunesReflexive(fields[k]); }
    case _ =>
  }

  lemma {:induction false} PrunesTransitive(a: Json, b: Json, c: Json)
    requires Checker.Prunes(a, b) && Checker.Prunes(b, c)
    ensures Checker.Prunes(a, c)
  {
    match a
    case List(items) =>
      forall i | 0 <= i < |items| ensures Checker.Prunes(items[i], c.items[i]) {
        PrunesTransitive(items[i], b.items[i], c.items[i]);
      }
    case Record(_, fields) =>
      forall k | k in c.fields ensures Checker.Prunes(fields[k], c.fields[k]) {
        PrunesTransitive(fields[k], b.fields[k], c.fields[k]);
      }
    case _ =>
  }

  lemma {:induction false} RemovePrunes(j: Json, path: Path)
    requires Remove(j, path).Some?
    ensures Checker.Prunes(j, Remove(j, path).value)
    decreases |path|
  {
    PrunesReflexive(j);
    if |path| > 1 {
      var c := Child(j, path[0]).value;
      RemovePrunes(c, path[1..]);
    }
  }

  lemma {:induction false} RemoveOrdered(j: Json, path: Path)
    requires Remove(j, path).Some? && Ordered(j)
    ensures Ordered(Remove(j, path).value)
    decreases |path|
  {
    if |path| > 1 {
      var c := Child(j, path[0]).value;
      RemoveOrdered(c, path[1..]);
    } else {
      WithoutDistinct(j.keys, path[0].key);
    }
  }

  /** No two of the paths overlap. */
  ghost predicate Apart(paths: seq<Path>) {
    forall i, j :: 0 <= i < j < |paths| ==> !Overlap(paths[i], paths[j])
  }

  ghost predicate EachRemovable(j: Json, paths: seq<Path>) {
    forall i :: 0 <= i < |paths| ==> Removable(j, paths[i])
  }

  /** Removals apart from each other do not disturb each other: they succeed exactly when every
      path names a field of the original. */
  lemma {:induction false} RemoveAllDefined(j: Json, paths: seq<Path>)
    requires Apart(paths)
    ensures RemoveAll(j, paths).Some? <==> EachRemovable(j, paths)
    decreases |paths|
  {
    if paths != [] {
      RemoveDefined(j, paths[0]);
      if Remove(j, paths[0]).Some? {
        var d := Remove(j, paths[0]).value;
        RemoveAllDefined(d, paths[1..]);
        forall i | 0 < i < |paths| ensures Removable(d, paths[i]) <==> Removable(j, paths[i]) {
          RemoveElsewhere(j, paths[0], paths[i]);
        }
        RemovableTail(j, d, paths);
      }
    }
  }

  lemma RemovableTail(j: Json, d: Json, paths: seq<Path>)
    requires paths != [] && Removable(j, paths[0])
    requires forall i :: 0 < i < |paths| ==> (Removable(d, paths[i]) <==> Removable(j, paths[i]))
    ensures EachRemovable(j, paths) <==> EachRemovable(d, paths[1..])
  {
    if EachRemovable(d, paths[1..]) {
      forall i | 0 < i < |paths| ensures Removable(j, paths[i]) {
        assert paths[i] == paths[1..][i - 1];
      }
    }
  }

  lemma {:induction false} RemoveAllElsewhere(j: Json, paths: seq<Path>, r: Path)
    requires RemoveAll(j, paths).Some?
    requires forall q :: q in paths ==> !Overlap(q, r)
    ensures At(RemoveAll(j, paths).value, r) == At(j, r)
    decreases |paths|
  {
    if paths != [] {
      RemoveElsewhere(j, paths[0], r);
      RemoveAllElsewhere(Remove(j, paths[0]).value, paths[1..], r);
    }
  }

  lemma {:induction false} RemoveAllPrunes(j: Json, paths: seq<Path>)
    requires RemoveAll(j, paths).Some?
    ensures Checker.Prunes(j, RemoveAll(j, paths).value)
    decreases |paths|
  {
    PrunesReflexive(j);
    if paths != [] {
      var d := Remove(j, paths[0]).value;
      RemovePrunes(j, paths[0]);
      RemoveAllPrunes(d, paths[1..]);
      PrunesTransitive(j, d, RemoveAll(j, paths).value);
    }
  }

  lemma {:induction false} RemoveAllOrdered(j: Json, paths: seq<Path>)
    requires RemoveAll(j, paths).Some? && Ordered(j)
    ensures Ordered(RemoveAll(j, paths).value)
    decreases |paths|
  {
    if paths != [] {
      RemoveOrdered(j, paths[0]);
      RemoveAllOrdered(Remove(j, paths[0]).value, paths[1..]);
    }
  }

  lemma RemoveAt(j: Json, path: Path, r: Path)
    requires Remove(j, path).Some?
    ensures At(Remove(j, path).value, r).Some? <==> At(j, r).Some? && !(path <= r)
  {
    var d := Remove(j, path).value;
    RemoveDefined(j, path);
    if path <= r {
      RemoveGone(j, path);
      if At(d, r).Some? { AtPrefix(d, path, r); }
    } else if r < path {
      RemoveAbove(j, path, r);
      AtPrefix(j, r, path);
    } else {
      RemoveElsewhere(j, path, r);
    }
  }

  /** No path of the list is a prefix of `r`. */
  ghost predicate NoneAbove(paths: seq<Path>, r: Path) {
    forall i :: 0 <= i < |paths| ==> !(paths[i] <= r)
  }

  lemma NoneAboveCons(paths: seq<Path>, r: Path)
    requires paths != []
    ensures NoneAbove(paths, r) <==> !(paths[0] <= r) && NoneAbove(paths[1..], r)
  {
    if NoneAbove(paths[1..], r) {
      forall i | 0 < i < |paths| ensures !(paths[i] <= r) { assert paths[i] == paths[1..][i - 1]; }
    }
  }

  /** The removed paths strictly below `r`, as seen from there. */
  function Beneath(paths: seq<Path>, r: Path): seq<Path> {
    if paths == [] then []
    else (if r < paths[0] then [paths[0][|r|..]] else []) + Beneath(paths[1..], r)
  }

  lemma {:induction false} RemoveInside(j: Json, path: Path, r: Path)
    requires Remove(j, path).Some? && At(j, r).Some? && r < path
    ensures At(Remove(j, path).value, r) == Remove(At(j, r).value, path[|r|..])
    decreases |r|
  {
    if r == [] {
      assert path[0..] == path;
    } else {
      var c := Child(j, path[0]).value;
      assert Child(Remove(j, path).value, path[0]) == Remove(c, path[1..]);
      assert path[1..][|r[1..]|..] == path[|r|..];
      RemoveInside(c, path[1..], r[1..]);
    }
  }

  lemma {:induction false} RemoveAllInside(j: Json, paths: seq<Path>, r: Path)
    requires RemoveAll(j, paths).Some? && At(j, r).Some? && NoneAbove(paths, r)
    ensures At(RemoveAll(j, paths).value, r) == RemoveAll(At(j, r).value, Beneath(paths, r))
    decreases |paths|
  {
    if paths != [] {
      var d := Remove(j, paths[0]).value;
      NoneAboveCons(paths, r);
      RemoveAt(j, paths[0], r);
      RemoveAllInside(d, paths[1..], r);
      if r < paths[0] {
        RemoveInside(j, paths[0], r);
        assert Beneath(paths, r)[1..] == Beneath(paths[1..], r);
      } else {
        RemoveElsewhere(j, paths[0], r);
        assert Beneath(paths, r) == Beneath(paths[1..], r);
      }
    }
  }

  predicate IsBranch(j: Json) {
    j.List? || j.Record?
  }

  /** What is left: exactly the positions not at or below a removed path, and each reads what it read
      before, less what was removed below it. A leaf is therefore untouched. */
  lemma {:induction false} RemoveAllAt(j: Json, paths: seq<Path>, r: Path)
    requires RemoveAll(j, paths).Some?
    ensures At(RemoveAll(j, paths).value, r).Some? <==> At(j, r).Some? && NoneAbove(paths, r)
    ensures At(j, r).Some? && NoneAbove(paths, r) ==>
      && At(RemoveAll(j, paths).value, r) == RemoveAll(At(j, r).value, Beneath(paths, r))
      && (Beneath(paths, r) == [] || !IsBranch(At(j, r).value) ==> At(RemoveAll(j, paths).value, r) == At(j, r))
    decreases |paths|
  {
    if paths != [] {
      RemoveAllAt(Remove(j, paths[0]).value, paths[1..], r);
      RemoveAt(j, paths[0], r);
      NoneAboveCons(paths, r);
    }
    if At(j, r).Some? && NoneAbove(paths, r) {
      RemoveAllInside(j, paths, r);
      var below := Beneath(paths, r);
      if below != [] { RemoveDefined(At(j, r).value, below[0]); }
    }
  }

  /** The deletions the checker finds are the removed paths. */
  lemma RemovedAreMissing(j: Json, paths: seq<Path>)
    requires RemoveAll(j, paths).Some? && Apart(paths)
    ensures Checker.AreMissing(paths, j, RemoveAll(j, paths).value)
  {
    var d := RemoveAll(j, paths).value;
    RemoveAllDefined(j, paths);
    forall r: Path ensures r in paths <==> Checker.Missing(j, d, r) {
      RemovedIsMissing(j, paths, r);
    }
  }

  lemma RemovedIsMissing(j: Json, paths: seq<Path>, r: Path)
    requires RemoveAll(j, paths).Some? && Apart(paths) && EachRemovable(j, paths)
    ensures r in paths <==> Checker.Missing(j, RemoveAll(j, paths).value, r)
  {
    EachRemovableMember(j, paths, r);
    if r != [] {
      RemoveAllAt(j, paths, r);
      RemoveAllAt(j, paths, Front(r));
      AtFrontLast(j, r);
      AboveSplit(paths, r);
      if r in paths { ApartFront(paths, r); }
    }
  }

  lemma EachRemovableMember(j: Json, paths: seq<Path>, r: Path)
    requires EachRemovable(j, paths)
    ensures r in paths ==> Removable(j, r)
  {
  }

  lemma AboveSplit(paths: seq<Path>, r: Path)
    requires r != []
    ensures NoneAbove(paths, r) <==> NoneAbove(paths, Front(r)) && r !in paths
  {
    forall i | 0 <= i < |paths| ensures paths[i] <= r <==> paths[i] <= Front(r) || paths[i] == r {
      if paths[i] <= r && paths[i] != r {
        assert |paths[i]| < |r|;
      }
    }
  }

  lemma ApartFront(paths: seq<Path>, r: Path)
    requires Apart(paths) && r in paths && r != []
    ensures NoneAbove(paths, Front(r))
  {
    var b :| 0 <= b < |paths| && paths[b] == r;
    forall a | 0 <= a < |paths| ensures !(paths[a] <= Front(r)) {
      assert Front(r) <= r;
      assert a != b ==> !Overlap(paths[a], r);
    }
  }

  // ---- what the producer computes ----

  predicate Cloneable(j: Json) {
    match j
    case List(items) => forall i :: 0 <= i < |items| ==> Cloneable(items[i])
    case Record(_, fields) => forall k :: k in fields ==> Cloneable(fields[k])
    case Foreign => false
    case _ => true
  }

  datatype Placed = Placed(path: Path, decision: Decision)

  /** Types every binding in order; one untypable binding fails the projection. */
  function Place(entries: seq<Decided>): Option<seq<Placed>> {
    if entries == [] then Some([])
    else match (TypedPath(entries[0].binding), Place(entries[1..]))
      case (Some(path), Some(rest)) => Some([Placed(path, entries[0].decision)] + rest)
      case _ => None
  }

  function PlaceUnknown(unknown: seq<Binding>): Option<seq<Path>> {
    if unknown == [] then Some([])
    else if unknown[0].namespace != "data" then PlaceUnknown(unknown[1..])
    else match (TypedPath(unknown[0]), PlaceUnknown(unknown[1..]))
      case (Some(path), Some(rest)) => Some([path] + rest)
      case _ => None
  }

  function ExclusivePaths(entries: seq<Placed>): (r: seq<Path>)
    ensures forall p :: p in r <==> Placed(p, Exclusive) in entries
  {
    if entries == [] then []
    else (if entries[0].decision.Exclusive? then [entries[0].path] else []) + ExclusivePaths(entries[1..])
  }

  function OtherPaths(entries: seq<Placed>): (r: seq<Path>)
    ensures forall p :: p in r <==> exists e :: e in entries && e.path == p && !e.decision.Exclusive?
  {
    if entries == [] then []
    else (if entries[0].decision.Exclusive? then [] else [entries[0].path]) + OtherPaths(entries[1..])
  }

  function EmptyLists(original: Json, paths: seq<Path>): (r: seq<Path>)
    ensures forall p :: p in r <==> p in paths && At(original, p) == Some(List([]))
  {
    if paths == [] then []
    else (if At(original, paths[0]) == Some(List([])) then [paths[0]] else []) + EmptyLists(original, paths[1..])
  }

  /** Exclusive fields, and exclusive repeaters whose array is empty. */
  function OmittedPaths(original: Json, fields: seq<Placed>, repeaters: seq<Placed>): seq<Path> {
    ExclusivePaths(fields) + EmptyLists(original, ExclusivePaths(repeaters))
  }

  ghost predicate AnyOverlap(paths: seq<Path>, path: Path) {
    exists q :: q in paths && Overlap(q, path)
  }

  function FirstOccurrences(paths: seq<Path>): (r: seq<Path>)
    ensures forall p :: p in r <==> p in paths
    ensures Distinct(r)
    decreases |paths|
  {
    if paths == [] then []
    else
      var n := |paths| - 1;
      var r := FirstOccurrences(paths[..n]);
      assert forall p :: p in paths <==> p in paths[..n] || p == paths[n];
      if paths[n] in r then r else r + [paths[n]]
  }

  ghost predicate ByLength(paths: seq<Path>) {
    forall i, j :: 0 <= i < j < |paths| ==> |paths[i]| <= |paths[j]|
  }

  /** Inserts behind every path that is not longer, so that sorting keeps the order of equals. */
  function InsertByLength(sorted: seq<Path>, p: Path): (r: seq<Path>)
    requires ByLength(sorted)
    ensures ByLength(r) && |r| == |sorted| + 1
    ensures forall q :: q in r <==> q in sorted || q == p
    ensures sorted != [] && |sorted[|sorted| - 1]| > |p| ==> r[|sorted|] == sorted[|sorted| - 1]
    decreases |sorted|
  {
    if sorted == [] then [p]
    else
      var n := |sorted| - 1;
      if |sorted[n]| <= |p| then sorted + [p]
      else
        var front := InsertByLength(sorted[..n], p);
        assert forall q :: q in sorted <==> q in sorted[..n] || q == sorted[n];
        assert forall i :: 0 <= i < |front| ==> front[i] in sorted[..n] || front[i] == p;
        front + [sorted[n]]
  }

  function SortByLength(paths: seq<Path>): (r: seq<Path>)
    ensures ByLength(r)
    ensures forall p :: p in r <==> p in paths
    decreases |paths|
  {
    if paths == [] then []
    else
      var n := |paths| - 1;
      assert forall p :: p in paths <==> p in paths[..n] || p == paths[n];
      InsertByLength(SortByLength(paths[..n]), paths[n])
  }

  /** The values the witness protects: read from the original, clear of every omission and of each
      other. */
  ghost predicate ProtectsFrom(data: Json, omitted: seq<Path>, r: seq<Checker.ProtectedValue>) {
    && (forall i :: 0 <= i < |r| ==> At(data, r[i].path) == Some(r[i].value) && !AnyOverlap(omitted, r[i].path))
    && (forall i, j :: 0 <= i < j < |r| ==> !Overlap(r[i].path, r[j].path))
  }

  /** Every present path of the list lies at or below a protected one. */
  ghost predicate Covers(data: Json, paths: seq<Path>, r: seq<Checker.ProtectedValue>) {
    forall i {:trigger CoveredBy(r, paths[i])} :: 0 <= i < |paths| && Checker.Exists(data, paths[i]) ==> CoveredBy(r, paths[i])
  }

  ghost predicate CoveredBy(r: seq<Checker.ProtectedValue>, p: Path) {
    exists e :: e in r && e.path <= p
  }

  ghost predicate ProtectionClash(data: Json, paths: seq<Path>, omitted: seq<Path>) {
    exists p {:trigger AnyOverlap(omitted, p)} :: p in paths && Checker.Exists(data, p) && AnyOverlap(omitted, p)
  }

  method OverlapsAny(paths: seq<Path>, path: Path) returns (b: bool)
    ensures b <==> AnyOverlap(paths, path)
  {
    var i := 0;
    while i < |paths|
      invariant 0 <= i <= |paths|
      invariant forall j :: 0 <= j < i ==> !Overlap(paths[j], path)
    {
      if Overlap(paths[i], path) { return true; }
      i := i + 1;
    }
    b := false;
  }

  /** The result so far accounts for the paths already visited. */
  ghost predicate Progress(data: Json, omitted: seq<Path>, done: seq<Path>, r: seq<Checker.ProtectedValue>) {
    && ProtectsFrom(data, omitted, r)
    && FromPaths(done, r)
    && Covers(data, done, r)
    && !ProtectionClash(data, done, omitted)
  }

  ghost predicate FromPaths(paths: seq<Path>, r: seq<Checker.ProtectedValue>) {
    forall e :: e in r ==> e.path in paths
  }

  lemma ClashStep(data: Json, omitted: seq<Path>, done: seq<Path>, p: Path)
    ensures ProtectionClash(data, done + [p], omitted)
      <==> ProtectionClash(data, done, omitted) || (Checker.Exists(data, p) && AnyOverlap(omitted, p))
  {
    assert p in done + [p];
    assert forall q :: q in done + [p] <==> q in done || q == p;
  }

  lemma CoversStep(data: Json, done: seq<Path>, r: seq<Checker.ProtectedValue>, p: Path)
    requires Covers(data, done, r)
    requires Checker.Exists(data, p) ==> CoveredBy(r, p)
    ensures Covers(data, done + [p], r)
  {
  }

  lemma CoversMore(data: Json, done: seq<Path>, r: seq<Checker.ProtectedValue>, e: Checker.ProtectedValue)
    requires Covers(data, done, r)
    ensures Covers(data, done, r + [e])
  {
    forall i | 0 <= i < |done| && Checker.Exists(data, done[i]) ensures CoveredBy(r + [e], done[i]) {
      assert CoveredBy(r, done[i]);
      var c :| c in r && c.path <= done[i];
      assert c in r + [e];
    }
  }

  lemma ProgressSkip(data: Json, omitted: seq<Path>, done: seq<Path>, r: seq<Checker.ProtectedValue>, p: Path)
    requires Progress(data, omitted, done, r)
    requires Checker.Exists(data, p) ==> CoveredBy(r, p) && !AnyOverlap(omitted, p)
    ensures Progress(data, omitted, done + [p], r)
  {
    ClashStep(data, omitted, done, p);
    CoversStep(data, done, r, p);
  }

  lemma ProgressPush(data: Json, omitted: seq<Path>, done: seq<Path>, r: seq<Checker.ProtectedValue>, e: Checker.ProtectedValue)
    requires Progress(data, omitted, done, r)
    requires At(data, e.path) == Some(e.value) && !AnyOverlap(omitted, e.path)
    requires forall i :: 0 <= i < |r| ==> !Overlap(r[i].path, e.path)
    ensures Progress(data, omitted, done + [e.path], r + [e])
  {
    ClashStep(data, omitted, done, e.path);
    CoversMore(data, done, r, e);
    assert e in r + [e] && CoveredBy(r + [e], e.path);
    CoversStep(data, done, r + [e], e.path);
  }

  lemma ProgressClash(data: Json, omitted: seq<Path>, paths: seq<Path>, p: Path)
    requires p in paths && Checker.Exists(data, p) && AnyOverlap(omitted, p)
    ensures ProtectionClash(data, paths, omitted)
  {
  }

  method FirstOverlap(r: seq<Checker.ProtectedValue>, path: Path) returns (k: nat)
    ensures k <= |r|
    ensures forall j :: 0 <= j < k ==> !Overlap(r[j].path, path)
    ensures k < |r| ==> Overlap(r[k].path, path)
  {
    k := 0;
    while k < |r|
      invariant 0 <= k <= |r|
      invariant forall j :: 0 <= j < k ==> !Overlap(r[j].path, path)
    {
      if Overlap(r[k].path, path) { return; }
      k := k + 1;
    }
  }

  /** In a list sorted by length, an earlier overlapping path is a prefix. */
  lemma EarlierArePrefixes(sorted: seq<Path>, i: nat, r: seq<Checker.ProtectedValue>)
    requires ByLength(sorted) && i < |sorted| && FromPaths(sorted[..i], r)
    ensures forall k :: 0 <= k < |r| && Overlap(r[k].path, sorted[i]) ==> r[k].path <= sorted[i]
  {
    forall k | 0 <= k < |r| && Overlap(r[k].path, sorted[i]) ensures r[k].path <= sorted[i] {
      assert r[k] in r;
      var m :| 0 <= m < i && sorted[m] == r[k].path;
      assert |sorted[m]| <= |sorted[i]|;
    }
  }

  method ProtectPath(data: Json, path: Path, ghost done: seq<Path>, omitted: seq<Path>, result: seq<Checker.ProtectedValue>)
    returns (r: Option<seq<Checker.ProtectedValue>>)
    requires Progress(data, omitted, done, result)
    requires forall k :: 0 <= k < |result| && Overlap(result[k].path, path) ==> result[k].path <= path
    ensures r.None? <==> Checker.Exists(data, path) && AnyOverlap(omitted, path)
    ensures r.Some? ==> Progress(data, omitted, done + [path], r.value)
  {
    var value := At(data, path);
    if value.None? {
      ProgressSkip(data, omitted, done, result, path);
      return Some(result);
    }
    var clash := OverlapsAny(omitted, path);
    if clash { return None; }
    var k := FirstOverlap(result, path);
    if k < |result| {
      assert result[k] in result;
      ProgressSkip(data, omitted, done, result, path);
      return Some(result);
    }
    var entry := Checker.ProtectedValue(path, value.value);
    ProgressPush(data, omitted, done, result, entry);
    r := Some(result + [entry]);
  }

  method ProtectNext(data: Json, sorted: seq<Path>, i: nat, omitted: seq<Path>, result: seq<Checker.ProtectedValue>)
    returns (r: Option<seq<Checker.ProtectedValue>>)
    requires ByLength(sorted) && i < |sorted| && Progress(data, omitted, sorted[..i], result)
    ensures r.None? <==> Checker.Exists(data, sorted[i]) && AnyOverlap(omitted, sorted[i])
    ensures r.Some? ==> Progress(data, omitted, sorted[..i + 1], r.value)
  {
    EarlierArePrefixes(sorted, i, result);
    assert sorted[..i + 1] == sorted[..i] + [sorted[i]];
    r := ProtectPath(data, sorted[i], sorted[..i], omitted, result);
  }

  /** Keeps the shortest binding of every overlapping group and copies its value. */
  method ProtectedPaths(data: Json, paths: seq<Path>, omitted: seq<Path>)
    returns (r: Option<seq<Checker.ProtectedValue>>)
    ensures r.None? <==> ProtectionClash(data, paths, omitted)
    ensures r.Some? ==> Progress(data, omitted, paths, r.value)
  {
    var sorted := SortByLength(FirstOccurrences(paths));
    r := Some([]);
    var i := 0;
    while i < |sorted|
      invariant 0 <= i <= |sorted|
      invariant r.Some? && Progress(data, omitted, sorted[..i], r.value)
    {
      r := ProtectNext(data, sorted, i, omitted, r.value);
      if r.None? {
        ProgressClash(data, omitted, paths, sorted[i]);
        return;
      }
      i := i + 1;
    }
    assert sorted[..i] == sorted;
    SamePathsProgress(data, omitted, sorted, paths, r.value);
  }

  lemma SamePathsProgress(data: Json, omitted: seq<Path>, a: seq<Path>, b: seq<Path>, r: seq<Checker.ProtectedValue>)
    requires Progress(data, omitted, a, r)
    requires forall p :: p in a <==> p in b
    ensures Progress(data, omitted, b, r)
  {
    forall i | 0 <= i < |b| && Checker.Exists(data, b[i]) ensures CoveredBy(r, b[i]) {
      assert b[i] in a;
    }
  }

  // ---- row anchors ----

  function PrimitiveAt(row: Json, key: string): Option<Json> {
    match Child(row, Key(key))
    case Some(v) => if Checker.IsPrimitive(v) then Some(v) else None
    case None => None
  }

  predicate HasColumn(rows: seq<Json>, key: string) {
    forall i :: 0 <= i < |rows| ==> PrimitiveAt(rows[i], key).Some?
  }

  predicate UniqueColumn(rows: seq<Json>, key: string) {
    forall i, j :: 0 <= i < j < |rows| ==> PrimitiveAt(rows[i], key) != PrimitiveAt(rows[j], key)
  }

  predicate SameColumn(rows: seq<Json>, projected: seq<Json>, key: string)
    requires |rows| == |projected|
  {
    forall i :: 0 <= i < |rows| ==> PrimitiveAt(projected[i], key) == PrimitiveAt(rows[i], key)
  }

  /** A column that identifies every row and that the removals left alone. */
  predicate IsRowKey(rows: seq<Json>, projected: seq<Json>, key: string)
    requires |rows| == |projected|
  {
    && key != "" && key !in UNSAFE_KEYS
    && HasColumn(rows, key)
    && UniqueColumn(rows, key)
    && SameColumn(rows, projected, key)
  }

  ghost predicate FirstRowKey(rows: seq<Json>, projected: seq<Json>, keys: seq<string>, key: string)
    requires |rows| == |projected|
  {
    exists i ::
      && 0 <= i < |keys| && keys[i] == key
      && (forall j :: 0 <= j < i ==> !IsRowKey(rows, projected, keys[j]))
  }

  /** The first key of the first row, in its own order, that identifies the rows. */
  method RowKey(rows: seq<Json>, projected: seq<Json>) returns (r: Option<string>)
    requires |rows| == |projected| > 0 && Ordered(rows[0])
    ensures r.Some? ==> IsRowKey(rows, projected, r.value)
    ensures r.Some? ==> rows[0].Record? && FirstRowKey(rows, projected, rows[0].keys, r.value)
    ensures r.None? ==> forall key :: !IsRowKey(rows, projected, key)
  {
    if !rows[0].Record? {
      forall key ensures !IsRowKey(rows, projected, key) { assert PrimitiveAt(rows[0], key).None?; }
      return None;
    }
    var i := 0;
    while i < |rows[0].keys|
      invariant 0 <= i <= |rows[0].keys|
      invariant forall j :: 0 <= j < i ==> !IsRowKey(rows, projected, rows[0].keys[j])
    {
      if IsRowKey(rows, projected, rows[0].keys[i]) { return Some(rows[0].keys[i]); }
      i := i + 1;
    }
    forall key ensures !IsRowKey(rows, projected, key) {
      if key !in rows[0].keys { assert PrimitiveAt(rows[0], key).None?; }
    }
    r := None;
  }

  function IndexedPrefixes(path: Path, n: nat): (r: seq<Path>)
    requires n <= |path|
    ensures forall a :: a in r <==> exists k :: 0 <= k < n && path[k].Index? && path[..k] == a
  {
    if n == 0 then []
    else IndexedPrefixes(path, n - 1) + (if path[n - 1].Index? then [path[..n - 1]] else [])
  }

  function AllIndexedPrefixes(omitted: seq<Path>): seq<Path> {
    if omitted == [] then []
    else IndexedPrefixes(omitted[0], |omitted[0]|) + AllIndexedPrefixes(omitted[1..])
  }

  lemma {:induction false} AllIndexedMember(omitted: seq<Path>, a: Path)
    ensures a in AllIndexedPrefixes(omitted) <==> Checker.IndexedArray(omitted, a)
  {
    if omitted != [] {
      AllIndexedMember(omitted[1..], a);
      if Checker.IndexedArray(omitted[1..], a) {
        var n, k :| 0 <= n < |omitted[1..]| && 0 <= k < |omitted[1..][n]| && omitted[1..][n][k].Index? && omitted[1..][n][..k] == a;
        assert omitted[n + 1][k].Index? && omitted[n + 1][..k] == a;
      }
      if Checker.IndexedArray(omitted, a) {
        var n, k :| 0 <= n < |omitted| && 0 <= k < |omitted[n]| && omitted[n][k].Index? && omitted[n][..k] == a;
        if n > 0 {
          assert omitted[1..][n - 1] == omitted[n];
        }
      }
    }
  }

  /** The array can be anchored: it keeps its rows and some column identifies them. */
  ghost predicate Anchorable(o: Json, d: Json, rows: Path) {
    && At(o, rows).Some? && At(o, rows).value.List?
    && At(d, rows).Some? && At(d, rows).value.List?
    && 0 < |At(o, rows).value.items| == |At(d, rows).value.items|
    && exists key :: IsRowKey(At(o, rows).value.items, At(d, rows).value.items, key)
  }

  ghost predicate AnchoredBy(o: Json, d: Json, a: Checker.Anchor) {
    && Anchorable(o, d, a.rows)
    && exists key :: a.key == [Key(key)] && IsRowKey(At(o, a.rows).value.items, At(d, a.rows).value.items, key)
  }

  method AnchorFor(o: Json, d: Json, rows: Path) returns (r: Option<Checker.Anchor>)
    requires Ordered(o)
    ensures r.Some? <==> Anchorable(o, d, rows)
    ensures r.Some? ==> r.value.rows == rows && AnchoredBy(o, d, r.value)
  {
    var before, after := At(o, rows), At(d, rows);
    if before.None? || after.None? { return None; }
    if !before.value.List? || !after.value.List? { return None; }
    if |before.value.items| == 0 || |before.value.items| != |after.value.items| { return None; }
    OrderedAt(o, rows);
    var key := RowKey(before.value.items, after.value.items);
    if key.None? { return None; }
    r := Some(Checker.Anchor(rows, [Key(key.value)]));
  }

  ghost predicate EachAnchored(o: Json, d: Json, rows: seq<Path>, anchors: seq<Checker.Anchor>) {
    |anchors| == |rows| && forall i :: 0 <= i < |rows| ==> anchors[i].rows == rows[i] && AnchoredBy(o, d, anchors[i])
  }

  method Anchors(o: Json, d: Json, omitted: seq<Path>) returns (r: Option<seq<Checker.Anchor>>)
    requires Ordered(o)
    ensures r.Some? <==> forall a :: Checker.IndexedArray(omitted, a) ==> Anchorable(o, d, a)
    ensures r.Some? ==> EachAnchored(o, d, FirstOccurrences(AllIndexedPrefixes(omitted)), r.value)
  {
    var arrays := FirstOccurrences(AllIndexedPrefixes(omitted));
    forall a ensures a in arrays <==> Checker.IndexedArray(omitted, a) { AllIndexedMember(omitted, a); }
    var result: seq<Checker.Anchor> := [];
    var i := 0;
    while i < |arrays|
      invariant 0 <= i <= |arrays|
      invariant EachAnchored(o, d, arrays[..i], result)
    {
      var anchor := AnchorFor(o, d, arrays[i]);
      if anchor.None? {
        assert Checker.IndexedArray(omitted, arrays[i]);
        return None;
      }
      assert arrays[..i + 1] == arrays[..i] + [arrays[i]];
      result := result + [anchor.value];
      i := i + 1;
    }
    assert arrays[..i] == arrays;
    forall a | Checker.IndexedArray(omitted, a) ensures Anchorable(o, d, a) {
      var k :| 0 <= k < |arrays| && arrays[k] == a;
      assert result[k].rows == a;
    }
    r := Some(result);
  }

  // ---- the projection ----

  ghost predicate AllTyped(paths: seq<Path>) {
    forall p :: p in paths ==> Typable(Binding("data", p))
  }

  lemma {:induction false} PlacedTyped(entries: seq<Decided>)
    requires Place(entries).Some?
    ensures forall e :: e in Place(entries).value ==> Typable(Binding("data", e.path))
  {
    if entries != [] {
      PlacedTyped(entries[1..]);
      assert entries[0].binding == Binding("data", entries[0].binding.segments);
    }
  }

  /** What the producer delivers. */
  ghost predicate Produced(o: Json, d: Json, w: Checker.Witness) {
    && Apart(w.omitted) && AllTyped(w.omitted)
    && RemoveAll(o, w.omitted) == Some(d)
    && (w.kind.Omission? <==> w.omitted != [])
    && ProtectsFrom(o, w.omitted, w.protected)
    && (forall e :: e in w.protected ==> Typable(Binding("data", e.path)))
    && EachAnchored(o, d, FirstOccurrences(AllIndexedPrefixes(w.omitted)), w.rowAnchors)
  }

  ghost predicate Clear(unknown: seq<Path>, omitted: seq<Path>) {
    forall i :: 0 <= i < |unknown| ==> !AnyOverlap(omitted, unknown[i])
  }

  /** Exactly when the producer does not throw. */
  ghost predicate Projectable(o: Json, fields: seq<Decided>, repeaters: seq<Decided>, unknown: seq<Binding>) {
    && Cloneable(o)
    && Place(fields).Some? && Place(repeaters).Some? && PlaceUnknown(unknown).Some?
    && var omitted := OmittedPaths(o, Place(fields).value, Place(repeaters).value);
    && Apart(omitted)
    && Clear(PlaceUnknown(unknown).value, omitted)
    && !ProtectionClash(o, OtherPaths(Place(fields).value), omitted)
    && EachRemovable(o, omitted)
    && RemoveAll(o, omitted).Some?
    && (forall a :: Checker.IndexedArray(omitted, a) ==> Anchorable(o, RemoveAll(o, omitted).value, a))
  }

  method CheckApart(paths: seq<Path>) returns (ok: bool)
    ensures ok <==> Apart(paths)
  {
    var i := 0;
    while i < |paths|
      invariant 0 <= i <= |paths|
      invariant forall a, b :: 0 <= a < b < |paths| && a < i ==> !Overlap(paths[a], paths[b])
    {
      var j := i + 1;
      while j < |paths|
        invariant i < j <= |paths|
        invariant forall b :: i < b < j ==> !Overlap(paths[i], paths[b])
      {
        if Overlap(paths[i], paths[j]) { return false; }
        j := j + 1;
      }
      i := i + 1;
    }
    ok := true;
  }

  method CheckClear(unknown: seq<Path>, omitted: seq<Path>) returns (ok: bool)
    ensures ok <==> Clear(unknown, omitted)
  {
    var i := 0;
    while i < |unknown|
      invariant 0 <= i <= |unknown|
      invariant forall k :: 0 <= k < i ==> !AnyOverlap(omitted, unknown[k])
    {
      var b := OverlapsAny(omitted, unknown[i]);
      if b { return false; }
      i := i + 1;
    }
    ok := true;
  }

  /** The removal loop over the copied data. */
  method RemoveEach(original: Json, omitted: seq<Path>) returns (r: Option<Json>)
    ensures r == RemoveAll(original, omitted)
  {
    var data := original;
    var i := 0;
    while i < |omitted|
      invariant 0 <= i <= |omitted|
      invariant RemoveAll(original, omitted) == RemoveAll(data, omitted[i..])
    {
      var next := Remove(data, omitted[i]);
      if next.None? { return None; }
      assert omitted[i..][1..] == omitted[i + 1..];
      data := next.value;
      i := i + 1;
    }
    r := Some(data);
  }

  /** Removal and witness for omissions and protected fields already selected. */
  method ProjectPaths(original: Json, omitted: seq<Path>, others: seq<Path>) returns (r: Option<(Json, Checker.Witness)>)
    requires Ordered(original) && Apart(omitted) && AllTyped(omitted) && AllTyped(others)
    ensures r.Some? <==>
      && !ProtectionClash(original, others, omitted)
      && RemoveAll(original, omitted).Some?
      && (forall a :: Checker.IndexedArray(omitted, a) ==> Anchorable(original, RemoveAll(original, omitted).value, a))
    ensures r.Some? ==> Produced(original, r.value.0, r.value.1) && r.value.1.omitted == omitted
    ensures r.Some? ==> Progress(original, omitted, others, r.value.1.protected)
  {
    var protected := ProtectedPaths(original, others, omitted);
    if protected.None? { return None; }
    var data := RemoveEach(original, omitted);
    if data.None? { return None; }
    var anchors := Anchors(original, data.value, omitted);
    if anchors.None? { return None; }
    var kind := if omitted != [] then Checker.Omission else Checker.NoOmission;
    r := Some((data.value, Checker.Witness(kind, omitted, protected.value, anchors.value)));
  }

  /** The producer. It succeeds exactly on projectable inputs; the paths it removes are the exclusive
      ones and the values it protects cover every other present field. */
  method ProjectParts(original: Json, fields: seq<Decided>, repeaters: seq<Decided>, unknown: seq<Binding>)
    returns (r: Option<(Json, Checker.Witness)>)
    requires Ordered(original)
    ensures r.Some? <==> Projectable(original, fields, repeaters, unknown)
    ensures r.Some? ==>
      && Produced(original, r.value.0, r.value.1)
      && r.value.1.omitted == OmittedPaths(original, Place(fields).value, Place(repeaters).value)
      && Progress(original, r.value.1.omitted, OtherPaths(Place(fields).value), r.value.1.protected)
  {
    if !Cloneable(original) { return None; }
    var places, structural, untouched := Place(fields), Place(repeaters), PlaceUnknown(unknown);
    if places.None? { return None; }
    if structural.None? { return None; }
    if untouched.None? { return None; }
    var omitted := OmittedPaths(original, places.value, structural.value);
    var apart := CheckApart(omitted);
    if !apart { return None; }
    var clear := CheckClear(untouched.value, omitted);
    if !clear { return None; }
    PlacedTyped(fields);
    PlacedTyped(repeaters);
    r := ProjectPaths(original, omitted, OtherPaths(places.value));
    RemoveAllDefined(original, omitted);
  }
}
