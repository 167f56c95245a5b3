/** Producer and checker fit together: what one makes, the other accepts. */
module OmissionCompleteness {
  import opened JsonData
  import opened Bindings
  import opened Collections
  import Checker = WitnessChecker
  import Supplier = OmissionSupplier

  lemma {:induction false} PrunesAt(o: Json, d: Json, r: Path)
    requires Checker.Prunes(o, d) && At(d, r).Some?
    ensures At(o, r).Some? && Checker.Prunes(At(o, r).value, At(d, r).value)
    decreases |r|
  {
    if r != [] {
      PrunesAt(Child(o, r[0]).value, Child(d, r[0]).value, r[1..]);
    }
  }

  lemma TypedIsValid(p: Path)
    requires Typable(Binding("data", p))
    ensures Checker.ValidPath(p)
  {
    forall i | 0 <= i < |p| ensures Checker.ValidSegment(p[i]) {
      assert TypedSegment(Binding("data", p).segments[i]);
    }
  }

  /** Above a removed field every container is still a container. */
  lemma ContainersStay(o: Json, d: Json, path: Path)
    requires Checker.Prunes(o, d) && path != [] && At(o, path).Some? && At(d, Front(path)).Some?
    ensures Checker.ContainersHold(d, d, path)
  {
    forall i | 0 <= i < |path| ensures Checker.SameContainer(At(d, path[..i]), At(d, path[..i])) {
      assert path[..i] <= Front(path);
      AtPrefix(d, path[..i], Front(path));
      PrunesAt(o, d, path[..i]);
      assert path[..i + 1] <= path && Front(path[..i + 1]) == path[..i];
      AtPrefix(o, path[..i + 1], path);
      AtFrontLast(o, path[..i + 1]);
    }
  }

  lemma OmissionAccepted(o: Json, d: Json, w: Checker.Witness, i: nat)
    requires Supplier.Produced(o, d, w) && i < |w.omitted|
    ensures Checker.OmissionHolds(o, d, d, w.omitted[i])
  {
    var path := w.omitted[i];
    assert path in w.omitted;
    TypedIsValid(path);
    Supplier.RemoveAllDefined(o, w.omitted);
    assert Supplier.Removable(o, path);
    Supplier.RemovedAreMissing(o, w.omitted);
    assert Checker.Missing(o, d, path);
    Supplier.RemoveAllPrunes(o, w.omitted);
    ContainersStay(o, d, path);
  }

  lemma OmissionsAccepted(o: Json, d: Json, w: Checker.Witness)
    requires Supplier.Produced(o, d, w)
    ensures Checker.OmissionsHold(w, o, d, d)
  {
    Supplier.RemovedAreMissing(o, w.omitted);
    forall i, j | 0 <= i < j < |w.omitted| ensures w.omitted[i] != w.omitted[j] {
      assert !Overlap(w.omitted[i], w.omitted[j]);
    }
    forall i | 0 <= i < |w.omitted| ensures Checker.OmissionHolds(o, d, d, w.omitted[i]) {
      OmissionAccepted(o, d, w, i);
    }
  }

  /** Protected values survive removals elsewhere. */
  lemma ProtectionAccepted(o: Json, d: Json, w: Checker.Witness, i: nat)
    requires Supplier.Produced(o, d, w) && i < |w.protected|
    ensures Checker.ProtectionHolds(w, d, d, i)
  {
    var e := w.protected[i];
    assert e in w.protected;
    TypedIsValid(e.path);
    assert !Supplier.AnyOverlap(w.omitted, e.path);
    Supplier.RemoveAllElsewhere(o, w.omitted, e.path);
  }

  lemma AtRow(j: Json, rows: Path, i: nat, key: string)
    requires At(j, rows).Some? && At(j, rows).value.List? && i < |At(j, rows).value.items|
    ensures At(j, Checker.RowPath(Checker.Anchor(rows, [Key(key)]), i)) == Child(At(j, rows).value.items[i], Key(key))
  {
    var tail := [Index(i)] + [Key(key)];
    assert Checker.RowPath(Checker.Anchor(rows, [Key(key)]), i) == rows + tail;
    AtConcat(j, rows, tail);
    assert tail[1..] == [Key(key)] && [Key(key)][1..] == [];
    var row := At(j, rows).value.items[i];
    assert At(row, [Key(key)]) == Child(row, Key(key));
    assert At(At(j, rows).value, tail) == At(row, [Key(key)]);
  }

  lemma RowAccepted(o: Json, d: Json, a: Checker.Anchor, key: string, i: nat)
    requires Supplier.Anchorable(o, d, a.rows) && a.key == [Key(key)]
    requires Supplier.IsRowKey(At(o, a.rows).value.items, At(d, a.rows).value.items, key)
    requires i < |At(o, a.rows).value.items|
    ensures Checker.RowHolds(a, o, d, d, i)
    ensures At(d, Checker.RowPath(a, i)) == Supplier.PrimitiveAt(At(o, a.rows).value.items[i], key)
  {
    AtRow(o, a.rows, i, key);
    AtRow(d, a.rows, i, key);
    assert a == Checker.Anchor(a.rows, [Key(key)]);
    assert Supplier.PrimitiveAt(At(o, a.rows).value.items[i], key).Some?;
    assert Supplier.PrimitiveAt(At(d, a.rows).value.items[i], key) == Supplier.PrimitiveAt(At(o, a.rows).value.items[i], key);
  }

  /** The anchor keys are unique per row and survive the removals. */
  lemma RowsAccepted(o: Json, d: Json, a: Checker.Anchor)
    requires Supplier.AnchoredBy(o, d, a)
    ensures Checker.RowsHold(a, o, d, d)
  {
    var before, after := At(o, a.rows).value.items, At(d, a.rows).value.items;
    var key :| a.key == [Key(key)] && Supplier.IsRowKey(before, after, key);
    forall i | 0 <= i < |before|
      ensures Checker.RowHolds(a, o, d, d, i)
      ensures At(d, Checker.RowPath(a, i)) == Supplier.PrimitiveAt(before[i], key)
    {
      RowAccepted(o, d, a, key, i);
    }
  }

  lemma IndexedArrayIsValid(omitted: seq<Path>, rows: Path)
    requires Supplier.AllTyped(omitted) && Checker.IndexedArray(omitted, rows)
    ensures Checker.ValidPath(rows, true)
  {
    var n, i :| 0 <= n < |omitted| && 0 <= i < |omitted[n]| && omitted[n][i].Index? && omitted[n][..i] == rows;
    assert omitted[n] in omitted;
    TypedIsValid(omitted[n]);
    forall k | 0 <= k < |rows| ensures Checker.ValidSegment(rows[k]) {
      assert rows[k] == omitted[n][k];
    }
  }

  lemma AnchorAccepted(o: Json, d: Json, w: Checker.Witness, i: nat)
    requires Supplier.Produced(o, d, w) && i < |w.rowAnchors|
    ensures Checker.AnchorHolds(w, o, d, d, i)
  {
    var arrays := Supplier.FirstOccurrences(Supplier.AllIndexedPrefixes(w.omitted));
    var a := w.rowAnchors[i];
    assert a.rows == arrays[i] && arrays[i] in arrays;
    Supplier.AllIndexedMember(w.omitted, a.rows);
    IndexedArrayIsValid(w.omitted, a.rows);
    RowsAccepted(o, d, a);
    assert !Checker.AnchoredBefore(w, i, a.rows) by {
      forall j | 0 <= j < i ensures w.rowAnchors[j].rows != a.rows {
        assert w.rowAnchors[j].rows == arrays[j];
      }
    }
  }

  lemma AnchorsAccepted(o: Json, d: Json, w: Checker.Witness)
    requires Supplier.Produced(o, d, w)
    ensures Checker.AnchorsHold(w, o, d, d)
  {
    var arrays := Supplier.FirstOccurrences(Supplier.AllIndexedPrefixes(w.omitted));
    forall i | 0 <= i < |w.rowAnchors| ensures Checker.AnchorHolds(w, o, d, d, i) {
      AnchorAccepted(o, d, w, i);
    }
    forall a | Checker.IndexedArray(w.omitted, a) ensures Checker.AnchoredBefore(w, |w.rowAnchors|, a) {
      Supplier.AllIndexedMember(w.omitted, a);
      var k :| 0 <= k < |arrays| && arrays[k] == a;
      assert w.rowAnchors[k].rows == a;
    }
  }

  /** Completeness: the checker accepts what the producer makes, the final data being the projected
      data, exactly when the witness stays within the checker's cap on entries. */
  lemma ProducedIsAccepted(o: Json, d: Json, w: Checker.Witness)
    requires Supplier.Produced(o, d, w)
    ensures Checker.Accepts(w, o, d, d) <==> Checker.Entries(w) <= Checker.MAX_ENTRIES
  {
    Supplier.RemoveAllPrunes(o, w.omitted);
    OmissionsAccepted(o, d, w);
    forall i | 0 <= i < |w.protected| ensures Checker.ProtectionHolds(w, d, d, i) {
      ProtectionAccepted(o, d, w, i);
    }
    AnchorsAccepted(o, d, w);
  }

  // ---- the size of a witness ----

  /** The present paths of a list that extend no other present path of it. */
  ghost function OutermostPaths(data: Json, paths: seq<Path>): set<Path> {
    set p | p in paths && Checker.Exists(data, p) && !Extends(data, paths, p)
  }

  ghost predicate Extends(data: Json, paths: seq<Path>, p: Path) {
    exists q :: q in paths && Checker.Exists(data, q) && q < p
  }

  lemma OverlapIsSame(data: Json, omitted: seq<Path>, r: seq<Checker.ProtectedValue>, i: nat, j: nat)
    requires Supplier.ProtectsFrom(data, omitted, r) && i < |r| && j < |r| && r[j].path <= r[i].path
    ensures i == j
  {
    assert Overlap(r[i].path, r[j].path) && Overlap(r[j].path, r[i].path);
  }

  lemma ProtectedIsOutermost(data: Json, omitted: seq<Path>, paths: seq<Path>, r: seq<Checker.ProtectedValue>, i: nat)
    requires Supplier.Progress(data, omitted, paths, r) && i < |r|
    ensures r[i].path in OutermostPaths(data, paths)
  {
    var p := r[i].path;
    assert r[i] in r;
    if Extends(data, paths, p) {
      var q :| q in paths && Checker.Exists(data, q) && q < p;
      var k :| 0 <= k < |paths| && paths[k] == q;
      assert Supplier.CoveredBy(r, paths[k]);
      var e :| e in r && e.path <= q;
      var j :| 0 <= j < |r| && r[j] == e;
      OverlapIsSame(data, omitted, r, i, j);
    }
  }

  lemma OutermostIsProtected(data: Json, omitted: seq<Path>, paths: seq<Path>, r: seq<Checker.ProtectedValue>, p: Path)
    requires Supplier.Progress(data, omitted, paths, r) && p in OutermostPaths(data, paths)
    ensures exists i :: 0 <= i < |r| && r[i].path == p
  {
    var k :| 0 <= k < |paths| && paths[k] == p;
    assert Supplier.CoveredBy(r, paths[k]);
    var e :| e in r && e.path <= p;
    var i :| 0 <= i < |r| && r[i] == e;
    assert Checker.Exists(data, r[i].path);
    assert e.path < p ==> Extends(data, paths, p);
  }

  /** The producer protects exactly the outermost present paths, once each. */
  lemma ProtectedAreOutermost(data: Json, omitted: seq<Path>, paths: seq<Path>, r: seq<Checker.ProtectedValue>)
    requires Supplier.Progress(data, omitted, paths, r)
    ensures |r| == |OutermostPaths(data, paths)|
  {
    var ps := seq(|r|, i requires 0 <= i < |r| => r[i].path);
    forall i, j | 0 <= i < j < |ps| ensures ps[i] != ps[j] {
      assert !Overlap(r[i].path, r[j].path);
    }
    DistinctSize(ps);
    assert (set p | p in ps) == OutermostPaths(data, paths) by {
      forall p | p in ps ensures p in OutermostPaths(data, paths) {
        var i :| 0 <= i < |ps| && ps[i] == p;
        ProtectedIsOutermost(data, omitted, paths, r, i);
      }
      forall p | p in OutermostPaths(data, paths) ensures p in ps {
        OutermostIsProtected(data, omitted, paths, r, p);
        var i :| 0 <= i < |r| && r[i].path == p;
        assert ps[i] == p;
      }
    }
  }

  /** How many entries the witness for these decisions has: one a removed path, one an outermost
      other path, one an array that a removed path goes through. */
  ghost function WitnessSize(original: Json, fields: seq<Supplier.Placed>, repeaters: seq<Supplier.Placed>): nat {
    var omitted := Supplier.OmittedPaths(original, fields, repeaters);
    |omitted| + |OutermostPaths(original, Supplier.OtherPaths(fields))| +
    |Supplier.FirstOccurrences(Supplier.AllIndexedPrefixes(omitted))|
  }

  /** The decisions can be projected and their witness stays within the cap. */
  ghost predicate Checkable(original: Json, fields: seq<Decided>, repeaters: seq<Decided>, unknown: seq<Binding>) {
    && Supplier.Projectable(original, fields, repeaters, unknown)
    && WitnessSize(original, Supplier.Place(fields).value, Supplier.Place(repeaters).value) <= Checker.MAX_ENTRIES
  }

  /** What the producer made of these decisions. */
  ghost predicate ProducedFor(original: Json, fields: seq<Decided>, repeaters: seq<Decided>, d: Json, w: Checker.Witness) {
    && Supplier.Place(fields).Some? && Supplier.Place(repeaters).Some?
    && Supplier.Produced(original, d, w)
    && w.omitted == Supplier.OmittedPaths(original, Supplier.Place(fields).value, Supplier.Place(repeaters).value)
    && Supplier.Progress(original, w.omitted, Supplier.OtherPaths(Supplier.Place(fields).value), w.protected)
  }

  lemma SizeOfProduced(original: Json, fields: seq<Decided>, repeaters: seq<Decided>, d: Json, w: Checker.Witness)
    requires ProducedFor(original, fields, repeaters, d, w)
    ensures Checker.Entries(w) == WitnessSize(original, Supplier.Place(fields).value, Supplier.Place(repeaters).value)
  {
    ProtectedAreOutermost(original, w.omitted, Supplier.OtherPaths(Supplier.Place(fields).value), w.protected);
  }

  /** The self-checked projection (`projectBoundOmission`): it returns a result exactly for projectable
      inputs whose witness fits the cap, and the result is what the producer makes of them. */
  method ProjectBoundOmission(original: Json, fields: seq<Decided>, repeaters: seq<Decided>, unknown: seq<Binding>)
    returns (r: Option<(Json, Checker.Witness)>)
    requires Ordered(original)
    ensures r.Some? <==> Checkable(original, fields, repeaters, unknown)
    ensures r.Some? ==>
      && ProducedFor(original, fields, repeaters, r.value.0, r.value.1)
      && Checker.Accepts(r.value.1, original, r.value.0, r.value.0)
  {
    r := Supplier.ProjectParts(original, fields, repeaters, unknown);
    if r.Some? {
      var data, plan := r.value.0, r.value.1;
      Supplier.RemoveAllOrdered(original, plan.omitted);
      var ok := Checker.Verify(plan, original, data, data);
      ProducedIsAccepted(original, data, plan);
      SizeOfProduced(original, fields, repeaters, data, plan);
      if !ok { return None; }
    }
  }
}
