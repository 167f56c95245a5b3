/** The owner trie of scoped-async-overlaps.ts against the pairwise check of scoped-sync-host.ts.
    An owner is its position in the field list. */
module OverlappingOwners {
  import opened JsonData
  import opened Bindings

  /** The synchronous host rejects owner `i` because of some other owner. */
  ghost predicate Rejected(fields: seq<Binding>, i: nat) {
    i < |fields| && exists j :: 0 <= j < |fields| && j != i && Overlaps(fields[j], fields[i])
  }

  datatype Trie = Trie(count: nat, owners: set<nat>, children: map<Segment, Trie>)

  const EMPTY: Trie := Trie(0, {}, map[])

  function Insert(t: Trie, path: Path, owner: nat): Trie
    decreases |path|
  {
    if path == [] then Trie(t.count + 1, t.owners + {owner}, t.children)
    else
      var child := if path[0] in t.children then t.children[path[0]] else EMPTY;
      Trie(t.count + 1, t.owners, t.children[path[0] := Insert(child, path[1..], owner)])
  }

  /** Owners with another owner above, at or below them; `ancestor` says one was seen above. */
  function Visit(t: Trie, ancestor: bool): set<nat> {
    var inherited := ancestor || t.owners != {};
    (if ancestor || t.count > 1 then t.owners else {}) +
    (set s, o | s in t.children && o in Visit(t.children[s], inherited) :: o)
  }

  // ---- the owners a trie holds, with the paths still ahead of them ----

  ghost function Tails(ps: map<nat, Path>, s: Segment): map<nat, Path> {
    map i | i in ps && ps[i] != [] && ps[i][0] == s :: ps[i][1..]
  }

  /** The trie's own node: how many owners pass, which end here, which segments lead on. */
  ghost predicate HoldsHere(t: Trie, ps: map<nat, Path>) {
    && t.count == |ps|
    && (forall i :: i in t.owners <==> i in ps && ps[i] == [])
    && (forall i :: i in ps && ps[i] != [] ==> ps[i][0] in t.children)
  }

  ghost predicate Holds(t: Trie, ps: map<nat, Path>) {
    HoldsHere(t, ps) && forall s :: s in t.children ==> Holds(t.children[s], Tails(ps, s))
  }

  lemma EmptyHolds()
    ensures Holds(EMPTY, map[])
  {
  }

  lemma TailsOfInsert(ps: map<nat, Path>, path: Path, owner: nat, s: Segment)
    requires owner !in ps
    ensures Tails(ps[owner := path], s) ==
      if path != [] && path[0] == s then Tails(ps, s)[owner := path[1..]] else Tails(ps, s)
  {
  }

  lemma InsertHoldsHere(t: Trie, ps: map<nat, Path>, path: Path, owner: nat)
    requires HoldsHere(t, ps) && owner !in ps
    ensures HoldsHere(Insert(t, path, owner), ps[owner := path])
  {
    OneMore(ps, path, owner);
    EndsHere(t, ps, path, owner);
  }

  lemma OneMore(ps: map<nat, Path>, path: Path, owner: nat)
    requires owner !in ps
    ensures |ps[owner := path]| == |ps| + 1
  {
    assert ps[owner := path].Keys == ps.Keys + {owner};
    assert |ps[owner := path].Keys| == |ps.Keys| + 1;
  }

  lemma EndsHere(t: Trie, ps: map<nat, Path>, path: Path, owner: nat)
    requires HoldsHere(t, ps) && owner !in ps
    ensures forall i :: i in Insert(t, path, owner).owners <==> i in ps[owner := path] && ps[owner := path][i] == []
  {
  }

  lemma NoTails(t: Trie, ps: map<nat, Path>, s: Segment)
    requires HoldsHere(t, ps) && s !in t.children
    ensures Tails(ps, s) == map[]
  {
  }

  lemma {:induction false} InsertHolds(t: Trie, ps: map<nat, Path>, path: Path, owner: nat)
    requires Holds(t, ps) && owner !in ps
    ensures Holds(Insert(t, path, owner), ps[owner := path])
    decreases |path|
  {
    InsertHoldsHere(t, ps, path, owner);
    if path == [] {
      forall s | s in t.children ensures Holds(t.children[s], Tails(ps[owner := path], s)) {
        TailsOfInsert(ps, path, owner, s);
      }
    } else {
      InsertHoldsBelow(t, ps, path, owner);
    }
  }

  lemma {:induction false} InsertHoldsBelow(t: Trie, ps: map<nat, Path>, path: Path, owner: nat)
    requires Holds(t, ps) && owner !in ps && path != []
    ensures forall s :: s in Insert(t, path, owner).children ==>
      Holds(Insert(t, path, owner).children[s], Tails(ps[owner := path], s))
    decreases |path|, 0
  {
    var u := Insert(t, path, owner);
    forall s | s in u.children ensures Holds(u.children[s], Tails(ps[owner := path], s)) {
      TailsOfInsert(ps, path, owner, s);
      if s == path[0] {
        if s in t.children {
          InsertHolds(t.children[s], Tails(ps, s), path[1..], owner);
        } else {
          NoTails(t, ps, s);
          EmptyHolds();
          InsertHolds(EMPTY, map[], path[1..], owner);
        }
      }
    }
  }

  ghost predicate HasPartner(ps: map<nat, Path>, i: nat)
    requires i in ps
  {
    exists j :: j in ps && j != i && Overlap(ps[j], ps[i])
  }

  lemma TwoMembers(s: set<nat>, i: nat, j: nat)
    requires i in s && j in s && i != j
    ensures |s| > 1
  {
    assert |s - {i}| > 0 by { assert j in s - {i}; }
  }

  lemma PartnerOfAll(ps: map<nat, Path>, i: nat)
    requires i in ps && ps[i] == []
    ensures HasPartner(ps, i) <==> |ps| > 1
  {
    assert |ps| == |ps.Keys|;
    if |ps| > 1 {
      assert |ps.Keys - {i}| > 0;
      var j :| j in ps.Keys - {i};
      assert Overlap(ps[j], ps[i]);
    }
    if HasPartner(ps, i) {
      var j :| j in ps && j != i && Overlap(ps[j], ps[i]);
      TwoMembers(ps.Keys, i, j);
    }
  }

  lemma OverlapByHead(a: Path, b: Path)
    requires b != []
    ensures Overlap(a, b) <==> a == [] || (a[0] == b[0] && Overlap(a[1..], b[1..]))
  {
    if a != [] {
      assert a == [a[0]] + a[1..] && b == [b[0]] + b[1..];
    }
  }

  lemma PartnerBelow(t: Trie, ps: map<nat, Path>, i: nat)
    requires HoldsHere(t, ps) && i in ps && ps[i] != []
    ensures HasPartner(ps, i) <==> t.owners != {} || HasPartner(Tails(ps, ps[i][0]), i)
  {
    var tails := Tails(ps, ps[i][0]);
    if HasPartner(ps, i) {
      var j :| j in ps && j != i && Overlap(ps[j], ps[i]);
      OverlapByHead(ps[j], ps[i]);
      if ps[j] == [] { assert j in t.owners; } else { assert j in tails && Overlap(tails[j], tails[i]); }
    }
    if HasPartner(tails, i) {
      var j :| j in tails && j != i && Overlap(tails[j], tails[i]);
      OverlapByHead(ps[j], ps[i]);
    }
    if t.owners != {} {
      var o :| o in t.owners;
      OverlapByHead(ps[o], ps[i]);
    }
  }

  /** The walk flags an owner exactly when it has a partner or one was seen above. */
  lemma {:induction false} VisitFlags(t: Trie, ps: map<nat, Path>, ancestor: bool, i: nat)
    requires Holds(t, ps)
    ensures i in Visit(t, ancestor) <==> i in ps && (ancestor || HasPartner(ps, i))
    decreases t
  {
    forall s | s in t.children
      ensures i in Visit(t.children[s], ancestor || t.owners != {})
        <==> i in Tails(ps, s) && (ancestor || t.owners != {} || HasPartner(Tails(ps, s), i))
    {
      VisitFlags(t.children[s], Tails(ps, s), ancestor || t.owners != {}, i);
    }
    if i in ps {
      if ps[i] == [] { PartnerOfAll(ps, i); } else { PartnerBelow(t, ps, i); }
    }
  }

  // ---- the forest over namespaces ----

  ghost function InNamespace(fields: seq<Binding>, ns: string): map<nat, Path> {
    map i: nat | i < |fields| && fields[i].namespace == ns :: fields[i].segments
  }

  ghost predicate Forest(roots: map<string, Trie>, fields: seq<Binding>) {
    && (forall ns :: ns in roots ==> Holds(roots[ns], InNamespace(fields, ns)))
    && (forall i :: 0 <= i < |fields| ==> fields[i].namespace in roots)
  }

  lemma InNamespaceStep(fields: seq<Binding>, b: Binding, ns: string)
    ensures InNamespace(fields + [b], ns) ==
      if b.namespace == ns then InNamespace(fields, ns)[|fields| := b.segments] else InNamespace(fields, ns)
  {
  }

  function Plant(roots: map<string, Trie>, b: Binding, owner: nat): map<string, Trie> {
    var t := if b.namespace in roots then roots[b.namespace] else EMPTY;
    roots[b.namespace := Insert(t, b.segments, owner)]
  }

  lemma PlantedTree(roots: map<string, Trie>, fields: seq<Binding>, b: Binding)
    requires Forest(roots, fields)
    ensures Holds(Plant(roots, b, |fields|)[b.namespace], InNamespace(fields + [b], b.namespace))
  {
    var t := if b.namespace in roots then roots[b.namespace] else EMPTY;
    if b.namespace !in roots {
      assert InNamespace(fields, b.namespace) == map[];
      EmptyHolds();
    }
    InsertHolds(t, InNamespace(fields, b.namespace), b.segments, |fields|);
    InNamespaceStep(fields, b, b.namespace);
  }

  lemma ForestStep(roots: map<string, Trie>, fields: seq<Binding>, b: Binding)
    requires Forest(roots, fields)
    ensures Forest(Plant(roots, b, |fields|), fields + [b])
  {
    PlantedTree(roots, fields, b);
    var after := Plant(roots, b, |fields|);
    forall ns | ns in after ensures Holds(after[ns], InNamespace(fields + [b], ns)) {
      if ns != b.namespace { InNamespaceStep(fields, b, ns); }
    }
  }

  lemma FlaggedIsRejected(roots: map<string, Trie>, fields: seq<Binding>, ns: string, i: nat)
    requires Forest(roots, fields) && ns in roots
    ensures i in Visit(roots[ns], false) <==> i < |fields| && fields[i].namespace == ns && Rejected(fields, i)
  {
    var ps := InNamespace(fields, ns);
    VisitFlags(roots[ns], ps, false, i);
    if i in ps {
      if Rejected(fields, i) {
        var j :| 0 <= j < |fields| && j != i && Overlaps(fields[j], fields[i]);
        assert j in ps && Overlap(ps[j], ps[i]);
      }
      if HasPartner(ps, i) {
        var j :| j in ps && j != i && Overlap(ps[j], ps[i]);
        assert Overlaps(fields[j], fields[i]);
      }
    }
  }

  lemma ForestStepAt(roots: map<string, Trie>, fields: seq<Binding>, n: nat)
    requires n < |fields| && Forest(roots, fields[..n])
    ensures Forest(Plant(roots, fields[n], n), fields[..n + 1])
  {
    ForestStep(roots, fields[..n], fields[n]);
    assert fields[..n + 1] == fields[..n] + [fields[n]];
  }

  method BuildForest(fields: seq<Binding>) returns (roots: map<string, Trie>)
    ensures Forest(roots, fields)
  {
    roots := map[];
    for n := 0 to |fields|
      invariant Forest(roots, fields[..n])
    {
      ForestStepAt(roots, fields, n);
      roots := Plant(roots, fields[n], n);
    }
    assert fields[..|fields|] == fields;
  }

  /** Exactly the owners the pairwise check would reject. */
  method FindOverlappingOwners(fields: seq<Binding>) returns (overlaps: set<nat>)
    ensures forall i :: i in overlaps <==> Rejected(fields, i)
  {
    var roots := BuildForest(fields);
    overlaps := set ns, o | ns in roots && o in Visit(roots[ns], false) :: o;
    forall i: nat ensures i in overlaps <==> Rejected(fields, i) {
      forall ns | ns in roots
        ensures i in Visit(roots[ns], false) <==> i < |fields| && fields[i].namespace == ns && Rejected(fields, i)
      {
        FlaggedIsRejected(roots, fields, ns, i);
      }
    }
  }
}
