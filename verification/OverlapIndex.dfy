/** The binding trie of ownership-overlap-index.ts and the naive pairwise counts it must agree with. */
module OverlapIndex {
  import opened JsonData
  import opened Bindings

  // ---- the naive reading ----

  /** How an added binding can stand to a queried one. `Above(n)` are the proper prefixes shorter
      than `n`. */
  datatype Relation = Same | Below | Extends | Above(n: nat) | Overlapping

  predicate Related(r: Relation, b: Binding, q: Binding) {
    && b.namespace == q.namespace
    && match r
       case Same => b.segments == q.segments
       case Below => q.segments <= b.segments
       case Extends => q.segments < b.segments
       case Above(n) => |b.segments| < n && b.segments < q.segments
       case Overlapping => Overlap(b.segments, q.segments)
  }

  function One(r: Relation, b: Binding, q: Binding): nat {
    if Related(r, b, q) then 1 else 0
  }

  /** The number of bindings in the list related to `q`. */
  function Count(bs: seq<Binding>, r: Relation, q: Binding): nat {
    if bs == [] then 0
    else Count(bs[..|bs| - 1], r, q) + One(r, bs[|bs| - 1], q)
  }

  lemma CountAppend(bs: seq<Binding>, b: Binding, r: Relation, q: Binding)
    ensures Count(bs + [b], r, q) == Count(bs, r, q) + One(r, b, q)
  {
    assert (bs + [b])[..|bs|] == bs;
  }

  lemma CountAppendAll(bs: seq<Binding>, b: Binding)
    ensures forall r, q {:trigger Count(bs + [b], r, q)} :: Count(bs + [b], r, q) == Count(bs, r, q) + One(r, b, q)
  {
    forall r, q ensures Count(bs + [b], r, q) == Count(bs, r, q) + One(r, b, q) { CountAppend(bs, b, r, q); }
  }

  lemma {:induction false} CountSum(bs: seq<Binding>, r: Relation, q: Binding, r1: Relation, q1: Binding, r2: Relation, q2: Binding)
    requires forall b :: One(r, b, q) == One(r1, b, q1) + One(r2, b, q2)
    ensures Count(bs, r, q) == Count(bs, r1, q1) + Count(bs, r2, q2)
  {
    if bs != [] {
      CountSum(bs[..|bs| - 1], r, q, r1, q1, r2, q2);
    }
  }

  lemma {:induction false} CountZero(bs: seq<Binding>, r: Relation, q: Binding, r1: Relation, q1: Binding)
    requires forall b :: Related(r, b, q) ==> Related(r1, b, q1)
    ensures Count(bs, r, q) <= Count(bs, r1, q1)
  {
    if bs != [] {
      CountZero(bs[..|bs| - 1], r, q, r1, q1);
    }
  }

  lemma {:induction false} CountPositive(bs: seq<Binding>, r: Relation, q: Binding)
    ensures Count(bs, r, q) > 0 <==> exists i :: 0 <= i < |bs| && Related(r, bs[i], q)
  {
    if bs != [] {
      var front := bs[..|bs| - 1];
      CountPositive(front, r, q);
      if i :| 0 <= i < |bs| && Related(r, bs[i], q) {
        assert i < |front| ==> front[i] == bs[i];
      }
    }
  }

  function Prefix(q: Binding, n: nat): Binding
    requires n <= |q.segments|
  {
    Binding(q.namespace, q.segments[..n])
  }

  function Extend(b: Binding, s: Segment): Binding {
    Binding(b.namespace, b.segments + [s])
  }

  function Parent(b: Binding): Binding
    requires b.segments != []
  {
    Binding(b.namespace, Front(b.segments))
  }

  lemma ParentExtend(b: Binding, s: Segment)
    ensures Parent(Extend(b, s)) == b && Last(Extend(b, s).segments) == s
  {
  }

  /** One step further down the added binding is one more prefix. */
  lemma OneExtend(p: Binding, s: Segment, b: Binding)
    ensures One(Below, Extend(p, s), b) == One(Below, p, b) + (if b == Extend(p, s) then 1 else 0)
  {
    if b.namespace == p.namespace && b.segments <= Extend(p, s).segments {
      if |b.segments| <= |p.segments| {
        assert b.segments <= p.segments;
      }
    }
  }

  /** The ancestors shorter than `n + 1` are those shorter than `n` and those equal to the prefix. */
  lemma AboveStep(bs: seq<Binding>, q: Binding, n: nat)
    requires n < |q.segments|
    ensures Count(bs, Above(n + 1), q) == Count(bs, Above(n), q) + Count(bs, Same, Prefix(q, n))
  {
    forall b ensures One(Above(n + 1), b, q) == One(Above(n), b, q) + One(Same, b, Prefix(q, n)) {
      if b.segments < q.segments && |b.segments| == n {
        assert b.segments == q.segments[..n];
      }
    }
    CountSum(bs, Above(n + 1), q, Above(n), q, Same, Prefix(q, n));
  }

  lemma {:induction false} AboveNone(bs: seq<Binding>, q: Binding)
    ensures Count(bs, Above(0), q) == 0
  {
    if bs != [] { AboveNone(bs[..|bs| - 1], q); }
  }

  lemma OverlapSplit(bs: seq<Binding>, q: Binding)
    ensures Count(bs, Overlapping, q) == Count(bs, Above(|q.segments|), q) + Count(bs, Below, q)
  {
    CountSum(bs, Overlapping, q, Above(|q.segments|), q, Below, q);
  }

  lemma BelowSplit(bs: seq<Binding>, q: Binding)
    ensures Count(bs, Below, q) == Count(bs, Same, q) + Count(bs, Extends, q)
  {
    CountSum(bs, Below, q, Same, q, Extends, q);
  }

  /** When nothing lies at or below a prefix of `q`, every overlap of `q` is above that prefix. */
  lemma NothingBelow(bs: seq<Binding>, q: Binding, n: nat)
    requires n <= |q.segments| && Count(bs, Below, Prefix(q, n)) == 0
    ensures Count(bs, Below, q) == 0
    ensures Count(bs, Same, q) == 0 && Count(bs, Extends, q) == 0
    ensures Count(bs, Overlapping, q) == Count(bs, Above(n), q)
  {
    assert q.segments[..n] <= q.segments;
    CountZero(bs, Below, q, Below, Prefix(q, n));
    BelowSplit(bs, q);
    OverlapSplit(bs, q);
    AboveStops(bs, q, n, |q.segments|);
  }

  lemma {:induction false} AboveStops(bs: seq<Binding>, q: Binding, n: nat, m: nat)
    requires n <= m <= |q.segments| && Count(bs, Below, Prefix(q, n)) == 0
    ensures Count(bs, Above(m), q) == Count(bs, Above(n), q)
    decreases m
  {
    if n < m {
      AboveStops(bs, q, n, m - 1);
      AboveStep(bs, q, m - 1);
      assert q.segments[..n] <= q.segments[..m - 1];
      CountZero(bs, Same, Prefix(q, m - 1), Below, Prefix(q, n));
    }
  }

  // ---- the numbers in the trie ----

  datatype Tally = Tally(count: nat, exact: nat)

  /** Every node carries the counts of the bindings added; no binding lies outside the trie. */
  ghost predicate Agrees(bs: seq<Binding>, t: map<Binding, Tally>) {
    && (forall b :: b in t ==> t[b] == Tally(Count(bs, Below, b), Count(bs, Same, b)))
    && (forall b :: b !in t ==> Count(bs, Below, b) == 0)
  }

  ghost predicate AgreesPartly(bs: seq<Binding>, t: map<Binding, Tally>, partial: Binding) {
    && (forall b :: b in t ==> t[b] == Tally(Count(bs, Below, b) + One(Below, partial, b), Count(bs, Same, b)))
    && (forall b :: b !in t ==> Count(bs, Below, b) == 0)
  }

  function TallyAt(t: map<Binding, Tally>, b: Binding): Tally {
    if b in t then t[b] else Tally(0, 0)
  }

  lemma NothingSame(bs: seq<Binding>, b: Binding)
    requires Count(bs, Below, b) == 0
    ensures Count(bs, Same, b) == 0
  {
    BelowSplit(bs, b);
  }

  /** The tallies while the first `i` segments of `x` have been counted on the way. */
  ghost predicate OnPath(bs: seq<Binding>, t: map<Binding, Tally>, x: Binding, i: int) {
    && 0 <= i <= |x.segments|
    && (forall n :: 0 <= n <= i ==> Prefix(x, n) in t)
    && AgreesPartly(bs, t, Prefix(x, i))
  }

  function Passed(t: map<Binding, Tally>, b: Binding): map<Binding, Tally> {
    t[b := Tally(TallyAt(t, b).count + 1, TallyAt(t, b).exact)]
  }

  lemma PassedNew(t: map<Binding, Tally>, b: Binding)
    requires b !in t
    ensures Passed(t[b := Tally(0, 0)], b) == Passed(t, b)
  {
  }

  lemma PathStarts(bs: seq<Binding>, t: map<Binding, Tally>, x: Binding)
    requires Agrees(bs, t)
    ensures OnPath(bs, Passed(t, Prefix(x, 0)), x, 0)
  {
    if Prefix(x, 0) !in t { NothingSame(bs, Prefix(x, 0)); }
  }

  lemma PathContinues(bs: seq<Binding>, t: map<Binding, Tally>, x: Binding, i: nat)
    requires OnPath(bs, t, x, i) && i < |x.segments|
    ensures Prefix(x, i + 1) == Extend(Prefix(x, i), x.segments[i])
    ensures OnPath(bs, Passed(t, Prefix(x, i + 1)), x, i + 1)
  {
    var p, e := Prefix(x, i), Prefix(x, i + 1);
    assert e == Extend(p, x.segments[i]);
    forall b ensures One(Below, e, b) == One(Below, p, b) + (if b == e then 1 else 0) { OneExtend(p, x.segments[i], b); }
    if e !in t { NothingSame(bs, e); }
  }

  lemma PathEnds(bs: seq<Binding>, t: map<Binding, Tally>, x: Binding)
    requires OnPath(bs, t, x, |x.segments|)
    ensures x in t && Prefix(x, |x.segments|) == x
    ensures Agrees(bs + [x], t[x := Tally(t[x].count, t[x].exact + 1)])
  {
    assert Prefix(x, |x.segments|) == x;
    CountAppendAll(bs, x);
    forall b | b !in t ensures One(Below, x, b) == 0 {
      assert Related(Below, x, b) ==> b == Prefix(x, |b.segments|);
    }
  }

  // ---- the trie ----

  class Node {
    /** The prefix this node stands for. */
    ghost const at: Binding
    var count: nat
    var exact: nat
    var children: map<Segment, Node>

    constructor (ghost at: Binding)
      ensures this.at == at && count == 0 && exact == 0 && children == map[]
    {
      this.at, count, exact, children := at, 0, 0, map[];
    }
  }

  class OwnershipOverlapIndex {
    var roots: map<string, Node>
    /** Everything added so far, in order. */
    ghost var bindings: seq<Binding>
    /** Every node of every trie, under the prefix it stands for. */
    ghost var nodes: map<Binding, Node>
    ghost var Repr: set<Node>

    /** The nodes form one trie a namespace, over exactly the prefixes in `nodes`. */
    ghost predicate Linked()
      reads `roots, `nodes, `Repr, Repr
    {
      var linked :=
      && (forall ns :: ns in roots ==> Binding(ns, []) in nodes && roots[ns] == nodes[Binding(ns, [])])
      && (forall b :: b in nodes ==>
            && nodes[b] in Repr && nodes[b].at == b && b.namespace in roots
            && forall s :: s in nodes[b].children ==>
                 Extend(b, s) in nodes && nodes[b].children[s] == nodes[Extend(b, s)])
      && (forall b {:trigger Parent(b)} :: b in nodes && b.segments != [] ==>
            Parent(b) in nodes && Last(b.segments) in nodes[Parent(b)].children);
      linked
    }

    ghost function Tallies(): map<Binding, Tally>
      requires Linked()
      reads `roots, `nodes, `Repr, Repr
    {
      map b | b in nodes :: Tally(nodes[b].count, nodes[b].exact)
    }

    ghost predicate Valid()
      reads this, Repr
    {
      Linked() && Agrees(bindings, Tallies())
    }

    /** The first `i` segments of `x` have been walked and counted; `current` is where the walk stands. */
    ghost predicate Walking(x: Binding, i: int, current: Node)
      reads this, Repr
    {
      Linked() && OnPath(bindings, Tallies(), x, i) && current == nodes[Prefix(x, i)]
    }

    constructor ()
      ensures Valid() && bindings == [] && Repr == {}
    {
      roots, bindings, nodes, Repr := map[], [], map[], {};
    }

    /** Counts by walking one path: equal, strictly extending and prefix-comparable bindings. */
    method Query(q: Binding) returns (exact: nat, descendants: nat, overlaps: nat)
      requires Valid()
      ensures exact == Count(bindings, Same, q)
      ensures descendants == Count(bindings, Extends, q)
      ensures overlaps == Count(bindings, Overlapping, q)
    {
      if q.namespace !in roots {
        assert Prefix(q, 0) == Binding(q.namespace, []);
        NothingBelow(bindings, q, 0);
        AboveNone(bindings, q);
        return 0, 0, 0;
      }
      var current := roots[q.namespace];
      var ancestors := 0;
      var i := 0;
      assert Prefix(q, 0) == Binding(q.namespace, []);
      AboveNone(bindings, q);
      while i < |q.segments|
        invariant 0 <= i <= |q.segments|
        invariant Prefix(q, i) in nodes && current == nodes[Prefix(q, i)]
        invariant ancestors == Count(bindings, Above(i), q)
      {
        ancestors := ancestors + current.exact;
        AboveStep(bindings, q, i);
        var s := q.segments[i];
        assert Prefix(q, i + 1) == Extend(Prefix(q, i), s);
        ParentExtend(Prefix(q, i), s);
        if s !in current.children {
          NothingBelow(bindings, q, i + 1);
          return 0, 0, ancestors;
        }
        current := current.children[s];
        i := i + 1;
      }
      assert Prefix(q, i) == q;
      exact := current.exact;
      BelowSplit(bindings, q);
      OverlapSplit(bindings, q);
      return exact, current.count - exact, ancestors + current.count;
    }

    /** `n` stands for `b` and has counted one more binding; no other tally changed since `before`. */
    ghost predicate Counted(before: map<Binding, Tally>, b: Binding, n: Node)
      reads this, Repr
    {
      Linked() && b in nodes && n == nodes[b] && Tallies() == Passed(before, b)
    }

    /** `n` is a new empty node for `b`. */
    ghost predicate Added(before: map<Binding, Tally>, b: Binding, n: Node)
      reads this, Repr
    {
      Linked() && b in nodes && n == nodes[b] && b !in before && Tallies() == before[b := Tally(0, 0)]
    }

    method NewRoot(ns: string) returns (root: Node)
      requires Linked() && ns !in roots
      modifies this`roots, this`nodes, this`Repr
      ensures Added(old(Tallies()), Binding(ns, []), root)
      ensures fresh(root) && Repr == old(Repr) + {root}
    {
      root := LinkRoot(ns);
    }

    method LinkRoot(ns: string) returns (root: Node)
      requires Linked() && ns !in roots
      modifies this`roots, this`nodes, this`Repr
      ensures Linked() && Binding(ns, []) !in old(nodes) && nodes == old(nodes)[Binding(ns, []) := root]
      ensures fresh(root) && Repr == old(Repr) + {root} && root.count == 0 && root.exact == 0
    {
      root := new Node(Binding(ns, []));
      roots := roots[ns := root];
      nodes, Repr := nodes[Binding(ns, []) := root], Repr + {root};
    }

    method NewChild(ghost p: Binding, current: Node, s: Segment) returns (child: Node)
      requires Linked() && p in nodes && current == nodes[p] && s !in current.children
      modifies this`nodes, this`Repr, current`children
      ensures Added(old(Tallies()), Extend(p, s), child)
      ensures fresh(child) && Repr == old(Repr) + {child}
    {
      child := LinkChild(p, current, s);
    }

    method LinkChild(ghost p: Binding, current: Node, s: Segment) returns (child: Node)
      requires Linked() && p in nodes && current == nodes[p] && s !in current.children
      modifies this`nodes, this`Repr, current`children
      ensures Linked() && Extend(p, s) !in old(nodes) && nodes == old(nodes)[Extend(p, s) := child]
      ensures fresh(child) && Repr == old(Repr) + {child} && child.count == 0 && child.exact == 0
    {
      ParentExtend(p, s);
      child := new Node(Extend(p, s));
      current.children := current.children[s := child];
      nodes, Repr := nodes[Extend(p, s) := child], Repr + {child};
    }

    method Pass(ghost b: Binding, n: Node)
      requires Linked() && b in nodes && n == nodes[b]
      modifies n`count
      ensures Counted(old(Tallies()), b, n)
    {
      n.count := n.count + 1;
    }

    /** The root of the namespace, created on first use, counts one more binding. */
    method Root(ns: string) returns (root: Node)
      requires Linked()
      modifies this`roots, this`nodes, this`Repr, Repr`count
      ensures Counted(old(Tallies()), Binding(ns, []), root) && fresh(Repr - old(Repr))
    {
      if ns in roots {
        root := roots[ns];
        Pass(Binding(ns, []), root);
      } else {
        ghost var before := Tallies();
        root := NewRoot(ns);
        Pass(Binding(ns, []), root);
        PassedNew(before, Binding(ns, []));
      }
    }

    /** The child along a segment, created on first use, counts one more binding. */
    method Descend(ghost p: Binding, current: Node, s: Segment) returns (child: Node)
      requires Linked() && p in nodes && current == nodes[p]
      modifies this`nodes, this`Repr, current`children, Repr`count
      ensures Counted(old(Tallies()), Extend(p, s), child) && fresh(Repr - old(Repr))
    {
      if s in current.children {
        child := current.children[s];
        Pass(Extend(p, s), child);
      } else {
        ghost var before := Tallies();
        child := NewChild(p, current, s);
        Pass(Extend(p, s), child);
        PassedNew(before, Extend(p, s));
      }
    }

    /** The binding ends at this node. */
    method Mark(ghost b: Binding, n: Node)
      requires Linked() && b in nodes && n == nodes[b]
      modifies n`exact
      ensures Linked()
      ensures Tallies() == old(Tallies())[b := Tally(old(Tallies())[b].count, old(Tallies())[b].exact + 1)]
    {
      n.exact := n.exact + 1;
    }

    /** Enters the trie of a namespace and counts the binding at its root. */
    method Start(x: Binding) returns (root: Node)
      requires Valid()
      modifies this`roots, this`nodes, this`Repr, Repr
      ensures Walking(x, 0, root) && fresh(Repr - old(Repr))
    {
      PathStarts(bindings, Tallies(), x);
      root := Root(x.namespace);
    }

    /** Moves one segment down and counts the binding there. */
    method Enter(x: Binding, i: nat, current: Node) returns (child: Node)
      requires Walking(x, i, current) && i < |x.segments|
      modifies this`nodes, this`Repr, Repr
      ensures Walking(x, i + 1, child) && fresh(Repr - old(Repr))
    {
      PathContinues(bindings, Tallies(), x, i);
      child := Descend(Prefix(x, i), current, x.segments[i]);
    }

    method Finish(x: Binding, current: Node)
      requires Walking(x, |x.segments|, current)
      modifies this`bindings, current`exact
      ensures Valid() && bindings == old(bindings) + [x]
    {
      PathEnds(bindings, Tallies(), x);
      Mark(x, current);
      bindings := bindings + [x];
    }

    /** Adds one binding: every prefix on its path counts it once, its own node also exactly. */
    method Add(x: Binding)
      requires Valid()
      modifies this, Repr
      ensures Valid() && bindings == old(bindings) + [x] && fresh(Repr - old(Repr))
    {
      var current := Start(x);
      for i := 0 to |x.segments|
        invariant Walking(x, i, current) && bindings == old(bindings) && fresh(Repr - old(Repr))
      {
        current := Enter(x, i, current);
      }
      Finish(x, current);
    }
  }
}
