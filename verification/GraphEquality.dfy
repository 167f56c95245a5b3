/** Structural equality with reference topology (equality.ts). */
module GraphEquality {
  /* Over an explicit object graph. An object carries its prototype, whatever scalar content its kind
     compares (a date's time, a regular expression's source, a buffer's bytes) and labelled children:
     own properties, map entries or set members, in the order they are enumerated. */

  import opened Collections

  type Id = nat

  /** A primitive, compared by `Object.is`, or a reference. */
  datatype Value = Primitive(p: int) | Ref(id: Id)

  datatype Label = Property(key: string) | EntryKey(n: nat) | EntryValue(n: nat) | Member(n: nat)

  datatype Object = Object(
    prototype: int,
    supported: bool,
    scalar: seq<int>,
    labels: seq<Label>,
    children: map<Label, Value>)

  type Heap = map<Id, Object>

  ghost predicate InHeap(h: Heap, v: Value) {
    v.Ref? ==> v.id in h
  }

  /** Objects list exactly their children, and references stay inside the graph. */
  ghost predicate WellFormed(h: Heap) {
    && (forall x :: x in h ==> forall k :: k in h[x].labels <==> k in h[x].children)
    && (forall x, k :: x in h && k in h[x].children ==> InHeap(h, h[x].children[k]))
  }

  /** The correspondence built so far, in both directions. */
  datatype Seen = Seen(leftToRight: map<Id, Id>, rightToLeft: map<Id, Id>)

  const NOTHING := Seen(map[], map[])

  datatype Paired = New | Known(consistent: bool)

  /** `pairObjects`: an object already paired on either side must be paired with the other one. */
  function Pairing(seen: Seen, a: Id, b: Id): Paired {
    if a in seen.leftToRight || b in seen.rightToLeft then
      Known(&& a in seen.leftToRight && seen.leftToRight[a] == b
            && b in seen.rightToLeft && seen.rightToLeft[b] == a)
    else New
  }

  function Pair(seen: Seen, a: Id, b: Id): Seen {
    if Pairing(seen, a, b).New? then Seen(seen.leftToRight[a := b], seen.rightToLeft[b := a]) else seen
  }

  /** The pairs of `s` are still there in `t`, and `t` stays inside the graph. */
  ghost predicate Grows(h: Heap, s: Seen, t: Seen) {
    && s.leftToRight.Keys <= t.leftToRight.Keys <= h.Keys
    && (forall x :: x in s.leftToRight ==> t.leftToRight[x] == s.leftToRight[x])
  }

  /** What of two objects is compared before their children. */
  predicate SameContent(a: Object, b: Object) {
    a.supported && b.supported && a.scalar == b.scalar && |a.labels| == |b.labels|
  }

  ghost function Unpaired(h: Heap, seen: Seen): nat {
    |h.Keys - seen.leftToRight.Keys|
  }

  lemma PairingShrinks(h: Heap, seen: Seen, a: Id, b: Id)
    requires a in h && Pairing(seen, a, b).New?
    ensures Unpaired(h, Pair(seen, a, b)) < Unpaired(h, seen)
  {
    assert h.Keys - Pair(seen, a, b).leftToRight.Keys == (h.Keys - seen.leftToRight.Keys) - {a};
  }

  lemma GrowingShrinks(h: Heap, s: Seen, t: Seen)
    requires Grows(h, s, t)
    ensures Unpaired(h, t) <= Unpaired(h, s)
  {
    SubsetSize(h.Keys - t.leftToRight.Keys, h.Keys - s.leftToRight.Keys);
  }

  /** The comparison as a function: the answer and the correspondence it leaves behind. */
  function EqualValue(h: Heap, left: Value, right: Value, seen: Seen): (r: (bool, Seen))
    requires WellFormed(h) && InHeap(h, left) && InHeap(h, right) && seen.leftToRight.Keys <= h.Keys
    ensures Grows(h, seen, r.1)
    decreases Unpaired(h, seen), 1, 0
  {
    if left == right then
      if left.Primitive? then (true, seen)
      else (Pairing(seen, left.id, left.id) != Known(false), Pair(seen, left.id, left.id))
    else if left.Primitive? || right.Primitive? then (false, seen)
    else EqualObjects(h, left.id, right.id, seen)
  }

  function EqualObjects(h: Heap, a: Id, b: Id, seen: Seen): (r: (bool, Seen))
    requires WellFormed(h) && a in h && b in h && seen.leftToRight.Keys <= h.Keys
    ensures Grows(h, seen, r.1)
    decreases Unpaired(h, seen), 0, 0
  {
    if h[a].prototype != h[b].prototype then (false, seen)
    else
      match Pairing(seen, a, b)
      case Known(consistent) => (consistent, seen)
      case New =>
        PairingShrinks(h, seen, a, b);
        if !SameContent(h[a], h[b]) then (false, Pair(seen, a, b))
        else EqualChildren(h, a, b, 0, Pair(seen, a, b))
  }

  /** The children from the `i`-th label on, left object's order, first difference wins. */
  function EqualChildren(h: Heap, left: Id, right: Id, i: nat, seen: Seen): (r: (bool, Seen))
    requires WellFormed(h) && left in h && right in h && i <= |h[left].labels| && seen.leftToRight.Keys <= h.Keys
    ensures Grows(h, seen, r.1)
    decreases Unpaired(h, seen), 2, |h[left].labels| - i
  {
    if i == |h[left].labels| then (true, seen)
    else
      var name := h[left].labels[i];
      if name !in h[right].children then (false, seen)
      else
        var first := EqualValue(h, h[left].children[name], h[right].children[name], seen);
        GrowingShrinks(h, seen, first.1);
        if !first.0 then first else EqualChildren(h, left, right, i + 1, first.1)
  }

  function StructuredEqual(h: Heap, left: Value, right: Value): bool
    requires WellFormed(h) && InHeap(h, left) && InHeap(h, right)
  {
    EqualValue(h, left, right, NOTHING).0
  }

  // ---- soundness: a true answer is a bisimulation ----

  /** Values related by a correspondence. */
  predicate Related(m: map<Id, Id>, left: Value, right: Value) {
    match (left, right)
    case (Primitive(p), Primitive(q)) => p == q
    case (Ref(a), Ref(b)) => a in m && m[a] == b
    case _ => false
  }

  /** The two objects look alike and their children are related, label by label. */
  ghost predicate Matches(h: Heap, m: map<Id, Id>, a: Id, b: Id)
    requires a in h && b in h
  {
    && h[a].prototype == h[b].prototype
    && SameContent(h[a], h[b])
    && MatchesFrom(h, m, a, b, 0)
  }

  ghost predicate MatchesFrom(h: Heap, m: map<Id, Id>, a: Id, b: Id, i: nat)
    requires a in h && b in h
  {
    forall k :: i <= k < |h[a].labels| && h[a].labels[k] in h[a].children ==>
      h[a].labels[k] in h[b].children && Related(m, h[a].children[h[a].labels[k]], h[b].children[h[a].labels[k]])
  }

  ghost predicate Mirrored(seen: Seen) {
    && (forall x :: x in seen.leftToRight ==> seen.leftToRight[x] in seen.rightToLeft && seen.rightToLeft[seen.leftToRight[x]] == x)
    && (forall y :: y in seen.rightToLeft ==> seen.rightToLeft[y] in seen.leftToRight && seen.leftToRight[seen.rightToLeft[y]] == y)
  }

  /** Every pair of distinct objects that `t` has and `s` has not matches under `t`. */
  ghost predicate Settled(h: Heap, s: Seen, t: Seen) {
    forall x :: x in t.leftToRight && x !in s.leftToRight && t.leftToRight[x] != x ==>
      x in h && t.leftToRight[x] in h && Matches(h, t.leftToRight, x, t.leftToRight[x])
  }

  lemma RelatedGrows(h: Heap, s: Seen, t: Seen, left: Value, right: Value)
    requires Grows(h, s, t) && Related(s.leftToRight, left, right)
    ensures Related(t.leftToRight, left, right)
  {
  }

  lemma MatchesGrows(h: Heap, s: Seen, t: Seen, a: Id, b: Id, i: nat)
    requires Grows(h, s, t) && a in h && b in h && MatchesFrom(h, s.leftToRight, a, b, i)
    ensures MatchesFrom(h, t.leftToRight, a, b, i)
  {
    forall k | i <= k < |h[a].labels| && h[a].labels[k] in h[a].children
      ensures h[a].labels[k] in h[b].children
      ensures Related(t.leftToRight, h[a].children[h[a].labels[k]], h[b].children[h[a].labels[k]])
    {
      RelatedGrows(h, s, t, h[a].children[h[a].labels[k]], h[b].children[h[a].labels[k]]);
    }
  }

  lemma SettledGrows(h: Heap, s: Seen, t: Seen, u: Seen)
    requires Grows(h, s, t) && Grows(h, t, u) && Settled(h, s, t) && Settled(h, t, u)
    ensures Settled(h, s, u)
  {
    forall x | x in u.leftToRight && x !in s.leftToRight && u.leftToRight[x] != x
      ensures x in h && u.leftToRight[x] in h && Matches(h, u.leftToRight, x, u.leftToRight[x])
    {
      if x in t.leftToRight {
        MatchesGrows(h, t, u, x, t.leftToRight[x], 0);
      }
    }
  }

  lemma {:induction false} ValueSound(h: Heap, left: Value, right: Value, seen: Seen)
    requires WellFormed(h) && InHeap(h, left) && InHeap(h, right) && seen.leftToRight.Keys <= h.Keys && Mirrored(seen)
    requires EqualValue(h, left, right, seen).0
    ensures var t := EqualValue(h, left, right, seen).1;
      Mirrored(t) && Settled(h, seen, t) && Related(t.leftToRight, left, right)
    decreases Unpaired(h, seen), 1, 0
  {
    if left != right { ObjectsSound(h, left.id, right.id, seen); }
  }

  lemma {:induction false} ObjectsSound(h: Heap, a: Id, b: Id, seen: Seen)
    requires WellFormed(h) && a in h && b in h && seen.leftToRight.Keys <= h.Keys && Mirrored(seen)
    requires EqualObjects(h, a, b, seen).0
    ensures var t := EqualObjects(h, a, b, seen).1;
      Mirrored(t) && Settled(h, seen, t) && Related(t.leftToRight, Ref(a), Ref(b))
    decreases Unpaired(h, seen), 0, 0
  {
    if Pairing(seen, a, b).New? {
      PairingShrinks(h, seen, a, b);
      MirroredPair(seen, a, b);
      ChildrenSound(h, a, b, 0, Pair(seen, a, b));
      SettledPair(h, seen, a, b, EqualObjects(h, a, b, seen).1);
    }
  }

  lemma MirroredPair(seen: Seen, a: Id, b: Id)
    requires Mirrored(seen)
    ensures Mirrored(Pair(seen, a, b))
  {
  }

  lemma SettledPair(h: Heap, seen: Seen, a: Id, b: Id, t: Seen)
    requires a in h && b in h && Pairing(seen, a, b).New?
    requires Grows(h, Pair(seen, a, b), t) && Settled(h, Pair(seen, a, b), t) && Matches(h, t.leftToRight, a, b)
    ensures Settled(h, seen, t)
  {
  }

  lemma {:induction false} ChildrenSound(h: Heap, a: Id, b: Id, i: nat, seen: Seen)
    requires WellFormed(h) && a in h && b in h && i <= |h[a].labels| && seen.leftToRight.Keys <= h.Keys && Mirrored(seen)
    requires EqualChildren(h, a, b, i, seen).0
    ensures var t := EqualChildren(h, a, b, i, seen).1;
      Mirrored(t) && Settled(h, seen, t) && MatchesFrom(h, t.leftToRight, a, b, i)
    decreases Unpaired(h, seen), 2, |h[a].labels| - i
  {
    if i < |h[a].labels| {
      var name := h[a].labels[i];
      var first := EqualValue(h, h[a].children[name], h[b].children[name], seen);
      GrowingShrinks(h, seen, first.1);
      ValueSound(h, h[a].children[name], h[b].children[name], seen);
      ChildrenSound(h, a, b, i + 1, first.1);
      var t := EqualChildren(h, a, b, i + 1, first.1).1;
      SettledGrows(h, seen, first.1, t);
      RelatedGrows(h, first.1, t, h[a].children[name], h[b].children[name]);
    }
  }

  // ---- completeness ----

  ghost predicate Injective(m: map<Id, Id>) {
    forall x, y :: x in m && y in m && m[x] == m[y] ==> x == y
  }

  /** A partial bijection whose pairs of distinct objects match: with the identity it is a
      bisimulation. Pairs of an object with itself need not be followed. */
  ghost predicate Corresponds(h: Heap, m: map<Id, Id>) {
    && Injective(m)
    && (forall x :: x in m ==> x in h && m[x] in h)
    && (forall x :: x in m && m[x] != x ==> Matches(h, m, x, m[x]))
  }

  ghost predicate Within(h: Heap, seen: Seen, m: map<Id, Id>) {
    && Mirrored(seen)
    && (forall x :: x in seen.leftToRight ==> x in h && x in m && m[x] == seen.leftToRight[x])
  }

  lemma {:induction false} ValueComplete(h: Heap, left: Value, right: Value, seen: Seen, m: map<Id, Id>)
    requires WellFormed(h) && InHeap(h, left) && InHeap(h, right) && Corresponds(h, m)
    requires Within(h, seen, m) && Related(m, left, right)
    ensures seen.leftToRight.Keys <= h.Keys
    ensures EqualValue(h, left, right, seen).0 && Within(h, EqualValue(h, left, right, seen).1, m)
    decreases Unpaired(h, seen), 1, 0
  {
    if left != right { ObjectsComplete(h, left.id, right.id, seen, m); }
  }

  lemma {:induction false} ObjectsComplete(h: Heap, a: Id, b: Id, seen: Seen, m: map<Id, Id>)
    requires WellFormed(h) && a in h && b in h && Corresponds(h, m)
    requires Within(h, seen, m) && a in m && m[a] == b && a != b
    ensures seen.leftToRight.Keys <= h.Keys
    ensures EqualObjects(h, a, b, seen).0 && Within(h, EqualObjects(h, a, b, seen).1, m)
    decreases Unpaired(h, seen), 0, 0
  {
    if Pairing(seen, a, b).New? {
      PairingShrinks(h, seen, a, b);
      ChildrenComplete(h, a, b, 0, Pair(seen, a, b), m);
    }
  }

  lemma {:induction false} ChildrenComplete(h: Heap, a: Id, b: Id, i: nat, seen: Seen, m: map<Id, Id>)
    requires WellFormed(h) && a in h && b in h && i <= |h[a].labels| && Corresponds(h, m)
    requires Within(h, seen, m) && MatchesFrom(h, m, a, b, i)
    ensures seen.leftToRight.Keys <= h.Keys
    ensures EqualChildren(h, a, b, i, seen).0 && Within(h, EqualChildren(h, a, b, i, seen).1, m)
    decreases Unpaired(h, seen), 2, |h[a].labels| - i
  {
    if i < |h[a].labels| {
      var name := h[a].labels[i];
      ValueComplete(h, h[a].children[name], h[b].children[name], seen, m);
      var first := EqualValue(h, h[a].children[name], h[b].children[name], seen);
      GrowingShrinks(h, seen, first.1);
      ChildrenComplete(h, a, b, i + 1, first.1, m);
    }
  }

  /** Equality holds exactly when some correspondence relates the two values. */
  lemma EqualIffCorresponding(h: Heap, left: Value, right: Value)
    requires WellFormed(h) && InHeap(h, left) && InHeap(h, right)
    ensures StructuredEqual(h, left, right) <==> exists m :: Corresponds(h, m) && Related(m, left, right)
  {
    if StructuredEqual(h, left, right) {
      ValueSound(h, left, right, NOTHING);
      var t := EqualValue(h, left, right, NOTHING).1;
      assert Corresponds(h, t.leftToRight);
    }
    if m :| Corresponds(h, m) && Related(m, left, right) {
      ValueComplete(h, left, right, NOTHING, m);
    }
  }

  // ---- disjoint graphs ----

  /** A set of objects closed under references. */
  ghost predicate Side(h: Heap, side: set<Id>) {
    && side <= h.Keys
    && (forall x, k :: x in side && k in h[x].children && h[x].children[k].Ref? ==> h[x].children[k].id in side)
  }

  ghost predicate Across(seen: Seen, lefts: set<Id>, rights: set<Id>) {
    forall x :: x in seen.leftToRight ==> x in lefts && seen.leftToRight[x] in rights
  }

  predicate On(v: Value, side: set<Id>) {
    v.Ref? ==> v.id in side
  }

  lemma {:induction false} ValueAcross(h: Heap, left: Value, right: Value, seen: Seen, lefts: set<Id>, rights: set<Id>)
    requires WellFormed(h) && Side(h, lefts) && Side(h, rights)
    requires On(left, lefts) && On(right, rights) && Across(seen, lefts, rights)
    ensures seen.leftToRight.Keys <= h.Keys
    ensures Across(EqualValue(h, left, right, seen).1, lefts, rights)
    decreases Unpaired(h, seen), 1, 0
  {
    if left.Ref? && right.Ref? { ObjectsAcross(h, left.id, right.id, seen, lefts, rights); }
  }

  lemma {:induction false} ObjectsAcross(h: Heap, a: Id, b: Id, seen: Seen, lefts: set<Id>, rights: set<Id>)
    requires WellFormed(h) && Side(h, lefts) && Side(h, rights)
    requires a in lefts && b in rights && Across(seen, lefts, rights)
    ensures seen.leftToRight.Keys <= h.Keys
    ensures Across(EqualObjects(h, a, b, seen).1, lefts, rights)
    decreases Unpaired(h, seen), 0, 0
  {
    if Pairing(seen, a, b).New? {
      PairingShrinks(h, seen, a, b);
      if SameContent(h[a], h[b]) { ChildrenAcross(h, a, b, 0, Pair(seen, a, b), lefts, rights); }
    }
  }

  lemma {:induction false} ChildrenAcross(h: Heap, a: Id, b: Id, i: nat, seen: Seen, lefts: set<Id>, rights: set<Id>)
    requires WellFormed(h) && Side(h, lefts) && Side(h, rights)
    requires a in lefts && b in rights && i <= |h[a].labels| && Across(seen, lefts, rights)
    ensures seen.leftToRight.Keys <= h.Keys
    ensures Across(EqualChildren(h, a, b, i, seen).1, lefts, rights)
    decreases Unpaired(h, seen), 2, |h[a].labels| - i
  {
    if i < |h[a].labels| {
      var name := h[a].labels[i];
      if name in h[b].children {
        ValueAcross(h, h[a].children[name], h[b].children[name], seen, lefts, rights);
        var first := EqualValue(h, h[a].children[name], h[b].children[name], seen);
        GrowingShrinks(h, seen, first.1);
        ChildrenAcross(h, a, b, i + 1, first.1, lefts, rights);
      }
    }
  }

  /** A key-preserving, injective map of objects to look-alikes, followed everywhere. */
  ghost predicate Isomorphism(h: Heap, m: map<Id, Id>) {
    && Injective(m)
    && (forall x :: x in m ==> x in h && m[x] in h && Matches(h, m, x, m[x]))
  }

  /** Whatever both sides reach refers to nothing further. Graphs that share no object are a special
      case. */
  ghost predicate SharesLeavesOnly(h: Heap, lefts: set<Id>, rights: set<Id>) {
    forall x :: x in lefts && x in rights && x in h ==> h[x].supported && forall k :: k in h[x].children ==> h[x].children[k].Primitive?
  }

  lemma LeafMatchesItself(h: Heap, m: map<Id, Id>, x: Id)
    requires WellFormed(h) && x in h && h[x].supported && forall k :: k in h[x].children ==> h[x].children[k].Primitive?
    ensures Matches(h, m, x, x)
  {
  }

  /** On graphs that share no object, or leaves only, equality is isomorphism. */
  lemma EqualIffIsomorphic(h: Heap, a: Id, b: Id, lefts: set<Id>, rights: set<Id>)
    requires WellFormed(h) && Side(h, lefts) && Side(h, rights) && SharesLeavesOnly(h, lefts, rights) && a in lefts && b in rights
    ensures StructuredEqual(h, Ref(a), Ref(b)) <==> exists m :: Isomorphism(h, m) && Related(m, Ref(a), Ref(b))
  {
    if StructuredEqual(h, Ref(a), Ref(b)) {
      ValueSound(h, Ref(a), Ref(b), NOTHING);
      ValueAcross(h, Ref(a), Ref(b), NOTHING, lefts, rights);
      var m := EqualValue(h, Ref(a), Ref(b), NOTHING).1.leftToRight;
      forall x | x in m ensures x in h && m[x] in h && Matches(h, m, x, m[x]) {
        if m[x] == x { LeafMatchesItself(h, m, x); }
      }
      assert Isomorphism(h, m);
    }
    if m :| Isomorphism(h, m) && Related(m, Ref(a), Ref(b)) {
      ValueComplete(h, Ref(a), Ref(b), NOTHING, m);
    }
  }

  // ---- when sharing does no harm ----

  ghost predicate Reaches(h: Heap, x: Id, y: Id, n: nat)
    decreases n
  {
    if n == 0 then x == y
    else x in h && exists k :: k in h[x].children && h[x].children[k].Ref? && Reaches(h, h[x].children[k].id, y, n - 1)
  }

  /** Reached from some object that was paired with itself. */
  ghost predicate AtHome(h: Heap, m: map<Id, Id>, y: Id) {
    exists x, n: nat :: x in m && m[x] == x && Reaches(h, x, y, n)
  }

  ghost predicate StaysHome(h: Heap, m: map<Id, Id>, y: Id) {
    y in h && h[y].supported && (y in m ==> m[y] == y) && (forall x :: x in m && m[x] == y ==> x == y)
  }

  /** What is reached from a self-paired object can be compared, and was paired with nothing else. */
  ghost predicate KeepsHome(h: Heap, m: map<Id, Id>) {
    forall y :: AtHome(h, m, y) ==> StaysHome(h, m, y)
  }

  /** The children of an object at home are at home. */
  lemma {:induction false} ReachesOn(h: Heap, x: Id, y: Id, n: nat, k: Label)
    requires Reaches(h, x, y, n) && y in h && k in h[y].children && h[y].children[k].Ref?
    ensures Reaches(h, x, h[y].children[k].id, n + 1)
    decreases n
  {
    if n == 0 {
      assert Reaches(h, h[y].children[k].id, h[y].children[k].id, 0);
    } else {
      var j :| j in h[x].children && h[x].children[j].Ref? && Reaches(h, h[x].children[j].id, y, n - 1);
      ReachesOn(h, h[x].children[j].id, y, n - 1, k);
    }
  }

  /** An isomorphism that fixes an object fixes all it reaches. */
  lemma {:induction false} FixedOn(h: Heap, i: map<Id, Id>, x: Id, y: Id, n: nat)
    requires WellFormed(h) && Isomorphism(h, i) && x in i && i[x] == x && Reaches(h, x, y, n)
    ensures y in i && i[y] == y
    decreases n
  {
    if n > 0 {
      var k :| k in h[x].children && h[x].children[k].Ref? && Reaches(h, h[x].children[k].id, y, n - 1);
      assert Matches(h, i, x, x);
      var j :| 0 <= j < |h[x].labels| && h[x].labels[j] == k;
      assert Related(i, h[x].children[h[x].labels[j]], h[x].children[h[x].labels[j]]);
      FixedOn(h, i, h[x].children[k].id, y, n - 1);
    }
  }

  lemma IsomorphismKeepsHome(h: Heap, m: map<Id, Id>, i: map<Id, Id>)
    requires WellFormed(h) && Isomorphism(h, i) && forall x :: x in m ==> x in i && i[x] == m[x]
    ensures KeepsHome(h, m)
  {
    forall y | AtHome(h, m, y) ensures StaysHome(h, m, y) {
      var x, n: nat :| x in m && m[x] == x && Reaches(h, x, y, n);
      FixedOn(h, i, x, y, n);
      assert Matches(h, i, y, y);
      forall z | z in m && m[z] == y ensures z == y { assert i[z] == i[y]; }
    }
  }

  /** The correspondence, and the identity on what is at home. */
  ghost function Completed(h: Heap, m: map<Id, Id>): map<Id, Id> {
    map y | y in h && (y in m || AtHome(h, m, y)) :: if y in m then m[y] else y
  }

  lemma CompletedIsInjective(h: Heap, m: map<Id, Id>)
    requires Corresponds(h, m) && KeepsHome(h, m)
    ensures Injective(Completed(h, m))
  {
    var i := Completed(h, m);
    forall x, y | x in i && y in i && i[x] == i[y] ensures x == y {
      assert x !in m ==> StaysHome(h, m, x);
      assert y !in m ==> StaysHome(h, m, y);
    }
  }

  lemma CompletedMatchesHome(h: Heap, m: map<Id, Id>, y: Id)
    requires WellFormed(h) && Corresponds(h, m) && KeepsHome(h, m) && y in h && AtHome(h, m, y)
    ensures Matches(h, Completed(h, m), y, y)
  {
    var i := Completed(h, m);
    assert StaysHome(h, m, y);
    var x, n: nat :| x in m && m[x] == x && Reaches(h, x, y, n);
    forall j | 0 <= j < |h[y].labels| && h[y].labels[j] in h[y].children
      ensures Related(i, h[y].children[h[y].labels[j]], h[y].children[h[y].labels[j]])
    {
      var v := h[y].children[h[y].labels[j]];
      if v.Ref? {
        ReachesOn(h, x, y, n, h[y].labels[j]);
        assert AtHome(h, m, v.id) && StaysHome(h, m, v.id);
      }
    }
  }

  lemma CompletedMatches(h: Heap, m: map<Id, Id>, y: Id)
    requires WellFormed(h) && Corresponds(h, m) && KeepsHome(h, m) && y in Completed(h, m)
    ensures Completed(h, m)[y] in h && Matches(h, Completed(h, m), y, Completed(h, m)[y])
  {
    if y in m && m[y] != y {
      assert Matches(h, m, y, m[y]);
    } else {
      assert y in m ==> Reaches(h, y, y, 0);
      CompletedMatchesHome(h, m, y);
    }
  }

  /** Whatever the two graphs share: given that they compare equal, an isomorphism relates their roots
      exactly when what is reached from a self-paired object was paired with nothing else. */
  lemma EqualIsIsomorphicIffHome(h: Heap, a: Id, b: Id)
    requires WellFormed(h) && a in h && b in h && StructuredEqual(h, Ref(a), Ref(b))
    ensures (exists i :: Isomorphism(h, i) && Related(i, Ref(a), Ref(b))) <==>
      KeepsHome(h, EqualValue(h, Ref(a), Ref(b), NOTHING).1.leftToRight)
  {
    var m := EqualValue(h, Ref(a), Ref(b), NOTHING).1.leftToRight;
    ValueSound(h, Ref(a), Ref(b), NOTHING);
    assert Corresponds(h, m);
    if i :| Isomorphism(h, i) && Related(i, Ref(a), Ref(b)) {
      ValueComplete(h, Ref(a), Ref(b), NOTHING, i);
      IsomorphismKeepsHome(h, m, i);
    }
    if KeepsHome(h, m) {
      CompletedIsInjective(h, m);
      forall y | y in Completed(h, m) ensures Completed(h, m)[y] in h && Matches(h, Completed(h, m), y, Completed(h, m)[y]) {
        CompletedMatches(h, m, y);
      }
      assert Isomorphism(h, Completed(h, m)) && Related(Completed(h, m), Ref(a), Ref(b));
    }
  }

  // ---- shared graphs ----

  function Empty(): Object {
    Object(0, true, [], [], map[])
  }

  function Single(v: Value): Object {
    Object(0, true, [], [Member(0)], map[Member(0) := v])
  }

  function Couple(v: Value, w: Value): Object {
    Object(0, true, [], [Member(0), Member(1)], map[Member(0) := v, Member(1) := w])
  }

  /** `left` is `[x, c]` and `right` is `[x, d]`, where the shared `x` refers to `c`. */
  ghost predicate SharedExample(h: Heap, left: Id, right: Id, x: Id, c: Id, d: Id) {
    && WellFormed(h)
    && left in h && right in h && x in h && c in h && d in h
    && left != right && x != left && c != left && c != x && c != d
    && h[left] == Couple(Ref(x), Ref(c)) && h[right] == Couple(Ref(x), Ref(d))
    && h[x] == Single(Ref(c)) && h[c] == Empty() && h[d] == Empty()
  }

  lemma SharedEqual(h: Heap, left: Id, right: Id, x: Id, c: Id, d: Id)
    requires SharedExample(h, left, right, x, c, d) && right != x && right != d && d != x
    ensures StructuredEqual(h, Ref(left), Ref(right))
  {
    var m := map[left := right, x := x, c := d];
    assert Matches(h, m, left, right);
    assert Matches(h, m, c, d);
    assert Corresponds(h, m);
    EqualIffCorresponding(h, Ref(left), Ref(right));
  }

  lemma SharedExampleExists()
    ensures exists h :: SharedExample(h, 0, 1, 2, 3, 4)
  {
    var h: Heap := map[0 := Couple(Ref(2), Ref(3)), 1 := Couple(Ref(2), Ref(4)), 2 := Single(Ref(3)), 3 := Empty(), 4 := Empty()];
    assert SharedExample(h, 0, 1, 2, 3, 4);
  }

  lemma RootsForce(h: Heap, left: Id, right: Id, x: Id, c: Id, d: Id, m: map<Id, Id>)
    requires SharedExample(h, left, right, x, c, d) && Matches(h, m, left, right)
    ensures Related(m, Ref(x), Ref(x)) && Related(m, Ref(c), Ref(d))
  {
    assert h[left].labels[0] == Member(0) && h[left].labels[1] == Member(1);
  }

  lemma SharedForces(h: Heap, left: Id, right: Id, x: Id, c: Id, d: Id, m: map<Id, Id>)
    requires SharedExample(h, left, right, x, c, d) && Matches(h, m, x, x)
    ensures Related(m, Ref(c), Ref(c))
  {
    assert h[x].labels[0] == Member(0);
  }

  /** With shared objects a true answer does not promise equal reference topology: the right graph
      reaches two leaves where the left one reaches a single leaf twice. */
  lemma SharedTopologyDiffers(h: Heap, left: Id, right: Id, x: Id, c: Id, d: Id, m: map<Id, Id>)
    requires SharedExample(h, left, right, x, c, d) && Isomorphism(h, m)
    ensures !Related(m, Ref(left), Ref(right))
  {
    if Related(m, Ref(left), Ref(right)) {
      RootsForce(h, left, right, x, c, d, m);
      SharedForces(h, left, right, x, c, d, m);
    }
  }

  // ---- the comparison that updates its two maps in place ----

  class Correspondence {
    var leftToRight: map<Id, Id>
    var rightToLeft: map<Id, Id>

    constructor ()
      ensures State() == NOTHING
    {
      leftToRight, rightToLeft := map[], map[];
    }

    ghost function State(): Seen
      reads this
    {
      Seen(leftToRight, rightToLeft)
    }

    method PairObjects(left: Id, right: Id) returns (r: Paired)
      modifies this
      ensures r == Pairing(old(State()), left, right)
      ensures State() == Pair(old(State()), left, right)
    {
      if left in leftToRight || right in rightToLeft {
        return Known(&& left in leftToRight && leftToRight[left] == right
                     && right in rightToLeft && rightToLeft[right] == left);
      }
      leftToRight := leftToRight[left := right];
      rightToLeft := rightToLeft[right := left];
      r := New;
    }

    method Compare(h: Heap, left: Value, right: Value) returns (ok: bool)
      requires WellFormed(h) && InHeap(h, left) && InHeap(h, right) && leftToRight.Keys <= h.Keys
      modifies this
      ensures (ok, State()) == EqualValue(h, left, right, old(State()))
      decreases Unpaired(h, State()), 1, 0
    {
      if left == right {
        if left.Primitive? { return true; }
        var known := PairObjects(left.id, left.id);
        return known != Known(false);
      }
      if left.Primitive? || right.Primitive? { return false; }
      ok := CompareObjects(h, left.id, right.id);
    }

    method CompareObjects(h: Heap, a: Id, b: Id) returns (ok: bool)
      requires WellFormed(h) && a in h && b in h && leftToRight.Keys <= h.Keys
      modifies this
      ensures (ok, State()) == EqualObjects(h, a, b, old(State()))
      decreases Unpaired(h, State()), 0, 0
    {
      if h[a].prototype != h[b].prototype { return false; }
      ghost var before := State();
      var paired := PairObjects(a, b);
      if paired.Known? { return paired.consistent; }
      if !SameContent(h[a], h[b]) { return false; }
      PairingShrinks(h, before, a, b);
      ok := CompareChildren(h, a, b);
    }

    method CompareChildren(h: Heap, a: Id, b: Id) returns (ok: bool)
      requires WellFormed(h) && a in h && b in h && leftToRight.Keys <= h.Keys
      modifies this
      ensures (ok, State()) == EqualChildren(h, a, b, 0, old(State()))
      decreases Unpaired(h, State()), 2, 0
    {
      var i := 0;
      while i < |h[a].labels|
        invariant 0 <= i <= |h[a].labels| && leftToRight.Keys <= h.Keys
        invariant EqualChildren(h, a, b, 0, old(State())) == EqualChildren(h, a, b, i, State())
        invariant Unpaired(h, State()) <= old(Unpaired(h, State()))
      {
        var name := h[a].labels[i];
        if name !in h[b].children { return false; }
        ghost var before := State();
        ok := Compare(h, h[a].children[name], h[b].children[name]);
        if !ok { return false; }
        GrowingShrinks(h, before, State());
        i := i + 1;
      }
      ok := true;
    }
  }

  /** `structuredEqual`: it terminates on every finite graph, cyclic or not. */
  method StructurallyEqual(h: Heap, left: Value, right: Value) returns (ok: bool)
    requires WellFormed(h) && InHeap(h, left) && InHeap(h, right)
    ensures ok <==> exists m :: Corresponds(h, m) && Related(m, left, right)
  {
    var seen := new Correspondence();
    ok := seen.Compare(h, left, right);
    EqualIffCorresponding(h, left, right);
  }
}
