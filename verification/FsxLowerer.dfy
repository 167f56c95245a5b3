/** The FSX lowerer (lower.ts, ids.ts). Whether an element's attributes mean something is decided
    elsewhere and comes as an oracle; elements, aliases, identifiers and positions are modelled. */
module FsxLowerers {
  import opened JsonData
  import opened Collections
  import opened FsxTrees
  import opened FsxGrammar
  import opened FsxParsers
  import Decimal

  const MAX_ID: nat := 256
  const KINDS: set<string> := {"Group", "Field", "Repeater", "Conditional", "Output", "CUSTOM"}
  const LEAVES: set<string> := {"Field", "Output", "CUSTOM"}

  datatype Definition = Definition(id: string, root: Node)

  // ---- identifiers of the emitted tree ----

  /** The identifiers in the first `i` subtrees of a node. */
  function IdsUpTo(n: Node, i: nat): seq<string>
    requires i <= |n.children|
    decreases n, 0, i
  {
    if i == 0 then [] else IdsUpTo(n, i - 1) + [n.children[i - 1].id] + IdsBelow(n.children[i - 1])
  }

  function IdsBelow(n: Node): seq<string>
    decreases n, 1, 0
  {
    IdsUpTo(n, |n.children|)
  }

  function VisitIds(visits: seq<Visit>): seq<string> {
    seq(|visits|, k requires 0 <= k < |visits| => IdOf(visits[k].element))
  }

  lemma VisitIdsSum(a: seq<Visit>, b: seq<Visit>, c: seq<Visit>)
    requires c == a + b
    ensures VisitIds(c) == VisitIds(a) + VisitIds(b)
  {
  }

  /** The visits below `e` meet exactly the identifiers of what `e` emits into `n`, in order. */
  ghost predicate MeetsIds(n: Node, visits: seq<Visit>, from: nat, to: nat) {
    from <= to <= |n.children| && IdsUpTo(n, to) == IdsUpTo(n, from) + VisitIds(visits)
  }

  lemma MeetsConcat(n: Node, a: seq<Visit>, b: seq<Visit>, c: seq<Visit>, from: nat, mid: nat, to: nat)
    requires MeetsIds(n, a, from, mid) && MeetsIds(n, b, mid, to) && c == a + b
    ensures MeetsIds(n, c, from, to)
  {
    VisitIdsSum(a, b, c);
  }

  ghost predicate MeetsTo(n: Node, e: Element, i: nat, path: Place, collection: string, start: nat, seen: seq<Visit>, to: nat)
    requires i <= |e.children|
  {
    seen == VisitChildren(e, i, path, collection, start) && to == start + |LoweredChildren(e, i)| && MeetsIds(n, seen, start, to)
  }

  lemma VisitsMore(e: Element, i: nat, path: Place, collection: string, start: nat,
                   before: seq<Visit>, mid: nat, more: seq<Visit>, end: nat)
    requires i < |e.children| && before == VisitChildren(e, i, path, collection, start) && mid == start + |LoweredChildren(e, i)|
    requires more == OneVisits(e.children[i], path, collection, mid) && end == mid + |OneLowered(e.children[i])|
    ensures before + more == VisitChildren(e, i + 1, path, collection, start) && end == start + |LoweredChildren(e, i + 1)|
  {
    OneMore(e, i, path, collection, start);
  }

  lemma MeetsMore(n: Node, e: Element, i: nat, path: Place, collection: string, start: nat,
                  before: seq<Visit>, mid: nat, more: seq<Visit>, end: nat)
    requires i < |e.children| && MeetsTo(n, e, i, path, collection, start, before, mid) && MeetsIds(n, more, mid, end)
    requires more == OneVisits(e.children[i], path, collection, mid) && end == mid + |OneLowered(e.children[i])|
    ensures MeetsTo(n, e, i + 1, path, collection, start, before + more, end)
  {
    MeetsConcat(n, before, more, before + more, start, mid, end);
    VisitsMore(e, i, path, collection, start, before, mid, more, end);
  }

  lemma MeetsNext(n: Node, e: Element, i: nat, next: nat, path: Place, collection: string, start: nat,
                  before: seq<Visit>, mid: nat, more: seq<Visit>, end: nat)
    requires next == i + 1 && i < |e.children|
    requires MeetsTo(n, e, i, path, collection, start, before, mid) && MeetsIds(n, more, mid, end)
    requires more == OneVisits(e.children[i], path, collection, mid) && end == mid + |OneLowered(e.children[i])|
    ensures MeetsTo(n, e, next, path, collection, start, before + more, end)
  {
    MeetsMore(n, e, i, path, collection, start, before, mid, more, end);
  }

  lemma {:induction false} ChildIds(n: Node, e: Element, i: nat, path: Place, collection: string, start: nat)
    returns (seen: seq<Visit>, to: nat)
    requires i <= |e.children| && Emits(n, e, i, start)
    ensures MeetsTo(n, e, i, path, collection, start, seen, to)
    decreases e, 0, i
  {
    if i == 0 {
      seen, to := [], start;
    } else {
      var last: nat := i - 1;
      EmitsBefore(n, e, last, start);
      var before, mid := ChildIds(n, e, last, path, collection, start);
      var more, end := OneChildIds(n, e.children[last], path, collection, mid);
      MeetsNext(n, e, last, i, path, collection, start, before, mid, more, end);
      seen, to := before + more, end;
    }
  }

  lemma {:induction false} OneChildIds(n: Node, child: Element, path: Place, collection: string, at: nat)
    returns (seen: seq<Visit>, to: nat)
    requires if child.name == "Alias" then Emits(n, child, |child.children|, at)
             else at < |n.children| && n.children[at] == Lowered(child)
    ensures seen == OneVisits(child, path, collection, at) && to == at + |OneLowered(child)|
    ensures MeetsIds(n, seen, at, to)
    decreases child, 1, 0
  {
    if child.name == "Alias" {
      seen, to := ChildIds(n, child, |child.children|, path, collection, at);
    } else {
      WholeNode(child);
      var below, all := ChildIds(Lowered(child), child, |child.children|, Slot(path, collection, at), CollectionOf(child.name), 0);
      NodeIds(n, child, Slot(path, collection, at), below, at);
      seen, to := [Visit(Slot(path, collection, at), child)] + below, at + 1;
    }
  }

  lemma WholeNode(e: Element)
    ensures Emits(Lowered(e), e, |e.children|, 0)
  {
    assert Lowered(e).children[0..|Lowered(e).children|] == Lowered(e).children;
  }

  lemma NodeIds(n: Node, child: Element, path: Place, below: seq<Visit>, at: nat)
    requires at < |n.children| && n.children[at] == Lowered(child)
    requires MeetsIds(Lowered(child), below, 0, |Lowered(child).children|)
    ensures MeetsIds(n, [Visit(path, child)] + below, at, at + 1)
  {
    VisitIdsSum([Visit(path, child)], below, [Visit(path, child)] + below);
    assert VisitIds([Visit(path, child)]) == [IdOf(child)];
    AllMet(Lowered(child), below, |Lowered(child).children|);
  }

  // ---- identifiers declared so far ----

  function Members(s: seq<string>): set<string> {
    set x | x in s
  }

  /** Declaring `s` one after the other, each for the first time, leads from `a` to `b`. */
  ghost predicate Declares(a: set<string>, b: set<string>, s: seq<string>) {
    b == a + Members(s) && Distinct(s) && forall x :: x in s ==> x !in a
  }

  lemma DeclaresConcat(a: set<string>, b: set<string>, c: set<string>, s: seq<string>, t: seq<string>)
    requires Declares(a, b, s) && Declares(b, c, t)
    ensures Declares(a, c, s + t)
  {
    assert forall x :: x in s + t <==> x in s || x in t;
    forall i, j | 0 <= i < j < |s + t| ensures (s + t)[i] != (s + t)[j] {
      if i < |s| <= j {
        assert (s + t)[i] == s[i] && s[i] in Members(s) && (s + t)[j] in t;
      }
    }
  }

  /** `declareId`: a quoted, non-empty, admissible and new identifier. */
  predicate Declarable(e: Element, declared: set<string>) {
    var a := FindAttribute(e.attributes, "id");
    && a.Some? && a.value.value.Literal?
    && a.value.value.text != "" && |a.value.value.text| <= MAX_ID && a.value.value.text !in UNSAFE_KEYS
    && a.value.value.text !in declared
  }

  lemma DeclaresOne(a: set<string>, id: string)
    requires id !in a
    ensures Declares(a, a + {id}, [id])
  {
    assert Members([id]) == {id};
  }

  // ---- what lowers ----

  /** An admitted alias, or an element of a known kind with an admissible identifier whose attributes
      are admitted; without children if it is a leaf. */
  predicate FineHere(admits: Element -> bool, e: Element) {
    && admits(e)
    && (e.name == "Alias" || (e.name in KINDS && Declarable(e, {}) && (e.name in LEAVES ==> e.children == [])))
  }

  ghost predicate Fine(admits: Element -> bool, e: Element)
    decreases e, 1
  {
    FineHere(admits, e) && FineBelow(admits, e)
  }

  ghost predicate FineBelow(admits: Element -> bool, e: Element)
    decreases e, 0
  {
    forall i: nat :: i < |e.children| ==> Fine(admits, e.children[i])
  }

  /** Identifiers that can all be declared, one after the other. */
  ghost predicate Free(declared: set<string>, s: seq<string>) {
    Distinct(s) && forall x :: x in s ==> x !in declared
  }

  lemma FreeConcat(before: set<string>, mid: set<string>, s: seq<string>, t: seq<string>)
    requires Declares(before, mid, s) && Free(before, s + t)
    ensures Free(mid, t)
  {
    forall i, j | 0 <= i < j < |t| ensures t[i] != t[j] {
      assert (s + t)[|s| + i] == t[i] && (s + t)[|s| + j] == t[j];
    }
    forall i, j | 0 <= i < |s| && 0 <= j < |t| ensures s[i] != t[j] {
      assert (s + t)[i] == s[i] && (s + t)[|s| + j] == t[j];
    }
    assert forall x :: x in t ==> x in s + t;
  }

  lemma FreePrefix(declared: set<string>, s: seq<string>, t: seq<string>)
    requires Free(declared, t) && s <= t
    ensures Free(declared, s)
  {
  }

  /** The identifiers the first `i` children declare. */
  ghost function IdsTo(e: Element, i: nat, path: Place, collection: string, start: nat): seq<string>
    requires i <= |e.children|
  {
    VisitIds(VisitChildren(e, i, path, collection, start))
  }

  lemma MoreIds(e: Element, i: nat, next: nat, path: Place, collection: string, start: nat)
    requires i < |e.children| && next == i + 1
    ensures IdsTo(e, next, path, collection, start) ==
            IdsTo(e, i, path, collection, start) + VisitIds(OneVisits(e.children[i], path, collection, start + |LoweredChildren(e, i)|))
  {
    OneMore(e, i, path, collection, start);
    VisitIdsSum(VisitChildren(e, i, path, collection, start), OneVisits(e.children[i], path, collection, start + |LoweredChildren(e, i)|),
                VisitChildren(e, next, path, collection, start));
  }

  lemma {:induction false} IdsGrow(e: Element, i: nat, j: nat, path: Place, collection: string, start: nat)
    requires i <= j <= |e.children|
    ensures IdsTo(e, i, path, collection, start) <= IdsTo(e, j, path, collection, start)
  {
    if i < j {
      var last: nat := j - 1;
      IdsGrow(e, i, last, path, collection, start);
      MoreIds(e, last, j, path, collection, start);
    }
  }

  /** All identifiers below `e` can be declared. */
  ghost predicate AllFree(before: set<string>, e: Element, path: Place, collection: string, start: nat) {
    Free(before, IdsTo(e, |e.children|, path, collection, start))
  }

  ghost predicate OneFree(declared: set<string>, child: Element, path: Place, collection: string, at: nat) {
    Free(declared, VisitIds(OneVisits(child, path, collection, at)))
  }

  ghost predicate NodeFree(declared: set<string>, e: Element, path: Place) {
    Free(declared, VisitIds(VisitNode(e, path)))
  }

  lemma FreeNext(before: set<string>, declared: set<string>, s: seq<string>, t: seq<string>, all: seq<string>)
    requires Free(before, all) && Declares(before, declared, s) && s + t <= all
    ensures Free(declared, t)
  {
    FreePrefix(before, s + t, all);
    FreeConcat(before, declared, s, t);
  }

  /** What lets the child at `i` lower, once those before it have. */
  lemma NextFree(e: Element, i: nat, path: Place, collection: string, start: nat, nodes: seq<Node>, seen: seq<Visit>,
                 before: set<string>, declared: set<string>)
    requires i < |e.children| && Progress(e, i, path, collection, start, nodes, seen, before, declared)
    ensures AllFree(before, e, path, collection, start) ==> OneFree(declared, e.children[i], path, collection, start + |nodes|)
  {
    if AllFree(before, e, path, collection, start) {
      IdsGrow(e, i + 1, |e.children|, path, collection, start);
      MoreIds(e, i, i + 1, path, collection, start);
      FreeNext(before, declared, IdsTo(e, i, path, collection, start),
               VisitIds(OneVisits(e.children[i], path, collection, start + |nodes|)), IdsTo(e, |e.children|, path, collection, start));
    }
  }

  /** What lets a node's children lower, once its identifier is declared. */
  lemma BelowFree(e: Element, path: Place, before: set<string>)
    ensures NodeFree(before, e, path) ==>
      IdOf(e) !in before && AllFree(before + {IdOf(e)}, e, path, CollectionOf(e.name), 0)
  {
    if NodeFree(before, e, path) {
      var below := VisitChildren(e, |e.children|, path, CollectionOf(e.name), 0);
      VisitIdsSum([Visit(path, e)], below, VisitNode(e, path));
      assert VisitIds([Visit(path, e)]) == [IdOf(e)];
      assert VisitIds(VisitNode(e, path))[0] == IdOf(e);
      DeclaresOne(before, IdOf(e));
      FreeConcat(before, before + {IdOf(e)}, [IdOf(e)], VisitIds(below));
    }
  }

  lemma DeclaredWereFree(before: set<string>, after: set<string>, s: seq<string>)
    requires Declares(before, after, s)
    ensures Free(before, s)
  {
  }

  /** The trees that lower. */
  ghost predicate Lowerable(admits: Element -> bool, root: Element) {
    && root.name == "Form" && admits(root) && Declarable(root, {}) && FineBelow(admits, root)
    && Distinct([IdOf(root)] + VisitIds(VisitChildren(root, |root.children|, Root, "children", 0)))
  }

  lemma RootFree(root: Element, s: seq<string>)
    ensures Distinct([IdOf(root)] + s) <==> Free({IdOf(root)}, s)
  {
    if Distinct([IdOf(root)] + s) {
      DeclaresOne({}, IdOf(root));
      FreeConcat({}, {IdOf(root)}, [IdOf(root)], s);
    }
  }

  class FsxLowerer {
    const admits: Element -> bool
    var ids: map<string, Place>
    var visits: seq<Visit>

    constructor (admits: Element -> bool)
      ensures this.admits == admits && ids == map[] && visits == []
    {
      this.admits := admits;
      ids, visits := map[], [];
    }

    method DeclareId(e: Element) returns (r: Result<string>)
      modifies this`ids
      ensures r.Ok? <==> Declarable(e, old(ids).Keys)
      ensures r.Ok? ==> r.value == IdOf(e) && ids.Keys == old(ids).Keys + {IdOf(e)} && IdOf(e) !in old(ids)
      ensures r.Err? ==> ids == old(ids)
    {
      var entry := FindAttribute(e.attributes, "id");
      if entry.None? { return Err("MISSING_ID"); }
      if !entry.value.value.Literal? { return Err("NON_STATIC_ID"); }
      var id := entry.value.value.text;
      if id == "" { return Err("EMPTY_ID"); }
      if |id| > MAX_ID || id in UNSAFE_KEYS { return Err("INVALID_ID"); }
      if id in ids { return Err("DUPLICATE_ID"); }
      ids := ids[id := e.authoring];
      return Ok(id);
    }

    /** The children of an element, or of an alias standing among them, from position `start` on. */
    method Children(e: Element, path: Place, collection: string, start: nat)
      returns (r: Result<seq<Node>>, ghost seen: seq<Visit>)
      modifies this
      ensures r.Ok? ==> Passed(e, |e.children|, path, collection, start, r.value, seen)
      ensures r.Ok? ==> visits == old(visits) + seen && Declares(old(ids).Keys, ids.Keys, VisitIds(seen))
      ensures r.Ok? <==> FineBelow(admits, e) && AllFree(old(ids).Keys, e, path, collection, start)
      decreases e, 0
    {
      var nodes: seq<Node> := [];
      seen := [];
      NothingDeclared(e, path, collection, start, ids.Keys);
      for i := 0 to |e.children|
        invariant visits == old(visits) + seen
        invariant Progress(e, i, path, collection, start, nodes, seen, old(ids).Keys, ids.Keys)
        invariant forall j: nat :: j < i ==> Fine(admits, e.children[j])
      {
        NextFree(e, i, path, collection, start, nodes, seen, old(ids).Keys, ids.Keys);
        var next;
        next, seen := LowerNext(e, i, path, collection, start, nodes, seen, old(visits), old(ids).Keys);
        if next.Err? { return Err(next.code), seen; }
        nodes := next.value;
      }
      return Ok(nodes), seen;
    }

    /** One turn of the loop over the children. */
    method LowerNext(e: Element, i: nat, path: Place, collection: string, start: nat, nodes: seq<Node>,
                     ghost seen: seq<Visit>, ghost earlier: seq<Visit>, ghost before: set<string>)
      returns (r: Result<seq<Node>>, ghost grown: seq<Visit>)
      requires i < |e.children| && visits == earlier + seen
      requires Progress(e, i, path, collection, start, nodes, seen, before, ids.Keys)
      modifies this
      ensures r.Ok? ==> visits == earlier + grown
      ensures r.Ok? ==> Progress(e, i + 1, path, collection, start, r.value, grown, before, ids.Keys) && Fine(admits, e.children[i])
      ensures Fine(admits, e.children[i]) && OneFree(old(ids).Keys, e.children[i], path, collection, start + |nodes|) ==> r.Ok?
      decreases e.children[i], 3
    {
      ghost var declared := ids.Keys;
      ghost var more: seq<Visit>;
      var lowered;
      lowered, more := Child(e.children[i], path, collection, start + |nodes|);
      if lowered.Err? { return Err(lowered.code), seen; }
      ProgressOne(e, i, path, collection, start, nodes, seen, before, declared, ids.Keys, more);
      return Ok(nodes + lowered.value), seen + more;
    }

    method Child(child: Element, path: Place, collection: string, at: nat) returns (r: Result<seq<Node>>, ghost seen: seq<Visit>)
      modifies this
      ensures r.Ok? ==> r.value == OneLowered(child) && seen == OneVisits(child, path, collection, at)
      ensures r.Ok? ==> visits == old(visits) + seen && Declares(old(ids).Keys, ids.Keys, VisitIds(seen))
      ensures r.Ok? <==> Fine(admits, child) && OneFree(old(ids).Keys, child, path, collection, at)
      decreases child, 2
    {
      seen := [];
      if child.name == "Alias" {
        if !admits(child) { return Err("INVALID_ALIAS"), []; }
        r, seen := Children(child, path, collection, at);
      } else {
        var node;
        node, seen := NodeOf(child, Slot(path, collection, at));
        if node.Err? { return Err(node.code), []; }
        r := Ok([node.value]);
      }
    }

    method NodeOf(e: Element, path: Place) returns (r: Result<Node>, ghost seen: seq<Visit>)
      modifies this
      ensures r.Ok? ==> r.value == Lowered(e) && e.name in KINDS && seen == VisitNode(e, path)
      ensures r.Ok? ==> visits == old(visits) + seen && Declares(old(ids).Keys, ids.Keys, VisitIds(seen))
      ensures r.Ok? <==> e.name != "Alias" && Fine(admits, e) && NodeFree(old(ids).Keys, e, path)
      decreases e, 1
    {
      BelowFree(e, path, ids.Keys);
      var id := StartNode(e, path);
      if id.Err? { return Err(id.code), []; }
      ghost var declared := ids.Keys;
      var children;
      children, seen := Children(e, path, CollectionOf(e.name), 0);
      if children.Err? { return Err(children.code), []; }
      NodeDone(e, path, old(ids).Keys, declared, ids.Keys, seen);
      seen := [Visit(path, e)] + seen;
      DeclaredWereFree(old(ids).Keys, ids.Keys, VisitIds(seen));
      return Ok(Node(e.name, id.value, children.value)), seen;
    }

    /** What `node` does before it turns to the children. */
    method StartNode(e: Element, path: Place) returns (r: Result<string>)
      modifies this
      ensures r.Ok? <==> e.name != "Alias" && FineHere(admits, e) && IdOf(e) !in old(ids)
      ensures r.Ok? ==> r.value == IdOf(e) && e.name in KINDS
      ensures r.Ok? ==> visits == old(visits) + [Visit(path, e)]
      ensures r.Ok? ==> IdOf(e) !in old(ids) && ids.Keys == old(ids).Keys + {IdOf(e)}
    {
      if e.name !in KINDS { return Err("UNKNOWN_ELEMENT"); }
      r := DeclareId(e);
      if r.Err? { return; }
      visits := visits + [Visit(path, e)];
      if !admits(e) { return Err("INVALID_ATTRIBUTES"); }
      if e.name in LEAVES && e.children != [] { return Err("INVALID_CHILD"); }
    }

    /** The search for a root group id no element has taken: every round rules out one more of the
        declared ids, so it ends. */
    method FreshGroup(prefix: string) returns (group: string)
      ensures group !in ids
      ensures group == prefix || exists n: nat :: n > 0 && group == prefix + ":" + Decimal.Render(n)
    {
      group := prefix;
      var collision: nat := 0;
      ghost var left := ids.Keys;
      while group in ids
        invariant group == Candidate(prefix, collision)
        invariant left <= ids.Keys && forall n: nat {:trigger Candidate(prefix, n)} :: n >= collision && Candidate(prefix, n) in ids ==> Candidate(prefix, n) in left
        decreases left
      {
        CandidatesDiffer(prefix, collision);
        left := left - {group};
        collision := collision + 1;
        group := prefix + ":" + Decimal.Render(collision);
      }
      assert collision > 0 ==> group == prefix + ":" + Decimal.Render(collision);
    }

    /** Whatever lowers: the identifiers of the form, of the root group and of every emitted node are
        all different, and every visit's path is where its node stands. */
    method Lower(root: Element) returns (r: Result<Definition>)
      requires ids == map[] && visits == []
      modifies this
      ensures r.Ok? ==> Finished(r.value, root, visits)
      ensures r.Ok? <==> Lowerable(admits, root)
    {
      RootFree(root, VisitIds(VisitChildren(root, |root.children|, Root, "children", 0)));
      if root.name != "Form" { return Err("ROOT_FORM_REQUIRED"); }
      if !admits(root) { return Err("INVALID_ATTRIBUTES"); }
      var id := DeclareId(root);
      if id.Err? { return Err(id.code); }
      ghost var declared := ids.Keys;
      ghost var seen: seq<Visit>;
      var children;
      children, seen := Children(root, Root, "children", 0);
      if children.Err? { return Err(children.code); }
      var group := FreshGroup(id.value[..if |id.value| < 220 then |id.value| else 220] + ":root");
      r := Ok(Definition(id.value, Node("group", group, children.value)));
      assert visits == seen;
      assert declared == {id.value};
      DefinitionDone(r.value, root, visits, declared, ids.Keys);
    }
  }

  /** What a finished lowering guarantees. */
  ghost predicate Finished(d: Definition, root: Element, visits: seq<Visit>) {
    && d.root.children == LoweredChildren(root, |root.children|)
    && Distinct([d.id] + ([d.root.id] + IdsBelow(d.root)))
    && Placed(d.root, visits) && VisitIds(visits) == IdsBelow(d.root)
    && (WellPathed(root) && root.path == Root ==> Agrees(visits))
  }

  lemma DefinitionDone(d: Definition, root: Element, visits: seq<Visit>, declared: set<string>, after: set<string>)
    requires root.name == "Form" && d.root.kind == "group" && d.root.children == LoweredChildren(root, |root.children|)
    requires visits == VisitChildren(root, |root.children|, Root, "children", 0)
    requires declared == {d.id} && Declares(declared, after, VisitIds(visits)) && d.root.id !in after
    ensures Finished(d, root, visits)
  {
    RootIds(d.root, root);
    AllDistinct(d.id, d.root.id, VisitIds(visits), declared, after);
    RootPlaced(d.root, root);
    if WellPathed(root) && root.path == Root {
      var seen := ChildrenAgree(root, |root.children|, Base(Root, "children", 0));
    }
  }

  lemma RootIds(n: Node, root: Element)
    requires n.children == LoweredChildren(root, |root.children|)
    ensures VisitIds(VisitChildren(root, |root.children|, Root, "children", 0)) == IdsBelow(n)
  {
    assert n.children[0..|n.children|] == n.children;
    var seen, to := ChildIds(n, root, |root.children|, Root, "children", 0);
    AllMet(n, seen, to);
  }

  lemma AllMet(n: Node, seen: seq<Visit>, to: nat)
    requires MeetsIds(n, seen, 0, to) && to == |n.children|
    ensures VisitIds(seen) == IdsBelow(n)
  {
    assert IdsUpTo(n, 0) == [];
  }

  function Candidate(prefix: string, n: nat): string {
    if n == 0 then prefix else prefix + ":" + Decimal.Render(n)
  }

  /** Later candidates are different from this one. */
  lemma CandidatesDiffer(prefix: string, n: nat)
    ensures forall m: nat {:trigger Candidate(prefix, m)} :: m > n ==> Candidate(prefix, m) != Candidate(prefix, n)
  {
    forall m: nat | m > n ensures Candidate(prefix, m) != Candidate(prefix, n) {
      Decimal.ParseRender(m);
      Decimal.ParseRender(n);
      assert Candidate(prefix, m)[|prefix| + 1..] == Decimal.Render(m);
      assert n > 0 ==> Candidate(prefix, n)[|prefix| + 1..] == Decimal.Render(n);
    }
  }

  /** The first `i` children have been lowered. */
  ghost predicate Passed(e: Element, i: nat, path: Place, collection: string, start: nat, nodes: seq<Node>, seen: seq<Visit>) {
    i <= |e.children| && nodes == LoweredChildren(e, i) && seen == VisitChildren(e, i, path, collection, start)
  }

  lemma PassOne(e: Element, i: nat, path: Place, collection: string, start: nat, nodes: seq<Node>, seen: seq<Visit>)
    requires i < |e.children| && Passed(e, i, path, collection, start, nodes, seen)
    ensures Passed(e, i + 1, path, collection, start, nodes + OneLowered(e.children[i]),
                   seen + OneVisits(e.children[i], path, collection, start + |nodes|))
  {
    OneMore(e, i, path, collection, start);
  }

  ghost predicate Progress(e: Element, i: nat, path: Place, collection: string, start: nat, nodes: seq<Node>, seen: seq<Visit>,
                           before: set<string>, declared: set<string>) {
    Passed(e, i, path, collection, start, nodes, seen) && Declares(before, declared, VisitIds(seen))
  }

  lemma NothingDeclared(e: Element, path: Place, collection: string, start: nat, before: set<string>)
    ensures Progress(e, 0, path, collection, start, [], [], before, before)
  {
    assert VisitIds([]) == [];
  }

  lemma ProgressOne(e: Element, i: nat, path: Place, collection: string, start: nat, nodes: seq<Node>, seen: seq<Visit>,
                    before: set<string>, declared: set<string>, after: set<string>, more: seq<Visit>)
    requires i < |e.children| && Progress(e, i, path, collection, start, nodes, seen, before, declared)
    requires more == OneVisits(e.children[i], path, collection, start + |nodes|) && Declares(declared, after, VisitIds(more))
    ensures Progress(e, i + 1, path, collection, start, nodes + OneLowered(e.children[i]), seen + more, before, after)
  {
    PassOne(e, i, path, collection, start, nodes, seen);
    DeclaresMore(before, declared, after, seen, more);
  }

  lemma DeclaresMore(before: set<string>, declared: set<string>, after: set<string>, seen: seq<Visit>, more: seq<Visit>)
    requires Declares(before, declared, VisitIds(seen)) && Declares(declared, after, VisitIds(more))
    ensures Declares(before, after, VisitIds(seen + more))
  {
    VisitIdsSum(seen, more, seen + more);
    DeclaresConcat(before, declared, after, VisitIds(seen), VisitIds(more));
  }

  lemma NodeDone(e: Element, path: Place, before: set<string>, declared: set<string>, after: set<string>, below: seq<Visit>)
    requires IdOf(e) !in before && declared == before + {IdOf(e)} && Declares(declared, after, VisitIds(below))
    ensures Declares(before, after, VisitIds([Visit(path, e)] + below))
  {
    DeclaresOne(before, IdOf(e));
    VisitIdsSum([Visit(path, e)], below, [Visit(path, e)] + below);
    assert VisitIds([Visit(path, e)]) == [IdOf(e)];
    DeclaresConcat(before, declared, after, VisitIds([Visit(path, e)]), VisitIds(below));
  }

  lemma AllDistinct(id: string, group: string, emitted: seq<string>, declared: set<string>, after: set<string>)
    requires declared == {id} && Declares(declared, after, emitted) && group !in after
    ensures Distinct([id] + ([group] + emitted))
  {
    var s := [id] + ([group] + emitted);
    forall i, j | 0 <= i < j < |s| ensures s[i] != s[j] {
      assert j >= 2 ==> s[j] == emitted[j - 2] && s[j] in emitted && s[j] in Members(emitted);
      assert i >= 2 ==> s[i] == emitted[i - 2];
    }
  }

  lemma RootPlaced(root: Node, e: Element)
    requires root.kind == "group" && root.children == LoweredChildren(e, |e.children|)
    ensures Placed(root, VisitChildren(e, |e.children|, Root, "children", 0))
  {
    assert root.children[0..|root.children|] == root.children;
    ChildrenPlaced(root, e, |e.children|, Root, "children", 0);
  }

  /** Parse, then lower. In whatever compiles, each non-alias element's path in the parser is the path
      the lowerer reports and the place of its node in the emitted tree, and all identifiers differ. */
  method Compile(text: string, guest: nat -> GuestAnswer, quoted: string -> Option<string>, admits: Element -> bool)
    returns (r: Result<Definition>, root: Option<Element>, visits: seq<Visit>)
    requires forall i: nat {:trigger guest(i)} :: guest(i).stop > i
    ensures if root.Some? then Program(Source(text, guest, quoted), root.value) else forall e :: !Program(Source(text, guest, quoted), e)
    ensures r.Ok? <==> root.Some? && Lowerable(admits, root.value)
    ensures r.Ok? ==> WellPathed(root.value) && Nested(root.value)
    ensures r.Ok? ==> Finished(r.value, root.value, visits) && Agrees(visits)
  {
    root, visits := None, [];
    var parser := new FsxParser(text, guest, quoted);
    var parsed := parser.Parse();
    assert parser.Source() == Source(text, guest, quoted);
    if parsed.Err? { return Err(parsed.code), None, []; }
    var lowerer := new FsxLowerer(admits);
    r := lowerer.Lower(parsed.value);
    root := Some(parsed.value);
    visits := lowerer.visits;
  }
}
