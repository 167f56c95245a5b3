/** FSX elements, the declaration paths the parser gives them (parser.ts) and the tree they lower to
    (lower.ts). An `Alias` names a value for its children and emits no node of its own: its children
    take their places in the collection it stands in. */
module FsxTrees {
  import opened JsonData
  import Decimal

  /** `root`, or the slot `parent.collection[index]`. */
  datatype Place = Root | Slot(parent: Place, collection: string, index: nat)

  datatype Value = Literal(text: string) | Guest(source: string)

  datatype Attribute = Attribute(name: string, value: Value, start: nat, end: nat)

  /** `path` is the declaration path the parser was given for the element, `authoring` its place in
      the source text's own nesting. */
  datatype Element = Element(
    name: string, path: Place, authoring: Place, attributes: seq<Attribute>, children: seq<Element>,
    start: nat, end: nat)

  datatype Node = Node(kind: string, id: string, children: seq<Node>)

  function CollectionOf(name: string): string {
    if name == "Conditional" then "then" else "children"
  }

  // ---- paths as the parser assigns them ----

  /** Where an element's children are counted: an alias that stands in a slot counts on from there. */
  datatype Base = Base(parent: Place, collection: string, start: nat)

  function BaseOf(e: Element): Base {
    if e.name == "Alias" && e.path.Slot? then Base(e.path.parent, e.path.collection, e.path.index)
    else Base(e.path, CollectionOf(e.name), 0)
  }

  /** `declarationCount`: the nodes an element stands for. */
  function DeclarationCount(e: Element): nat
    decreases e, 1, 0
  {
    if e.name == "Alias" then CountChildren(e, |e.children|) else 1
  }

  function CountChildren(e: Element, i: nat): nat
    requires i <= |e.children|
    decreases e, 0, i
  {
    if i == 0 then 0 else CountChildren(e, i - 1) + DeclarationCount(e.children[i - 1])
  }

  predicate PathedChild(e: Element, i: nat)
    requires i < |e.children|
  {
    && e.children[i].path == Slot(BaseOf(e).parent, BaseOf(e).collection, BaseOf(e).start + CountChildren(e, i))
    && e.children[i].authoring == Slot(e.authoring, "children", i)
  }

  /** Every element has the path the parser computes for it. */
  ghost predicate WellPathed(e: Element) {
    forall i :: 0 <= i < |e.children| ==> PathedChild(e, i) && WellPathed(e.children[i])
  }

  // ---- what an element lowers to ----

  function IdOf(e: Element): string {
    match FindAttribute(e.attributes, "id")
    case Some(a) => if a.value.Literal? then a.value.text else ""
    case None => ""
  }

  function FindAttribute(attributes: seq<Attribute>, name: string): Option<Attribute> {
    if attributes == [] then None
    else if attributes[0].name == name then Some(attributes[0])
    else FindAttribute(attributes[1..], name)
  }

  function Lowered(e: Element): Node
    decreases e, 1, 0
  {
    Node(e.name, IdOf(e), LoweredChildren(e, |e.children|))
  }

  /** The nodes the first `i` children emit. */
  function LoweredChildren(e: Element, i: nat): seq<Node>
    requires i <= |e.children|
    decreases e, 0, i
  {
    if i == 0 then []
    else
      var child := e.children[i - 1];
      LoweredChildren(e, i - 1) +
      (if child.name == "Alias" then LoweredChildren(child, |child.children|) else [Lowered(child)])
  }

  /** An element that emits a node, and the path the lowerer gives it. */
  datatype Visit = Visit(path: Place, element: Element)

  function VisitNode(e: Element, path: Place): seq<Visit>
    decreases e, 1, 0
  {
    [Visit(path, e)] + VisitChildren(e, |e.children|, path, CollectionOf(e.name), 0)
  }

  function VisitChildren(e: Element, i: nat, path: Place, collection: string, start: nat): seq<Visit>
    requires i <= |e.children|
    decreases e, 0, i
  {
    if i == 0 then []
    else
      var child := e.children[i - 1];
      var at := start + |LoweredChildren(e, i - 1)|;
      VisitChildren(e, i - 1, path, collection, start) +
      (if child.name == "Alias" then VisitChildren(child, |child.children|, path, collection, at)
       else VisitNode(child, Slot(path, collection, at)))
  }

  /** What one child contributes. */
  function OneVisits(child: Element, path: Place, collection: string, at: nat): seq<Visit> {
    if child.name == "Alias" then VisitChildren(child, |child.children|, path, collection, at)
    else VisitNode(child, Slot(path, collection, at))
  }

  function OneLowered(child: Element): seq<Node> {
    if child.name == "Alias" then LoweredChildren(child, |child.children|) else [Lowered(child)]
  }

  lemma OneMore(e: Element, i: nat, path: Place, collection: string, start: nat)
    requires i < |e.children|
    ensures VisitChildren(e, i + 1, path, collection, start) ==
            VisitChildren(e, i, path, collection, start) + OneVisits(e.children[i], path, collection, start + |LoweredChildren(e, i)|)
    ensures LoweredChildren(e, i + 1) == LoweredChildren(e, i) + OneLowered(e.children[i])
  {
  }

  /** An element emits as many nodes as the parser counts for it, however aliases nest. */
  lemma {:induction false} CountsEmitted(e: Element, i: nat)
    requires i <= |e.children|
    ensures |LoweredChildren(e, i)| == CountChildren(e, i)
    decreases e, i
  {
    if i > 0 {
      CountsEmitted(e, i - 1);
      CountsEmitted(e.children[i - 1], |e.children[i - 1].children|);
    }
  }

  ghost predicate Agrees(visits: seq<Visit>) {
    forall k :: 0 <= k < |visits| ==> visits[k].path == visits[k].element.path
  }

  lemma AgreesConcat(a: seq<Visit>, b: seq<Visit>)
    requires Agrees(a) && Agrees(b)
    ensures Agrees(a + b)
  {
  }

  lemma OneChildAgrees(child: Element, base: Base, at: nat)
    requires child.path == Slot(base.parent, base.collection, at)
    requires Agrees(VisitChildren(child, |child.children|, BaseOf(child).parent, BaseOf(child).collection, BaseOf(child).start))
    ensures Agrees(OneVisits(child, base.parent, base.collection, at))
  {
  }

  lemma MoreAgree(e: Element, i: nat, base: Base, before: seq<Visit>) returns (seen: seq<Visit>)
    requires 0 < i <= |e.children| && PathedChild(e, i - 1) && base == BaseOf(e)
    requires before == VisitChildren(e, i - 1, base.parent, base.collection, base.start) && Agrees(before)
    requires (var child := e.children[i - 1];
      Agrees(VisitChildren(child, |child.children|, BaseOf(child).parent, BaseOf(child).collection, BaseOf(child).start)))
    ensures seen == VisitChildren(e, i, base.parent, base.collection, base.start) && Agrees(seen)
  {
    var child, at := e.children[i - 1], base.start + CountChildren(e, i - 1);
    CountsEmitted(e, i - 1);
    OneChildAgrees(child, base, at);
    AgreesConcat(before, OneVisits(child, base.parent, base.collection, at));
    seen := before + OneVisits(child, base.parent, base.collection, at);
  }

  lemma {:induction false} ChildrenAgree(e: Element, i: nat, base: Base) returns (seen: seq<Visit>)
    requires i <= |e.children| && WellPathed(e) && base == BaseOf(e)
    ensures seen == VisitChildren(e, i, base.parent, base.collection, base.start) && Agrees(seen)
    decreases e, i
  {
    if i == 0 {
      seen := [];
    } else {
      var child := e.children[i - 1];
      assert PathedChild(e, i - 1) && WellPathed(child);
      var before := ChildrenAgree(e, i - 1, base);
      var below := ChildrenAgree(child, |child.children|, BaseOf(child));
      seen := MoreAgree(e, i, base, before);
    }
  }

  /** FSX path agreement: whatever the nesting of aliases, the path the parser used for an element is
      the path the lowerer reports for its node. */
  lemma PathsAgree(e: Element)
    requires WellPathed(e) && e.name != "Alias"
    ensures Agrees(VisitNode(e, e.path))
  {
    var seen := ChildrenAgree(e, |e.children|, BaseOf(e));
  }

  // ---- paths as positions in the emitted tree ----

  function NodeAt(root: Node, path: Place): Option<Node> {
    match path
    case Root => Some(root)
    case Slot(parent, collection, index) =>
      match NodeAt(root, parent)
      case None => None
      case Some(n) =>
        if collection == CollectionOf(n.kind) && index < |n.children| then Some(n.children[index]) else None
  }

  ghost predicate Placed(root: Node, visits: seq<Visit>) {
    forall k :: 0 <= k < |visits| ==> NodeAt(root, visits[k].path) == Some(Lowered(visits[k].element))
  }

  /** The first `i` children of `e` emit the children of `n` from `start` on. */
  predicate Emits(n: Node, e: Element, i: nat, start: nat)
    requires i <= |e.children|
  {
    && start + |LoweredChildren(e, i)| <= |n.children|
    && n.children[start..start + |LoweredChildren(e, i)|] == LoweredChildren(e, i)
  }

  ghost predicate Stands(root: Node, e: Element, i: nat, path: Place, collection: string, start: nat)
    requires i <= |e.children|
  {
    && NodeAt(root, path).Some? && collection == CollectionOf(NodeAt(root, path).value.kind)
    && Emits(NodeAt(root, path).value, e, i, start)
  }

  lemma Slices(s: seq<Node>, start: nat, before: seq<Node>, last: seq<Node>)
    requires start + |before + last| <= |s| && s[start..start + |before + last|] == before + last
    ensures s[start..start + |before|] == before
    ensures s[start + |before|..start + |before| + |last|] == last
  {
    var slice := s[start..start + |before + last|];
    assert s[start..start + |before|] == slice[..|before|];
    assert s[start + |before|..start + |before| + |last|] == slice[|before|..];
  }

  lemma EmitsBefore(n: Node, e: Element, i: nat, start: nat)
    requires i < |e.children| && Emits(n, e, i + 1, start)
    ensures Emits(n, e, i, start)
    ensures (var child := e.children[i]; var at := start + |LoweredChildren(e, i)|;
      if child.name == "Alias" then Emits(n, child, |child.children|, at)
      else at < |n.children| && n.children[at] == Lowered(child))
  {
    var child, at := e.children[i], start + |LoweredChildren(e, i)|;
    Slices(n.children, start, LoweredChildren(e, i), OneLowered(child));
    assert child.name != "Alias" ==> n.children[at] == n.children[at..at + 1][0];
  }

  lemma StandsBefore(root: Node, e: Element, i: nat, path: Place, collection: string, start: nat)
    requires i < |e.children| && Stands(root, e, i + 1, path, collection, start)
    ensures Stands(root, e, i, path, collection, start)
    ensures (var child := e.children[i]; var at := start + |LoweredChildren(e, i)|;
      if child.name == "Alias" then Stands(root, child, |child.children|, path, collection, at)
      else NodeAt(root, Slot(path, collection, at)) == Some(Lowered(child)))
  {
    EmitsBefore(NodeAt(root, path).value, e, i, start);
  }

  lemma {:induction false} ChildrenPlaced(root: Node, e: Element, i: nat, path: Place, collection: string, start: nat)
    requires i <= |e.children| && Stands(root, e, i, path, collection, start)
    ensures Placed(root, VisitChildren(e, i, path, collection, start))
    decreases e, 0, i
  {
    if i > 0 {
      var child := e.children[i - 1];
      var at := start + |LoweredChildren(e, i - 1)|;
      StandsBefore(root, e, i - 1, path, collection, start);
      ChildrenPlaced(root, e, i - 1, path, collection, start);
      if child.name == "Alias" {
        ChildrenPlaced(root, child, |child.children|, path, collection, at);
      } else {
        NodePlaced(root, child, Slot(path, collection, at));
      }
    }
  }

  /** The path of a node is where it stands in the emitted tree. */
  lemma {:induction false} NodePlaced(root: Node, e: Element, path: Place)
    requires NodeAt(root, path) == Some(Lowered(e))
    ensures Placed(root, VisitNode(e, path))
    decreases e, 1, 0
  {
    ChildrenPlaced(root, e, |e.children|, path, CollectionOf(e.name), 0);
  }

  // ---- paths as text ----

  function Show(path: Place): string {
    match path
    case Root => "root"
    case Slot(parent, collection, index) => Show(parent) + "." + collection + "[" + Decimal.Render(index) + "]"
  }

  /** The parser takes an alias's path apart with /^(.*)\[(\d+)\]$/: there is only one way to do so,
      and it gives back the collection and the index. */
  lemma AliasSplitIsUnique(parent: Place, collection: string, index: nat, prefix: string, digits: string)
    requires Decimal.AllDigits(digits) && digits != ""
    requires Show(Slot(parent, collection, index)) == prefix + "[" + digits + "]"
    ensures prefix == Show(parent) + "." + collection && Decimal.Parse(digits) == index
  {
    var base, text := Show(parent) + "." + collection, Decimal.Render(index);
    Decimal.ParseRender(index);
    var s := base + "[" + text + "]";
    var t := prefix + "[" + digits + "]";
    assert forall k :: |base| < k < |s| - 1 ==> s[k] == text[k - |base| - 1];
    assert forall k :: |prefix| < k < |t| - 1 ==> t[k] == digits[k - |prefix| - 1];
    assert s[|base|] == '[' && t[|prefix|] == '[' && s == t;
    assert |prefix| == |base|;
    assert prefix == s[..|base|] == base;
    assert digits == s[|base| + 1..|s| - 1] == text;
  }
}
