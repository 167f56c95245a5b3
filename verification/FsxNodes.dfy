/** What the nodes of an emitted FSX tree are. */
module FsxNodes {
  import opened JsonData
  import opened FsxTrees

  /** The elements that are no aliases, among the first `i` children of `e` and below them, in the order
      of the text. */
  function Emitted(e: Element, i: nat): seq<Element>
    requires i <= |e.children|
    decreases e, 0, i
  {
    if i == 0 then [] else Emitted(e, i - 1) + EmittedOf(e.children[i - 1])
  }

  /** The element itself, unless it is an alias, before those below it. */
  function EmittedOf(e: Element): seq<Element>
    decreases e, 1, 0
  {
    (if e.name == "Alias" then [] else [e]) + Emitted(e, |e.children|)
  }

  function Elements(visits: seq<Visit>): seq<Element> {
    seq(|visits|, k requires 0 <= k < |visits| => visits[k].element)
  }

  lemma ElementsSum(a: seq<Visit>, b: seq<Visit>)
    ensures Elements(a + b) == Elements(a) + Elements(b)
  {
  }

  /** Every element but the aliases gets one node, in the order of the text. */
  lemma {:induction false} EveryElementHasNode(e: Element, i: nat, path: Place, collection: string, start: nat)
    requires i <= |e.children|
    ensures Elements(VisitChildren(e, i, path, collection, start)) == Emitted(e, i)
    decreases e, 0, i
  {
    if i > 0 {
      var last: nat := i - 1;
      var before, more := VisitChildren(e, last, path, collection, start), OneVisits(e.children[last], path, collection, start + |LoweredChildren(e, last)|);
      EveryElementHasNode(e, last, path, collection, start);
      OneChildHasNodes(e.children[last], path, collection, start + |LoweredChildren(e, last)|);
      VisitsNext(e, last, path, collection, start, before, more);
      MoreElements(e, last, before, more);
    }
  }

  lemma VisitsNext(e: Element, i: nat, path: Place, collection: string, start: nat, before: seq<Visit>, more: seq<Visit>)
    requires i < |e.children| && before == VisitChildren(e, i, path, collection, start)
    requires more == OneVisits(e.children[i], path, collection, start + |LoweredChildren(e, i)|)
    ensures VisitChildren(e, i + 1, path, collection, start) == before + more
  {
    OneMore(e, i, path, collection, start);
  }

  lemma MoreElements(e: Element, i: nat, before: seq<Visit>, more: seq<Visit>)
    requires i < |e.children| && Elements(before) == Emitted(e, i) && Elements(more) == EmittedOf(e.children[i])
    ensures Elements(before + more) == Emitted(e, i + 1)
  {
    ElementsSum(before, more);
    EmittedNext(e, i);
  }

  lemma EmittedNext(e: Element, i: nat)
    requires i < |e.children|
    ensures Emitted(e, i + 1) == Emitted(e, i) + EmittedOf(e.children[i])
  {
  }

  lemma {:induction false} OneChildHasNodes(child: Element, path: Place, collection: string, at: nat)
    ensures Elements(OneVisits(child, path, collection, at)) == EmittedOf(child)
    decreases child, 1, 0
  {
    if child.name == "Alias" {
      EveryElementHasNode(child, |child.children|, path, collection, at);
    } else {
      EveryElementHasNode(child, |child.children|, Slot(path, collection, at), CollectionOf(child.name), 0);
      ElementsOfNode(child, Slot(path, collection, at));
    }
  }

  lemma ElementsOfNode(e: Element, path: Place)
    ensures Elements(VisitNode(e, path)) == [e] + Elements(VisitChildren(e, |e.children|, path, CollectionOf(e.name), 0))
  {
    ElementsSum([Visit(path, e)], VisitChildren(e, |e.children|, path, CollectionOf(e.name), 0));
  }

  /** A node has the kind and the identifier of its element, and a child for each of the elements that
      stand in it directly or through aliases. */
  ghost predicate Mirrors(n: Node, e: Element) {
    n.kind == e.name && n.id == IdOf(e) && |n.children| == CountChildren(e, |e.children|)
  }

  lemma NodesMirrorElements(root: Node, visits: seq<Visit>, k: nat)
    requires Placed(root, visits) && k < |visits|
    ensures NodeAt(root, visits[k].path).Some? && Mirrors(NodeAt(root, visits[k].path).value, visits[k].element)
  {
    CountsEmitted(visits[k].element, |visits[k].element.children|);
  }

  /** The identifier is the quoted one. */
  lemma IdIsQuoted(e: Element, k: nat)
    requires k < |e.attributes| && e.attributes[k].name == "id" && e.attributes[k].value.Literal?
    requires forall j :: 0 <= j < k ==> e.attributes[j].name != "id"
    ensures IdOf(e) == e.attributes[k].value.text
  {
    FirstFound(e.attributes, "id", k);
  }

  lemma {:induction false} FirstFound(s: seq<Attribute>, name: string, k: nat)
    requires k < |s| && s[k].name == name && forall j :: 0 <= j < k ==> s[j].name != name
    ensures FindAttribute(s, name) == Some(s[k])
  {
    if k > 0 { FirstFound(s[1..], name, k - 1); }
  }
}
