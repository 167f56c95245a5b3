/** A text reads as an FSX program in one way at most. */
module FsxReadings {
  import opened JsonData
  import opened FsxTrees
  import opened FsxGrammar
  import opened FsxParsers

  lemma {:induction false} OneEnd(text: string, i: nat, b: nat, c: nat)
    requires b < |text| && c < |text| && text[b] == '"' && text[c] == '"' && Units(text, i, b) && Units(text, i, c)
    ensures b == c
    decreases b - i
  {
    if i < b && i < c {
      OneEnd(text, if text[i] == '\\' then i + 2 else i + 1, b, c);
    }
  }

  lemma OneValue(source: Source, v: Value, w: Value, a: nat, b: nat, c: nat)
    requires ValueAt(source, v, a, b) && ValueAt(source, w, a, c)
    ensures v == w && b == c
  {
    if v.Literal? && w.Literal? { OneEnd(source.text, a + 1, b - 1, c - 1); }
  }

  lemma OneLabel(text: string, a: nat, n: string, sign: nat, b: nat, m: string, signM: nat, c: nat)
    requires LabelAt(text, n, a, sign, b) && LabelAt(text, m, a, signM, c)
    ensures n == m && b == c
  {
    OneName(text, a, a + |n|, a + |m|);
    OneSpaces(text, a + |n|, sign, signM);
    OneSpaces(text, sign + 1, b, c);
  }

  lemma OneAttribute(source: Source, t: Attribute, u: Attribute)
    requires AttributeAt(source, t) && AttributeAt(source, u) && t.start == u.start
    ensures t == u
  {
    var signT: nat, valueT: nat :| AttributeParts(source, t, signT, valueT);
    var signU: nat, valueU: nat :| AttributeParts(source, u, signU, valueU);
    OneLabel(source.text, t.start, t.name, signT, valueT, u.name, signU, valueU);
    OneValue(source, t.value, u.value, valueT, t.end, u.end);
  }

  lemma {:induction false} AttributesMeet(source: Source, s: seq<Attribute>, t: seq<Attribute>, a: nat, b: nat, c: nat, k: nat)
    requires AttributesAt(source, s, a, b) && AttributesAt(source, t, a, c) && k <= |s| && k <= |t|
    ensures s[..k] == t[..k] && NextAttribute(s, k, b) == NextAttribute(t, k, c)
  {
    if k > 0 {
      AttributesMeet(source, s, t, a, b, c, k - 1);
      assert AttributeStands(source, s, k - 1, b) && AttributeStands(source, t, k - 1, c);
      OneAttribute(source, s[k - 1], t[k - 1]);
      OneSpaces(source.text, s[k - 1].end, NextAttribute(s, k, b), NextAttribute(t, k, c));
      OneLonger(s, t, k - 1);
    }
  }

  lemma NoShorter(source: Source, s: seq<Attribute>, t: seq<Attribute>, a: nat, b: nat, c: nat)
    requires AttributesAt(source, s, a, b) && AttributesAt(source, t, a, c)
    ensures |s| >= |t|
  {
    if |s| < |t| {
      AttributesMeet(source, s, t, a, b, c, |s|);
      assert AttributeStands(source, t, |s|, c);
      NotAtEnd(source, t[|s|]);
    }
  }

  lemma OneAttributes(source: Source, s: seq<Attribute>, t: seq<Attribute>, a: nat, b: nat, c: nat)
    requires AttributesAt(source, s, a, b) && AttributesAt(source, t, a, c)
    ensures s == t && b == c
  {
    NoShorter(source, s, t, a, b, c);
    NoShorter(source, t, s, a, c, b);
    AttributesMeet(source, s, t, a, b, c, |s|);
    assert s == s[..|s|] && t == t[..|s|];
  }

  lemma OneHeader(source: Source, e: Element, f: Element, first: nat, b: nat, firstF: nat, c: nat)
    requires HeaderAt(source, e, first, b) && HeaderAt(source, f, firstF, c) && e.start == f.start
    ensures e.name == f.name && e.attributes == f.attributes && b == c
  {
    OneName(source.text, e.start + 1, e.start + 1 + |e.name|, e.start + 1 + |f.name|);
    OneSpaces(source.text, e.start + 1 + |e.name|, first, firstF);
    OneAttributes(source, e.attributes, f.attributes, first, b, c);
  }

  /** The same element as far as its opening tag goes. */
  predicate SameHeader(e: Element, f: Element) {
    e == f.(children := e.children, end := e.end)
  }

  /** Two readings of the same body. */
  ghost predicate Rivals(source: Source, e: Element, f: Element, a: nat, b: nat, c: nat) {
    ChildrenAt(source, e, a, b) && ChildrenAt(source, f, a, c) && WellPathed(e) && WellPathed(f) && SameHeader(e, f)
  }

  /** They agree on the first `k` children and on where the next one starts. */
  predicate Meet(e: Element, f: Element, b: nat, c: nat, k: nat) {
    k <= |e.children| && k <= |f.children| && e.children[..k] == f.children[..k] && NextChild(e, k, b) == NextChild(f, k, c)
  }

  lemma OneLonger<T>(s: seq<T>, t: seq<T>, k: nat)
    requires k < |s| && k < |t| && s[..k] == t[..k] && s[k] == t[k]
    ensures s[..k + 1] == t[..k + 1]
  {
    assert s[..k + 1] == s[..k] + [s[k]] && t[..k + 1] == t[..k] + [t[k]];
  }

  lemma MeetFurther(source: Source, e: Element, f: Element, a: nat, b: nat, c: nat, k: nat)
    requires Rivals(source, e, f, a, b, c) && Meet(e, f, b, c, k) && k < |e.children| && k < |f.children|
    requires e.children[k] == f.children[k]
    ensures Meet(e, f, b, c, k + 1)
  {
    assert ChildStands(source, e, k, b) && ChildStands(source, f, k, c);
    OneSpaces(source.text, e.children[k].end, NextChild(e, k + 1, b), NextChild(f, k + 1, c));
    OneLonger(e.children, f.children, k);
  }

  lemma Comparable(source: Source, e: Element, f: Element, a: nat, b: nat, c: nat, k: nat)
    requires Rivals(source, e, f, a, b, c) && Meet(e, f, b, c, k) && k < |e.children| && k < |f.children|
    ensures Alike(source, e.children[k], f.children[k])
  {
    assert ChildStands(source, e, k, b) && ChildStands(source, f, k, c);
    ChildPlaces(e, f, k);
  }

  lemma {:induction false} ChildrenMeet(source: Source, e: Element, f: Element, a: nat, b: nat, c: nat, k: nat)
    requires Rivals(source, e, f, a, b, c) && k <= |e.children| && k <= |f.children|
    ensures Meet(e, f, b, c, k)
    decreases e, 0, k
  {
    if k > 0 {
      ChildrenMeet(source, e, f, a, b, c, k - 1);
      Comparable(source, e, f, a, b, c, k - 1);
      OneElement(source, e.children[k - 1], f.children[k - 1]);
      MeetFurther(source, e, f, a, b, c, k - 1);
    }
  }

  lemma ChildPlaces(e: Element, f: Element, k: nat)
    requires k < |e.children| && k < |f.children| && e.children[..k] == f.children[..k]
    requires WellPathed(e) && WellPathed(f) && SameHeader(e, f)
    ensures WellPathed(e.children[k]) && WellPathed(f.children[k])
    ensures e.children[k].path == f.children[k].path && e.children[k].authoring == f.children[k].authoring
  {
    CountOfPrefix(e, f, k);
    assert PathedChild(e, k) && PathedChild(f, k);
  }

  lemma NoFewer(source: Source, e: Element, f: Element, a: nat, b: nat, c: nat)
    requires ChildrenAt(source, f, a, c) && CloseAt(source.text, e.name, b, e.end)
    requires |e.children| <= |f.children| ==> NextChild(f, |e.children|, c) == b
    ensures |e.children| >= |f.children|
  {
    if |e.children| < |f.children| {
      assert ChildStands(source, f, |e.children|, c);
      StartsPlainly(source, f.children[|e.children|]);
      ClosesPlainly(source.text, e.name, b, e.end);
    }
  }

  lemma {:induction false} OneBody(source: Source, e: Element, f: Element, a: nat, b: nat, c: nat)
    requires BodyAt(source, e, a, b) && BodyAt(source, f, a, c) && WellPathed(e) && WellPathed(f) && SameHeader(e, f)
    ensures e == f
    decreases e, 1, 0
  {
    var k := if |e.children| < |f.children| then |e.children| else |f.children|;
    ChildrenMeet(source, e, f, a, b, c, k);
    NoFewer(source, e, f, a, b, c);
    NoFewer(source, f, e, a, c, b);
    assert e.children == e.children[..k] && f.children == f.children[..k];
    OneSpaces(source.text, b + 2 + |e.name|, e.end - 1, f.end - 1);
  }

  /** Two readings of the same place. */
  ghost predicate Alike(source: Source, e: Element, f: Element) {
    && ElementAt(source, e) && ElementAt(source, f) && WellPathed(e) && WellPathed(f)
    && e.start == f.start && e.path == f.path && e.authoring == f.authoring
  }

  lemma {:induction false} OneElement(source: Source, e: Element, f: Element)
    requires Alike(source, e, f)
    ensures e == f
    decreases e, 2, 0
  {
    var first: nat, b: nat :| HeaderAt(source, e, first, b) && RestAt(source, e, b);
    var firstF: nat, c: nat :| HeaderAt(source, f, firstF, c) && RestAt(source, f, c);
    OneHeader(source, e, f, first, b, firstF, c);
    if !StartsWith(source.text, b, "/>") {
      var inE, closeE := Rest(source, e, b);
      var inF, closeF := Rest(source, f, b);
      OneSpaces(source.text, b + 1, inE, inF);
      OneBody(source, e, f, inE, closeE, closeF);
    }
  }

  lemma Rest(source: Source, e: Element, b: nat) returns (first: nat, close: nat)
    requires RestAt(source, e, b) && !StartsWith(source.text, b, "/>")
    ensures Spaces(source.text, b + 1, first) && BodyAt(source, e, first, close)
  {
    first, close :| Spaces(source.text, b + 1, first) && BodyAt(source, e, first, close);
  }

  /** The grammar is unambiguous. */
  lemma OneProgram(source: Source, e: Element, f: Element)
    requires Program(source, e) && Program(source, f)
    ensures e == f
  {
    OneSpaces(source.text, 0, e.start, f.start);
    OneElement(source, e, f);
  }
}
