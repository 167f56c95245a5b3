/** Which texts are FSX, and as what they read (the language of parser.ts), said of finished elements
    and their ranges. Where a guest expression stops is decided elsewhere and comes as an oracle; so
    does the meaning of a quoted literal. */
module FsxGrammar {
  import opened JsonData
  import opened FsxTrees

  /** The guest parser's answer: where it stopped, whether it stopped at the host's closing brace, and
      whether the expression is valid. */
  datatype GuestAnswer = GuestAnswer(stop: nat, outerBrace: bool, valid: bool)

  datatype Source = Source(text: string, guest: nat -> GuestAnswer, literal: string -> Option<string>)

  const MAX_SOURCE: nat := 100000
  const MAX_NODES: nat := 1000
  const MAX_DEPTH: nat := 32

  // ---- characters ----

  predicate IsLineEnd(c: char) {
    c == '\n' || c == '\r' || c as int == 0x2028 || c as int == 0x2029
  }

  predicate IsSpace(c: char) {
    || c == ' ' || c == '\t' || IsLineEnd(c) || c as int == 0x0b || c as int == 0x0c || c as int == 0xa0
    || c as int == 0x1680 || 0x2000 <= c as int <= 0x200a || c as int == 0x202f || c as int == 0x205f
    || c as int == 0x3000 || c as int == 0xfeff
  }

  predicate IsLetter(c: char) {
    'A' <= c <= 'Z' || 'a' <= c <= 'z'
  }

  predicate IsNameChar(c: char) {
    IsLetter(c) || '0' <= c <= '9' || c == '_' || c == '-'
  }

  predicate StartsWith(text: string, at: nat, marker: string) {
    at + |marker| <= |text| && text[at..at + |marker|] == marker
  }

  // ---- words ----

  /** All the white space there is at `a`. */
  predicate Spaces(text: string, a: nat, b: nat) {
    && a <= b <= |text| && (forall i :: a <= i < b ==> IsSpace(text[i]))
    && (b < |text| ==> !IsSpace(text[b]))
  }

  lemma OneSpaces(text: string, a: nat, b: nat, c: nat)
    requires Spaces(text, a, b) && Spaces(text, a, c)
    ensures b == c
  {
  }

  /** The longest name there is at `a`. */
  predicate NameAt(text: string, a: nat, b: nat) {
    && a < b <= |text| && IsLetter(text[a]) && (forall i :: a < i < b ==> IsNameChar(text[i]))
    && (b < |text| ==> !IsNameChar(text[b]))
  }

  lemma OneName(text: string, a: nat, b: nat, c: nat)
    requires NameAt(text, a, b) && NameAt(text, a, c)
    ensures b == c
  {
  }

  /** Plain characters and escaped ones. */
  predicate Units(text: string, i: nat, end: nat)
    requires end <= |text|
    decreases end - i
  {
    || i == end
    || (i < end && text[i] != '"' && text[i] != '\\' && Units(text, i + 1, end))
    || (i + 1 < end && text[i] == '\\' && !IsLineEnd(text[i + 1]) && Units(text, i + 2, end))
  }

  predicate QuotedAt(text: string, a: nat, b: nat) {
    a + 2 <= b <= |text| && text[a] == '"' && text[b - 1] == '"' && Units(text, a + 1, b - 1)
  }

  /** The guest stopped at a closing brace and its expression is valid. */
  predicate Accepts(source: Source, at: nat) {
    var answer := source.guest(at);
    answer.valid && answer.stop < |source.text| && source.text[answer.stop] == '}'
  }

  predicate ValueAt(source: Source, value: Value, a: nat, b: nat) {
    match value
    case Guest(inside) =>
      && StartsWith(source.text, a, "{") && Accepts(source, a)
      && source.guest(a).stop > a && b == source.guest(a).stop + 1 && inside == source.text[a + 1..b - 1]
    case Literal(text) => QuotedAt(source.text, a, b) && source.literal(source.text[a..b]) == Some(text)
  }

  // ---- attributes ----

  /** Name, equality sign and value, with white space around the sign. */
  ghost predicate AttributeAt(source: Source, t: Attribute) {
    exists sign: nat, value: nat :: AttributeParts(source, t, sign, value)
  }

  predicate AttributeParts(source: Source, t: Attribute, sign: nat, value: nat) {
    LabelAt(source.text, t.name, t.start, sign, value) && ValueAt(source, t.value, value, t.end)
  }

  predicate LabelAt(text: string, name: string, a: nat, sign: nat, b: nat) {
    NameAt(text, a, a + |name|) && name == text[a..a + |name|] && SignAt(text, a + |name|, sign, b)
  }

  predicate SignAt(text: string, a: nat, sign: nat, b: nat) {
    Spaces(text, a, sign) && StartsWith(text, sign, "=") && Spaces(text, sign + 1, b)
  }

  function NextAttribute(s: seq<Attribute>, i: nat, end: nat): nat {
    if i < |s| then s[i].start else end
  }

  predicate HeaderEnds(text: string, at: nat) {
    StartsWith(text, at, "/>") || StartsWith(text, at, ">")
  }

  /** Attributes of different names, one after the other, with white space between them. */
  ghost predicate AttributesUpTo(source: Source, s: seq<Attribute>, a: nat, b: nat) {
    && NextAttribute(s, 0, b) == a && NamesDiffer(s)
    && (forall i: nat :: i < |s| ==> AttributeStands(source, s, i, b))
  }

  ghost predicate AttributeStands(source: Source, s: seq<Attribute>, i: nat, b: nat)
    requires i < |s|
  {
    && AttributeAt(source, s[i]) && Spaces(source.text, s[i].end, NextAttribute(s, i + 1, b))
    && (i + 1 < |s| ==> s[i].end < s[i + 1].start)
  }

  predicate NamesDiffer(s: seq<Attribute>) {
    forall i, j :: 0 <= i < j < |s| ==> s[i].name != s[j].name
  }

  /** Up to the end of the tag. */
  ghost predicate AttributesAt(source: Source, s: seq<Attribute>, a: nat, b: nat) {
    AttributesUpTo(source, s, a, b) && HeaderEnds(source.text, b)
  }

  // ---- elements ----

  predicate OpeningAt(text: string, name: string, a: nat, b: nat) {
    && StartsWith(text, a, "<") && NameAt(text, a + 1, a + 1 + |name|) && name == text[a + 1..a + 1 + |name|]
    && Spaces(text, a + 1 + |name|, b)
  }

  /** An opening bracket, a name, attributes. */
  ghost predicate HeaderAt(source: Source, e: Element, first: nat, b: nat) {
    OpeningAt(source.text, e.name, e.start, first) && AttributesAt(source, e.attributes, first, b)
  }

  predicate CloseAt(text: string, name: string, a: nat, b: nat) {
    StartsWith(text, a, "</" + name) && b > 0 && Spaces(text, a + 2 + |name|, b - 1) && StartsWith(text, b - 1, ">")
  }

  function NextChild(e: Element, i: nat, end: nat): nat {
    if i < |e.children| then e.children[i].start else end
  }

  /** The children, with at most white space between them. */
  ghost predicate ChildrenAt(source: Source, e: Element, a: nat, b: nat)
    decreases e, 0
  {
    NextChild(e, 0, b) == a && forall i: nat :: i < |e.children| ==> ChildStands(source, e, i, b)
  }

  ghost predicate ChildStands(source: Source, e: Element, i: nat, b: nat)
    requires i < |e.children|
    decreases e, 0, 0
  {
    ElementAt(source, e.children[i]) && Spaces(source.text, e.children[i].end, NextChild(e, i + 1, b))
  }

  ghost predicate BodyAt(source: Source, e: Element, first: nat, close: nat)
    decreases e, 1
  {
    ChildrenAt(source, e, first, close) && CloseAt(source.text, e.name, close, e.end)
  }

  /** What follows the header: the end of an empty element, or children and a closing tag of its name. */
  ghost predicate RestAt(source: Source, e: Element, b: nat)
    decreases e, 2
  {
    if StartsWith(source.text, b, "/>") then e.children == [] && e.end == b + 2
    else StartsWith(source.text, b, ">") && exists first: nat, close: nat :: Spaces(source.text, b + 1, first) && BodyAt(source, e, first, close)
  }

  ghost predicate ElementAt(source: Source, e: Element)
    decreases e, 3
  {
    exists first: nat, b: nat :: HeaderAt(source, e, first, b) && RestAt(source, e, b)
  }

  // ---- limits ----

  function Size(e: Element): nat
    decreases e, 1, 0
  {
    1 + SizeUpTo(e, |e.children|)
  }

  function SizeUpTo(e: Element, i: nat): nat
    requires i <= |e.children|
    decreases e, 0, i
  {
    if i == 0 then 0 else SizeUpTo(e, i - 1) + Size(e.children[i - 1])
  }

  lemma {:induction false} SizeOfPrefix(e: Element, f: Element, i: nat)
    requires i <= |e.children| && i <= |f.children| && e.children[..i] == f.children[..i]
    ensures SizeUpTo(e, i) == SizeUpTo(f, i)
  {
    if i > 0 {
      assert e.children[..i - 1] == e.children[..i][..i - 1] == f.children[..i - 1];
      assert e.children[i - 1] == e.children[..i][i - 1] == f.children[i - 1];
      SizeOfPrefix(e, f, i - 1);
    }
  }

  lemma {:induction false} SizeGrows(e: Element, i: nat, j: nat)
    requires i <= j <= |e.children|
    ensures SizeUpTo(e, i) <= SizeUpTo(e, j)
  {
    if i < j { SizeGrows(e, i, j - 1); }
  }

  ghost predicate Fits(e: Element, depth: nat) {
    depth <= MAX_DEPTH && forall i :: 0 <= i < |e.children| ==> Fits(e.children[i], depth + 1)
  }

  // ---- programs ----

  /** The element read at `start` as number `nodes + 1`, with its paths. */
  ghost predicate Reads(source: Source, e: Element, path: Place, authoring: Place, start: nat, nodes: nat, depth: nat) {
    && e.path == path && e.authoring == authoring && e.start == start && WellPathed(e)
    && ElementAt(source, e) && nodes + Size(e) <= MAX_NODES && Fits(e, depth)
  }

  ghost predicate Program(source: Source, e: Element) {
    && |source.text| <= MAX_SOURCE && Spaces(source.text, 0, e.start) && Spaces(source.text, e.end, |source.text|)
    && Reads(source, e, Root, Root, e.start, 0, 0)
  }
}
