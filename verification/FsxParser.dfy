/** The FSX recursive-descent parser (parser.ts) with its syntax observer (syntax.ts). */
module FsxParsers {
  import opened JsonData
  import opened FsxTrees
  import opened FsxGrammar

  /* A ghost parameter `want` is any reading there may be of what comes next: if it is one, it is what
     the method returns, and so there is no other. */

  datatype Result<+T> = Ok(value: T) | Err(code: string)

  datatype SpanKind = Tag | AttributeName | Punctuation | Str

  datatype Span = Span(kind: SpanKind, start: nat, end: nat)

  // ---- spans ----

  /** Spans are not empty, lie in the first `bound` characters, and follow one another without overlap. */
  ghost predicate SpansOk(spans: seq<Span>, bound: nat) {
    && (forall i :: 0 <= i < |spans| ==> spans[i].start < spans[i].end <= bound)
    && (forall i, j :: 0 <= i < j < |spans| ==> spans[i].end <= spans[j].start)
  }

  lemma SpanAdded(spans: seq<Span>, kind: SpanKind, start: nat, end: nat)
    requires SpansOk(spans, start) && start < end
    ensures SpansOk(spans + [Span(kind, start, end)], end)
  {
  }

  lemma SpansWiden(spans: seq<Span>, bound: nat, wider: nat)
    requires SpansOk(spans, bound) && bound <= wider
    ensures SpansOk(spans, wider)
  {
  }

  // ---- ranges ----

  /** An element's children lie inside it, one after the other. */
  ghost predicate Nested(e: Element) {
    && e.start < e.end
    && (forall i :: 0 <= i < |e.children| ==> e.start < e.children[i].start && e.children[i].end < e.end && Nested(e.children[i]))
    && (forall i, j :: 0 <= i < j < |e.children| ==> e.children[i].end <= e.children[j].start)
  }

  ghost predicate ChildrenNested(children: seq<Element>, start: nat, end: nat) {
    && (forall i :: 0 <= i < |children| ==> start < children[i].start && children[i].end <= end && Nested(children[i]))
    && (forall i, j :: 0 <= i < j < |children| ==> children[i].end <= children[j].start)
  }

  class FsxParser {
    const text: string
    const guest: nat -> GuestAnswer
    const literal: string -> Option<string>
    var offset: nat
    var nodes: nat
    var spans: seq<Span>

    constructor (text: string, guest: nat -> GuestAnswer, literal: string -> Option<string>)
      ensures this.text == text && this.guest == guest && this.literal == literal
      ensures offset == 0 && nodes == 0 && spans == []
    {
      this.text := text;
      this.guest := guest;
      this.literal := literal;
      offset, nodes, spans := 0, 0, [];
    }

    /** Between two steps of a parse that has not failed. */
    ghost predicate Valid()
      reads this`offset, this`spans
    {
      offset <= |text| && SpansOk(spans, offset)
    }

    /** What holds even after an error. */
    ghost predicate Sane()
      reads this`offset, this`spans
    {
      offset <= |text| && SpansOk(spans, |text|)
    }

    ghost function Source(): Source {
      FsxGrammar.Source(text, guest, literal)
    }

    /** A guest expression never ends before its opening brace. */
    ghost predicate GuestsAdvance() {
      forall i: nat {:trigger guest(i)} :: guest(i).stop > i
    }

    method AddSpan(kind: SpanKind, start: nat, end: nat)
      requires SpansOk(spans, start) && start < end
      modifies this`spans
      ensures SpansOk(spans, end) && spans == old(spans) + [Span(kind, start, end)]
    {
      SpanAdded(spans, kind, start, end);
      spans := spans + [Span(kind, start, end)];
    }

    method Space()
      requires Valid()
      modifies this`offset
      ensures Valid() && Spaces(text, old(offset), offset)
    {
      while offset < |text| && IsSpace(text[offset])
        invariant Valid() && offset >= old(offset) && forall i :: old(offset) <= i < offset ==> IsSpace(text[i])
      {
        SpansWiden(spans, offset, offset + 1);
        offset := offset + 1;
      }
    }

    method Consume(marker: string) returns (r: Result<()>)
      requires Valid() && marker != ""
      modifies this`offset, this`spans
      ensures Sane() && (r.Ok? ==> Valid() && offset == old(offset) + |marker|)
      ensures r.Ok? <==> StartsWith(text, old(offset), marker)
    {
      if !StartsWith(text, offset, marker) {
        SpansWiden(spans, offset, |text|);
        return Err("MALFORMED_FSX");
      }
      AddSpan(Punctuation, offset, offset + |marker|);
      offset := offset + |marker|;
      SpansWiden(spans, offset, |text|);
      return Ok(());
    }

    method Name(kind: SpanKind) returns (r: Result<string>)
      requires Valid()
      modifies this`offset, this`spans
      ensures Sane() && (r.Ok? ==> Valid() && offset > old(offset))
      ensures r.Ok? <==> old(offset) < |text| && IsLetter(text[old(offset)])
      ensures r.Ok? ==> NameAt(text, old(offset), offset) && r.value == text[old(offset)..offset]
    {
      var end := offset;
      if end < |text| && IsLetter(text[end]) {
        end := end + 1;
        while end < |text| && IsNameChar(text[end])
          invariant offset < end <= |text| && forall i :: offset < i < end ==> IsNameChar(text[i])
        {
          end := end + 1;
        }
      }
      if end == offset {
        SpansWiden(spans, offset, |text|);
        return Err("EXPECTED_NAME");
      }
      AddSpan(kind, offset, end);
      var name := text[offset..end];
      offset := end;
      SpansWiden(spans, offset, |text|);
      return Ok(name);
    }

    /** The guest stopped at the host's closing brace. */
    predicate Closes(answer: GuestAnswer) {
      answer.stop < |text| && text[answer.stop] == '}'
    }

    /** The closing brace, when the guest stopped at it. */
    function CloseSpans(answer: GuestAnswer): seq<Span> {
      if answer.outerBrace && Closes(answer) then [Span(Punctuation, answer.stop, answer.stop + 1)] else []
    }

    /** The guest's own closing brace is reported before its expression is judged, so it is there even
        when the expression is refused. */
    method GuestStop() returns (r: Result<nat>)
      requires Valid() && GuestsAdvance() && offset < |text| && text[offset] == '{'
      modifies this`spans
      ensures (var answer := guest(offset);
        && (r.Ok? <==> answer.valid && Closes(answer)) && (r.Ok? ==> r.value == answer.stop)
        && spans == old(spans) + [Span(Punctuation, offset, offset + 1)] + CloseSpans(answer))
      ensures SpansOk(spans, |text|)
      ensures r.Ok? ==> old(offset) < r.value < |text| && SpansOk(spans, r.value + 1)
    {
      var answer := guest(offset);
      AddSpan(Punctuation, offset, offset + 1);
      ReportClose(answer, offset + 1);
      var stop := answer.stop;
      if stop >= |text| || text[stop] != '}' || !answer.valid { return Err("INVALID_GUEST"); }
      return Ok(stop);
    }

    method ReportClose(answer: GuestAnswer, ghost bound: nat)
      requires SpansOk(spans, bound) && bound <= |text| && bound <= answer.stop
      modifies this`spans
      ensures spans == old(spans) + CloseSpans(answer) && SpansOk(spans, |text|)
      ensures Closes(answer) ==> SpansOk(spans, answer.stop + 1)
    {
      SpansWiden(spans, bound, |text|);
      if answer.stop < |text| && text[answer.stop] == '}' {
        SpansWiden(spans, bound, answer.stop);
        if answer.outerBrace {
          AddSpan(Punctuation, answer.stop, answer.stop + 1);
        } else {
          SpansWiden(spans, bound, answer.stop + 1);
        }
        SpansWiden(spans, answer.stop + 1, |text|);
      }
    }

    /** The end of a quoted string: the first quote that no backslash escapes. */
    method QuotedEnd() returns (end: Option<nat>)
      requires offset <= |text|
      ensures end.Some? ==> QuotedAt(text, offset, end.value)
      ensures forall b: nat :: QuotedAt(text, offset, b) ==> end == Some(b)
    {
      if offset >= |text| || text[offset] != '"' { return None; }
      var i := offset + 1;
      while i < |text|
        invariant offset < i
        invariant forall b: nat {:trigger QuotedAt(text, offset, b)} :: QuotedAt(text, offset, b) <==> EndsAt(i, b)
      {
        if text[i] == '"' {
          assert EndsAt(i, i + 1);
          return Some(i + 1);
        }
        if text[i] == '\\' {
          if i + 1 >= |text| || IsLineEnd(text[i + 1]) { return None; }
          i := i + 2;
        } else {
          i := i + 1;
        }
      }
      return None;
    }

    /** A quoted string read as far as `i` ends at `b`. */
    predicate EndsAt(i: nat, b: nat)
      reads this`offset
    {
      offset + 2 <= b <= |text| && i < b && text[b - 1] == '"' && Units(text, i, b - 1)
    }

    method ParseValue(ghost want: Value, ghost end: nat) returns (r: Result<Value>)
      requires Valid() && GuestsAdvance()
      modifies this`offset, this`spans
      ensures Sane() && (r.Ok? ==> Valid() && offset > old(offset))
      ensures r.Ok? ==> ValueAt(Source(), r.value, old(offset), offset)
      ensures ValueAt(Source(), want, old(offset), end) ==> r == Ok(want) && offset == end
    {
      var start := offset;
      SpansWiden(spans, offset, |text|);
      if offset < |text| && text[offset] == '{' {
        var stop := GuestStop();
        if stop.Err? { return Err(stop.code); }
        offset := stop.value + 1;
        return Ok(Guest(text[start + 1..stop.value]));
      }
      var close := QuotedEnd();
      if close.None? { return Err("EXPECTED_LITERAL_OR_GUEST"); }
      AddSpan(Str, start, close.value);
      offset := close.value;
      SpansWiden(spans, offset, |text|);
      var value := literal(text[start..close.value]);
      if value.None? { return Err("INVALID_LITERAL"); }
      return Ok(Literal(value.value));
    }

    /** The equality sign and the white space around it. */
    method PassSign(ghost sign: nat, ghost end: nat) returns (r: Result<()>, ghost at: nat)
      requires Valid()
      modifies this`offset, this`spans
      ensures Sane() && (r.Ok? ==> Valid() && offset > old(offset) && SignAt(text, old(offset), at, offset))
      ensures SignAt(text, old(offset), sign, end) ==> r.Ok? && offset == end
    {
      ghost var wanted := SignAt(text, offset, sign, end);
      ghost var start := offset;
      Space();
      at := offset;
      if wanted { OneSpaces(text, start, offset, sign); }
      r := Consume("=");
      if r.Err? { return; }
      Space();
      if wanted { OneSpaces(text, sign + 1, offset, end); }
    }

    method ParseLabel(ghost want: string, ghost sign: nat, ghost end: nat) returns (r: Result<string>, ghost at: nat)
      requires Valid()
      modifies this`offset, this`spans
      ensures Sane() && (r.Ok? ==> Valid() && offset > old(offset) && LabelAt(text, r.value, old(offset), at, offset))
      ensures LabelAt(text, want, old(offset), sign, end) ==> r == Ok(want) && offset == end
    {
      ghost var start, wanted := offset, LabelAt(text, want, offset, sign, end);
      at := 0;
      r := Name(AttributeName);
      if r.Err? { return; }
      if wanted { OneName(text, start, offset, start + |want|); }
      var equals;
      equals, at := PassSign(sign, end);
      if equals.Err? { return Err(equals.code), at; }
    }

    method ParseAttribute(ghost want: Attribute) returns (r: Result<Attribute>)
      requires Valid() && GuestsAdvance()
      modifies this`offset, this`spans
      ensures Sane() && (r.Ok? ==> Valid() && offset > old(offset))
      ensures r.Ok? ==> AttributeAt(Source(), r.value) && r.value.start == old(offset) && r.value.end == offset
      ensures AttributeAt(Source(), want) && want.start == old(offset) ==> r == Ok(want)
    {
      var start := offset;
      ghost var wanted := AttributeAt(Source(), want) && want.start == offset;
      ghost var sign: nat, first: nat := 0, 0;
      if wanted { sign, first :| AttributeParts(Source(), want, sign, first); }
      var name;
      ghost var at: nat;
      name, at := ParseLabel(want.name, sign, first);
      if name.Err? { return Err(name.code); }
      ghost var from := offset;
      var value := ParseValue(want.value, want.end);
      if value.Err? { return Err(value.code); }
      r := Ok(Attribute(name.value, value.value, start, offset));
      assert AttributeParts(Source(), r.value, at, from);
    }

    /** Between two attributes of a tag. */
    ghost predicate InTag(s: seq<Attribute>, a: nat, want: seq<Attribute>, end: nat)
      reads this`offset
    {
      && AttributesUpTo(Source(), s, a, offset) && LastApart(text, s, offset)
      && (AttributesAt(Source(), want, a, end) ==> Reached(want, end, s, offset))
    }

    method ParseAttributes(ghost want: seq<Attribute>, ghost end: nat) returns (r: Result<seq<Attribute>>)
      requires Valid() && GuestsAdvance()
      modifies this`offset, this`spans
      ensures Sane() && (r.Ok? ==> Valid() && offset >= old(offset))
      ensures r.Ok? ==> AttributesAt(Source(), r.value, old(offset), offset)
      ensures AttributesAt(Source(), want, old(offset), end) ==> r == Ok(want) && offset == end
    {
      ghost var a, wanted := offset, AttributesAt(Source(), want, offset, end);
      var attributes: seq<Attribute> := [];
      while !StartsWith(text, offset, "/>") && !StartsWith(text, offset, ">")
        invariant Valid() && offset >= a && InTag(attributes, a, want, end)
        decreases |text| - offset
      {
        var more := AddAttribute(attributes, a, want, end);
        if more.Err? { return more; }
        attributes := more.value;
      }
      if wanted { AllReached(Source(), want, a, end, attributes, offset); }
      SpansWiden(spans, offset, |text|);
      return Ok(attributes);
    }

    /** One turn of the loop over the attributes. */
    method AddAttribute(attributes: seq<Attribute>, ghost a: nat, ghost want: seq<Attribute>, ghost end: nat)
      returns (r: Result<seq<Attribute>>)
      requires Valid() && GuestsAdvance() && InTag(attributes, a, want, end) && !HeaderEnds(text, offset)
      modifies this`offset, this`spans
      ensures Sane() && (r.Ok? ==> Valid() && offset > old(offset) && InTag(r.value, a, want, end))
      ensures AttributesAt(Source(), want, a, end) ==> r.Ok?
    {
      ghost var at, wanted := offset, AttributesAt(Source(), want, a, end);
      if wanted { MoreReached(Source(), want, a, end, attributes, offset); }
      var attribute := ParseAttribute(if wanted then want[|attributes|] else Nothing);
      if attribute.Err? { return Err(attribute.code); }
      SpansWiden(spans, offset, |text|);
      if wanted { NamedAnew(want, end, attributes, at); }
      if FindAttribute(attributes, attribute.value.name).Some? { return Err("DUPLICATE_ATTRIBUTE"); }
      var before := offset;
      Space();
      SpansWiden(spans, offset, |text|);
      if wanted { NextReached(Source(), want, a, end, attributes, offset); }
      if before == offset && !(offset < |text| && (text[offset] == '/' || text[offset] == '>')) { return Err("EXPECTED_SPACE"); }
      AttributeAdded(Source(), attributes, a, at, attribute.value, offset);
      return Ok(attributes + [attribute.value]);
    }

    method CloseElement(name: string, ghost end: nat) returns (r: Result<()>)
      requires Valid() && name != ""
      modifies this`offset, this`spans
      ensures Sane() && (r.Ok? ==> Valid() && offset > old(offset))
      ensures r.Ok? ==> CloseAt(text, name, old(offset), offset)
      ensures CloseAt(text, name, old(offset), end) ==> r.Ok? && offset == end
    {
      var close := offset;
      SpansWiden(spans, offset, |text|);
      if !StartsWith(text, close, "</" + name) { return Err("MALFORMED_FSX"); }
      AddSpan(Punctuation, close, close + 2);
      offset := close + 2;
      AddSpan(Tag, offset, offset + |name|);
      offset := offset + |name|;
      r := PassBracket(end);
    }

    method PassBracket(ghost end: nat) returns (r: Result<()>)
      requires Valid()
      modifies this`offset, this`spans
      ensures Sane() && (r.Ok? ==> Valid() && offset > old(offset) && Spaces(text, old(offset), offset - 1) && StartsWith(text, offset - 1, ">"))
      ensures end > 0 && Spaces(text, old(offset), end - 1) && StartsWith(text, end - 1, ">") ==> r.Ok? && offset == end
    {
      ghost var start := offset;
      Space();
      if end > 0 && Spaces(text, start, end - 1) { OneSpaces(text, start, offset, end - 1); }
      r := Consume(">");
    }

    /** The base of the children's paths, taken from the element's own path. */
    method ChildBase(name: string, path: Place) returns (base: Base)
      ensures forall e: Element {:trigger BaseOf(e)} :: e.name == name && e.path == path ==> base == BaseOf(e)
    {
      if name == "Alias" && path.Slot? {
        base := Base(path.parent, path.collection, path.index);
      } else {
        base := Base(path, if name == "Conditional" then "then" else "children", 0);
      }
    }

    /** Parses one element. Every element consumes its opening bracket, so the parse terminates on
        every input; the result has the paths the parser handed down. */
    method ParseElement(path: Place, depth: nat, authoring: Place, ghost want: Element) returns (r: Result<Element>)
      requires Valid() && GuestsAdvance()
      modifies this
      ensures Sane() && (r.Ok? ==> Valid() && offset > old(offset))
      ensures r.Ok? ==> Produced(r.value, path, authoring, old(offset), offset)
      ensures r.Ok? ==> Reads(Source(), r.value, path, authoring, old(offset), old(nodes), depth) && nodes == old(nodes) + Size(r.value)
      ensures Reads(Source(), want, path, authoring, old(offset), old(nodes), depth) ==> r == Ok(want)
      decreases |text| - offset, 0
    {
      ghost var start, count, wanted := offset, nodes, Reads(Source(), want, path, authoring, offset, nodes, depth);
      nodes := nodes + 1;
      SpansWiden(spans, offset, |text|);
      if nodes > MAX_NODES || depth > MAX_DEPTH { return Err("STRUCTURE_LIMIT"); }
      ghost var first: nat, b: nat := 0, 0;
      if wanted { first, b := ElementParts(Source(), want, count, depth); }
      var header;
      ghost var from: nat;
      header, from := ParseHeader(path, authoring, want, first, b);
      if header.Err? { return header; }
      ghost var rest := offset;
      if wanted { RestWanted(Source(), want, header.value, b, count, depth); }
      r := ParseRest(header.value, depth, want);
      if r.Err? { return; }
      ElementRead(Source(), r.value, header.value, from, rest, count, nodes, depth);
    }

    /** The end of an empty element, or its body. */
    method ParseRest(header: Element, depth: nat, ghost want: Element) returns (r: Result<Element>)
      requires Valid() && GuestsAdvance() && header.children == [] && header.start < offset && header.name != ""
      requires nodes <= MAX_NODES && depth <= MAX_DEPTH
      modifies this
      ensures Sane() && (r.Ok? ==> Valid() && offset > old(offset))
      ensures r.Ok? ==> Produced(r.value, header.path, header.authoring, header.start, offset)
      ensures r.Ok? ==> BodyRead(Source(), r.value, header, old(offset), old(nodes), nodes, depth)
      ensures BodyWanted(Source(), want, header, old(offset), old(nodes), depth) ==> r == Ok(want)
      decreases |text| - offset, 2
    {
      if StartsWith(text, offset, "/>") {
        EmptyRead(Source(), header, offset, nodes, depth);
        EmptyWanted(Source(), want, header, offset, nodes, depth);
        var _ := Consume("/>");
        r := Ok(header.(end := offset));
      } else {
        r := ParseBody(header, depth, want);
      }
    }

    /** The opening tag up to its end. */
    method ParseHeader(path: Place, authoring: Place, ghost want: Element, ghost first: nat, ghost b: nat)
      returns (r: Result<Element>, ghost from: nat)
      requires Valid() && GuestsAdvance()
      modifies this`offset, this`spans
      ensures Sane() && (r.Ok? ==> Valid() && offset > old(offset))
      ensures r.Ok? ==> HeaderAt(Source(), r.value, from, offset)
      ensures r.Ok? ==> r.value == Element(r.value.name, path, authoring, r.value.attributes, [], old(offset), offset)
      ensures HeaderAt(Source(), want, first, b) && want.start == old(offset) ==>
        r == Ok(Element(want.name, path, authoring, want.attributes, [], old(offset), b)) && offset == b
    {
      var start := offset;
      from := 0;
      var name := ParseOpening(want.name, first);
      if name.Err? { return Err(name.code), 0; }
      from := offset;
      var attributes := ParseAttributes(want.attributes, b);
      if attributes.Err? { return Err(attributes.code), from; }
      r := Ok(Element(name.value, path, authoring, attributes.value, [], start, offset));
    }

    method ParseOpening(ghost want: string, ghost end: nat) returns (r: Result<string>)
      requires Valid()
      modifies this`offset, this`spans
      ensures Sane() && (r.Ok? ==> Valid() && offset > old(offset) && OpeningAt(text, r.value, old(offset), offset))
      ensures OpeningAt(text, want, old(offset), end) ==> r == Ok(want) && offset == end
    {
      var start := offset;
      ghost var wanted := OpeningAt(text, want, start, end);
      var opening := Consume("<");
      if opening.Err? { return Err(opening.code); }
      r := Name(Tag);
      if r.Err? { return; }
      if wanted { OneName(text, start + 1, offset, start + 1 + |want|); }
      ghost var named := offset;
      Space();
      if wanted { OneSpaces(text, named, offset, end); }
    }

    method ParseBody(header: Element, depth: nat, ghost want: Element) returns (r: Result<Element>)
      requires Valid() && GuestsAdvance() && header.children == [] && header.start < offset && header.name != ""
      requires !StartsWith(text, offset, "/>") && nodes <= MAX_NODES && depth <= MAX_DEPTH
      modifies this
      ensures Sane() && (r.Ok? ==> Valid() && offset > old(offset))
      ensures r.Ok? ==> Produced(r.value, header.path, header.authoring, header.start, offset)
      ensures r.Ok? ==> BodyRead(Source(), r.value, header, old(offset), old(nodes), nodes, depth)
      ensures BodyWanted(Source(), want, header, old(offset), old(nodes), depth) ==> r == Ok(want)
      decreases |text| - offset, 0
    {
      ghost var b, count, wanted := offset, nodes, BodyWanted(Source(), want, header, offset, nodes, depth);
      ghost var first: nat, close: nat := 0, 0;
      if wanted { first, close := BodyParts(Source(), want, header, b, count, depth); }
      var entered := Consume(">");
      if entered.Err? { return Err(entered.code); }
      Space();
      ghost var from := offset;
      if wanted { OneSpaces(text, b + 1, offset, first); }
      var base := ChildBase(header.name, header.path);
      var e := header;
      var emitted: nat := base.start;
      while !StartsWith(text, offset, "</")
        invariant Valid() && offset > b
        invariant Inside(Source(), e, header, base, emitted, from, offset, count, nodes, depth)
        invariant wanted ==> Awaits(Source(), want, header, from, close, count, depth, e, offset)
        decreases |text| - offset
      {
        var child := ParseChild(e, header, base, emitted, depth, from, count, want, close);
        if child.Err? { return child; }
        e := e.(children := e.children + [child.value]);
        emitted := emitted + DeclarationCount(child.value);
      }
      ghost var inner := offset;
      if wanted { AllChildren(Source(), want, header, from, close, count, depth, e, offset); }
      var closed := CloseElement(header.name, want.end);
      if closed.Err? { return Err(closed.code); }
      r := Ok(e.(end := offset));
      BodyDone(e, header, base, emitted, inner, offset);
      BodyGathered(Source(), e, header, b, from, inner, offset, count, nodes, depth);
    }

    /** One turn of the loop over the children. */
    method ParseChild(e: Element, header: Element, base: Base, emitted: nat, depth: nat, ghost from: nat, ghost count: nat,
                      ghost want: Element, ghost close: nat) returns (r: Result<Element>)
      requires Valid() && GuestsAdvance() && !StartsWith(text, offset, "</")
      requires Inside(Source(), e, header, base, emitted, from, offset, count, nodes, depth)
      modifies this
      ensures Sane() && (r.Ok? ==> Valid() && offset > old(offset))
      ensures r.Ok? ==> (var f := e.(children := e.children + [r.value]);
        Inside(Source(), f, header, base, emitted + DeclarationCount(r.value), from, offset, count, nodes, depth))
      ensures Awaits(Source(), want, header, from, close, count, depth, e, old(offset)) ==>
        r.Ok? && Awaits(Source(), want, header, from, close, count, depth, e.(children := e.children + [r.value]), offset)
      decreases |text| - offset, 1
    {
      ghost var at, before := offset, nodes;
      ghost var wanted := Awaits(Source(), want, header, from, close, count, depth, e, offset);
      ghost var next := want;
      if wanted { next := NextWanted(Source(), want, header, from, close, count, depth, e, base, emitted, offset, nodes); }
      r := ParseElement(Slot(base.parent, base.collection, emitted), depth + 1, Slot(header.authoring, "children", |e.children|), next);
      if r.Err? { return; }
      ghost var inner := offset;
      Space();
      if wanted { NextAwaits(Source(), want, header, from, close, count, depth, e, at, offset); }
      ChildRead(Source(), e, header, base, emitted, from, at, count, before, depth, r.value, inner, offset);
    }

    /** Succeeds exactly when the text is a program, and returns one it reads as. */
    method Parse() returns (r: Result<Element>)
      requires Valid() && GuestsAdvance()
      modifies this
      ensures SpansOk(spans, |text|)
      ensures r.Ok? ==> r.value.path == Root && WellPathed(r.value) && Nested(r.value) && r.value.end <= |text|
      ensures old(offset) == old(nodes) == 0 ==>
        if r.Ok? then Program(Source(), r.value) else forall e :: !Program(Source(), e)
    {
      ghost var first := offset == nodes == 0;
      ghost var wanted := exists e :: Program(Source(), e);
      ghost var want := if wanted then (var e :| Program(Source(), e); e) else Element("", Root, Root, [], [], 0, 0);
      SpansWiden(spans, offset, |text|);
      if |text| > MAX_SOURCE { return Err("SOURCE_LIMIT"); }
      Space();
      if first && wanted { OneSpaces(text, 0, offset, want.start); }
      r := ParseElement(Root, 0, Root, want);
      if r.Err? { return; }
      ghost var inner := offset;
      Space();
      SpansWiden(spans, offset, |text|);
      if first && wanted { OneSpaces(text, want.end, offset, |text|); }
      if offset != |text| { return Err("TRAILING_SOURCE"); }
    }
  }

  // ---- attributes read so far ----

  const Nothing: Attribute := Attribute("", Literal(""), 0, 0)

  /** What follows the last attribute is white space or looks like the end of the tag. */
  predicate LastApart(text: string, s: seq<Attribute>, at: nat) {
    s != [] ==> s[|s| - 1].end < at || (at < |text| && (text[at] == '/' || text[at] == '>'))
  }

  /** The attributes are the first of the wanted ones, and the next one starts here. */
  predicate Reached(want: seq<Attribute>, end: nat, s: seq<Attribute>, at: nat) {
    s <= want && at == NextAttribute(want, |s|, end)
  }

  lemma MoreReached(source: Source, want: seq<Attribute>, a: nat, end: nat, s: seq<Attribute>, at: nat)
    requires AttributesAt(source, want, a, end) && Reached(want, end, s, at) && !HeaderEnds(source.text, at)
    ensures |s| < |want| && AttributeStands(source, want, |s|, end) && want[|s|].start == at
  {
  }

  /** Read, it is followed by the next one or the end of the tag. */
  lemma NextReached(source: Source, want: seq<Attribute>, a: nat, end: nat, s: seq<Attribute>, b: nat)
    requires AttributesAt(source, want, a, end) && s <= want && |s| < |want| && Spaces(source.text, want[|s|].end, b)
    ensures Reached(want, end, s + [want[|s|]], b) && LastApart(source.text, s + [want[|s|]], b)
  {
    assert AttributeStands(source, want, |s|, end);
    OneSpaces(source.text, want[|s|].end, b, NextAttribute(want, |s| + 1, end));
  }

  lemma NamedAnew(want: seq<Attribute>, end: nat, s: seq<Attribute>, at: nat)
    requires NamesDiffer(want) && Reached(want, end, s, at) && |s| < |want|
    ensures FindAttribute(s, want[|s|].name).None?
  {
    FindFinds(s, want[|s|].name);
  }

  lemma AllReached(source: Source, want: seq<Attribute>, a: nat, end: nat, s: seq<Attribute>, at: nat)
    requires AttributesAt(source, want, a, end) && Reached(want, end, s, at) && HeaderEnds(source.text, at)
    ensures s == want && at == end
  {
    if |s| < |want| {
      assert AttributeStands(source, want, |s|, end);
      NotAtEnd(source, want[|s|]);
    }
  }

  lemma NotAtEnd(source: Source, t: Attribute)
    requires AttributeAt(source, t)
    ensures t.start < |source.text| && IsLetter(source.text[t.start]) && !HeaderEnds(source.text, t.start)
  {
  }

  lemma {:induction false} FindFinds(s: seq<Attribute>, name: string)
    ensures FindAttribute(s, name).Some? <==> exists i :: 0 <= i < |s| && s[i].name == name
  {
    if s != [] && s[0].name != name {
      FindFinds(s[1..], name);
      assert forall i :: 0 < i < |s| ==> s[i] == s[1..][i - 1];
      assert forall i :: 0 <= i < |s| - 1 ==> s[1..][i] == s[i + 1];
    }
  }

  lemma AttributeAdded(source: Source, s: seq<Attribute>, a: nat, at: nat, t: Attribute, b: nat)
    requires AttributesUpTo(source, s, a, at) && LastApart(source.text, s, at)
    requires AttributeAt(source, t) && t.start == at && Spaces(source.text, t.end, b)
    requires FindAttribute(s, t.name).None?
    ensures AttributesUpTo(source, s + [t], a, b)
  {
    FindFinds(s, t.name);
    NotAtEnd(source, t);
    forall i: nat | i < |s + [t]| ensures AttributeStands(source, s + [t], i, b) {
      if i < |s| { StillStands(source, s, i, at, t, b); }
    }
  }

  lemma StillStands(source: Source, s: seq<Attribute>, i: nat, at: nat, t: Attribute, b: nat)
    requires i < |s| && AttributeStands(source, s, i, at) && t.start == at && (i + 1 == |s| ==> s[i].end < at)
    ensures AttributeStands(source, s + [t], i, b)
  {
  }

  // ---- what the parser builds ----

  ghost predicate Produced(e: Element, path: Place, authoring: Place, start: nat, end: nat) {
    e.path == path && e.authoring == authoring && e.start == start && e.end == end && WellPathed(e) && Nested(e)
  }

  /** The element with the children parsed so far. */
  ghost predicate Growing(e: Element, header: Element, base: Base, emitted: nat, offset: nat) {
    && e == header.(children := e.children) && base == BaseOf(e)
    && WellPathed(e) && emitted == base.start + CountChildren(e, |e.children|)
    && ChildrenNested(e.children, e.start, offset)
  }

  lemma {:induction false} CountOfPrefix(e: Element, f: Element, i: nat)
    requires i <= |e.children| && i <= |f.children| && e.children[..i] == f.children[..i]
    ensures CountChildren(e, i) == CountChildren(f, i)
    decreases i
  {
    if i > 0 {
      assert e.children[..i - 1] == e.children[..i][..i - 1] == f.children[..i - 1];
      assert e.children[i - 1] == e.children[..i][i - 1] == f.children[i - 1];
      CountOfPrefix(e, f, i - 1);
    }
  }

  lemma ChildPathed(e: Element, child: Element)
    requires WellPathed(e) && WellPathed(child)
    requires child.path == Slot(BaseOf(e).parent, BaseOf(e).collection, BaseOf(e).start + CountChildren(e, |e.children|))
    requires child.authoring == Slot(e.authoring, "children", |e.children|)
    ensures WellPathed(e.(children := e.children + [child]))
  {
    var f := e.(children := e.children + [child]);
    forall i | 0 <= i < |f.children| ensures PathedChild(f, i) && WellPathed(f.children[i]) {
      assert f.children[..i] == e.children[..i];
      CountOfPrefix(e, f, i);
      if i < |e.children| {
        assert PathedChild(e, i) && WellPathed(e.children[i]);
        PathStays(e, f, i);
      }
    }
  }

  lemma PathStays(e: Element, f: Element, i: nat)
    requires i < |e.children| && i < |f.children| && PathedChild(e, i) && f.children[i] == e.children[i]
    requires BaseOf(e) == BaseOf(f) && e.authoring == f.authoring && CountChildren(e, i) == CountChildren(f, i)
    ensures PathedChild(f, i)
  {
  }

  lemma ChildAdded(e: Element, header: Element, base: Base, emitted: nat, child: Element, offset: nat)
    requires Growing(e, header, base, emitted, child.start) && e.start < child.start && offset == child.end
    requires Produced(child, Slot(base.parent, base.collection, emitted), Slot(header.authoring, "children", |e.children|), child.start, offset)
    ensures Growing(e.(children := e.children + [child]), header, base, emitted + DeclarationCount(child), offset)
  {
    var f := e.(children := e.children + [child]);
    ChildPathed(e, child);
    assert f.children[..|e.children|] == e.children[..|e.children|];
    CountOfPrefix(e, f, |e.children|);
    NestedAdded(e.children, e.start, child);
  }

  lemma NestedAdded(children: seq<Element>, start: nat, child: Element)
    requires ChildrenNested(children, start, child.start) && start < child.start && Nested(child)
    ensures ChildrenNested(children + [child], start, child.end)
  {
    forall i | 0 <= i < |children| ensures children[i].end <= child.start < child.end { }
  }

  lemma NestedLater(children: seq<Element>, start: nat, end: nat, later: nat)
    requires ChildrenNested(children, start, end) && end <= later
    ensures ChildrenNested(children, start, later)
  {
  }

  lemma BodyDone(e: Element, header: Element, base: Base, emitted: nat, inner: nat, end: nat)
    requires Growing(e, header, base, emitted, inner) && e.start < end && inner < end
    ensures Produced(e.(end := end), header.path, header.authoring, header.start, end)
  {
    var f := e.(end := end);
    forall i | 0 <= i < |f.children| ensures PathedChild(f, i) && WellPathed(f.children[i]) {
      assert f.children[..i] == e.children[..i];
      CountOfPrefix(e, f, i);
      assert PathedChild(e, i) && WellPathed(e.children[i]);
    }
  }

  // ---- elements read so far ----

  /** The header's element, with the children and the closing tag read from `b` on. */
  ghost predicate BodyRead(source: Source, e: Element, header: Element, b: nat, count: nat, nodes: nat, depth: nat) {
    && e == header.(children := e.children, end := e.end) && RestAt(source, e, b)
    && nodes == count + SizeUpTo(e, |e.children|) <= MAX_NODES && Fits(e, depth)
  }

  /** What the body of this header may read as. */
  ghost predicate BodyWanted(source: Source, want: Element, header: Element, b: nat, count: nat, depth: nat) {
    && want == header.(children := want.children, end := want.end) && WellPathed(want) && RestAt(source, want, b)
    && count + SizeUpTo(want, |want.children|) <= MAX_NODES && Fits(want, depth)
  }

  lemma ElementParts(source: Source, want: Element, count: nat, depth: nat) returns (first: nat, b: nat)
    requires Reads(source, want, want.path, want.authoring, want.start, count, depth)
    ensures HeaderAt(source, want, first, b) && RestAt(source, want, b) && count < MAX_NODES && depth <= MAX_DEPTH
  {
    first, b :| HeaderAt(source, want, first, b) && RestAt(source, want, b);
  }

  lemma RestWanted(source: Source, want: Element, header: Element, b: nat, count: nat, depth: nat)
    requires Reads(source, want, header.path, header.authoring, header.start, count, depth) && RestAt(source, want, b)
    requires header == want.(children := [], end := b)
    ensures BodyWanted(source, want, header, b, count + 1, depth)
  {
  }

  lemma EmptyWanted(source: Source, want: Element, header: Element, b: nat, count: nat, depth: nat)
    requires header.children == [] && StartsWith(source.text, b, "/>")
    ensures BodyWanted(source, want, header, b, count, depth) ==> want == header.(end := b + 2)
  {
  }

  lemma EmptyRead(source: Source, header: Element, b: nat, nodes: nat, depth: nat)
    requires header.children == [] && header.start < b && StartsWith(source.text, b, "/>") && nodes <= MAX_NODES && depth <= MAX_DEPTH
    ensures Produced(header.(end := b + 2), header.path, header.authoring, header.start, b + 2)
    ensures BodyRead(source, header.(end := b + 2), header, b, nodes, nodes, depth)
  {
  }

  lemma ElementRead(source: Source, e: Element, header: Element, from: nat, b: nat, count: nat, nodes: nat, depth: nat)
    requires HeaderAt(source, header, from, b) && WellPathed(e) && BodyRead(source, e, header, b, count + 1, nodes, depth)
    ensures Reads(source, e, header.path, header.authoring, header.start, count, depth) && nodes == count + Size(e)
  {
    assert HeaderAt(source, e, from, b);
  }

  /** The children read so far, up to the start of the next. */
  ghost predicate Gathered(source: Source, e: Element, from: nat, at: nat, count: nat, nodes: nat, depth: nat) {
    && ChildrenAt(source, e, from, at) && nodes == count + SizeUpTo(e, |e.children|) <= MAX_NODES && Fits(e, depth)
  }

  predicate ReachedChild(want: Element, close: nat, e: Element, at: nat) {
    e.children <= want.children && at == NextChild(want, |e.children|, close)
  }

  ghost predicate ChildWanted(source: Source, want: Element, header: Element, from: nat, close: nat, count: nat, depth: nat) {
    && want == header.(children := want.children, end := want.end) && WellPathed(want) && ChildrenAt(source, want, from, close)
    && count + SizeUpTo(want, |want.children|) <= MAX_NODES && Fits(want, depth) && StartsWith(source.text, close, "</")
  }

  /** Between two children. */
  ghost predicate Inside(source: Source, e: Element, header: Element, base: Base, emitted: nat,
                         from: nat, at: nat, count: nat, nodes: nat, depth: nat) {
    header.start < at && Growing(e, header, base, emitted, at) && Gathered(source, e, from, at, count, nodes, depth)
  }

  /** The children read are the first of the wanted ones, and the next of them starts here. */
  ghost predicate Awaits(source: Source, want: Element, header: Element, from: nat, close: nat, count: nat, depth: nat, e: Element, at: nat) {
    ChildWanted(source, want, header, from, close, count, depth) && ReachedChild(want, close, e, at)
  }

  lemma BodyParts(source: Source, want: Element, header: Element, b: nat, count: nat, depth: nat) returns (first: nat, close: nat)
    requires BodyWanted(source, want, header, b, count, depth) && !StartsWith(source.text, b, "/>")
    ensures StartsWith(source.text, b, ">") && Spaces(source.text, b + 1, first) && CloseAt(source.text, want.name, close, want.end)
    ensures ChildWanted(source, want, header, first, close, count, depth)
  {
    assert RestAt(source, want, b);
    first, close :| Spaces(source.text, b + 1, first) && BodyAt(source, want, first, close);
    ClosesPlainly(source.text, want.name, close, want.end);
  }

  lemma ClosesPlainly(text: string, name: string, a: nat, b: nat)
    requires CloseAt(text, name, a, b)
    ensures StartsWith(text, a, "</")
  {
    assert text[a..a + 2] == text[a..a + 2 + |name|][..2] == "</";
  }

  lemma StartsPlainly(source: Source, e: Element)
    requires ElementAt(source, e)
    ensures !StartsWith(source.text, e.start, "</")
  {
  }

  lemma NextWanted(source: Source, want: Element, header: Element, from: nat, close: nat, count: nat, depth: nat,
                   e: Element, base: Base, emitted: nat, at: nat, nodes: nat) returns (next: Element)
    requires Awaits(source, want, header, from, close, count, depth, e, at)
    requires Growing(e, header, base, emitted, at) && nodes == count + SizeUpTo(e, |e.children|) && !StartsWith(source.text, at, "</")
    ensures |e.children| < |want.children| && next == want.children[|e.children|]
    ensures Reads(source, next, Slot(base.parent, base.collection, emitted), Slot(header.authoring, "children", |e.children|), at, nodes, depth + 1)
  {
    var k := |e.children|;
    next := want.children[k];
    assert ChildStands(source, want, k, close);
    NextPlaced(want, header, e, base, emitted, at);
    NextFits(want, e, depth);
  }

  lemma NextPlaced(want: Element, header: Element, e: Element, base: Base, emitted: nat, at: nat)
    requires want == header.(children := want.children, end := want.end) && WellPathed(want)
    requires Growing(e, header, base, emitted, at) && e.children <= want.children && |e.children| < |want.children|
    ensures (var next := want.children[|e.children|];
      && WellPathed(next) && next.path == Slot(base.parent, base.collection, emitted)
      && next.authoring == Slot(header.authoring, "children", |e.children|))
  {
    assert PathedChild(want, |e.children|);
    assert want.children[..|e.children|] == e.children == e.children[..|e.children|];
    CountOfPrefix(e, want, |e.children|);
    assert BaseOf(want) == BaseOf(e);
  }

  lemma NextFits(want: Element, e: Element, depth: nat)
    requires e.children <= want.children && |e.children| < |want.children| && Fits(want, depth)
    ensures SizeUpTo(e, |e.children|) + Size(want.children[|e.children|]) <= SizeUpTo(want, |want.children|)
    ensures Fits(want.children[|e.children|], depth + 1)
  {
    assert want.children[..|e.children|] == e.children == e.children[..|e.children|];
    SizeOfPrefix(e, want, |e.children|);
    SizeGrows(want, |e.children| + 1, |want.children|);
  }

  lemma NextAwaits(source: Source, want: Element, header: Element, from: nat, close: nat, count: nat, depth: nat, e: Element, at: nat, b: nat)
    requires Awaits(source, want, header, from, close, count, depth, e, at) && |e.children| < |want.children|
    requires Spaces(source.text, want.children[|e.children|].end, b)
    ensures Awaits(source, want, header, from, close, count, depth, e.(children := e.children + [want.children[|e.children|]]), b)
  {
    assert ChildStands(source, want, |e.children|, close);
    OneSpaces(source.text, want.children[|e.children|].end, b, NextChild(want, |e.children| + 1, close));
    ReachesNext(want, close, e, at);
  }

  lemma ReachesNext(want: Element, close: nat, e: Element, at: nat)
    requires ReachedChild(want, close, e, at) && |e.children| < |want.children|
    ensures ReachedChild(want, close, e.(children := e.children + [want.children[|e.children|]]), NextChild(want, |e.children| + 1, close))
  {
  }

  lemma AllChildren(source: Source, want: Element, header: Element, from: nat, close: nat, count: nat, depth: nat, e: Element, at: nat)
    requires Awaits(source, want, header, from, close, count, depth, e, at) && StartsWith(source.text, at, "</")
    ensures e.children == want.children && at == close
  {
    if |e.children| < |want.children| {
      assert ChildStands(source, want, |e.children|, close);
      StartsPlainly(source, want.children[|e.children|]);
    }
  }

  lemma ChildRead(source: Source, e: Element, header: Element, base: Base, emitted: nat, from: nat, at: nat, count: nat, nodes: nat,
                  depth: nat, child: Element, inner: nat, b: nat)
    requires Inside(source, e, header, base, emitted, from, at, count, nodes, depth) && Spaces(source.text, inner, b)
    requires Produced(child, Slot(base.parent, base.collection, emitted), Slot(header.authoring, "children", |e.children|), at, inner)
    requires ElementAt(source, child) && nodes + Size(child) <= MAX_NODES && Fits(child, depth + 1)
    ensures Inside(source, e.(children := e.children + [child]), header, base, emitted + DeclarationCount(child), from, b, count, nodes + Size(child), depth)
  {
    ChildAdded(e, header, base, emitted, child, inner);
    NestedLater(e.children + [child], e.start, inner, b);
    ChildGathered(source, e, from, at, count, nodes, depth, child, b);
  }

  lemma ChildGathered(source: Source, e: Element, from: nat, at: nat, count: nat, nodes: nat, depth: nat, child: Element, b: nat)
    requires Gathered(source, e, from, at, count, nodes, depth) && child.start == at && ElementAt(source, child)
    requires nodes + Size(child) <= MAX_NODES && Fits(child, depth + 1) && Spaces(source.text, child.end, b)
    ensures Gathered(source, e.(children := e.children + [child]), from, b, count, nodes + Size(child), depth)
  {
    var f := e.(children := e.children + [child]);
    assert f.children[..|e.children|] == e.children == e.children[..|e.children|];
    SizeOfPrefix(e, f, |e.children|);
    forall i: nat | i < |f.children| ensures ChildStands(source, f, i, b) {
      if i < |e.children| { assert ChildStands(source, e, i, at); }
    }
  }

  lemma BodyGathered(source: Source, e: Element, header: Element, b: nat, from: nat, close: nat, end: nat, count: nat, nodes: nat, depth: nat)
    requires e == header.(children := e.children) && Gathered(source, e, from, close, count, nodes, depth)
    requires !StartsWith(source.text, b, "/>") && StartsWith(source.text, b, ">") && Spaces(source.text, b + 1, from)
    requires CloseAt(source.text, e.name, close, end)
    ensures BodyRead(source, e.(end := end), header, b, count, nodes, depth)
  {
    var f := e.(end := end);
    SizeOfPrefix(e, f, |e.children|);
    forall i: nat | i < |f.children| ensures ChildStands(source, f, i, close) {
      assert ChildStands(source, e, i, close);
    }
    assert BodyAt(source, f, from, close);
  }
}
