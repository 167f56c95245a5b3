/** JSON Pointers and dot paths (path-pointer.ts, path-dot.ts, path-parser.ts) with the default
    namespaces. A thrown path error is `Invalid`. */
module Paths {
  import opened JsonData
  import opened Decimal
  import opened Strings

  datatype Namespace = DataSpace | UiSpace
  datatype CanonicalPath = CanonicalPath(namespace: Namespace, segments: Path)
  datatype Parsed = Valid(path: CanonicalPath) | Invalid

  // ---- JSON Pointer segments ----

  predicate ValidEscapes(raw: string) {
    forall i :: 0 <= i < |raw| && raw[i] == '~' ==> i + 1 < |raw| && (raw[i + 1] == '0' || raw[i + 1] == '1')
  }

  method ValidatePointerEscapes(raw: string) returns (ok: bool)
    ensures ok <==> ValidEscapes(raw)
  {
    var i := 0;
    while i < |raw|
      invariant 0 <= i <= |raw|
      invariant forall k :: 0 <= k < i && raw[k] == '~' ==> k + 1 < |raw| && (raw[k + 1] == '0' || raw[k + 1] == '1')
    {
      if raw[i] == '~' {
        if i + 1 == |raw| || (raw[i + 1] != '0' && raw[i + 1] != '1') { return false; }
      }
      i := i + 1;
    }
    ok := true;
  }

  /** First every `~1`, then every `~0`. */
  function Decode(raw: string): string {
    ReplacePair(ReplacePair(raw, '~', '1', '/'), '~', '0', '~')
  }

  /** First every `~`, then every `/`. */
  function Encode(text: string): string {
    ReplaceChar(ReplaceChar(text, '~', "~0"), '/', "~1")
  }

  /** The escape rule of RFC 6901 section 4 read in one pass. */
  function Unescape(raw: string): string {
    if raw == "" then ""
    else if |raw| >= 2 && raw[0] == '~' && raw[1] == '1' then "/" + Unescape(raw[2..])
    else if |raw| >= 2 && raw[0] == '~' && raw[1] == '0' then "~" + Unescape(raw[2..])
    else [raw[0]] + Unescape(raw[1..])
  }

  function Escape(text: string): string {
    if text == "" then ""
    else (if text[0] == '~' then "~0" else if text[0] == '/' then "~1" else [text[0]]) + Escape(text[1..])
  }

  lemma EscapesTail(raw: string, n: nat)
    requires ValidEscapes(raw) && n <= |raw|
    ensures ValidEscapes(raw[n..])
  {
    forall i | 0 <= i < |raw[n..]| && raw[n..][i] == '~'
      ensures i + 1 < |raw[n..]| && (raw[n..][i + 1] == '0' || raw[n..][i + 1] == '1')
    {
      assert raw[n + i] == '~';
    }
  }

  /** Between the passes an escape that is left is `~0`; the first character is unchanged unless it
      started `~1`. */
  lemma {:induction false} TwoPassStep(raw: string)
    requires ValidEscapes(raw) && raw != ""
    ensures var first := ReplacePair(raw, '~', '1', '/');
      if raw[0] == '~' && raw[1] == '1' then first == "/" + ReplacePair(raw[2..], '~', '1', '/')
      else if raw[0] == '~' then first == "~0" + ReplacePair(raw[2..], '~', '1', '/')
      else first == [raw[0]] + ReplacePair(raw[1..], '~', '1', '/')
  {
    if raw[0] == '~' && raw[1] == '0' {
      assert raw[1..][0] == '0' && raw[1..][1..] == raw[2..];
    }
  }

  /** The two-pass decoding is the one-pass rule on every valid segment. */
  lemma {:induction false} TwoPassIsUnescape(raw: string)
    requires ValidEscapes(raw)
    ensures Decode(raw) == Unescape(raw)
  {
    if raw != "" {
      TwoPassStep(raw);
      var first := ReplacePair(raw, '~', '1', '/');
      if raw[0] == '~' {
        EscapesTail(raw, 2);
        TwoPassIsUnescape(raw[2..]);
        var rest := ReplacePair(raw[2..], '~', '1', '/');
        if raw[1] == '1' {
          assert first[1..] == rest;
        } else {
          assert first[2..] == rest;
        }
      } else {
        EscapesTail(raw, 1);
        TwoPassIsUnescape(raw[1..]);
        assert first[1..] == ReplacePair(raw[1..], '~', '1', '/');
      }
    }
  }

  lemma {:induction false} ReplaceConcat(a: string, b: string, from: char, to: string)
    ensures ReplaceChar(a + b, from, to) == ReplaceChar(a, from, to) + ReplaceChar(b, from, to)
  {
    if a == "" {
      assert a + b == b;
    } else {
      assert (a + b)[1..] == a[1..] + b;
      ReplaceConcat(a[1..], b, from, to);
    }
  }

  lemma {:induction false} TwoPassIsEscape(text: string)
    ensures Encode(text) == Escape(text)
  {
    if text != "" {
      var head := if text[0] == '~' then "~0" else [text[0]];
      var rest := ReplaceChar(text[1..], '~', "~0");
      ReplaceConcat(head, rest, '/', "~1");
      TwoPassIsEscape(text[1..]);
      assert ReplaceChar("~0", '/', "~1") == "~0" by {
        assert "~0"[1..] == "0" && "0"[1..] == "";
        assert ReplaceChar("0", '/', "~1") == "0";
      }
      assert [text[0]][1..] == "";
    }
  }

  lemma {:induction false} EscapeIsValid(text: string)
    ensures ValidEscapes(Escape(text)) && Free(Escape(text), '/')
    ensures Unescape(Escape(text)) == text
  {
    if text != "" {
      EscapeIsValid(text[1..]);
      var rest := Escape(text[1..]);
      if text[0] == '~' || text[0] == '/' {
        assert Escape(text)[2..] == rest;
        ShiftEscapes(Escape(text), 2, rest);
      } else {
        assert Escape(text)[1..] == rest;
        ShiftEscapes(Escape(text), 1, rest);
      }
    }
  }

  lemma ShiftEscapes(raw: string, n: nat, rest: string)
    requires 1 <= n <= |raw| && raw[n..] == rest && ValidEscapes(rest)
    requires raw[0] == '~' ==> n == 2 && (raw[1] == '0' || raw[1] == '1')
    requires n == 2 ==> raw[1] != '~'
    requires n <= 2
    ensures ValidEscapes(raw)
  {
    forall i | 0 <= i < |raw| && raw[i] == '~' ensures i + 1 < |raw| && (raw[i + 1] == '0' || raw[i + 1] == '1') {
      if i >= n { assert rest[i - n] == '~'; }
    }
  }

  lemma {:induction false} EscapeUnescape(raw: string)
    requires ValidEscapes(raw) && Free(raw, '/')
    ensures Escape(Unescape(raw)) == raw
  {
    if raw != "" {
      assert raw[0] != '/';
      if raw[0] == '~' {
        EscapesTail(raw, 2);
        EscapeUnescape(raw[2..]);
        assert raw == raw[..2] + raw[2..];
        assert Unescape(raw)[1..] == Unescape(raw[2..]);
      } else {
        EscapesTail(raw, 1);
        EscapeUnescape(raw[1..]);
        assert Unescape(raw)[1..] == Unescape(raw[1..]);
      }
    }
  }

  /** Encoding and decoding of one segment undo each other. */
  lemma SegmentRoundTrip(text: string)
    ensures ValidEscapes(Encode(text)) && Free(Encode(text), '/') && Decode(Encode(text)) == text
  {
    TwoPassIsEscape(text);
    EscapeIsValid(text);
    TwoPassIsUnescape(Encode(text));
  }

  lemma RawRoundTrip(raw: string)
    requires ValidEscapes(raw) && Free(raw, '/')
    ensures Encode(Decode(raw)) == raw
  {
    TwoPassIsUnescape(raw);
    TwoPassIsEscape(Decode(raw));
    EscapeUnescape(raw);
  }

  // ---- pointers ----

  predicate AllValidEscapes(parts: seq<string>) {
    forall i :: 0 <= i < |parts| ==> ValidEscapes(parts[i])
  }

  function DecodeAll(parts: seq<string>): Path {
    seq(|parts|, i requires 0 <= i < |parts| => Key(Decode(parts[i])))
  }

  function EncodeAll(segments: Path): seq<string> {
    seq(|segments|, i requires 0 <= i < |segments| => Encode(SegmentText(segments[i])))
  }

  function ParsePointer(input: string): Parsed {
    var raw := Split(input, '/')[1..];
    if AllValidEscapes(raw) then Valid(CanonicalPath(DataSpace, DecodeAll(raw))) else Invalid
  }

  /** None for a path of the ui namespace. */
  function ToPointer(p: CanonicalPath): Option<string> {
    if p.namespace.UiSpace? then None
    else if p.segments == [] then Some("")
    else Some("/" + Join(EncodeAll(p.segments), '/'))
  }

  /** A pointer as RFC 6901 section 3 has it: empty, or starting with a slash, with valid escapes. */
  predicate IsPointer(input: string) {
    input == "" || (input[0] == '/' && AllValidEscapes(Split(input, '/')[1..]))
  }

  lemma SplitSlash(rest: string)
    ensures Split("/" + rest, '/') == [""] + Split(rest, '/')
  {
    assert ("/" + rest)[1..] == rest;
  }

  /** Printing and parsing a data path: indices come back as the keys of their text, so exactly the
      paths of keys come back unchanged. */
  lemma PointerOfPath(p: CanonicalPath)
    requires p.namespace.DataSpace? && p.segments != []
    ensures ToPointer(p).Some? && IsPointer(ToPointer(p).value)
    ensures ParsePointer(ToPointer(p).value) ==
      Valid(CanonicalPath(DataSpace, seq(|p.segments|, i requires 0 <= i < |p.segments| => Key(SegmentText(p.segments[i])))))
  {
    var parts := EncodeAll(p.segments);
    forall i | 0 <= i < |parts| ensures Free(parts[i], '/') && ValidEscapes(parts[i]) && Decode(parts[i]) == SegmentText(p.segments[i]) {
      SegmentRoundTrip(SegmentText(p.segments[i]));
    }
    SplitSlash(Join(parts, '/'));
    SplitJoin(parts, '/');
    assert Split(ToPointer(p).value, '/')[1..] == parts;
  }

  predicate AllKeys(p: Path) {
    forall i :: 0 <= i < |p| ==> p[i].Key?
  }

  lemma KeyPathsRoundTrip(p: CanonicalPath)
    requires p.namespace.DataSpace?
    ensures ParsePointer(ToPointer(p).value) == Valid(p) <==> AllKeys(p.segments)
  {
    if p.segments == [] {
      assert Split("", '/')[1..] == [];
    } else {
      PointerOfPath(p);
      var texts := seq(|p.segments|, i requires 0 <= i < |p.segments| => Key(SegmentText(p.segments[i])));
      if texts == p.segments {
        forall i | 0 <= i < |p.segments| ensures p.segments[i].Key? { assert texts[i] == p.segments[i]; }
      }
      if AllKeys(p.segments) { assert texts == p.segments; }
    }
  }

  /** Parsing and printing a pointer gives it back, the empty pointer of the whole document included. */
  lemma PathOfPointer(input: string)
    requires IsPointer(input)
    ensures ParsePointer(input).Valid? && ToPointer(ParsePointer(input).path) == Some(input)
  {
    if input == "" {
      assert Split("", '/')[1..] == [];
    } else {
      SplitSlash(input[1..]);
      assert input == "/" + input[1..];
      var raw := Split(input, '/')[1..];
      assert raw == Split(input[1..], '/');
      SplitIsFree(input[1..], '/');
      forall i | 0 <= i < |raw| ensures Encode(Decode(raw[i])) == raw[i] { RawRoundTrip(raw[i]); }
      assert EncodeAll(DecodeAll(raw)) == raw;
      JoinSplit(input[1..], '/');
    }
  }

  // ---- dot paths ----

  const UI_PREFIX := "$ui"

  predicate DotSafeChar(c: char) {
    'a' <= c <= 'z' || 'A' <= c <= 'Z' || '0' <= c <= '9' || c == '_' || c == '-'
  }

  predicate DotSafeText(s: string) {
    s != "" && forall i :: 0 <= i < |s| ==> DotSafeChar(s[i])
  }

  /** Segments the dot printer accepts: safe text, and no string that reads as a number. */
  predicate DotSafe(s: Segment) {
    DotSafeText(SegmentText(s)) && (s.Key? ==> !IsCanonical(s.key))
  }

  function JoinDots(segments: Path): string {
    if segments == [] then "" else Join(Texts(segments), '.')
  }

  /** None where the printer throws. */
  function ToDot(p: CanonicalPath): Option<string> {
    if forall i :: 0 <= i < |p.segments| ==> DotSafe(p.segments[i])
    then Some((if p.namespace.UiSpace? then UI_PREFIX + "." else "") + JoinDots(p.segments))
    else None
  }

  predicate ValidDotRaw(raw: string) {
    raw != "" && raw[0] != '.' && raw[|raw| - 1] != '.' && forall i :: 0 <= i < |raw| - 1 ==> !(raw[i] == '.' && raw[i + 1] == '.')
  }

  function DotSegment(text: string): Segment {
    if IsCanonical(text) then Index(Parse(text)) else Key(text)
  }

  function DotSegments(parts: seq<string>): Path {
    seq(|parts|, i requires 0 <= i < |parts| => DotSegment(parts[i]))
  }

  function ParseRaw(ns: Namespace, raw: string): Parsed {
    if ValidDotRaw(raw) then Valid(CanonicalPath(ns, DotSegments(Split(raw, '.')))) else Invalid
  }

  function ParseDot(input: string): Parsed {
    if UI_PREFIX + "." <= input then ParseRaw(UiSpace, input[|UI_PREFIX| + 1..])
    else if input == UI_PREFIX then Invalid
    else ParseRaw(DataSpace, input)
  }

  /** `parsePath` without its cache. */
  function ParsePath(input: string): Parsed {
    if input == "" then Valid(CanonicalPath(DataSpace, []))
    else if UI_PREFIX + "/" <= input then Invalid
    else if input[0] == '/' then ParsePointer(input)
    else ParseDot(input)
  }

  lemma {:induction false} JoinKeepsShape(parts: seq<string>)
    requires parts != [] && forall i :: 0 <= i < |parts| ==> parts[i] != "" && Free(parts[i], '.')
    ensures ValidDotRaw(Join(parts, '.')) && Join(parts, '.')[0] == parts[0][0]
  {
    var first := parts[0];
    assert first[0] in first && first[|first| - 1] in first;
    forall i | 0 <= i < |first| ensures first[i] != '.' { assert first[i] in first; }
    if |parts| > 1 {
      var rest := Join(parts[1..], '.');
      JoinKeepsShape(parts[1..]);
      assert Join(parts, '.') == first + ['.'] + rest;
    }
  }

  lemma DotSafeIsFree(text: string)
    requires DotSafeText(text)
    ensures text != "" && Free(text, '.') && text[0] != '/' && text[0] != '$'
  {
  }

  lemma DotSegmentOfText(s: Segment)
    requires DotSafe(s)
    ensures DotSegment(SegmentText(s)) == s <==> (s.Index? ==> s.index >= 0)
  {
    if s.Index? && s.index >= 0 {
      RenderIsCanonical(s.index);
      ParseRender(s.index);
    }
  }

  lemma RawRoundTripDots(ns: Namespace, segments: Path)
    requires segments != [] && forall i :: 0 <= i < |segments| ==> DotSafe(segments[i])
    ensures ParseRaw(ns, JoinDots(segments)) == Valid(CanonicalPath(ns, DotSegments(Texts(segments))))
    ensures JoinDots(segments) != "" && JoinDots(segments)[0] != '/' && JoinDots(segments)[0] != '$'
  {
    var parts := Texts(segments);
    forall i | 0 <= i < |parts| ensures parts[i] != "" && Free(parts[i], '.') && parts[i][0] != '/' && parts[i][0] != '$' {
      DotSafeIsFree(parts[i]);
    }
    JoinKeepsShape(parts);
    SplitJoin(parts, '.');
  }

  /** What parsing a printed path gives: the same path with every segment read from its text. */
  lemma ParseOfDot(p: CanonicalPath)
    requires p.segments != [] && ToDot(p).Some?
    ensures ParsePath(ToDot(p).value) == Valid(CanonicalPath(p.namespace, DotSegments(Texts(p.segments))))
  {
    RawRoundTripDots(p.namespace, p.segments);
    var raw, text := JoinDots(p.segments), ToDot(p).value;
    if p.namespace.UiSpace? {
      assert text == UI_PREFIX + "." + raw && text[3] == '.';
      assert text[|UI_PREFIX| + 1..] == raw;
    } else {
      assert text == raw;
    }
  }

  predicate NoNegativeIndex(p: Path) {
    forall i :: 0 <= i < |p| ==> p[i].Index? ==> p[i].index >= 0
  }

  lemma SegmentsComeBack(segments: Path)
    requires forall i :: 0 <= i < |segments| ==> DotSafe(segments[i])
    ensures DotSegments(Texts(segments)) == segments <==> NoNegativeIndex(segments)
  {
    var back := DotSegments(Texts(segments));
    forall i | 0 <= i < |segments|
      ensures back[i] == segments[i] <==> (segments[i].Index? ==> segments[i].index >= 0)
    {
      DotSegmentOfText(segments[i]);
    }
    if NoNegativeIndex(segments) { assert back == segments; }
  }

  /** A printed path parses back to itself exactly when it is not the empty ui path and has no
      negative index. */
  lemma DotRoundTrip(p: CanonicalPath)
    requires ToDot(p).Some?
    ensures ParsePath(ToDot(p).value) == Valid(p) <==> p != CanonicalPath(UiSpace, []) && NoNegativeIndex(p.segments)
  {
    if p.segments != [] {
      ParseOfDot(p);
      SegmentsComeBack(p.segments);
    } else if p.namespace.UiSpace? {
      EmptyUiPath();
    }
  }

  /** The empty path of the ui namespace is printed to text no parser accepts. */
  lemma EmptyUiPath()
    ensures ToDot(CanonicalPath(UiSpace, [])) == Some("$ui.") && ParsePath("$ui.") == Invalid
  {
    assert UI_PREFIX + "." + "" == "$ui.";
    assert "$ui."[|UI_PREFIX| + 1..] == "";
    assert "$ui."[3] == '.';
  }

  lemma TextOfDotSegment(text: string)
    ensures SegmentText(DotSegment(text)) == text
  {
    if IsCanonical(text) { RenderParse(text); }
  }

  lemma ReadDotPrints(input: string)
    requires input != "" && input[0] != '/' && ParsePath(input).Valid? && ToDot(ParsePath(input).path).Some?
    ensures ToDot(ParsePath(input).path) == Some(input)
  {
    var ui := UI_PREFIX + "." <= input;
    var raw := if ui then input[|UI_PREFIX| + 1..] else input;
    var parts := Split(raw, '.');
    forall i | 0 <= i < |parts| ensures SegmentText(DotSegment(parts[i])) == parts[i] { TextOfDotSegment(parts[i]); }
    assert Texts(DotSegments(parts)) == parts;
    JoinSplit(raw, '.');
    assert ParsePath(input).path.segments == DotSegments(parts);
    assert JoinDots(DotSegments(parts)) == raw;
    if ui {
      assert input == UI_PREFIX + "." + raw;
    } else {
      assert "" + raw == raw;
    }
  }

  lemma DotStartsUnlikePointer(p: CanonicalPath)
    requires ToDot(p).Some?
    ensures ToDot(p).value != "" ==> ToDot(p).value[0] != '/'
  {
    if p.segments != [] { RawRoundTripDots(p.namespace, p.segments); }
  }

  /** A text whose path can be printed prints back to itself exactly when it is no slash pointer. */
  lemma DotOfParse(input: string)
    requires ParsePath(input).Valid? && ToDot(ParsePath(input).path).Some?
    ensures ToDot(ParsePath(input).path) == Some(input) <==> input == "" || input[0] != '/'
  {
    if input != "" {
      DotStartsUnlikePointer(ParsePath(input).path);
      if input[0] != '/' { ReadDotPrints(input); }
    } else {
      var root := CanonicalPath(DataSpace, []);
      assert ParsePath(input) == Valid(root);
      assert root.segments == [] && |ToDot(root).value| == 0;
    }
  }

  // ---- the parse cache ----

  const PATH_CACHE_MAX := 1000

  class PathParser {
    var cache: map<string, CanonicalPath>

    /** Every cached answer is the one a fresh parse would give. */
    ghost predicate Transparent()
      reads this
    {
      && |cache| <= PATH_CACHE_MAX + (if "" in cache then 1 else 0)
      && forall input :: input in cache ==> ParsePath(input) == Valid(cache[input])
    }

    constructor ()
      ensures Transparent() && cache == map[]
    {
      cache := map[];
    }

    /** The cache cannot be observed: the answer is that of the pure parser. Errors are not cached. */
    method Lookup(input: string) returns (r: Parsed)
      requires Transparent()
      modifies this
      ensures Transparent() && r == ParsePath(input)
      ensures r.Valid? ==> input in cache
      ensures r.Invalid? ==> cache == old(cache)
    {
      if input in cache { return Valid(cache[input]); }
      if input == "" {
        cache := cache[input := CanonicalPath(DataSpace, [])];
        return Valid(CanonicalPath(DataSpace, []));
      }
      r := ParsePath(input);
      if r.Invalid? { return; }
      if |cache| >= PATH_CACHE_MAX { cache := map[]; }
      cache := cache[input := r.path];
    }
  }
}
