/** The string operations of the path parsers: splitting, joining and global replacement. */
module Strings {

  predicate Free(s: string, c: char) {
    c !in s
  }

  function Split(s: string, c: char): (r: seq<string>)
    ensures r != []
  {
    if s == "" then [""]
    else
      var rest := Split(s[1..], c);
      if s[0] == c then [""] + rest else [[s[0]] + rest[0]] + rest[1..]
  }

  function Join(parts: seq<string>, c: char): string
    requires parts != []
  {
    if |parts| == 1 then parts[0] else parts[0] + [c] + Join(parts[1..], c)
  }

  predicate AllFree(parts: seq<string>, c: char) {
    forall i :: 0 <= i < |parts| ==> Free(parts[i], c)
  }

  lemma {:induction false} JoinSplit(s: string, c: char)
    ensures Join(Split(s, c), c) == s
  {
    if s != "" {
      var rest := Split(s[1..], c);
      JoinSplit(s[1..], c);
      if s[0] == c {
        assert Split(s, c)[1..] == rest;
      } else {
        assert Split(s, c)[1..] == rest[1..];
      }
    }
  }

  lemma {:induction false} SplitIsFree(s: string, c: char)
    ensures AllFree(Split(s, c), c)
  {
    if s != "" { SplitIsFree(s[1..], c); }
  }

  /** A part without the separator is split off whole. */
  lemma {:induction false} SplitPart(part: string, c: char, rest: string)
    requires Free(part, c)
    ensures Split(part + [c] + rest, c) == [part] + Split(rest, c)
  {
    var s := part + [c] + rest;
    if part == "" {
      assert s[1..] == rest;
    } else {
      assert part[0] in part && part == [part[0]] + part[1..];
      SplitPart(part[1..], c, rest);
      assert s[1..] == part[1..] + [c] + rest;
    }
  }

  lemma {:induction false} SplitFree(part: string, c: char)
    requires Free(part, c)
    ensures Split(part, c) == [part]
  {
    if part != "" {
      assert part[0] in part && part == [part[0]] + part[1..];
      SplitFree(part[1..], c);
    }
  }

  lemma {:induction false} SplitJoin(parts: seq<string>, c: char)
    requires parts != [] && AllFree(parts, c)
    ensures Split(Join(parts, c), c) == parts
  {
    if |parts| == 1 {
      SplitFree(parts[0], c);
    } else {
      SplitJoin(parts[1..], c);
      SplitPart(parts[0], c, Join(parts[1..], c));
    }
  }

  lemma SplitStep(x: char, s: string, c: char)
    ensures Split([x] + s, c) ==
      (if x == c then [""] + Split(s, c) else [[x] + Split(s, c)[0]] + Split(s, c)[1..])
  {
    assert ([x] + s)[1..] == s;
  }

  lemma {:induction false} SplitConcat(a: string, c: char, rest: string)
    ensures Split(a + [c] + rest, c) == Split(a, c) + Split(rest, c)
  {
    if a == "" {
      assert "" + [c] + rest == [c] + rest;
      SplitStep(c, rest, c);
    } else {
      var x, t := a[0], a[1..];
      assert a == [x] + t && a + [c] + rest == [x] + (t + [c] + rest);
      SplitConcat(t, c, rest);
      SplitStep(x, t, c);
      SplitStep(x, t + [c] + rest, c);
    }
  }

  /** A text is left whole exactly when it is free of the separator. */
  lemma SplitIsWhole(s: string, c: char)
    ensures |Split(s, c)| == 1 <==> Free(s, c)
    ensures Free(s, c) ==> Split(s, c) == [s]
  {
    JoinSplit(s, c);
    SplitIsFree(s, c);
    if Free(s, c) { SplitFree(s, c); }
  }

  /** Replaces every `from` by the text `to`. */
  function ReplaceChar(s: string, from: char, to: string): string {
    if s == "" then "" else (if s[0] == from then to else [s[0]]) + ReplaceChar(s[1..], from, to)
  }

  /** Replaces every occurrence of the two characters `a`, `b`, left to right. */
  function ReplacePair(s: string, a: char, b: char, to: char): string {
    if |s| >= 2 && s[0] == a && s[1] == b then [to] + ReplacePair(s[2..], a, b, to)
    else if s == "" then ""
    else [s[0]] + ReplacePair(s[1..], a, b, to)
  }
}
