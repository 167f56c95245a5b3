/** The order of issues and what deduplication keeps. */
module IssueOrder {
  /* Every law about sorting in `Issues` is relative to its comparison, and every law about duplicates to
     its loop; this says what they are, without either. */

  import opened JsonData
  import opened Issues

  // ---- texts and paths ----

  /** At the first place where two texts differ, or at the end of the shorter. */
  ghost predicate TextLess(a: string, b: string) {
    exists k: nat :: TextLessAt(a, b, k)
  }

  predicate TextLessAt(a: string, b: string, k: nat) {
    k <= |a| && k < |b| && a[..k] == b[..k] && (k == |a| || a[k] < b[k])
  }

  lemma {:induction false} StringsOrdered(a: string, b: string)
    ensures CompareStrings(a, b).Less? <==> TextLess(a, b)
    ensures CompareStrings(a, b).Same? <==> a == b
  {
    if a == "" || b == "" {
      if a == "" && b != "" { assert TextLessAt(a, b, 0); }
    } else {
      StringsOrdered(a[1..], b[1..]);
      assert a == [a[0]] + a[1..] && b == [b[0]] + b[1..];
      TextLessTail(a, b);
    }
  }

  lemma TextLessTail(a: string, b: string)
    requires a != "" && b != ""
    ensures TextLess(a, b) <==> a[0] < b[0] || (a[0] == b[0] && TextLess(a[1..], b[1..]))
  {
    if a[0] < b[0] { assert TextLessAt(a, b, 0); }
    if a[0] == b[0] && TextLess(a[1..], b[1..]) {
      var k: nat :| TextLessAt(a[1..], b[1..], k);
      assert a[..k + 1] == [a[0]] + a[1..][..k] && b[..k + 1] == [b[0]] + b[1..][..k];
      assert TextLessAt(a, b, k + 1);
    }
    if k: nat :| TextLessAt(a, b, k) && k > 0 {
      assert a[..k][0] == a[0] && b[..k][0] == b[0];
      assert a[1..][..k - 1] == a[..k][1..] && b[1..][..k - 1] == b[..k][1..];
      assert TextLessAt(a[1..], b[1..], k - 1);
    }
  }

  ghost predicate PathLess(a: Path, b: Path) {
    exists k: nat :: PathLessAt(a, b, k)
  }

  /** At the first segment whose text differs, or at the end of the shorter path. */
  ghost predicate PathLessAt(a: Path, b: Path, k: nat) {
    && k <= |a| && k < |b| && Texts(a)[..k] == Texts(b)[..k]
    && (k == |a| || TextLess(SegmentText(a[k]), SegmentText(b[k])))
  }

  lemma TextsOfTail(a: Path)
    requires a != []
    ensures Texts(a) == [SegmentText(a[0])] + Texts(a[1..])
  {
  }

  lemma {:induction false} PathsOrdered(a: Path, b: Path)
    ensures ComparePaths(a, b).Less? <==> PathLess(a, b)
    ensures ComparePaths(a, b).Same? <==> Texts(a) == Texts(b)
  {
    assert |Texts(a)| == |a| && |Texts(b)| == |b|;
    if a == [] || b == [] {
      if a == [] && b != [] { assert PathLessAt(a, b, 0); }
    } else {
      StringsOrdered(SegmentText(a[0]), SegmentText(b[0]));
      PathsOrdered(a[1..], b[1..]);
      PathLessTail(a, b);
      TextsOfTail(a);
      TextsOfTail(b);
      assert Texts(a)[0] == SegmentText(a[0]) && Texts(a)[1..] == Texts(a[1..]);
      assert Texts(b)[0] == SegmentText(b[0]) && Texts(b)[1..] == Texts(b[1..]);
    }
  }

  /** The first segment aside. */
  ghost predicate PathLessFrom(a: Path, b: Path)
    requires a != [] && b != []
  {
    || TextLess(SegmentText(a[0]), SegmentText(b[0]))
    || (SegmentText(a[0]) == SegmentText(b[0]) && PathLess(a[1..], b[1..]))
  }

  lemma PathLessTail(a: Path, b: Path)
    requires a != [] && b != []
    ensures PathLess(a, b) <==> PathLessFrom(a, b)
  {
    if k: nat :| PathLessAt(a, b, k) { PathLessShrinks(a, b, k); }
    if TextLess(SegmentText(a[0]), SegmentText(b[0])) { assert PathLessAt(a, b, 0); }
    if k: nat :| SegmentText(a[0]) == SegmentText(b[0]) && PathLessAt(a[1..], b[1..], k) { PathLessGrows(a, b, k); }
  }

  lemma PathLessGrows(a: Path, b: Path, k: nat)
    requires a != [] && b != [] && SegmentText(a[0]) == SegmentText(b[0]) && PathLessAt(a[1..], b[1..], k)
    ensures PathLessAt(a, b, k + 1)
  {
    TextsOfTail(a);
    TextsOfTail(b);
    assert Texts(a)[..k + 1] == [SegmentText(a[0])] + Texts(a[1..])[..k];
    assert Texts(b)[..k + 1] == [SegmentText(b[0])] + Texts(b[1..])[..k];
  }

  lemma PathLessShrinks(a: Path, b: Path, k: nat)
    requires a != [] && b != [] && PathLessAt(a, b, k)
    ensures PathLessFrom(a, b)
  {
    if k > 0 {
      TextsOfTail(a);
      TextsOfTail(b);
      assert Texts(a)[..k][0] == SegmentText(a[0]) && Texts(b)[..k][0] == SegmentText(b[0]);
      assert Texts(a[1..])[..k - 1] == Texts(a)[..k][1..] && Texts(b[1..])[..k - 1] == Texts(b)[..k][1..];
      assert PathLessAt(a[1..], b[1..], k - 1);
    }
  }

  // ---- stages ----

  /** The stage is listed, and here for the last time. */
  predicate LastListed(stages: seq<string>, stage: string, i: nat) {
    i < |stages| && stages[i] == stage && forall j :: i < j < |stages| ==> stages[j] != stage
  }

  lemma {:induction false} PlaceIsLast(stages: seq<string>, stage: string)
    ensures StagePlace(stages, stage).Some? ==> LastListed(stages, stage, StagePlace(stages, stage).value)
  {
    if stages != [] && stages[|stages| - 1] != stage { PlaceIsLast(stages[..|stages| - 1], stage); }
  }

  /** With an order of stages a listed stage comes before a later one and before all unlisted ones. */
  ghost predicate StageLess(o: StageOrder, a: Issue, b: Issue) {
    o.Some? && exists i: nat :: LastListed(o.value, StageText(a), i) && ListedAfter(o.value, StageText(b), i)
  }

  ghost predicate ListedAfter(stages: seq<string>, stage: string, i: nat) {
    stage !in stages || (exists j: nat :: LastListed(stages, stage, j) && i < j)
  }

  /** Unlisted stages are all alike. */
  predicate StageAlike(o: StageOrder, a: Issue, b: Issue) {
    o.None? || StageText(a) == StageText(b) || (StageText(a) !in o.value && StageText(b) !in o.value)
  }

  lemma StagesOrdered(o: StageOrder, a: Issue, b: Issue)
    ensures CompareStages(o, a, b).Less? <==> StageLess(o, a, b)
    ensures CompareStages(o, a, b).Same? <==> StageAlike(o, a, b)
  {
    if o.Some? {
      PlaceIsLast(o.value, StageText(a));
      PlaceIsLast(o.value, StageText(b));
      if i: nat :| LastListed(o.value, StageText(a), i) { assert StageText(a) in o.value && StageRank(o, a) == i; }
      if j: nat :| LastListed(o.value, StageText(b), j) { assert StageText(b) in o.value && StageRank(o, b) == j; }
    }
  }

  // ---- issues ----

  /** Errors before warnings before information. */
  predicate Graver(a: Severity, b: Severity) {
    (a.Error? && !b.Error?) || (a.Warning? && b.Info?)
  }

  /** Stage first, then severity, data before ui, path, code, validator and message: the first of them
      that differs decides. */
  ghost predicate Precedes(o: StageOrder, a: Issue, b: Issue) {
    || StageLess(o, a, b)
    || (StageAlike(o, a, b) && (
          || Graver(a.severity, b.severity)
          || (a.severity == b.severity && (
                || (!a.ui && b.ui)
                || (a.ui == b.ui && (
                      || PathLess(a.segments, b.segments)
                      || (Texts(a.segments) == Texts(b.segments) && TextsPrecede(a, b))))))))
  }

  ghost predicate TextsPrecede(a: Issue, b: Issue) {
    || TextLess(a.code, b.code)
    || (a.code == b.code && (
          || TextLess(a.validatorId, b.validatorId)
          || (a.validatorId == b.validatorId && TextLess(a.message, b.message))))
  }

  predicate Ties(o: StageOrder, a: Issue, b: Issue) {
    && StageAlike(o, a, b) && a.severity == b.severity && a.ui == b.ui && Texts(a.segments) == Texts(b.segments)
    && a.code == b.code && a.validatorId == b.validatorId && a.message == b.message
  }

  lemma TextsOrdered(a: Issue, b: Issue)
    ensures CompareTexts(a, b).Less? <==> TextsPrecede(a, b)
    ensures CompareTexts(a, b).Same? <==> a.code == b.code && a.validatorId == b.validatorId && a.message == b.message
  {
    StringsOrdered(a.code, b.code);
    StringsOrdered(a.validatorId, b.validatorId);
    StringsOrdered(a.message, b.message);
  }

  lemma PlacesOrdered(a: Issue, b: Issue)
    ensures ComparePlaces(a, b).Less? <==>
      || Graver(a.severity, b.severity)
      || (a.severity == b.severity && ((!a.ui && b.ui) || (a.ui == b.ui && PathLess(a.segments, b.segments))))
    ensures ComparePlaces(a, b).Same? <==> a.severity == b.severity && a.ui == b.ui && Texts(a.segments) == Texts(b.segments)
  {
    PathsOrdered(a.segments, b.segments);
  }

  /** What the comparison decides. */
  lemma ComparisonIsOrder(o: StageOrder, a: Issue, b: Issue)
    ensures CompareIssues(o, a, b).Less? <==> Precedes(o, a, b)
    ensures CompareIssues(o, a, b).Same? <==> Ties(o, a, b)
  {
    StagesOrdered(o, a, b);
    PlacesOrdered(a, b);
    TextsOrdered(a, b);
  }

  /** So no sorted issue precedes one before it. */
  lemma SortedMeansOrdered(o: StageOrder, s: seq<Issue>, i: nat, j: nat)
    requires i < j < |Sort(o, s)|
    ensures !Precedes(o, Sort(o, s)[j], Sort(o, s)[i])
  {
    SortSorts(o, s);
    assert Before(o, Sort(o, s)[i], Sort(o, s)[j]);
    IssuesFlip(o, Sort(o, s)[i], Sort(o, s)[j]);
    ComparisonIsOrder(o, Sort(o, s)[j], Sort(o, s)[i]);
  }

  // ---- duplicates ----

  /** The first issue with its key. */
  predicate FirstOfKey(s: seq<Issue>, i: nat) {
    i < |s| && forall j :: 0 <= j < i ==> KeyOf(s[j]) != KeyOf(s[i])
  }

  /** The positions of the first issues, in their order. */
  ghost predicate FirstsAt(s: seq<Issue>, at: seq<nat>) {
    && (forall k, l :: 0 <= k < l < |at| ==> at[k] < at[l])
    && (forall i: nat :: i in at <==> FirstOfKey(s, i))
  }

  lemma KeyMember(s: seq<Issue>, x: Issue)
    ensures KeyOf(x) in Keys(s) <==> exists j :: 0 <= j < |s| && KeyOf(s[j]) == KeyOf(x)
  {
    if KeyOf(x) in Keys(s) {
      var y :| y in s && KeyOf(y) == KeyOf(x);
      var j :| 0 <= j < |s| && s[j] == y;
    }
  }

  /** One issue is kept for each of the positions. */
  predicate KeptAs(s: seq<Issue>, at: seq<nat>) {
    && |Dedupe(s)| == |at|
    && forall k :: 0 <= k < |at| ==> at[k] < |s| && Dedupe(s)[k] == s[at[k]]
  }

  /** Deduplication keeps the first issue of every key, in the order they came. */
  lemma {:induction false} FirstsAreKept(s: seq<Issue>) returns (at: seq<nat>)
    ensures FirstsAt(s, at) && KeptAs(s, at)
  {
    if s == [] {
      at := [];
    } else {
      var before := FirstsAreKept(s[..|s| - 1]);
      FirstsGrow(s, before);
      KeptGrow(s, before);
      at := Grown(s, before);
    }
  }

  /** The last position is added if its key is new. */
  function Grown(s: seq<Issue>, before: seq<nat>): seq<nat>
    requires s != []
  {
    if KeyOf(s[|s| - 1]) in Keys(s[..|s| - 1]) then before else before + [|s| - 1]
  }

  lemma FirstsOfFront(s: seq<Issue>, i: nat)
    requires i < |s| - 1
    ensures FirstOfKey(s, i) <==> FirstOfKey(s[..|s| - 1], i)
  {
    assert forall j :: 0 <= j <= i ==> s[..|s| - 1][j] == s[j];
  }

  lemma LastIsFirst(s: seq<Issue>)
    requires s != []
    ensures FirstOfKey(s, |s| - 1) <==> KeyOf(s[|s| - 1]) !in Keys(s[..|s| - 1])
  {
    KeyMember(s[..|s| - 1], s[|s| - 1]);
    assert forall j :: 0 <= j < |s| - 1 ==> s[..|s| - 1][j] == s[j];
  }

  lemma FirstsGrow(s: seq<Issue>, before: seq<nat>)
    requires s != [] && FirstsAt(s[..|s| - 1], before)
    ensures FirstsAt(s, Grown(s, before))
  {
    var at := Grown(s, before);
    forall k | 0 <= k < |before| ensures before[k] < |s| - 1 {
      assert before[k] in before;
    }
    LastIsFirst(s);
    forall i: nat ensures i in at <==> FirstOfKey(s, i) {
      if i < |s| - 1 { FirstsOfFront(s, i); }
    }
  }

  lemma KeptGrow(s: seq<Issue>, before: seq<nat>)
    requires s != [] && KeptAs(s[..|s| - 1], before)
    ensures KeptAs(s, Grown(s, before))
  {
    var front := s[..|s| - 1];
    assert forall k :: 0 <= k < |before| ==> front[before[k]] == s[before[k]];
  }
}
