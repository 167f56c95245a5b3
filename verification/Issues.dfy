/** Validation issues and their normal form (validation.ts). */
module Issues {
  /* Duplicates are dropped, and the rest is sorted by stage where an order of stages is given, then by
     severity, namespace, path, code, validator and message. */

  import opened JsonData
  import opened Strings

  datatype Severity = Error | Warning | Info
  datatype Origin = StandardSchema | FunctionValidator | JsonSchemaAdapter | Rule | Middleware | AsyncValidator | Submit

  datatype Issue = Issue(
    code: string,
    message: string,
    severity: Severity,
    stage: Option<string>,
    ui: bool,
    segments: Path,
    origin: Origin,
    validatorId: string,
    emission: Option<nat>)

  // ---- order ----

  datatype Order = Less | Same | More

  function Flip(o: Order): Order {
    match o case Less => More case Same => Same case More => Less
  }

  function CompareInts(a: int, b: int): Order {
    if a < b then Less else if a > b then More else Same
  }

  function CompareStrings(a: string, b: string): Order {
    if a == "" || b == "" then CompareInts(|a|, |b|)
    else if a[0] < b[0] then Less
    else if a[0] > b[0] then More
    else CompareStrings(a[1..], b[1..])
  }

  /** The first segment whose text differs decides, then the length. */
  function ComparePaths(a: Path, b: Path): Order {
    if a == [] || b == [] then CompareInts(|a|, |b|)
    else Then(CompareStrings(SegmentText(a[0]), SegmentText(b[0])), ComparePaths(a[1..], b[1..]))
  }

  function Then(first: Order, second: Order): Order {
    if first.Same? then second else first
  }

  function Rank(s: Severity): int {
    match s case Error => 0 case Warning => 1 case Info => 2
  }

  function ComparePlaces(a: Issue, b: Issue): Order {
    Then(CompareInts(Rank(a.severity), Rank(b.severity)),
    Then(CompareInts(if a.ui then 1 else 0, if b.ui then 1 else 0), ComparePaths(a.segments, b.segments)))
  }

  function CompareTexts(a: Issue, b: Issue): Order {
    Then(CompareStrings(a.code, b.code),
    Then(CompareStrings(a.validatorId, b.validatorId), CompareStrings(a.message, b.message)))
  }

  /** The stages in their order, where `sortIssues` is given one. */
  type StageOrder = Option<seq<string>>

  function StageText(i: Issue): string {
    if i.stage.Some? then i.stage.value else ""
  }

  /** The last place of a stage in the list, because later entries of the map replace earlier ones. */
  function StagePlace(stages: seq<string>, stage: string): (r: Option<nat>)
    ensures r.Some? ==> r.value < |stages|
    ensures r.None? <==> stage !in stages
  {
    if stages == [] then None
    else
      var n := |stages| - 1;
      if stages[n] == stage then Some(n) else StagePlace(stages[..n], stage)
  }

  /** A stage that is not listed comes behind all that are. */
  function StageRank(o: StageOrder, i: Issue): nat {
    match o
    case None => 0
    case Some(stages) =>
      match StagePlace(stages, StageText(i)) case None => |stages| case Some(n) => n
  }

  function CompareStages(o: StageOrder, a: Issue, b: Issue): Order {
    CompareInts(StageRank(o, a), StageRank(o, b))
  }

  function CompareContents(a: Issue, b: Issue): Order {
    Then(ComparePlaces(a, b), CompareTexts(a, b))
  }

  /** The comparison of `sortIssues`: stage, then place, then texts. */
  function CompareIssues(o: StageOrder, a: Issue, b: Issue): Order {
    Then(CompareStages(o, a, b), CompareContents(a, b))
  }

  /** `o1`, `o2`, `o3` compare a with b, b with c and a with c. */
  predicate Chains(o1: Order, o2: Order, o3: Order) {
    && (o1.Same? ==> o3 == o2)
    && (o2.Same? ==> o3 == o1)
    && (o1 == o2 ==> o3 == o1)
  }

  lemma ThenChains(a1: Order, a2: Order, a3: Order, b1: Order, b2: Order, b3: Order)
    requires Chains(a1, a2, a3) && Chains(b1, b2, b3)
    ensures Chains(Then(a1, b1), Then(a2, b2), Then(a3, b3))
  {
  }

  lemma {:induction false} StringsChain(a: string, b: string, c: string)
    ensures Chains(CompareStrings(a, b), CompareStrings(b, c), CompareStrings(a, c))
    ensures CompareStrings(b, a) == Flip(CompareStrings(a, b))
  {
    if a != "" && b != "" {
      if c != "" {
        StringsChain(a[1..], b[1..], c[1..]);
      } else {
        StringsChain(a[1..], b[1..], "");
      }
    }
  }

  lemma {:induction false} PathsChain(a: Path, b: Path, c: Path)
    ensures Chains(ComparePaths(a, b), ComparePaths(b, c), ComparePaths(a, c))
    ensures ComparePaths(b, a) == Flip(ComparePaths(a, b))
  {
    if a != [] && b != [] {
      if c != [] {
        StringsChain(SegmentText(a[0]), SegmentText(b[0]), SegmentText(c[0]));
        PathsChain(a[1..], b[1..], c[1..]);
      } else {
        StringsChain(SegmentText(a[0]), SegmentText(b[0]), "");
        PathsChain(a[1..], b[1..], []);
      }
    }
  }

  lemma PlacesChain(a: Issue, b: Issue, c: Issue)
    ensures Chains(ComparePlaces(a, b), ComparePlaces(b, c), ComparePlaces(a, c))
  {
    PathsChain(a.segments, b.segments, c.segments);
  }

  lemma TextsChain(a: Issue, b: Issue, c: Issue)
    ensures Chains(CompareTexts(a, b), CompareTexts(b, c), CompareTexts(a, c))
  {
    StringsChain(a.code, b.code, c.code);
    StringsChain(a.validatorId, b.validatorId, c.validatorId);
    StringsChain(a.message, b.message, c.message);
  }

  /** The comparison is a total preorder: it chains, and swapping its arguments flips it. */
  lemma IssuesChain(o: StageOrder, a: Issue, b: Issue, c: Issue)
    ensures Chains(CompareIssues(o, a, b), CompareIssues(o, b, c), CompareIssues(o, a, c))
  {
    PlacesChain(a, b, c);
    TextsChain(a, b, c);
    ThenChains(ComparePlaces(a, b), ComparePlaces(b, c), ComparePlaces(a, c),
               CompareTexts(a, b), CompareTexts(b, c), CompareTexts(a, c));
    ThenChains(CompareStages(o, a, b), CompareStages(o, b, c), CompareStages(o, a, c),
               CompareContents(a, b), CompareContents(b, c), CompareContents(a, c));
  }

  lemma IssuesFlip(o: StageOrder, a: Issue, b: Issue)
    ensures CompareIssues(o, b, a) == Flip(CompareIssues(o, a, b))
  {
    StringsChain(a.code, b.code, "");
    StringsChain(a.validatorId, b.validatorId, "");
    StringsChain(a.message, b.message, "");
    PathsChain(a.segments, b.segments, []);
  }

  predicate Before(o: StageOrder, a: Issue, b: Issue) {
    !CompareIssues(o, a, b).More?
  }

  ghost predicate Sorted(o: StageOrder, s: seq<Issue>) {
    forall i, j :: 0 <= i < j < |s| ==> Before(o, s[i], s[j])
  }

  // ---- stable sorting ----

  /** Inserts behind everything that is not greater. */
  function Insert(o: StageOrder, s: seq<Issue>, x: Issue): seq<Issue> {
    if s == [] then [x]
    else
      var n := |s| - 1;
      if Before(o, s[n], x) then s + [x] else Insert(o, s[..n], x) + [s[n]]
  }

  function Sort(o: StageOrder, s: seq<Issue>): seq<Issue> {
    if s == [] then [] else Insert(o, Sort(o, s[..|s| - 1]), s[|s| - 1])
  }

  lemma {:induction false} InsertKeeps(o: StageOrder, s: seq<Issue>, x: Issue)
    ensures multiset(Insert(o, s, x)) == multiset(s) + multiset{x}
  {
    if s != [] {
      var n := |s| - 1;
      assert s == s[..n] + [s[n]];
      if !Before(o, s[n], x) { InsertKeeps(o, s[..n], x); }
    }
  }

  lemma InsertMembers(o: StageOrder, s: seq<Issue>, x: Issue)
    ensures forall y :: y in Insert(o, s, x) ==> y in s || y == x
  {
    InsertKeeps(o, s, x);
    forall y | y in Insert(o, s, x) ensures y in s || y == x {
      assert y in multiset(Insert(o, s, x));
    }
  }

  /** Whatever is inserted before the greatest member, that member stays the greatest. */
  lemma InsertStaysBelow(o: StageOrder, front: seq<Issue>, z: Issue, x: Issue)
    requires !Before(o, z, x) && forall i :: 0 <= i < |front| ==> Before(o, front[i], z)
    ensures forall i :: 0 <= i < |Insert(o, front, x)| ==> Before(o, Insert(o, front, x)[i], z)
  {
    IssuesFlip(o, z, x);
    InsertMembers(o, front, x);
    var r := Insert(o, front, x);
    forall i | 0 <= i < |r| ensures Before(o, r[i], z) { assert r[i] in r; }
  }

  lemma {:induction false} InsertSorts(o: StageOrder, s: seq<Issue>, x: Issue)
    requires Sorted(o, s)
    ensures Sorted(o, Insert(o, s, x))
  {
    if s != [] {
      var n := |s| - 1;
      if Before(o, s[n], x) {
        forall i | 0 <= i < n ensures Before(o, s[i], x) { IssuesChain(o, s[i], s[n], x); }
      } else {
        InsertSorts(o, s[..n], x);
        InsertStaysBelow(o, s[..n], s[n], x);
      }
    }
  }

  lemma {:induction false} SortKeeps(o: StageOrder, s: seq<Issue>)
    ensures multiset(Sort(o, s)) == multiset(s)
  {
    if s != [] {
      var n := |s| - 1;
      assert s == s[..n] + [s[n]];
      SortKeeps(o, s[..n]);
      InsertKeeps(o, Sort(o, s[..n]), s[n]);
    }
  }

  lemma {:induction false} SortSorts(o: StageOrder, s: seq<Issue>)
    ensures Sorted(o, Sort(o, s))
  {
    if s != [] {
      SortSorts(o, s[..|s| - 1]);
      InsertSorts(o, Sort(o, s[..|s| - 1]), s[|s| - 1]);
    }
  }

  lemma {:induction false} SortedStays(o: StageOrder, s: seq<Issue>)
    requires Sorted(o, s)
    ensures Sort(o, s) == s
  {
    if s != [] {
      var front, last := s[..|s| - 1], s[|s| - 1];
      SortedStays(o, front);
      assert front != [] ==> Before(o, front[|front| - 1], last);
      assert Insert(o, front, last) == front + [last];
    }
  }

  /** The members of `s` equal to `x` in the order of comparison, in their order in `s`. */
  function Ties(o: StageOrder, s: seq<Issue>, x: Issue): seq<Issue> {
    if s == [] then []
    else Ties(o, s[..|s| - 1], x) + Tie(o, s[|s| - 1], x)
  }

  function Tie(o: StageOrder, y: Issue, x: Issue): seq<Issue> {
    if CompareIssues(o, y, x).Same? then [y] else []
  }

  lemma TiesOfAppend(o: StageOrder, s: seq<Issue>, y: Issue, x: Issue)
    ensures Ties(o, s + [y], x) == Ties(o, s, x) + Tie(o, y, x)
  {
    assert (s + [y])[..|s|] == s;
  }

  lemma GreaterIsNoTie(o: StageOrder, z: Issue, y: Issue, x: Issue)
    requires !Before(o, z, y)
    ensures Tie(o, y, x) == [] || Tie(o, z, x) == []
  {
    IssuesFlip(o, y, x);
    IssuesChain(o, z, x, y);
  }

  lemma InsertBefore(o: StageOrder, front: seq<Issue>, z: Issue, y: Issue)
    requires !Before(o, z, y)
    ensures Insert(o, front + [z], y) == Insert(o, front, y) + [z]
  {
    assert (front + [z])[..|front|] == front;
  }

  lemma TiesSwap(o: StageOrder, front: seq<Issue>, z: Issue, y: Issue, x: Issue)
    requires !Before(o, z, y)
    ensures Ties(o, front, x) + Tie(o, y, x) + Tie(o, z, x) == Ties(o, front + [z], x) + Tie(o, y, x)
  {
    TiesOfAppend(o, front, z, x);
    GreaterIsNoTie(o, z, y, x);
  }

  lemma {:induction false} InsertTies(o: StageOrder, s: seq<Issue>, y: Issue, x: Issue)
    ensures Ties(o, Insert(o, s, y), x) == Ties(o, s, x) + Tie(o, y, x)
  {
    if s == [] || Before(o, s[|s| - 1], y) {
      TiesOfAppend(o, s, y, x);
    } else {
      var front, z := s[..|s| - 1], s[|s| - 1];
      assert s == front + [z];
      InsertTies(o, front, y, x);
      InsertBefore(o, front, z, y);
      TiesOfAppend(o, Insert(o, front, y), z, x);
      TiesSwap(o, front, z, y, x);
    }
  }

  /** Sorting is stable. */
  lemma {:induction false} SortIsStable(o: StageOrder, s: seq<Issue>, x: Issue)
    ensures Ties(o, Sort(o, s), x) == Ties(o, s, x)
  {
    if s != [] {
      SortIsStable(o, s[..|s| - 1], x);
      InsertTies(o, Sort(o, s[..|s| - 1]), s[|s| - 1], x);
    }
  }

  // ---- duplicates ----

  datatype DedupeKey = Emission(id: nat) | Composite(text: string)

  function SeverityText(s: Severity): string {
    match s case Error => "error" case Warning => "warning" case Info => "info"
  }

  function OriginText(o: Origin): string {
    match o
    case StandardSchema => "standard-schema"
    case FunctionValidator => "function-validator"
    case JsonSchemaAdapter => "json-schema-adapter"
    case Rule => "rule"
    case Middleware => "middleware"
    case AsyncValidator => "async-validator"
    case Submit => "submit"
  }

  function JoinSegments(p: Path): string {
    if p == [] then "" else Join(Texts(p), '.')
  }

  /** What the key of an issue joins with bars. */
  function Fields(i: Issue): seq<string> {
    [StageText(i), SeverityText(i.severity), Place(i), i.code, OriginText(i.origin), i.validatorId, i.message]
  }

  function Place(i: Issue): string {
    (if i.ui then "ui" else "data") + ":" + JoinSegments(i.segments)
  }

  function KeyText(i: Issue): string {
    Join(Fields(i), '|')
  }

  function KeyOf(i: Issue): DedupeKey {
    match i.emission case Some(id) => Emission(id) case None => Composite(KeyText(i))
  }

  function Keys(s: seq<Issue>): set<DedupeKey> {
    set i | i in s :: KeyOf(i)
  }

  ghost predicate NoDuplicates(s: seq<Issue>) {
    forall i, j :: 0 <= i < j < |s| ==> KeyOf(s[i]) != KeyOf(s[j])
  }

  function Dedupe(s: seq<Issue>): seq<Issue> {
    if s == [] then []
    else
      var front, last := s[..|s| - 1], s[|s| - 1];
      if KeyOf(last) in Keys(front) then Dedupe(front) else Dedupe(front) + [last]
  }

  /** The filter with its set of keys seen so far. */
  method DedupeIssues(issues: seq<Issue>) returns (r: seq<Issue>)
    ensures r == Dedupe(issues)
  {
    var seen: set<DedupeKey> := {};
    r := [];
    for i := 0 to |issues|
      invariant seen == Keys(issues[..i])
      invariant r == Dedupe(issues[..i])
    {
      var key := KeyOf(issues[i]);
      assert issues[..i + 1][..i] == issues[..i] && issues[..i + 1] == issues[..i] + [issues[i]];
      if key !in seen { r := r + [issues[i]]; }
      assert Keys(issues[..i + 1]) == Keys(issues[..i]) + {key};
      seen := seen + {key};
    }
    assert issues[..|issues|] == issues;
  }

  lemma {:induction false} DedupeKeeps(s: seq<Issue>)
    ensures Keys(Dedupe(s)) == Keys(s) && NoDuplicates(Dedupe(s))
    ensures forall x :: x in Dedupe(s) ==> x in s
  {
    if s != [] {
      var front, last := s[..|s| - 1], s[|s| - 1];
      DedupeKeeps(front);
      assert s == front + [last];
      assert Keys(s) == Keys(front) + {KeyOf(last)};
      if KeyOf(last) !in Keys(front) {
        assert Keys(Dedupe(front) + [last]) == Keys(Dedupe(front)) + {KeyOf(last)};
        forall i | 0 <= i < |Dedupe(front)| ensures KeyOf(Dedupe(front)[i]) != KeyOf(last) {
          assert KeyOf(Dedupe(front)[i]) in Keys(Dedupe(front));
        }
      }
    }
  }

  lemma {:induction false} DedupeStays(s: seq<Issue>)
    requires NoDuplicates(s)
    ensures Dedupe(s) == s
  {
    if s != [] {
      DedupeStays(s[..|s| - 1]);
      assert s == s[..|s| - 1] + [s[|s| - 1]];
    }
  }

  function Normalize(o: StageOrder, s: seq<Issue>): seq<Issue> {
    Sort(o, Dedupe(s))
  }

  /** The number of issues with a key, by which duplicates are told from any reordering. */
  function CountKey(s: seq<Issue>, k: DedupeKey): nat {
    if s == [] then 0 else CountKey(s[..|s| - 1], k) + (if KeyOf(s[|s| - 1]) == k then 1 else 0)
  }

  lemma CountOfAppend(s: seq<Issue>, x: Issue, k: DedupeKey)
    ensures CountKey(s + [x], k) == CountKey(s, k) + (if KeyOf(x) == k then 1 else 0)
  {
    assert (s + [x])[..|s|] == s;
  }

  lemma {:induction false} CountOfInsert(o: StageOrder, s: seq<Issue>, x: Issue, k: DedupeKey)
    ensures CountKey(Insert(o, s, x), k) == CountKey(s, k) + (if KeyOf(x) == k then 1 else 0)
  {
    if s == [] || Before(o, s[|s| - 1], x) {
      CountOfAppend(s, x, k);
    } else {
      var front, z := s[..|s| - 1], s[|s| - 1];
      assert s == front + [z];
      CountOfInsert(o, front, x, k);
      InsertBefore(o, front, z, x);
      CountOfAppend(Insert(o, front, x), z, k);
    }
  }

  lemma {:induction false} CountOfSort(o: StageOrder, s: seq<Issue>, k: DedupeKey)
    ensures CountKey(Sort(o, s), k) == CountKey(s, k)
  {
    if s != [] {
      CountOfSort(o, s[..|s| - 1], k);
      CountOfInsert(o, Sort(o, s[..|s| - 1]), s[|s| - 1], k);
    }
  }

  lemma {:induction false} CountPositive(s: seq<Issue>, i: nat)
    requires i < |s|
    ensures CountKey(s, KeyOf(s[i])) >= 1
  {
    if i < |s| - 1 {
      CountPositive(s[..|s| - 1], i);
      assert s[..|s| - 1][i] == s[i];
    }
  }

  lemma {:induction false} CountTwice(s: seq<Issue>, i: nat, j: nat)
    requires i < j < |s| && KeyOf(s[i]) == KeyOf(s[j])
    ensures CountKey(s, KeyOf(s[i])) >= 2
  {
    var front := s[..|s| - 1];
    if j < |s| - 1 {
      CountTwice(front, i, j);
    } else {
      CountPositive(front, i);
    }
  }

  lemma {:induction false} CountOnce(s: seq<Issue>, k: DedupeKey)
    requires NoDuplicates(s)
    ensures CountKey(s, k) <= 1
    ensures CountKey(s, k) == 1 ==> exists i :: 0 <= i < |s| && KeyOf(s[i]) == k
  {
    if s != [] {
      var front := s[..|s| - 1];
      CountOnce(front, k);
      if i :| 0 <= i < |front| && KeyOf(front[i]) == k {
        assert KeyOf(s[i]) != KeyOf(s[|s| - 1]);
      }
    }
  }

  lemma SortedHasNoDuplicates(o: StageOrder, s: seq<Issue>)
    requires NoDuplicates(s)
    ensures NoDuplicates(Sort(o, s))
  {
    var r := Sort(o, s);
    forall i, j | 0 <= i < j < |r| ensures KeyOf(r[i]) != KeyOf(r[j]) {
      CountOnce(s, KeyOf(r[i]));
      CountOfSort(o, s, KeyOf(r[i]));
      if KeyOf(r[i]) == KeyOf(r[j]) { CountTwice(r, i, j); }
    }
  }

  /** The normal form is sorted, has one issue a key, loses no key and is its own normal form. */
  lemma NormalForm(o: StageOrder, s: seq<Issue>)
    ensures Sorted(o, Normalize(o, s)) && NoDuplicates(Normalize(o, s)) && Keys(Normalize(o, s)) == Keys(s)
    ensures Normalize(o, Normalize(o, s)) == Normalize(o, s)
  {
    DedupeKeeps(s);
    SortSorts(o, Dedupe(s));
    SortKeepsKeys(o, Dedupe(s));
    SortedHasNoDuplicates(o, Dedupe(s));
    DedupeStays(Normalize(o, s));
    SortedStays(o, Normalize(o, s));
  }

  lemma SortKeepsKeys(o: StageOrder, s: seq<Issue>)
    ensures Keys(Sort(o, s)) == Keys(s)
  {
    SortKeeps(o, s);
    forall i ensures i in Sort(o, s) <==> i in s {
      assert i in Sort(o, s) <==> i in multiset(Sort(o, s));
      assert i in s <==> i in multiset(s);
    }
  }

  // ---- which paths share a key ----

  /** The pieces between the separators of all texts. */
  function Pieces(texts: seq<string>, c: char): seq<string> {
    if texts == [] then [] else Split(texts[0], c) + Pieces(texts[1..], c)
  }

  /** How a joined path reads: the empty path like one empty segment. */
  function Reading(p: Path): seq<string> {
    if p == [] then [""] else Pieces(Texts(p), '.')
  }

  lemma {:induction false} JoinReadsPieces(texts: seq<string>, c: char)
    requires texts != []
    ensures Split(Join(texts, c), c) == Pieces(texts, c)
  {
    if |texts| > 1 {
      JoinReadsPieces(texts[1..], c);
      SplitConcat(texts[0], c, Join(texts[1..], c));
    }
  }

  lemma JoinsShowPieces(a: seq<string>, b: seq<string>, c: char)
    requires a != [] && b != []
    ensures Join(a, c) == Join(b, c) <==> Pieces(a, c) == Pieces(b, c)
  {
    JoinReadsPieces(a, c);
    JoinReadsPieces(b, c);
    JoinSplit(Join(a, c), c);
    JoinSplit(Join(b, c), c);
  }

  lemma JoinReads(p: Path)
    ensures Split(JoinSegments(p), '.') == Reading(p)
    ensures Join(Reading(p), '.') == JoinSegments(p)
  {
    if p != [] { JoinReadsPieces(Texts(p), '.'); }
    JoinSplit(JoinSegments(p), '.');
  }

  /** In a joined text one part can be told from the others. */
  lemma {:induction false} JoinMiddle(front: seq<string>, x: string, y: string, rest: seq<string>, c: char)
    ensures Join(front + [x] + rest, c) == Join(front + [y] + rest, c) <==> x == y
  {
    if front == [] {
      assert [] + [x] + rest == [x] + rest && [] + [y] + rest == [y] + rest;
      assert ([x] + rest)[1..] == rest && ([y] + rest)[1..] == rest;
      if rest != [] {
        var tail := Join(rest, c);
        assert x + [c] + tail == x + ([c] + tail) && y + [c] + tail == y + ([c] + tail);
        SameHead(x, y, [c] + tail);
      }
    } else {
      JoinMiddle(front[1..], x, y, rest, c);
      assert (front + [x] + rest)[1..] == front[1..] + [x] + rest && (front + [y] + rest)[1..] == front[1..] + [y] + rest;
      SameTail(front[0] + [c], Join(front[1..] + [x] + rest, c), Join(front[1..] + [y] + rest, c));
    }
  }

  lemma SameHead(x: string, y: string, rest: string)
    ensures x + rest == y + rest <==> x == y
  {
    if x + rest == y + rest {
      assert |x| == |y|;
      assert x == (x + rest)[..|x|] && y == (y + rest)[..|y|];
    }
  }

  lemma SameTail(head: string, x: string, y: string)
    ensures head + x == head + y <==> x == y
  {
    if head + x == head + y { assert x == (head + x)[|head|..] && y == (head + y)[|head|..]; }
  }

  lemma KeyShowsJoin(i: Issue, p: Path, q: Path)
    requires i.emission.None?
    ensures KeyOf(i.(segments := p)) == KeyOf(i.(segments := q)) <==> JoinSegments(p) == JoinSegments(q)
  {
    var x, y := i.(segments := p), i.(segments := q);
    var front, rest := [StageText(i), SeverityText(i.severity)], [i.code, OriginText(i.origin), i.validatorId, i.message];
    assert Fields(x) == front + [Place(x)] + rest && Fields(y) == front + [Place(y)] + rest;
    JoinMiddle(front, Place(x), Place(y), rest, '|');
    SameTail((if i.ui then "ui" else "data") + ":", JoinSegments(p), JoinSegments(q));
  }

  /** Issues that differ in nothing but their paths share a key exactly when the two paths read the
      same once every segment is split at its dots. */
  lemma KeysShowReadings(i: Issue, p: Path, q: Path)
    requires i.emission.None?
    ensures KeyOf(i.(segments := p)) == KeyOf(i.(segments := q)) <==> Reading(p) == Reading(q)
  {
    KeyShowsJoin(i, p, q);
    JoinReads(p);
    JoinReads(q);
  }

  lemma {:induction false} FreePieces(texts: seq<string>, c: char)
    requires AllFree(texts, c)
    ensures Pieces(texts, c) == texts
  {
    if texts != [] {
      FreePieces(texts[1..], c);
      SplitFree(texts[0], c);
    }
  }

  /** Non-empty paths without dots share a key exactly when their texts are equal. */
  lemma DotFreeKeysDiffer(i: Issue, p: Path, q: Path)
    requires i.emission.None? && p != [] && q != []
    requires AllFree(Texts(p), '.') && AllFree(Texts(q), '.')
    ensures KeyOf(i.(segments := p)) == KeyOf(i.(segments := q)) <==> Texts(p) == Texts(q)
  {
    KeysShowReadings(i, p, q);
    FreePieces(Texts(p), '.');
    FreePieces(Texts(q), '.');
  }

  /** One segment, neither empty nor dotted. */
  predicate Plain(p: Path) {
    |p| == 1 && SegmentText(p[0]) != "" && Free(SegmentText(p[0]), '.')
  }

  /** A path that shares the key of one that is not plain. */
  function Partner(p: Path): Path {
    if p == [] then [Key("")]
    else if |p| > 1 then [Key(JoinSegments(p))]
    else if SegmentText(p[0]) == "" then []
    else KeyPath(Split(SegmentText(p[0]), '.'))
  }

  function KeyPath(texts: seq<string>): (r: Path)
    ensures Texts(r) == texts
  {
    seq(|texts|, i requires 0 <= i < |texts| => Key(texts[i]))
  }

  /** Every path with several segments, with a dot in one, or as good as empty shares its key with a
      path of other texts. */
  lemma DottedPathsCollide(i: Issue, p: Path)
    requires i.emission.None? && !Plain(p)
    ensures KeyOf(i.(segments := p)) == KeyOf(i.(segments := Partner(p))) && Texts(Partner(p)) != Texts(p)
  {
    KeyShowsJoin(i, p, Partner(p));
    if p != [] {
      JoinSplit(SegmentText(p[0]), '.');
      SplitIsWhole(SegmentText(p[0]), '.');
      assert |Texts(p)| == |p| && Texts(p)[0] == SegmentText(p[0]);
    }
    assert |Texts(Partner(p))| == |Partner(p)|;
  }

  lemma PiecesGrow(texts: seq<string>)
    ensures |Pieces(texts, '.')| >= |texts|
  {
  }

  /** The key of a path belongs to its texts alone exactly for one plain segment. */
  lemma KeyIsUnique(i: Issue, p: Path)
    requires i.emission.None?
    ensures (forall q :: KeyOf(i.(segments := q)) == KeyOf(i.(segments := p)) ==> Texts(q) == Texts(p)) <==> Plain(p)
  {
    if Plain(p) {
      forall q | KeyOf(i.(segments := q)) == KeyOf(i.(segments := p)) ensures Texts(q) == Texts(p) {
        PlainReads(p, q, i);
      }
    } else {
      DottedPathsCollide(i, p);
    }
  }

  lemma PlainReads(p: Path, q: Path, i: Issue)
    requires i.emission.None? && Plain(p) && KeyOf(i.(segments := q)) == KeyOf(i.(segments := p))
    ensures Texts(q) == Texts(p)
  {
    KeysShowReadings(i, p, q);
    FreePieces(Texts(p), '.');
    assert Reading(q) == [SegmentText(p[0])];
    if q != [] {
      PiecesGrow(Texts(q));
      assert Texts(q)[1..] == [];
      JoinSplit(Texts(q)[0], '.');
    }
  }

  // ---- which issues share a key ----

  /** Two issues share a key exactly when both were emitted under one id, or neither was emitted and
      their fields read the same once all of them are split at their bars. */
  lemma KeysShowFields(i: Issue, j: Issue)
    ensures KeyOf(i) == KeyOf(j) <==>
      i.emission == j.emission && (i.emission.None? ==> Pieces(Fields(i), '|') == Pieces(Fields(j), '|'))
  {
    JoinsShowPieces(Fields(i), Fields(j), '|');
  }

  /** Two different issues share a key when a bar moves from one field to the next: this one out of the
      validator's id into the message. */
  lemma BarsCollide(i: Issue, a: string, b: string, c: string)
    requires i.emission.None?
    ensures KeyOf(i.(validatorId := a + "|" + b, message := c)) == KeyOf(i.(validatorId := a, message := b + "|" + c))
  {
    var x, y := i.(validatorId := a + "|" + b, message := c), i.(validatorId := a, message := b + "|" + c);
    var front := [StageText(i), SeverityText(i.severity), Place(i), i.code, OriginText(i.origin)];
    assert Place(x) == Place(i) && Place(y) == Place(i);
    assert Fields(x) == front + [a + "|" + b, c] && Fields(y) == front + [a, b + "|" + c];
    assert [a + "|" + b, c][1..] == [c] && [a, b + "|" + c][1..] == [b + "|" + c];
    assert a + "|" + b + "|" + c == a + "|" + (b + "|" + c);
    SameEnds(front, [a + "|" + b, c], [a, b + "|" + c]);
  }

  lemma {:induction false} SameEnds(front: seq<string>, s: seq<string>, t: seq<string>)
    requires s != [] && t != [] && Join(s, '|') == Join(t, '|')
    ensures Join(front + s, '|') == Join(front + t, '|')
  {
    if front == [] {
      assert front + s == s && front + t == t;
    } else {
      SameEnds(front[1..], s, t);
      assert (front + s)[1..] == front[1..] + s && (front + t)[1..] == front[1..] + t;
    }
  }

  /** Without bars in the fields the issues that share a key agree in each of them, the paths up to
      their reading. */
  lemma BarFreeKeysDiffer(i: Issue, j: Issue)
    requires i.emission.None? && j.emission.None? && AllFree(Fields(i), '|') && AllFree(Fields(j), '|')
    ensures KeyOf(i) == KeyOf(j) <==>
      && StageText(i) == StageText(j) && i.severity == j.severity && i.ui == j.ui && i.code == j.code
      && i.origin == j.origin && i.validatorId == j.validatorId && i.message == j.message
      && Reading(i.segments) == Reading(j.segments)
  {
    KeysShowFields(i, j);
    FreePieces(Fields(i), '|');
    FreePieces(Fields(j), '|');
    SeverityTextsDiffer(i.severity, j.severity);
    OriginTextsDiffer(i.origin, j.origin);
    PlacesDiffer(i, j);
    assert Fields(i) == Fields(j) <==> forall k :: 0 <= k < 7 ==> Fields(i)[k] == Fields(j)[k];
  }

  lemma SeverityTextsDiffer(a: Severity, b: Severity)
    ensures SeverityText(a) == SeverityText(b) <==> a == b
  {
    assert "error"[0] == 'e' && "warning"[0] == 'w' && "info"[0] == 'i';
  }

  lemma OriginTextsDiffer(a: Origin, b: Origin)
    ensures OriginText(a) == OriginText(b) <==> a == b
  {
    assert "standard-schema"[1] == 't' && "submit"[1] == 'u';
    assert |"standard-schema"| == 15 && |"function-validator"| == 18 && |"json-schema-adapter"| == 19 && |"rule"| == 4;
    assert |"middleware"| == 10 && |"async-validator"| == 15 && |"submit"| == 6 && "async-validator"[0] == 'a' && "standard-schema"[0] == 's';
  }

  lemma PlacesDiffer(i: Issue, j: Issue)
    ensures Place(i) == Place(j) <==> i.ui == j.ui && Reading(i.segments) == Reading(j.segments)
  {
    JoinReads(i.segments);
    JoinReads(j.segments);
    var a, b := JoinSegments(i.segments), JoinSegments(j.segments);
    assert Place(i)[0] == (if i.ui then 'u' else 'd') && Place(j)[0] == (if j.ui then 'u' else 'd');
    if i.ui == j.ui {
      var n := if i.ui then 3 else 5;
      assert Place(i)[n..] == a && Place(j)[n..] == b;
    }
  }
}
