/** Field metadata under its textual keys and the way it follows array rows (field-meta-shift.ts,
    array-helpers.ts, and the index guards of action-builtins.ts). */
module RowMetadata {
  import opened JsonData
  import opened Decimal
  import opened Strings
  import opened Paths

  /** A parsed key: dot and pointer keys of the same path are different keys. */
  datatype MetaPath = MetaPath(namespace: Namespace, segments: Path, pointer: bool)

  function NormalizeSegment(s: Segment): Segment {
    match s
    case Key(k) => DotSegment(k)
    case Index(_) => s
  }

  function Normalize(segments: Path): (r: Path)
    ensures |r| == |segments|
  {
    seq(|segments|, i requires 0 <= i < |segments| => NormalizeSegment(segments[i]))
  }

  function ParseMeta(key: string): Option<MetaPath> {
    match ParsePath(key)
    case Invalid => None
    case Valid(p) => Some(MetaPath(p.namespace, Normalize(p.segments), key == "" || key[0] == '/'))
  }

  function FormatMeta(p: MetaPath): Option<string> {
    if p.pointer then ToPointer(CanonicalPath(p.namespace, p.segments)) else ToDot(CanonicalPath(p.namespace, p.segments))
  }

  // ---- keys and parsed keys determine each other ----

  ghost predicate Normalized(segments: Path) {
    forall i :: 0 <= i < |segments| ==> segments[i] == NormalizeSegment(segments[i]) && (segments[i].Index? ==> segments[i].index >= 0)
  }

  lemma NormalizeKeepsText(s: Segment)
    ensures SegmentText(NormalizeSegment(s)) == SegmentText(s)
  {
    if s.Key? { TextOfDotSegment(s.key); }
  }

  lemma {:induction false} NonNegative(key: string)
    requires ParsePath(key).Valid?
    ensures forall i :: 0 <= i < |ParsePath(key).path.segments| ==>
      (ParsePath(key).path.segments[i].Index? ==> ParsePath(key).path.segments[i].index >= 0)
  {
  }

  lemma ParsedIsNormalized(key: string)
    requires ParseMeta(key).Some?
    ensures Normalized(ParseMeta(key).value.segments)
  {
    NonNegative(key);
    var raw, segments := ParsePath(key).path.segments, ParseMeta(key).value.segments;
    forall i | 0 <= i < |segments|
      ensures segments[i] == NormalizeSegment(segments[i]) && (segments[i].Index? ==> segments[i].index >= 0)
    {
      assert segments[i] == NormalizeSegment(raw[i]);
    }
  }

  lemma SameTextsSamePointer(ns: Namespace, a: Path, b: Path)
    requires |a| == |b| && forall i :: 0 <= i < |a| ==> SegmentText(a[i]) == SegmentText(b[i])
    ensures ToPointer(CanonicalPath(ns, a)) == ToPointer(CanonicalPath(ns, b))
  {
    assert EncodeAll(a) == EncodeAll(b);
  }

  lemma DotParseIsNormalized(key: string)
    requires key != "" && key[0] != '/' && ParsePath(key).Valid?
    ensures Normalize(ParsePath(key).path.segments) == ParsePath(key).path.segments
  {
  }

  /** A parsed key that can be printed prints back to itself. */
  lemma FormatOfParse(key: string)
    requires ParseMeta(key).Some? && FormatMeta(ParseMeta(key).value).Some?
    ensures FormatMeta(ParseMeta(key).value) == Some(key)
  {
    if key == "" {
    } else if key[0] == '/' {
      var p := ParsePath(key).path;
      forall i | 0 <= i < |p.segments| ensures SegmentText(p.segments[i]) == SegmentText(Normalize(p.segments)[i]) {
        NormalizeKeepsText(p.segments[i]);
      }
      SameTextsSamePointer(p.namespace, p.segments, Normalize(p.segments));
      PathOfPointer(key);
    } else {
      DotParseIsNormalized(key);
      DotOfParse(key);
    }
  }

  lemma PointerParse(p: MetaPath)
    requires p.pointer && p.namespace.DataSpace? && p.segments != [] && Normalized(p.segments)
    ensures FormatMeta(p).Some? && ParseMeta(FormatMeta(p).value) == Some(p)
  {
    var c := CanonicalPath(DataSpace, p.segments);
    PointerOfPath(c);
    var key := FormatMeta(p).value;
    assert key[0] == '/' && ParsePath(key) == ParsePointer(key);
    var back := ParseMeta(key).value.segments;
    forall i | 0 <= i < |back| ensures back[i] == p.segments[i] {
      assert back[i] == NormalizeSegment(Key(SegmentText(p.segments[i])));
      if p.segments[i].Index? {
        RenderIsCanonical(p.segments[i].index);
        ParseRender(p.segments[i].index);
      }
    }
    assert back == p.segments;
  }

  lemma DotParse(p: MetaPath)
    requires !p.pointer && p.segments != [] && Normalized(p.segments) && FormatMeta(p).Some?
    ensures ParseMeta(FormatMeta(p).value) == Some(p)
  {
    var c := CanonicalPath(p.namespace, p.segments);
    DotRoundTrip(c);
    RawRoundTripDots(p.namespace, p.segments);
    assert Normalize(p.segments) == p.segments;
    var key := FormatMeta(p).value;
    assert key != "" && key[0] != '/';
  }

  /** A printable normalized path parses back to itself. */
  lemma ParseOfFormat(p: MetaPath)
    requires p.segments != [] && Normalized(p.segments) && FormatMeta(p).Some?
    ensures ParseMeta(FormatMeta(p).value) == Some(p)
  {
    if p.pointer { PointerParse(p); } else { DotParse(p); }
  }

  // ---- reindexing ----

  /** How an array operation moves row indices. */
  datatype IndexMap = Shift(from: int, delta: int) | MoveRow(source: int, target: int) | SwapRows(a: int, b: int)

  function MapIndex(m: IndexMap, i: int): Option<int> {
    match m
    case Shift(from, delta) =>
      if delta < 0 && i == from then None else Some(if i >= from then i + delta else i)
    case MoveRow(source, target) => Some(MovedIndex(i, source, target))
    case SwapRows(a, b) => Some(if i == a then b else if i == b then a else i)
  }

  function MovedIndex(i: int, source: int, target: int): int {
    if i == source then target
    else if source < target && source < i <= target then i - 1
    else if source > target && target <= i < source then i + 1
    else i
  }

  /** One row in, one row out, or rows exchanged, at indices an array can have. */
  predicate RowStep(m: IndexMap) {
    match m
    case Shift(from, delta) => 0 <= from <= MAX_SAFE_INTEGER && (delta == 1 || delta == -1)
    case MoveRow(source, target) => 0 <= source <= MAX_SAFE_INTEGER && 0 <= target <= MAX_SAFE_INTEGER
    case SwapRows(a, b) => 0 <= a <= MAX_SAFE_INTEGER && 0 <= b <= MAX_SAFE_INTEGER
  }

  lemma RowStepInjective(m: IndexMap, i: int, j: int)
    requires RowStep(m) && i >= 0 && j >= 0
    ensures MapIndex(m, i).Some? && MapIndex(m, i) == MapIndex(m, j) ==> i == j
    ensures MapIndex(m, i).Some? && i < MAX_SAFE_INTEGER ==> 0 <= MapIndex(m, i).value <= MAX_SAFE_INTEGER
  {
  }

  function RowIndex(c: MetaPath, base: MetaPath): Option<int> {
    if && c.namespace == base.namespace && base.segments < c.segments
       && c.segments[|base.segments|].Index?
       && IsSafeInteger(c.segments[|base.segments|].index) && c.segments[|base.segments|].index >= 0
    then Some(c.segments[|base.segments|].index) else None
  }

  function AtRow(c: MetaPath, base: MetaPath, i: int): MetaPath
    requires |base.segments| < |c.segments|
  {
    c.(segments := c.segments[|base.segments| := Index(i)])
  }

  datatype Change = Keep | Drop | Rename(key: string) | Fails

  /** What becomes of one metadata key. */
  function ChangeOf(base: MetaPath, m: IndexMap, key: string): Change {
    match ParseMeta(key)
    case None => Keep
    case Some(c) =>
      match RowIndex(c, base)
      case None => Keep
      case Some(i) =>
        match MapIndex(m, i)
        case None => Drop
        case Some(j) =>
          match FormatMeta(AtRow(c, base, j))
          case None => Fails
          case Some(k) => Rename(k)
  }

  function NewKey(base: MetaPath, m: IndexMap, key: string): Option<string> {
    match ChangeOf(base, m, key)
    case Keep => Some(key)
    case Rename(k) => Some(k)
    case _ => None
  }

  /** The key lies in a row of the array. */
  predicate IsRowKey(base: MetaPath, key: string) {
    ParseMeta(key).Some? && RowIndex(ParseMeta(key).value, base).Some?
  }

  function RowOf(base: MetaPath, key: string): int
    requires IsRowKey(base, key)
  {
    RowIndex(ParseMeta(key).value, base).value
  }

  /** Row indices below the largest safe integer, so that one more is still an index. */
  ghost predicate Bounded<V>(base: MetaPath, meta: map<string, V>) {
    forall k :: k in meta && IsRowKey(base, k) ==> RowOf(base, k) < MAX_SAFE_INTEGER
  }

  lemma AtRowNormalized(c: MetaPath, base: MetaPath, j: int)
    requires Normalized(c.segments) && |base.segments| < |c.segments| && j >= 0
    ensures Normalized(AtRow(c, base, j).segments)
  {
  }

  /** A renamed key parses to the same path at the new row. */
  lemma RenamedParses(base: MetaPath, m: IndexMap, key: string)
    requires RowStep(m) && ChangeOf(base, m, key).Rename? && RowOf(base, key) < MAX_SAFE_INTEGER
    ensures var c, j := ParseMeta(key).value, MapIndex(m, RowOf(base, key)).value;
      && ParseMeta(ChangeOf(base, m, key).key) == Some(AtRow(c, base, j))
      && RowIndex(AtRow(c, base, j), base) == Some(j)
  {
    var c, i := ParseMeta(key).value, RowOf(base, key);
    var j := MapIndex(m, i).value;
    RowStepInjective(m, i, i);
    ParsedIsNormalized(key);
    AtRowNormalized(c, base, j);
    ParseOfFormat(AtRow(c, base, j));
    assert AtRow(c, base, j).segments[..|base.segments|] == c.segments[..|base.segments|];
  }

  lemma DotSafeIndex(i: int)
    requires i >= 0
    ensures DotSafe(Index(i))
  {
    RenderIsCanonical(i);
  }

  /** Whether a key of a row can be printed does not depend on the row. */
  lemma PrintableAtAnyRow(c: MetaPath, base: MetaPath, i: int, j: int)
    requires |base.segments| < |c.segments| && i >= 0 && j >= 0
    ensures FormatMeta(AtRow(c, base, i)).Some? <==> FormatMeta(AtRow(c, base, j)).Some?
  {
    DotSafeIndex(i);
    DotSafeIndex(j);
    if !c.pointer {
      forall k | 0 <= k < |c.segments|
        ensures DotSafe(AtRow(c, base, i).segments[k]) <==> DotSafe(AtRow(c, base, j).segments[k])
      {
      }
      var x, y := AtRow(c, base, i).segments, AtRow(c, base, j).segments;
      assert (forall k :: 0 <= k < |x| ==> DotSafe(x[k])) <==> (forall k :: 0 <= k < |y| ==> DotSafe(y[k]));
    }
  }

  lemma SameRowSameKey(base: MetaPath, key: string, i: int)
    requires IsRowKey(base, key) && RowOf(base, key) == i
    ensures AtRow(ParseMeta(key).value, base, i) == ParseMeta(key).value
  {
    var c := ParseMeta(key).value;
    assert c.segments[|base.segments| := Index(i)] == c.segments;
  }

  /** No two keys collide. */
  lemma NewKeysDiffer(base: MetaPath, m: IndexMap, x: string, y: string)
    requires RowStep(m)
    requires IsRowKey(base, x) ==> RowOf(base, x) < MAX_SAFE_INTEGER
    requires IsRowKey(base, y) ==> RowOf(base, y) < MAX_SAFE_INTEGER
    requires NewKey(base, m, x).Some? && NewKey(base, m, x) == NewKey(base, m, y)
    ensures x == y
  {
    if ChangeOf(base, m, x).Rename? { RenamedParses(base, m, x); }
    if ChangeOf(base, m, y).Rename? { RenamedParses(base, m, y); }
    if ChangeOf(base, m, x).Rename? && ChangeOf(base, m, y).Rename? { RenamedApart(base, m, x, y); }
  }

  lemma RenamedApart(base: MetaPath, m: IndexMap, x: string, y: string)
    requires RowStep(m)
    requires ChangeOf(base, m, x).Rename? && RowOf(base, x) < MAX_SAFE_INTEGER
    requires ChangeOf(base, m, y).Rename? && RowOf(base, y) < MAX_SAFE_INTEGER
    requires ChangeOf(base, m, x) == ChangeOf(base, m, y)
    ensures x == y
  {
    RenamedParses(base, m, x);
    RenamedParses(base, m, y);
    var c, d, i := ParseMeta(x).value, ParseMeta(y).value, RowOf(base, x);
    var j := MapIndex(m, i).value;
    RowStepInjective(m, i, RowOf(base, y));
    SameRowSameKey(base, x, i);
    SameRowSameKey(base, y, i);
    assert AtRow(AtRow(c, base, j), base, i).segments == c.segments;
    assert AtRow(AtRow(d, base, j), base, i).segments == d.segments;
    RowStepInjective(m, i, i);
    PrintableAtAnyRow(c, base, i, j);
    FormatOfParse(x);
    FormatOfParse(y);
  }

  /** `after` holds exactly the entries of `before` under their new keys. */
  ghost predicate Reindexed<V>(base: MetaPath, m: IndexMap, before: map<string, V>, after: map<string, V>) {
    && (forall k {:trigger NewKey(base, m, k)} :: k in before && NewKey(base, m, k).Some? ==>
          NewKey(base, m, k).value in after && after[NewKey(base, m, k).value] == before[k])
    && (forall k' {:trigger Comes(base, m, before, k')} :: k' in after ==> Comes(base, m, before, k'))
  }

  ghost predicate Comes<V>(base: MetaPath, m: IndexMap, before: map<string, V>, k': string) {
    exists k :: k in before && NewKey(base, m, k) == Some(k')
  }

  ghost predicate SomeFails<V>(base: MetaPath, m: IndexMap, meta: map<string, V>) {
    exists k :: k in meta && ChangeOf(base, m, k).Fails?
  }

  /** The loop's progress: the entries under `done` have been carried over. */
  ghost predicate Carried<V>(base: MetaPath, m: IndexMap, meta: map<string, V>, done: set<string>, result: map<string, V>) {
    && done <= meta.Keys
    && Reindexed(base, m, Only(meta, done), result)
    && (forall k :: k in done ==> !ChangeOf(base, m, k).Fails?)
  }

  function Only<V>(meta: map<string, V>, keys: set<string>): map<string, V> {
    map k | k in keys && k in meta :: meta[k]
  }

  lemma ComesFromMore<V>(base: MetaPath, m: IndexMap, meta: map<string, V>, done: set<string>, key: string)
    ensures forall k' :: Comes(base, m, Only(meta, done), k') ==> Comes(base, m, Only(meta, done + {key}), k')
  {
    forall k' | Comes(base, m, Only(meta, done), k') ensures Comes(base, m, Only(meta, done + {key}), k') {
      var k :| k in Only(meta, done) && NewKey(base, m, k) == Some(k');
      assert k in Only(meta, done + {key});
    }
  }

  lemma CarriedSkip<V>(base: MetaPath, m: IndexMap, meta: map<string, V>, done: set<string>, result: map<string, V>, key: string)
    requires Carried(base, m, meta, done, result) && key in meta && ChangeOf(base, m, key).Drop?
    ensures Carried(base, m, meta, done + {key}, result)
  {
    ComesFromMore(base, m, meta, done, key);
  }

  lemma CarriedPut<V>(base: MetaPath, m: IndexMap, meta: map<string, V>, done: set<string>, result: map<string, V>, key: string)
    requires RowStep(m) && Bounded(base, meta)
    requires Carried(base, m, meta, done, result) && key in meta && key !in done && NewKey(base, m, key).Some?
    ensures Carried(base, m, meta, done + {key}, result[NewKey(base, m, key).value := meta[key]])
  {
    ComesFromMore(base, m, meta, done, key);
    assert key in Only(meta, done + {key}) && Comes(base, m, Only(meta, done + {key}), NewKey(base, m, key).value);
    forall k | k in done && NewKey(base, m, k) == NewKey(base, m, key) ensures k == key {
      NewKeysDiffer(base, m, k, key);
    }
  }

  lemma KeysApart<V>(base: MetaPath, m: IndexMap, meta: map<string, V>)
    requires RowStep(m) && Bounded(base, meta)
    ensures forall x, y :: x in meta && y in meta && NewKey(base, m, x).Some? && NewKey(base, m, x) == NewKey(base, m, y) ==> x == y
  {
    forall x, y | x in meta && y in meta && NewKey(base, m, x).Some? && NewKey(base, m, x) == NewKey(base, m, y) ensures x == y {
      NewKeysDiffer(base, m, x, y);
    }
  }

  /** All entries under their new keys. */
  ghost function Reindexing<V>(base: MetaPath, m: IndexMap, meta: map<string, V>): (r: map<string, V>)
    requires RowStep(m) && Bounded(base, meta)
    ensures Reindexed(base, m, meta, r)
  {
    KeysApart(base, m, meta);
    map k | k in meta && NewKey(base, m, k).Some? :: NewKey(base, m, k).value := meta[k]
  }

  lemma ReindexedIsUnique<V>(base: MetaPath, m: IndexMap, meta: map<string, V>, x: map<string, V>, y: map<string, V>)
    requires RowStep(m) && Bounded(base, meta) && Reindexed(base, m, meta, x) && Reindexed(base, m, meta, y)
    ensures x == y
  {
    forall k' | k' in x || k' in y ensures k' in x && k' in y && x[k'] == y[k'] {
      assert Comes(base, m, meta, k');
      var k :| k in meta && NewKey(base, m, k) == Some(k');
    }
  }

  /** `reindexFieldMeta` over a parsed base; `None` where a key cannot be printed. */
  method Reindex<V>(meta: map<string, V>, base: MetaPath, m: IndexMap) returns (r: Option<map<string, V>>)
    requires RowStep(m) && Bounded(base, meta)
    ensures r.None? <==> SomeFails(base, m, meta)
    ensures r.Some? ==> Reindexed(base, m, meta, r.value) && r.value == Reindexing(base, m, meta)
  {
    var result: map<string, V> := map[];
    var remaining := meta.Keys;
    ghost var done: set<string> := {};
    while remaining != {}
      invariant done + remaining == meta.Keys && done !! remaining
      invariant Carried(base, m, meta, done, result)
      decreases remaining
    {
      var key :| key in remaining;
      if ChangeOf(base, m, key).Fails? {
        assert key in meta;
        return None;
      }
      if ChangeOf(base, m, key).Drop? {
        CarriedSkip(base, m, meta, done, result, key);
      } else {
        CarriedPut(base, m, meta, done, result, key);
        result := result[NewKey(base, m, key).value := meta[key]];
      }
      remaining, done := remaining - {key}, done + {key};
    }
    assert Only(meta, done) == meta;
    ReindexedIsUnique(base, m, meta, result, Reindexing(base, m, meta));
    r := Some(result);
  }

  // ---- metadata follows its row ----

  /** The entry of a surviving row is found at that row's new index, under the same kind of key and
      with the same path below the row. */
  lemma RowKeeps<V>(base: MetaPath, m: IndexMap, before: map<string, V>, after: map<string, V>, key: string)
    requires RowStep(m) && Bounded(base, before) && Reindexed(base, m, before, after) && !SomeFails(base, m, before)
    requires key in before && IsRowKey(base, key) && MapIndex(m, RowOf(base, key)).Some?
    ensures NewKey(base, m, key).Some?
    ensures var moved := NewKey(base, m, key).value;
      && moved in after && after[moved] == before[key]
      && ParseMeta(moved) == Some(AtRow(ParseMeta(key).value, base, MapIndex(m, RowOf(base, key)).value))
  {
    assert !ChangeOf(base, m, key).Fails?;
    RenamedParses(base, m, key);
  }

  predicate MovedFrom<V>(base: MetaPath, m: IndexMap, before: map<string, V>, key: string, row: int) {
    key in before && IsRowKey(base, key) && MapIndex(m, RowOf(base, key)) == Some(row)
  }

  /** Every entry found in a row afterwards belonged to the row that moved there: a row nothing
      moves to has no metadata. */
  lemma RowComesFrom<V>(base: MetaPath, m: IndexMap, before: map<string, V>, after: map<string, V>, key: string)
    requires RowStep(m) && Bounded(base, before) && Reindexed(base, m, before, after)
    requires key in after && IsRowKey(base, key)
    ensures exists was :: MovedFrom(base, m, before, was, RowOf(base, key)) && after[key] == before[was]
  {
    assert Comes(base, m, before, key);
    var was :| was in before && NewKey(base, m, was) == Some(key);
    RenamedParses(base, m, was);
  }

  /** Keys outside the array are untouched. */
  lemma OutsideKeeps<V>(base: MetaPath, m: IndexMap, before: map<string, V>, after: map<string, V>, key: string)
    requires RowStep(m) && Bounded(base, before) && Reindexed(base, m, before, after) && !IsRowKey(base, key)
    ensures key in before <==> key in after
    ensures key in before ==> before[key] == after[key]
  {
    if key in before { assert NewKey(base, m, key) == Some(key); }
    if key in after {
      assert Comes(base, m, before, key);
      var was :| was in before && NewKey(base, m, was) == Some(key);
      if ChangeOf(base, m, was).Rename? { RenamedParses(base, m, was); }
    }
  }

  // ---- operations that cancel ----

  /** `back` returns every row to where `m` took it from. */
  ghost predicate Undoes(m: IndexMap, back: IndexMap) {
    forall i :: i >= 0 ==> Returns(m, back, i)
  }

  predicate Returns(m: IndexMap, back: IndexMap, i: int) {
    MapIndex(m, i).Some? && MapIndex(back, MapIndex(m, i).value) == Some(i)
  }

  lemma InsertReturns(at: int, i: int)
    ensures Returns(Shift(at, 1), Shift(at, -1), i)
  {
  }

  lemma MoveReturns(source: int, target: int, i: int)
    ensures MovedIndex(MovedIndex(i, source, target), target, source) == i
  {
  }

  lemma InsertCancels(at: int)
    ensures Undoes(Shift(at, 1), Shift(at, -1))
  {
    forall i | i >= 0 ensures Returns(Shift(at, 1), Shift(at, -1), i) { InsertReturns(at, i); }
  }

  lemma MoveCancels(source: int, target: int)
    ensures Undoes(MoveRow(source, target), MoveRow(target, source))
  {
    forall i | i >= 0 ensures Returns(MoveRow(source, target), MoveRow(target, source), i) { MoveReturns(source, target, i); }
  }

  lemma SwapCancels(a: int, b: int)
    ensures Undoes(SwapRows(a, b), SwapRows(a, b))
  {
  }

  lemma KeyReturns(base: MetaPath, m: IndexMap, back: IndexMap, key: string)
    requires RowStep(m) && RowStep(back) && Undoes(m, back)
    requires IsRowKey(base, key) ==> RowOf(base, key) < MAX_SAFE_INTEGER
    requires NewKey(base, m, key).Some?
    ensures NewKey(base, back, NewKey(base, m, key).value) == Some(key)
  {
    if ChangeOf(base, m, key).Rename? {
      RenamedParses(base, m, key);
      var c, i := ParseMeta(key).value, RowOf(base, key);
      var j := MapIndex(m, i).value;
      assert Returns(m, back, i);
      RowStepInjective(m, i, i);
      SameRowSameKey(base, key, i);
      assert AtRow(AtRow(c, base, j), base, i).segments == c.segments;
      PrintableAtAnyRow(c, base, i, j);
      FormatOfParse(key);
    }
  }

  lemma HasNewKey(base: MetaPath, m: IndexMap, back: IndexMap, key: string)
    requires Undoes(m, back) && !ChangeOf(base, m, key).Fails?
    ensures NewKey(base, m, key).Some?
  {
    if IsRowKey(base, key) { assert Returns(m, back, RowOf(base, key)); }
  }

  lemma EntryReturns<V>(base: MetaPath, m: IndexMap, back: IndexMap, meta: map<string, V>, once: map<string, V>, twice: map<string, V>, k: string)
    requires RowStep(m) && RowStep(back) && Undoes(m, back) && Bounded(base, meta) && !SomeFails(base, m, meta)
    requires Reindexed(base, m, meta, once) && Reindexed(base, back, once, twice)
    requires k in meta
    ensures k in twice && twice[k] == meta[k]
  {
    assert !ChangeOf(base, m, k).Fails?;
    HasNewKey(base, m, back, k);
    KeyReturns(base, m, back, k);
  }

  lemma NothingNew<V>(base: MetaPath, m: IndexMap, back: IndexMap, meta: map<string, V>, once: map<string, V>, twice: map<string, V>, k: string)
    requires RowStep(m) && RowStep(back) && Undoes(m, back) && Bounded(base, meta)
    requires Reindexed(base, m, meta, once) && Reindexed(base, back, once, twice)
    requires k in twice
    ensures k in meta
  {
    assert Comes(base, back, once, k);
    var x :| x in once && NewKey(base, back, x) == Some(k);
    assert Comes(base, m, meta, x);
    var y :| y in meta && NewKey(base, m, y) == Some(x);
    KeyReturns(base, m, back, y);
  }

  /** What a step has renamed, its undoing can rename back. */
  lemma BackNeverFails<V>(base: MetaPath, m: IndexMap, back: IndexMap, meta: map<string, V>, once: map<string, V>)
    requires RowStep(m) && RowStep(back) && Undoes(m, back) && Bounded(base, meta) && Reindexed(base, m, meta, once)
    ensures !SomeFails(base, back, once)
  {
    forall k' | k' in once ensures !ChangeOf(base, back, k').Fails? {
      assert Comes(base, m, meta, k');
      var k :| k in meta && NewKey(base, m, k) == Some(k');
      KeyReturns(base, m, back, k);
    }
  }

  /** Insert then remove, move then move back, and swap twice restore the metadata. */
  lemma ReindexCancels<V>(base: MetaPath, m: IndexMap, back: IndexMap, meta: map<string, V>, once: map<string, V>, twice: map<string, V>)
    requires RowStep(m) && RowStep(back) && Undoes(m, back) && Bounded(base, meta) && !SomeFails(base, m, meta)
    requires Reindexed(base, m, meta, once) && Reindexed(base, back, once, twice)
    ensures twice == meta
  {
    forall k | k in meta ensures k in twice && twice[k] == meta[k] { EntryReturns(base, m, back, meta, once, twice, k); }
    forall k | k in twice ensures k in meta { NothingNew(base, m, back, meta, once, twice, k); }
  }

  // ---- the arrays themselves ----

  function Inserted(items: seq<Json>, i: int, item: Json): seq<Json>
    requires 0 <= i <= |items|
  {
    items[..i] + [item] + items[i..]
  }

  function Removed(items: seq<Json>, i: int): seq<Json>
    requires 0 <= i < |items|
  {
    items[..i] + items[i + 1..]
  }

  function Moved(items: seq<Json>, source: int, target: int): seq<Json>
    requires 0 <= source < |items| && 0 <= target < |items|
  {
    Inserted(Removed(items, source), target, items[source])
  }

  function Swapped(items: seq<Json>, a: int, b: int): seq<Json>
    requires 0 <= a < |items| && 0 <= b < |items|
  {
    items[a := items[b]][b := items[a]]
  }

  /** Every row that survives the step is found at its new index. */
  ghost predicate RowsFollow(m: IndexMap, before: seq<Json>, after: seq<Json>) {
    forall i :: 0 <= i < |before| && MapIndex(m, i).Some? ==>
      0 <= MapIndex(m, i).value < |after| && after[MapIndex(m, i).value] == before[i]
  }

  lemma InsertFollows(items: seq<Json>, i: int, item: Json)
    requires 0 <= i <= |items|
    ensures RowsFollow(Shift(i, 1), items, Inserted(items, i, item)) && Inserted(items, i, item)[i] == item
  {
  }

  lemma RemoveFollows(items: seq<Json>, i: int)
    requires 0 <= i < |items|
    ensures RowsFollow(Shift(i, -1), items, Removed(items, i))
  {
  }

  lemma MoveFollows(items: seq<Json>, source: int, target: int)
    requires 0 <= source < |items| && 0 <= target < |items|
    ensures RowsFollow(MoveRow(source, target), items, Moved(items, source, target))
  {
    var without, after := Removed(items, source), Moved(items, source, target);
    forall i | 0 <= i < |items| ensures after[MovedIndex(i, source, target)] == items[i] {
      if i != source { assert without[if i < source then i else i - 1] == items[i]; }
    }
  }

  lemma SwapFollows(items: seq<Json>, a: int, b: int)
    requires 0 <= a < |items| && 0 <= b < |items|
    ensures RowsFollow(SwapRows(a, b), items, Swapped(items, a, b))
  {
  }

  // ---- the guards of array actions ----

  datatype Plan = Append | InsertAt(index: int) | RemoveAt(index: int) | MoveTo(source: int, target: int) | SwapWith(a: int, b: int)
  datatype Planned = Ready(plan: Plan) | Boundary | BadPayload

  predicate ValidIndex(value: Option<int>, length: nat, endpoint: bool) {
    match value
    case None => false
    case Some(n) => IsSafeInteger(n) && n >= 0 && (if endpoint then n <= length else n < length)
  }

  function InsertPlan(index: Option<int>, fallback: Option<int>, length: nat): Planned {
    var at := if index.None? then fallback else index;
    if ValidIndex(at, length, true) then Ready(InsertAt(at.value)) else BadPayload
  }

  function RemovePlan(index: Option<int>, fallback: Option<int>, length: nat): Planned {
    var at := if index.None? then fallback else index;
    if ValidIndex(at, length, false) then Ready(RemoveAt(at.value)) else BadPayload
  }

  function Reorder(swap: bool, source: int, target: int): Plan {
    if swap then SwapWith(source, target) else MoveTo(source, target)
  }

  /** A payload of `offset` moves by one place; one of `from` and `to` names both ends. */
  function OffsetPlan(swap: bool, offset: int, fallback: Option<int>, length: nat): Planned {
    if offset != -1 && offset != 1 then BadPayload
    else if fallback.None? || !IsSafeInteger(fallback.value) then BadPayload
    else if !ValidIndex(Some(fallback.value + offset), length, false) then Boundary
    else Ready(Reorder(swap, fallback.value, fallback.value + offset))
  }

  function ReorderPlan(swap: bool, from: Option<int>, target: Option<int>, fallback: Option<int>, length: nat): Planned {
    var source := if from.None? then fallback else from;
    if source.None? || target.None? || !IsSafeInteger(source.value) || !IsSafeInteger(target.value) then BadPayload
    else if !ValidIndex(source, length, false) || !ValidIndex(target, length, false) || source == target then Boundary
    else Ready(Reorder(swap, source.value, target.value))
  }

  predicate InRange(p: Plan, length: nat) {
    match p
    case Append => true
    case InsertAt(i) => 0 <= i <= length
    case RemoveAt(i) => 0 <= i < length
    case MoveTo(a, b) => 0 <= a < length && 0 <= b < length
    case SwapWith(a, b) => 0 <= a < length && 0 <= b < length
  }

  /** Every ready plan acts inside the array, except that a plan by offset trusts the scope's own
      index: it is in range exactly when that index still is. */
  lemma PlansInRange(index: Option<int>, target: Option<int>, fallback: Option<int>, offset: int, swap: bool, length: nat)
    ensures InsertPlan(index, fallback, length).Ready? ==> InRange(InsertPlan(index, fallback, length).plan, length)
    ensures RemovePlan(index, fallback, length).Ready? ==> InRange(RemovePlan(index, fallback, length).plan, length)
    ensures ReorderPlan(swap, index, target, fallback, length).Ready? ==> InRange(ReorderPlan(swap, index, target, fallback, length).plan, length)
    ensures OffsetPlan(swap, offset, fallback, length).Ready? ==>
      (InRange(OffsetPlan(swap, offset, fallback, length).plan, length) <==> 0 <= fallback.value < length)
  {
  }

  /** A stale scope index one past the end, with offset -1, plans a move whose source does not exist. */
  lemma StaleOffset(length: nat)
    requires 0 < length < MAX_SAFE_INTEGER
    ensures OffsetPlan(false, -1, Some(length), length) == Ready(MoveTo(length, length - 1))
    ensures !InRange(MoveTo(length, length - 1), length)
  {
  }
}
