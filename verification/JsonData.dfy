/** JSON trees, typed data paths and the tree operations every other module talks about.

    A record keeps its key order beside its fields, because two values are "the same" for the
    program when their serialised texts agree, and that text shows the order of the keys. */
module JsonData {
  import Decimal
  import opened Collections

  datatype Option<+T> = None | Some(value: T)

  /** An object key "0" is a different segment from the array index 0. */
  datatype Segment = Key(key: string) | Index(index: int)

  type Path = seq<Segment>

  /** A segment as the program's `String(segment)` prints it. */
  function SegmentText(s: Segment): string {
    match s
    case Key(k) => k
    case Index(i) => if i >= 0 then Decimal.Render(i) else "-" + Decimal.Render(-i)
  }

  function Texts(p: Path): seq<string> {
    seq(|p|, i requires 0 <= i < |p| => SegmentText(p[i]))
  }

  /** `Foreign` is a container whose own data properties cannot be captured (accessors, a class
      instance, ...). It never occurs inside a cloned JSON value. */
  datatype Json =
    | Null
    | Boolean(b: bool)
    | Number(n: int)
    | Text(s: string)
    | List(items: seq<Json>)
    | Record(keys: seq<string>, fields: map<string, Json>)
    | Foreign

  const UNSAFE_KEYS: set<string> := {"__proto__", "prototype", "constructor"}
  const MAX_SAFE_INTEGER: int := 0x1F_FFFF_FFFF_FFFF

  predicate IsSafeInteger(n: int) {
    -MAX_SAFE_INTEGER <= n <= MAX_SAFE_INTEGER
  }

  /** The key order of every record in the tree lists exactly its fields, once each. */
  ghost predicate Ordered(j: Json) {
    match j
    case List(items) => forall i :: 0 <= i < |items| ==> Ordered(items[i])
    case Record(keys, fields) =>
      && Distinct(keys)
      && (forall k :: k in keys <==> k in fields)
      && (forall k :: k in fields ==> Ordered(fields[k]))
    case _ => true
  }

  function Child(j: Json, s: Segment): Option<Json> {
    match s
    case Index(i) => if j.List? && 0 <= i < |j.items| then Some(j.items[i]) else None
    case Key(k) => if j.Record? && k in j.fields then Some(j.fields[k]) else None
  }

  /** The value at a path, through own keys and in-range indices only. */
  function At(j: Json, path: Path): Option<Json> {
    if path == [] then Some(j)
    else match Child(j, path[0])
      case None => None
      case Some(c) => At(c, path[1..])
  }

  /** Two paths overlap when one of them is a prefix of the other. */
  predicate Overlap(a: Path, b: Path) {
    a <= b || b <= a
  }

  function Front(path: Path): Path
    requires path != []
  {
    path[..|path| - 1]
  }

  function Last(path: Path): Segment
    requires path != []
  {
    path[|path| - 1]
  }

  function Without(keys: seq<string>, k: string): (r: seq<string>)
    ensures forall x :: x in r <==> x in keys && x != k
  {
    if keys == [] then []
    else if keys[0] == k then Without(keys[1..], k)
    else [keys[0]] + Without(keys[1..], k)
  }

  /** Equality of trees up to the order of record keys. */
  ghost predicate SameTree(a: Json, b: Json) {
    match a
    case List(items) =>
      && b.List?
      && |items| == |b.items|
      && (forall i :: 0 <= i < |items| ==> SameTree(items[i], b.items[i]))
    case Record(_, fields) =>
      && b.Record?
      && fields.Keys == b.fields.Keys
      && (forall k :: k in fields ==> SameTree(fields[k], b.fields[k]))
    case _ => a == b
  }

  // ---- facts about paths ----

  lemma {:induction false} AtConcat(j: Json, p: Path, q: Path)
    ensures At(j, p + q) == (match At(j, p) case None => None case Some(c) => At(c, q))
    decreases |p|
  {
    if p == [] {
      assert p + q == q;
    } else {
      assert (p + q)[1..] == p[1..] + q;
      match Child(j, p[0]) {
        case None =>
        case Some(c) => AtConcat(c, p[1..], q);
      }
    }
  }

  lemma AtPrefix(j: Json, p: Path, q: Path)
    requires p <= q && At(j, q).Some?
    ensures At(j, p).Some?
    ensures At(At(j, p).value, q[|p|..]) == At(j, q)
  {
    assert q == p + q[|p|..];
    AtConcat(j, p, q[|p|..]);
  }

  lemma AtFrontLast(j: Json, p: Path)
    requires p != []
    ensures At(j, p) == (match At(j, Front(p)) case None => None case Some(c) => Child(c, Last(p)))
  {
    assert p == Front(p) + [Last(p)];
    AtConcat(j, Front(p), [Last(p)]);
    match At(j, Front(p)) {
      case None =>
      case Some(c) =>
        assert [Last(p)][1..] == [];
    }
  }

  lemma {:induction false} OrderedAt(j: Json, p: Path)
    requires Ordered(j) && At(j, p).Some?
    ensures Ordered(At(j, p).value)
    decreases |p|
  {
    if p != [] {
      OrderedAt(Child(j, p[0]).value, p[1..]);
    }
  }

  lemma {:induction false} WithoutDistinct(keys: seq<string>, k: string)
    requires Distinct(keys)
    ensures Distinct(Without(keys, k))
  {
    if keys != [] {
      assert keys[0] !in keys[1..];
      WithoutDistinct(keys[1..], k);
    }
  }
}
