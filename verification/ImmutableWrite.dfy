/** Immutable writes (immutable-path.ts) and the target check of the expression layer
    (write-target.ts). Segments address array positions and record keys by their text. */
module ImmutableWrite {
  import opened JsonData
  import opened Decimal

  const MAX_ARRAY_INDEX: nat := 0xFFFF_FFFE

  predicate IsContainer(j: Json) {
    j.List? || j.Record? || j.Foreign?
  }

  /** A container whose own data properties can be captured. */
  predicate Inspectable(j: Json) {
    j.List? || (j.Record? && forall k :: k in j.fields ==> k !in UNSAFE_KEYS)
  }

  function ArrayIndex(s: Segment): Option<nat> {
    match s
    case Index(i) => if 0 <= i <= MAX_ARRAY_INDEX then Some(i) else None
    case Key(k) => if IsCanonical(k) && Parse(k) <= MAX_ARRAY_INDEX then Some(Parse(k)) else None
  }

  predicate Safe(path: Path) {
    forall i :: 0 <= i < |path| ==> SegmentText(path[i]) !in UNSAFE_KEYS
  }

  // ---- reading by text ----

  function Resolve(j: Json, s: Segment): Option<Json> {
    match j
    case List(items) =>
      (match ArrayIndex(s) case Some(i) => if i < |items| then Some(items[i]) else None case None => None)
    case Record(_, fields) => if SegmentText(s) in fields then Some(fields[SegmentText(s)]) else None
    case _ => None
  }

  function ResolveAt(j: Json, path: Path): Option<Json> {
    if path == [] then Some(j)
    else match Resolve(j, path[0])
      case None => None
      case Some(c) => ResolveAt(c, path[1..])
  }

  /** Two paths touch when their texts agree as far as both go. */
  predicate Touch(p: Path, q: Path) {
    forall i :: 0 <= i < |p| && i < |q| ==> SegmentText(p[i]) == SegmentText(q[i])
  }

  lemma IndexText(s: Segment)
    ensures ArrayIndex(s).Some? ==> SegmentText(s) == Render(ArrayIndex(s).value)
    ensures ArrayIndex(s).Some? <==> IsCanonical(SegmentText(s)) && Parse(SegmentText(s)) <= MAX_ARRAY_INDEX
  {
    match s
    case Key(k) => if IsCanonical(k) { RenderParse(k); }
    case Index(i) =>
      if i >= 0 {
        RenderIsCanonical(i);
        ParseRender(i);
      } else {
        assert SegmentText(s)[0] == '-';
      }
  }

  /** Segments with the same text are the same position of any array. */
  lemma SameTextSameIndex(s: Segment, t: Segment)
    ensures SegmentText(s) == SegmentText(t) ==> ArrayIndex(s) == ArrayIndex(t)
    ensures ArrayIndex(s).Some? && ArrayIndex(s) == ArrayIndex(t) ==> SegmentText(s) == SegmentText(t)
  {
    IndexText(s);
    IndexText(t);
    if ArrayIndex(s).Some? { ParseRender(ArrayIndex(s).value); }
    if ArrayIndex(t).Some? { ParseRender(ArrayIndex(t).value); }
  }

  // ---- the target check ----

  datatype Refusal = ReadOnly | MissingTarget | Denied
  datatype Target = Parent(parent: Json) | Refused(reason: Refusal)

  function TargetFrom(current: Json, path: Path): Target
    requires path != []
  {
    if !IsContainer(current) then Refused(MissingTarget)
    else if !Inspectable(current) then Refused(Denied)
    else if current.List? && ArrayIndex(path[0]).None? then Refused(Denied)
    else if current.List? && ArrayIndex(path[0]).value > |current.items| then Refused(MissingTarget)
    else if |path| == 1 then Parent(current)
    else match Resolve(current, path[0])
      case None => Refused(MissingTarget)
      case Some(c) => TargetFrom(c, path[1..])
  }

  function WriteTarget(root: Json, path: Path): Target {
    if path == [] then Refused(ReadOnly) else TargetFrom(root, path)
  }

  predicate Admitted(root: Json, path: Path) {
    WriteTarget(root, path).Parent?
  }

  /** Every container on the way exists and can be inspected, and the last step names a field, or a
      position of its array up to the length. */
  ghost predicate HasTarget(root: Json, path: Path) {
    && path != []
    && (forall k :: 0 <= k < |path| ==> Reaches(root, path[..k]))
    && FitsLast(ResolveAt(root, Front(path)).value, Last(path))
  }

  predicate Reaches(root: Json, path: Path) {
    ResolveAt(root, path).Some? && Inspectable(ResolveAt(root, path).value)
  }

  predicate FitsLast(parent: Json, s: Segment) {
    parent.List? ==> ArrayIndex(s).Some? && ArrayIndex(s).value <= |parent.items|
  }

  lemma ReachesTail(root: Json, path: Path, k: nat)
    requires 0 < k <= |path|
    ensures Reaches(root, path[..k]) <==>
      Resolve(root, path[0]).Some? && Reaches(Resolve(root, path[0]).value, path[1..][..k - 1])
  {
    assert path[..k][0] == path[0] && path[..k][1..] == path[1..][..k - 1];
  }

  lemma HasTargetTail(root: Json, path: Path)
    requires |path| > 1
    ensures HasTarget(root, path) <==>
      Inspectable(root) && Resolve(root, path[0]).Some? && HasTarget(Resolve(root, path[0]).value, path[1..])
  {
    var n := |path| - 1;
    assert path[..0] == [] && Front(path)[0] == path[0] && Front(path)[1..] == Front(path[1..]) && Last(path) == path[1..][n - 1];
    if Resolve(root, path[0]).Some? {
      var c := Resolve(root, path[0]).value;
      forall k | 0 < k <= n ensures Reaches(root, path[..k]) <==> Reaches(c, path[1..][..k - 1]) { ReachesTail(root, path, k); }
      forall k | 0 <= k < n ensures Reaches(c, path[1..][..k]) <==> Reaches(root, path[..k + 1]) { ReachesTail(root, path, k + 1); }
    } else {
      ReachesTail(root, path, 1);
    }
  }

  lemma {:induction false} TargetIsHeld(root: Json, path: Path)
    requires path != []
    ensures TargetFrom(root, path).Parent? <==> HasTarget(root, path)
    ensures TargetFrom(root, path).Parent? ==> ResolveAt(root, Front(path)) == Some(TargetFrom(root, path).parent)
    decreases |path|
  {
    if |path| > 1 {
      HasTargetTail(root, path);
      assert Front(path)[0] == path[0] && Front(path)[1..] == Front(path[1..]);
      if Resolve(root, path[0]).Some? { TargetIsHeld(Resolve(root, path[0]).value, path[1..]); }
    } else {
      assert Front(path) == [] && path[..0] == [];
      assert HasTarget(root, path) <==> Reaches(root, []) && FitsLast(root, path[0]);
    }
  }

  method ValidateWriteTarget(root: Json, path: Path) returns (r: Target)
    ensures r == WriteTarget(root, path)
    ensures r.Parent? <==> HasTarget(root, path)
    ensures r.Parent? ==> ResolveAt(root, Front(path)) == Some(r.parent)
  {
    if path != [] { TargetIsHeld(root, path); }
    if path == [] { return Refused(ReadOnly); }
    var current := root;
    var i := 0;
    while i < |path|
      invariant 0 <= i < |path|
      invariant TargetFrom(root, path) == TargetFrom(current, path[i..])
      decreases |path| - i
    {
      if !IsContainer(current) { return Refused(MissingTarget); }
      if !Inspectable(current) { return Refused(Denied); }
      if current.List? {
        var index := ArrayIndex(path[i]);
        if index.None? { return Refused(Denied); }
        if index.value > |current.items| { return Refused(MissingTarget); }
      }
      if i == |path| - 1 { return Parent(current); }
      var selected := Resolve(current, path[i]);
      if selected.None? { return Refused(MissingTarget); }
      assert path[i..][1..] == path[i + 1..];
      current := selected.value;
      i := i + 1;
    }
    r := Refused(MissingTarget);
  }

  // ---- the write ----

  /** `Sparse` stands for a result that holds an array with a hole. */
  datatype Outcome = Failed | Sparse | Written(root: Json)

  /** The pre-check of a write: arrays may only be replaced at or extended by one position. */
  predicate Writable(current: Json, path: Path) {
    if path == [] || !IsContainer(current) then true
    else
      && Inspectable(current)
      && SegmentText(path[0]) !in UNSAFE_KEYS
      && (current.List? ==> ArrayIndex(path[0]).Some? && ArrayIndex(path[0]).value <= |current.items|)
      && (Resolve(current, path[0]).Some? ==> Writable(Resolve(current, path[0]).value, path[1..]))
  }

  method ValidatePath(root: Json, path: Path) returns (ok: bool)
    ensures ok <==> Writable(root, path)
  {
    var current := root;
    var i := 0;
    while i < |path|
      invariant 0 <= i <= |path|
      invariant Writable(root, path) <==> Writable(current, path[i..])
    {
      if !IsContainer(current) { return true; }
      if !Inspectable(current) { return false; }
      if SegmentText(path[i]) in UNSAFE_KEYS { return false; }
      if current.List? {
        var index := ArrayIndex(path[i]);
        if index.None? { return false; }
        if index.value > |current.items| { return false; }
      }
      var next := Resolve(current, path[i]);
      if next.None? { return true; }
      assert path[i..][1..] == path[i + 1..];
      current := next.value;
      i := i + 1;
    }
    ok := true;
  }

  /** What a missing or null position becomes on the way to a deeper write. */
  function DefaultChild(rest: Path): Json {
    if rest == [] then Null
    else if rest[0].Index? || IsCanonical(rest[0].key) then List([])
    else Record([], map[])
  }

  function ChildToCopy(j: Json, s: Segment, rest: Path): Json {
    match Resolve(j, s)
    case Some(c) => if c.Null? then DefaultChild(rest) else c
    case None => DefaultChild(rest)
  }

  function PutItem(items: seq<Json>, i: nat, c: Json): Outcome {
    if i < |items| then Written(List(items[i := c]))
    else if i == |items| then Written(List(items + [c]))
    else Sparse
  }

  function PutField(j: Json, key: string, c: Json): Json {
    if j.Record? then Record(if key in j.fields then j.keys else j.keys + [key], j.fields[key := c])
    else Record([key], map[key := c])
  }

  /** Copies the containers along the path and nothing else. */
  function CopyPath(j: Json, path: Path, value: Json): Outcome
    decreases |path|
  {
    if path == [] then Written(value)
    else if IsContainer(j) && !Inspectable(j) then Failed
    else if j.List? && ArrayIndex(path[0]).None? then Failed
    else match CopyPath(ChildToCopy(j, path[0], path[1..]), path[1..], value)
      case Written(c) =>
        if j.List? then PutItem(j.items, ArrayIndex(path[0]).value, c)
        else Written(PutField(j, SegmentText(path[0]), c))
      case other => other
  }

  function Write(root: Json, path: Path, value: Json): Outcome {
    if Writable(root, path) then CopyPath(root, path, value) else Failed
  }

  /** `setImmutablePath`. */
  method SetImmutablePath(root: Json, path: Path, value: Json) returns (r: Outcome)
    ensures r == Write(root, path, value)
  {
    var ok := ValidatePath(root, path);
    if !ok { return Failed; }
    r := CopyPath(root, path, value);
  }

  // ---- lens laws on admitted targets ----

  lemma {:induction false} AdmittedIsWritable(root: Json, path: Path)
    requires path != [] && TargetFrom(root, path).Parent? && Safe(path)
    ensures Writable(root, path)
    decreases |path|
  {
    if |path| > 1 {
      AdmittedIsWritable(Resolve(root, path[0]).value, path[1..]);
    } else {
      assert path[1..] == [];
    }
  }

  /** One level of an admitted write. */
  lemma AdmittedStep(root: Json, path: Path)
    requires path != [] && TargetFrom(root, path).Parent?
    ensures root.List? || root.Record?
    ensures |path| > 1 ==>
      && Resolve(root, path[0]).Some?
      && TargetFrom(Resolve(root, path[0]).value, path[1..]).Parent?
      && ChildToCopy(root, path[0], path[1..]) == Resolve(root, path[0]).value
  {
  }

  /** An admitted write succeeds and leaves arrays dense. */
  lemma {:induction false} AdmittedIsWritten(root: Json, path: Path, value: Json)
    requires path != [] && TargetFrom(root, path).Parent?
    ensures CopyPath(root, path, value).Written?
    decreases |path|
  {
    AdmittedStep(root, path);
    if |path| > 1 {
      AdmittedIsWritten(Resolve(root, path[0]).value, path[1..], value);
    } else {
      assert path[1..] == [];
    }
  }

  /** What one level of the written tree looks like. */
  lemma WrittenLevel(root: Json, path: Path, value: Json)
    requires path != [] && TargetFrom(root, path).Parent?
    ensures CopyPath(root, path, value).Written?
    ensures var below := CopyPath(ChildToCopy(root, path[0], path[1..]), path[1..], value);
      && below.Written?
      && Resolve(CopyPath(root, path, value).root, path[0]) == Some(below.root)
  {
    AdmittedIsWritten(root, path, value);
  }

  /** The written value reads back. */
  lemma {:induction false} ReadBack(root: Json, path: Path, value: Json)
    requires path != [] && TargetFrom(root, path).Parent?
    ensures CopyPath(root, path, value).Written?
    ensures ResolveAt(CopyPath(root, path, value).root, path) == Some(value)
    decreases |path|
  {
    WrittenLevel(root, path, value);
    if |path| > 1 {
      AdmittedStep(root, path);
      ReadBack(Resolve(root, path[0]).value, path[1..], value);
    } else {
      assert path[1..] == [];
    }
  }

  /** Other positions of the same container keep their values. */
  lemma SiblingKept(root: Json, path: Path, value: Json, s: Segment)
    requires path != [] && TargetFrom(root, path).Parent? && SegmentText(s) != SegmentText(path[0])
    ensures CopyPath(root, path, value).Written?
    ensures Resolve(CopyPath(root, path, value).root, s) == Resolve(root, s)
  {
    WrittenLevel(root, path, value);
    SameTextSameIndex(s, path[0]);
  }

  lemma SameTextResolves(j: Json, s: Segment, t: Segment)
    requires SegmentText(s) == SegmentText(t)
    ensures Resolve(j, s) == Resolve(j, t)
  {
    SameTextSameIndex(s, t);
  }

  lemma TouchTail(p: Path, q: Path)
    requires p != [] && q != [] && SegmentText(p[0]) == SegmentText(q[0])
    ensures Touch(p[1..], q[1..]) ==> Touch(p, q)
  {
    if Touch(p[1..], q[1..]) {
      forall i | 0 < i < |p| && i < |q| ensures SegmentText(p[i]) == SegmentText(q[i]) {
        assert p[i] == p[1..][i - 1] && q[i] == q[1..][i - 1];
      }
    }
  }

  /** Every path that does not touch the written one, compared by text, reads as before. */
  lemma {:induction false} ElsewhereKept(root: Json, path: Path, value: Json, q: Path)
    requires path != [] && TargetFrom(root, path).Parent? && !Touch(path, q)
    ensures CopyPath(root, path, value).Written?
    ensures ResolveAt(CopyPath(root, path, value).root, q) == ResolveAt(root, q)
    decreases |path|
  {
    WrittenLevel(root, path, value);
    if SegmentText(q[0]) != SegmentText(path[0]) {
      SiblingKept(root, path, value, q[0]);
    } else {
      SameTextResolves(root, q[0], path[0]);
      SameTextResolves(CopyPath(root, path, value).root, q[0], path[0]);
      TouchTail(path, q);
      AdmittedStep(root, path);
      ElsewhereKept(Resolve(root, path[0]).value, path[1..], value, q[1..]);
    }
  }

  lemma ItemPutTwice(items: seq<Json>, i: nat, a: Json, b: Json)
    requires i <= |items|
    ensures PutItem(PutItem(items, i, a).root.items, i, b) == PutItem(items, i, b)
  {
    if i == |items| {
      assert (items + [a])[i := b] == items + [b];
    } else {
      assert items[i := a][i := b] == items[i := b];
    }
  }

  lemma FieldPutTwice(j: Json, key: string, a: Json, b: Json)
    requires j.Record?
    ensures PutField(PutField(j, key, a), key, b) == PutField(j, key, b)
  {
    assert j.fields[key := a][key := b] == j.fields[key := b];
  }

  /** A second write to the same path absorbs the first. */
  lemma {:induction false} SecondWriteAbsorbs(root: Json, path: Path, first: Json, second: Json)
    requires path != [] && TargetFrom(root, path).Parent? && Safe(path)
    ensures CopyPath(root, path, first).Written?
    ensures CopyPath(CopyPath(root, path, first).root, path, second) == CopyPath(root, path, second)
    decreases |path|
  {
    AdmittedStep(root, path);
    if |path| > 1 {
      var c := Resolve(root, path[0]).value;
      SecondWriteAbsorbs(c, path[1..], first, second);
      ContainerWritten(c, path[1..], first);
      LevelAbsorbs(root, path, first, second);
    } else {
      LastAbsorbs(root, path, first, second);
    }
  }

  lemma LastAbsorbs(root: Json, path: Path, first: Json, second: Json)
    requires |path| == 1 && TargetFrom(root, path).Parent? && Safe(path)
    ensures CopyPath(root, path, first).Written?
    ensures CopyPath(CopyPath(root, path, first).root, path, second) == CopyPath(root, path, second)
  {
    assert path[1..] == [];
    if root.List? {
      ItemPutTwice(root.items, ArrayIndex(path[0]).value, first, second);
    } else {
      FieldPutTwice(root, SegmentText(path[0]), first, second);
    }
  }

  lemma ContainerWritten(root: Json, path: Path, value: Json)
    requires path != [] && TargetFrom(root, path).Parent?
    ensures CopyPath(root, path, value).Written? && !CopyPath(root, path, value).root.Null?
  {
    WrittenLevel(root, path, value);
  }

  lemma LevelAbsorbs(root: Json, path: Path, first: Json, second: Json)
    requires |path| > 1 && TargetFrom(root, path).Parent?
    requires var c := Resolve(root, path[0]).value;
      && CopyPath(c, path[1..], first).Written? && !CopyPath(c, path[1..], first).root.Null?
      && CopyPath(CopyPath(c, path[1..], first).root, path[1..], second) == CopyPath(c, path[1..], second)
    ensures CopyPath(root, path, first).Written?
    ensures CopyPath(CopyPath(root, path, first).root, path, second) == CopyPath(root, path, second)
  {
    AdmittedStep(root, path);
    WrittenLevel(root, path, first);
    WrittenLevel(root, path, second);
    var c := Resolve(root, path[0]).value;
    var one, two := CopyPath(c, path[1..], first).root, CopyPath(c, path[1..], second).root;
    if root.List? {
      ItemPutTwice(root.items, ArrayIndex(path[0]).value, one, two);
    } else {
      FieldPutTwice(root, SegmentText(path[0]), one, two);
    }
  }

  /** The target stays admitted after the write. */
  lemma {:induction false} StillAdmitted(root: Json, path: Path, value: Json)
    requires path != [] && TargetFrom(root, path).Parent? && Safe(path)
    ensures CopyPath(root, path, value).Written? && TargetFrom(CopyPath(root, path, value).root, path).Parent?
    decreases |path|
  {
    AdmittedStep(root, path);
    WrittenLevel(root, path, value);
    if |path| > 1 {
      StillAdmitted(Resolve(root, path[0]).value, path[1..], value);
    } else {
      assert path[1..] == [];
    }
  }

  /** Writing back what is there changes nothing. */
  lemma {:induction false} WriteBack(root: Json, path: Path)
    requires path != [] && TargetFrom(root, path).Parent? && ResolveAt(root, path).Some?
    ensures CopyPath(root, path, ResolveAt(root, path).value) == Written(root)
    decreases |path|
  {
    AdmittedStep(root, path);
    var value := ResolveAt(root, path).value;
    WrittenLevel(root, path, value);
    var c := Resolve(root, path[0]).value;
    if |path| > 1 {
      WriteBack(c, path[1..]);
    } else {
      assert path[1..] == [];
    }
    PutBack(root, path[0]);
  }

  lemma PutBack(root: Json, s: Segment)
    requires Resolve(root, s).Some?
    ensures root.List? ==> PutItem(root.items, ArrayIndex(s).value, Resolve(root, s).value) == Written(root)
    ensures root.Record? ==> PutField(root, SegmentText(s), Resolve(root, s).value) == root
  {
    if root.Record? {
      assert root.fields[SegmentText(s) := root.fields[SegmentText(s)]] == root.fields;
    }
  }

  /** The key order of every record stays consistent with its fields. */
  lemma {:induction false} OrderedKept(root: Json, path: Path, value: Json)
    requires path != [] && TargetFrom(root, path).Parent? && Ordered(root) && Ordered(value)
    ensures CopyPath(root, path, value).Written? && Ordered(CopyPath(root, path, value).root)
    decreases |path|
  {
    WrittenLevel(root, path, value);
    AdmittedStep(root, path);
    if |path| > 1 {
      OrderedKept(Resolve(root, path[0]).value, path[1..], value);
    } else {
      assert path[1..] == [];
    }
  }

  /** The lens laws of an admitted write with safe segments: it succeeds with dense arrays, reads
      back, keeps every untouched path and the key order of records, is undone by writing the old
      value and overridden by a later one. */
  lemma WriteLens(root: Json, path: Path, value: Json, q: Path, later: Json)
    requires Admitted(root, path) && Safe(path)
    ensures Write(root, path, value).Written?
    ensures ResolveAt(Write(root, path, value).root, path) == Some(value)
    ensures !Touch(path, q) ==> ResolveAt(Write(root, path, value).root, q) == ResolveAt(root, q)
    ensures Write(Write(root, path, value).root, path, later) == Write(root, path, later)
    ensures Ordered(root) && Ordered(value) ==> Ordered(Write(root, path, value).root)
    ensures ResolveAt(root, path) == Some(value) ==> Write(root, path, value) == Written(root)
  {
    AdmittedIsWritable(root, path);
    ReadBack(root, path, value);
    if !Touch(path, q) { ElsewhereKept(root, path, value, q); }
    StillAdmitted(root, path, value);
    AdmittedIsWritable(CopyPath(root, path, value).root, path);
    SecondWriteAbsorbs(root, path, value, later);
    if Ordered(root) && Ordered(value) { OrderedKept(root, path, value); }
    if ResolveAt(root, path) == Some(value) { WriteBack(root, path); }
  }

  // ---- writes below a missing position ----

  predicate ArrayLike(s: Segment) {
    s.Index? || IsCanonical(s.key)
  }

  predicate StartsArrays(path: Path) {
    forall i :: 0 <= i < |path| && ArrayLike(path[i]) ==> ArrayIndex(path[i]) == Some(0)
  }

  lemma StartsArraysTail(path: Path)
    requires path != []
    ensures StartsArrays(path) <==> (ArrayLike(path[0]) ==> ArrayIndex(path[0]) == Some(0)) && StartsArrays(path[1..])
  {
    if StartsArrays(path) {
      forall i | 0 <= i < |path[1..]| && ArrayLike(path[1..][i]) ensures ArrayIndex(path[1..][i]) == Some(0) {
        assert path[1..][i] == path[i + 1];
      }
    }
    if StartsArrays(path[1..]) {
      forall i | 0 < i < |path| && ArrayLike(path[i]) ensures ArrayIndex(path[i]) == Some(0) {
        assert path[i] == path[1..][i - 1];
      }
    }
  }

  /** Below a missing position a write succeeds densely exactly when every array-like segment is the
      position 0. */
  lemma {:induction false} FreshIsDense(path: Path, value: Json)
    ensures CopyPath(DefaultChild(path), path, value).Written? <==> StartsArrays(path)
    decreases |path|
  {
    if path != [] {
      FreshIsDense(path[1..], value);
      StartsArraysTail(path);
      assert ChildToCopy(DefaultChild(path), path[0], path[1..]) == DefaultChild(path[1..]);
    }
  }

  /** The part of a path for which a write makes new containers: what lies below the first position
      that is missing, null or no container. */
  function FreshPart(j: Json, path: Path): Path {
    if path == [] then []
    else match Resolve(j, path[0])
      case Some(c) => if c.Null? then path[1..] else FreshPart(c, path[1..])
      case None => path[1..]
  }

  lemma FreshLevel(j: Json, path: Path, value: Json)
    requires path != [] && Writable(j, path)
    ensures CopyPath(j, path, value).Written? <==>
      CopyPath(ChildToCopy(j, path[0], path[1..]), path[1..], value).Written?
  {
  }

  lemma {:induction false} CopyIsDense(j: Json, path: Path, value: Json)
    requires Writable(j, path)
    ensures CopyPath(j, path, value).Written? <==> StartsArrays(FreshPart(j, path))
    decreases |path|
  {
    if path != [] {
      FreshLevel(j, path, value);
      if Resolve(j, path[0]).Some? && !Resolve(j, path[0]).value.Null? {
        CopyIsDense(Resolve(j, path[0]).value, path[1..], value);
      } else {
        FreshIsDense(path[1..], value);
      }
    }
  }

  /** A write into any root succeeds, with every array dense, exactly when it passes the check of the
      existing containers and starts every array it makes at the position 0. */
  lemma WriteIsDense(root: Json, path: Path, value: Json)
    ensures Write(root, path, value).Written? <==> Writable(root, path) && StartsArrays(FreshPart(root, path))
  {
    if Writable(root, path) { CopyIsDense(root, path, value); }
  }
}
