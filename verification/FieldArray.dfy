/** The array helpers of a field on the store (array-helpers.ts, form-runtime.ts). */
module FieldArrays {
  /* A helper writes the new array through the dispatch pipeline and then, in an update of its own, lets
     the metadata follow the rows. The pipeline rolls back what fails; the update does not. What a write
     sets off in listeners, validators and subscribers before the metadata follows is left out. */

  import opened JsonData
  import opened Decimal
  import opened Strings
  import opened FormStates
  import opened Stores
  import Rows = RowMetadata
  import Writes = ImmutableWrite
  import Paths

  /** The path of an array in the data, its metadata key, and that key parsed. */
  datatype Field = Field(path: Path, key: string, base: Rows.MetaPath)

  predicate WellKeyed(f: Field) {
    Rows.ParseMeta(f.key) == Some(f.base)
  }

  function ItemsOf(s: State, f: Field): Option<seq<Json>> {
    match Writes.ResolveAt(s.data, f.path)
    case Some(v) => if v.List? then Some(v.items) else None
    case None => None
  }

  /** The write marks the array's own entry. */
  function Touched(entries: map<string, FieldMeta>, key: string): map<string, FieldMeta> {
    if key in entries && entries[key].touched then entries
    else entries[key := FieldMeta(true, true, key in entries && entries[key].listenerTriggered, key in entries && entries[key].isValidating)]
  }

  // ---- the write ----

  /** A `set-value` through the pipeline: refused beside another transaction, rolled back where a
      container on the way cannot be written or, `ok` being false, a hook vetoes or something throws. */
  function SetStep(c: Core, f: Field, value: Json, ok: bool): (Core, bool) {
    if c.active.Some? then (c, false)
    else match Writes.Write(c.state.data, f.path, value)
      case Written(data) => if ok then (CommitWritten(c, f, data), true) else (c, false)
      case _ => (c, false)
  }

  function CommitWritten(c: Core, f: Field, data: Json): Core {
    var written := MutateStep(BeginStep(c), c.state.(data := data), false);
    CommitStep(MutateStep(written, c.state.(data := data, fieldMeta := Touched(c.state.fieldMeta, f.key)), true), false, true)
  }

  // ---- the metadata ----

  /** `updateFieldMeta`: the mutator throws when some key cannot be printed at its new row. */
  ghost function FollowStep(c: Core, f: Field, m: Rows.IndexMap): Core
    requires Rows.RowStep(m) && Rows.Bounded(f.base, c.state.fieldMeta)
  {
    if Rows.SomeFails(f.base, m, c.state.fieldMeta) then Step(c, Update(c.state, true, true, true))
    else Step(c, Update(c.state.(fieldMeta := Rows.Reindexing(f.base, m, c.state.fieldMeta)), true, false, true))
  }

  lemma TouchedIsNoRow(f: Field, entries: map<string, FieldMeta>, m: Rows.IndexMap)
    requires WellKeyed(f)
    ensures !Rows.IsRowKey(f.base, f.key)
    ensures Rows.Bounded(f.base, entries) ==> Rows.Bounded(f.base, Touched(entries, f.key))
    ensures Rows.SomeFails(f.base, m, Touched(entries, f.key)) <==> Rows.SomeFails(f.base, m, entries)
  {
    var t := Touched(entries, f.key);
    assert Rows.ChangeOf(f.base, m, f.key).Keep?;
    assert forall k :: k in t && k != f.key ==> k in entries;
    if k :| k in entries && Rows.ChangeOf(f.base, m, k).Fails? { assert k in t; }
  }

  // ---- the operations ----

  datatype RowOp = InsertRow(index: int, item: Json) | RemoveRow(index: int) | MoveRows(source: int, target: int) | SwapWith(a: int, b: int)

  predicate InRange(op: RowOp, length: nat) {
    match op
    case InsertRow(i, _) => 0 <= i <= length < MAX_SAFE_INTEGER
    case RemoveRow(i) => 0 <= i < length <= MAX_SAFE_INTEGER
    case MoveRows(a, b) => 0 <= a < length <= MAX_SAFE_INTEGER && 0 <= b < length
    case SwapWith(a, b) => 0 <= a < length <= MAX_SAFE_INTEGER && 0 <= b < length
  }

  function IndexMapOf(op: RowOp): Rows.IndexMap {
    match op
    case InsertRow(i, _) => Rows.Shift(i, 1)
    case RemoveRow(i) => Rows.Shift(i, -1)
    case MoveRows(a, b) => Rows.MoveRow(a, b)
    case SwapWith(a, b) => Rows.SwapRows(a, b)
  }

  function ItemsAfter(op: RowOp, items: seq<Json>): seq<Json>
    requires InRange(op, |items|)
  {
    match op
    case InsertRow(i, item) => Rows.Inserted(items, i, item)
    case RemoveRow(i) => Rows.Removed(items, i)
    case MoveRows(a, b) => Rows.Moved(items, a, b)
    case SwapWith(a, b) => Rows.Swapped(items, a, b)
  }

  /** The array is there and the operation lies inside it. */
  ghost predicate Applies(c: Core, f: Field, op: RowOp) {
    && WellKeyed(f) && Rows.Bounded(f.base, c.state.fieldMeta)
    && ItemsOf(c.state, f).Some? && InRange(op, |ItemsOf(c.state, f).value|)
  }

  /** The write, and then the metadata unless the write was refused. */
  ghost function PerformRow(c: Core, f: Field, op: RowOp, ok: bool): Core
    requires Applies(c, f, op)
  {
    var (d, accepted) := SetStep(c, f, List(ItemsAfter(op, ItemsOf(c.state, f).value)), ok);
    WrittenApplies(c, f, List(ItemsAfter(op, ItemsOf(c.state, f).value)), ok);
    if accepted then FollowStep(d, f, IndexMapOf(op)) else d
  }

  lemma CommittedState(c: Core, f: Field, data: Json)
    requires c.active.None?
    ensures CommitWritten(c, f, data).active.None?
    ensures CommitWritten(c, f, data).state == Rebase(c.state.(data := data, fieldMeta := Touched(c.state.fieldMeta, f.key)))
  {
  }

  lemma WrittenApplies(c: Core, f: Field, value: Json, ok: bool)
    requires WellKeyed(f) && Rows.Bounded(f.base, c.state.fieldMeta)
    ensures Rows.Bounded(f.base, SetStep(c, f, value, ok).0.state.fieldMeta)
    ensures SetStep(c, f, value, ok).1 ==>
      && Writes.Write(c.state.data, f.path, value).Written?
      && SetStep(c, f, value, ok).0.state ==
           Rebase(c.state.(data := Writes.Write(c.state.data, f.path, value).root, fieldMeta := Touched(c.state.fieldMeta, f.key)))
      && SetStep(c, f, value, ok).0.active.None?
  {
    TouchedIsNoRow(f, c.state.fieldMeta, Rows.Shift(0, 1));
    if c.active.None? && Writes.Write(c.state.data, f.path, value).Written? {
      CommittedState(c, f, Writes.Write(c.state.data, f.path, value).root);
    }
  }

  /** What is left when the metadata has followed, or has not. */
  lemma Followed(c: Core, f: Field, m: Rows.IndexMap)
    requires Rows.RowStep(m) && Rows.Bounded(f.base, c.state.fieldMeta) && c.active.None?
    ensures var d := FollowStep(c, f, m);
      if Rows.SomeFails(f.base, m, c.state.fieldMeta) then Busy(d) && d.state == c.state
      else d.active.None? && d.state == Rebase(c.state.(fieldMeta := Rows.Reindexing(f.base, m, c.state.fieldMeta)))
  {
  }

  // ---- an operation and its undoing ----

  function Undo(op: RowOp): RowOp
    requires !op.RemoveRow?
  {
    match op
    case InsertRow(i, _) => RemoveRow(i)
    case MoveRows(a, b) => MoveRows(b, a)
    case SwapWith(a, b) => SwapWith(a, b)
  }

  lemma ItemsUndone(op: RowOp, items: seq<Json>)
    requires InRange(op, |items|) && !op.RemoveRow?
    ensures InRange(Undo(op), |ItemsAfter(op, items)|) && ItemsAfter(Undo(op), ItemsAfter(op, items)) == items
  {
    match op
    case InsertRow(i, item) => assert Rows.Removed(Rows.Inserted(items, i, item), i) == items;
    case MoveRows(a, b) => MovedBack(items, a, b);
    case SwapWith(a, b) => assert Rows.Swapped(Rows.Swapped(items, a, b), a, b) == items;
  }

  lemma MovedBack(items: seq<Json>, source: int, target: int)
    requires 0 <= source < |items| && 0 <= target < |items|
    ensures Rows.Moved(Rows.Moved(items, source, target), target, source) == items
  {
    var without, moved := Rows.Removed(items, source), Rows.Moved(items, source, target);
    assert moved[target] == items[source] && Rows.Removed(moved, target) == without;
    assert Rows.Inserted(without, source, items[source]) == items;
  }

  lemma IndicesUndone(op: RowOp)
    requires !op.RemoveRow?
    ensures Rows.Undoes(IndexMapOf(op), IndexMapOf(Undo(op)))
  {
    match op
    case InsertRow(i, _) => Rows.InsertCancels(i);
    case MoveRows(a, b) => Rows.MoveCancels(a, b);
    case SwapWith(a, b) => Rows.SwapCancels(a, b);
  }

  // ---- the array can be written ----

  /** The containers above an array that is there admit the write. */
  lemma {:induction false} ArrayIsAdmitted(root: Json, path: Path)
    requires path != [] && Writes.Writable(root, path) && Writes.ResolveAt(root, path).Some?
    ensures Writes.TargetFrom(root, path).Parent? && Writes.Safe(path)
    decreases |path|
  {
    var c := Writes.Resolve(root, path[0]).value;
    if |path| > 1 {
      ArrayIsAdmitted(c, path[1..]);
      forall i | 0 <= i < |path| ensures SegmentText(path[i]) !in UNSAFE_KEYS {
        if i > 0 { assert path[i] == path[1..][i - 1]; }
      }
    }
  }

  /** Writing an array and then the old one back gives the old data. */
  lemma ArrayWrites(root: Json, path: Path, value: Json, old_: Json)
    requires Writes.Writable(root, path) && Writes.ResolveAt(root, path) == Some(old_)
    ensures var w := Writes.Write(root, path, value);
      && w.Written? && Writes.ResolveAt(w.root, path) == Some(value)
      && Writes.Write(w.root, path, old_) == Writes.Written(root)
      && (value == old_ ==> w.root == root)
  {
    if path != [] {
      ArrayIsAdmitted(root, path);
      Writes.WriteLens(root, path, value, [], old_);
      Writes.WriteLens(root, path, old_, [], old_);
    }
  }

  // ---- the round trip ----

  /** Nothing is under way, and the array can be written. */
  ghost predicate Ready(c: Core, f: Field, op: RowOp) {
    && Sound(c) && c.active.None? && Applies(c, f, op) && Writes.Writable(c.state.data, f.path)
    && Roomy(f.base, c.state.fieldMeta)
  }

  /** There is room for one more row above every row that has metadata. */
  ghost predicate Roomy(base: Rows.MetaPath, entries: map<string, FieldMeta>) {
    forall k :: k in entries && Rows.IsRowKey(base, k) ==> Rows.RowOf(base, k) < MAX_SAFE_INTEGER - 1
  }

  /** Data and metadata are as before, but that the array's own entry is marked. */
  predicate Restored(c: Core, d: Core, f: Field) {
    d.state.data == c.state.data && d.state.fieldMeta == Touched(c.state.fieldMeta, f.key)
  }

  /** A first operation: its data are written, and the metadata follow or the store stays busy. */
  lemma FirstStep(c: Core, f: Field, op: RowOp)
    requires Ready(c, f, op)
    ensures var d, items := PerformRow(c, f, op, true), ItemsOf(c.state, f).value;
      && Writes.Written(d.state.data) == Writes.Write(c.state.data, f.path, List(ItemsAfter(op, items)))
      && ItemsOf(d.state, f) == Some(ItemsAfter(op, items))
      && (Rows.SomeFails(f.base, IndexMapOf(op), c.state.fieldMeta) ==>
            Busy(d) && d.state.fieldMeta == Touched(c.state.fieldMeta, f.key))
      && (!Rows.SomeFails(f.base, IndexMapOf(op), c.state.fieldMeta) ==>
            && d.active.None? && Rows.Bounded(f.base, Touched(c.state.fieldMeta, f.key))
            && d.state.fieldMeta == Rows.Reindexing(f.base, IndexMapOf(op), Touched(c.state.fieldMeta, f.key)))
  {
    var items := ItemsOf(c.state, f).value;
    var value := List(ItemsAfter(op, items));
    ArrayWrites(c.state.data, f.path, value, List(items));
    WrittenApplies(c, f, value, true);
    TouchedIsNoRow(f, c.state.fieldMeta, IndexMapOf(op));
    Followed(SetStep(c, f, value, true).0, f, IndexMapOf(op));
  }

  lemma IndexStaysBounded(op: RowOp, length: nat, i: int)
    requires InRange(op, length) && 0 <= i < MAX_SAFE_INTEGER - 1
    ensures Rows.RowStep(IndexMapOf(op))
    ensures Rows.MapIndex(IndexMapOf(op), i).Some? ==> Rows.MapIndex(IndexMapOf(op), i).value < MAX_SAFE_INTEGER
  {
  }

  lemma KeyStaysBounded(base: Rows.MetaPath, op: RowOp, length: nat, was: string, k: string)
    requires InRange(op, length) && (Rows.IsRowKey(base, was) ==> Rows.RowOf(base, was) < MAX_SAFE_INTEGER - 1)
    requires Rows.NewKey(base, IndexMapOf(op), was) == Some(k)
    ensures Rows.IsRowKey(base, k) ==> Rows.RowOf(base, k) < MAX_SAFE_INTEGER
  {
    if Rows.ChangeOf(base, IndexMapOf(op), was).Rename? {
      IndexStaysBounded(op, length, Rows.RowOf(base, was));
      Rows.RenamedParses(base, IndexMapOf(op), was);
    }
  }

  lemma StaysBounded(base: Rows.MetaPath, op: RowOp, length: nat, entries: map<string, FieldMeta>, once: map<string, FieldMeta>)
    requires InRange(op, length) && Roomy(base, entries) && Rows.Reindexed(base, IndexMapOf(op), entries, once)
    ensures Rows.Bounded(base, once)
  {
    forall k | k in once && Rows.IsRowKey(base, k) ensures Rows.RowOf(base, k) < MAX_SAFE_INTEGER {
      assert Rows.Comes(base, IndexMapOf(op), entries, k);
      var was :| was in entries && Rows.NewKey(base, IndexMapOf(op), was) == Some(k);
      KeyStaysBounded(base, op, length, was, k);
    }
  }

  /** The array's own mark survives. */
  lemma MarkStays(f: Field, m: Rows.IndexMap, entries: map<string, FieldMeta>, once: map<string, FieldMeta>)
    requires WellKeyed(f) && Rows.RowStep(m) && Rows.Bounded(f.base, entries) && Rows.Reindexed(f.base, m, entries, once)
    requires f.key in entries && entries[f.key].touched
    ensures Touched(once, f.key) == once
  {
    TouchedIsNoRow(f, entries, m);
    Rows.OutsideKeeps(f.base, m, entries, once, f.key);
  }

  /** Metadata that followed can be followed back. */
  lemma MetaRestored(base: Rows.MetaPath, op: RowOp, length: nat, entries: map<string, FieldMeta>, once: map<string, FieldMeta>)
    requires InRange(op, length) && !op.RemoveRow? && Roomy(base, entries) && !Rows.SomeFails(base, IndexMapOf(op), entries)
    requires Rows.Bounded(base, entries) && Rows.Reindexed(base, IndexMapOf(op), entries, once)
    ensures Rows.RowStep(IndexMapOf(Undo(op))) && Rows.Bounded(base, once)
    ensures !Rows.SomeFails(base, IndexMapOf(Undo(op)), once)
    ensures Rows.Reindexing(base, IndexMapOf(Undo(op)), once) == entries
  {
    IndicesUndone(op);
    StaysBounded(base, op, length, entries, once);
    Rows.BackNeverFails(base, IndexMapOf(op), IndexMapOf(Undo(op)), entries, once);
    Rows.ReindexCancels(base, IndexMapOf(op), IndexMapOf(Undo(op)), entries, once, Rows.Reindexing(base, IndexMapOf(Undo(op)), once));
  }

  /** An operation and then its undoing: data and metadata come back exactly when every key of a row
      could be printed at its new row, or the operation changed no item to begin with. Otherwise the
      metadata stays behind, the store stays busy and the undoing is refused. */
  lemma RoundTrip(c: Core, f: Field, op: RowOp)
    requires Ready(c, f, op) && !op.RemoveRow?
    ensures Applies(PerformRow(c, f, op, true), f, Undo(op))
    ensures (var once := PerformRow(c, f, op, true);
      var twice := PerformRow(once, f, Undo(op), true);
      var items := ItemsOf(c.state, f).value;
      var fails := Rows.SomeFails(f.base, IndexMapOf(op), c.state.fieldMeta);
      && (Restored(c, twice, f) <==> !fails || ItemsAfter(op, items) == items)
      && (fails ==> Busy(once) && twice == once && ItemsOf(twice.state, f) == Some(ItemsAfter(op, items))))
  {
    FirstStep(c, f, op);
    ItemsUndone(op, ItemsOf(c.state, f).value);
    TouchedIsNoRow(f, c.state.fieldMeta, IndexMapOf(op));
    if Rows.SomeFails(f.base, IndexMapOf(op), c.state.fieldMeta) {
      Refused(c, f, op);
    } else {
      Undone(c, f, op);
    }
  }

  lemma Refused(c: Core, f: Field, op: RowOp)
    requires Ready(c, f, op) && !op.RemoveRow? && Rows.SomeFails(f.base, IndexMapOf(op), c.state.fieldMeta)
    ensures var once, items := PerformRow(c, f, op, true), ItemsOf(c.state, f).value;
      && Applies(once, f, Undo(op)) && PerformRow(once, f, Undo(op), true) == once
      && (Restored(c, once, f) <==> ItemsAfter(op, items) == items)
  {
    var items := ItemsOf(c.state, f).value;
    FirstStep(c, f, op);
    ItemsUndone(op, items);
    TouchedIsNoRow(f, c.state.fieldMeta, IndexMapOf(op));
    ArrayWrites(c.state.data, f.path, List(ItemsAfter(op, items)), List(items));
  }

  /** The second operation of an undisturbed pair. */
  lemma SecondStep(c: Core, f: Field, op: RowOp, value: Json)
    requires WellKeyed(f) && Rows.RowStep(IndexMapOf(op)) && Rows.Bounded(f.base, c.state.fieldMeta) && c.active.None?
    requires Writes.Write(c.state.data, f.path, value).Written? && Touched(c.state.fieldMeta, f.key) == c.state.fieldMeta
    requires !Rows.SomeFails(f.base, IndexMapOf(op), c.state.fieldMeta)
    ensures Rows.Bounded(f.base, SetStep(c, f, value, true).0.state.fieldMeta)
    ensures var d := FollowStep(SetStep(c, f, value, true).0, f, IndexMapOf(op));
      && SetStep(c, f, value, true).1
      && Writes.Written(d.state.data) == Writes.Write(c.state.data, f.path, value)
      && d.state.fieldMeta == Rows.Reindexing(f.base, IndexMapOf(op), c.state.fieldMeta)
  {
    WrittenApplies(c, f, value, true);
    Followed(SetStep(c, f, value, true).0, f, IndexMapOf(op));
  }

  lemma MarkedIsRoomy(f: Field, entries: map<string, FieldMeta>)
    requires WellKeyed(f) && Roomy(f.base, entries)
    ensures Roomy(f.base, Touched(entries, f.key))
  {
    TouchedIsNoRow(f, entries, Rows.Shift(0, 1));
  }

  /** Marked metadata that followed an operation keeps its mark and follows the undoing back. */
  lemma MarkedFollows(f: Field, op: RowOp, length: nat, marked: map<string, FieldMeta>, once: map<string, FieldMeta>)
    requires WellKeyed(f) && InRange(op, length) && !op.RemoveRow? && Rows.RowStep(IndexMapOf(op))
    requires Roomy(f.base, marked) && Rows.Bounded(f.base, marked) && !Rows.SomeFails(f.base, IndexMapOf(op), marked)
    requires f.key in marked && marked[f.key].touched
    requires Rows.Reindexed(f.base, IndexMapOf(op), marked, once)
    ensures Rows.RowStep(IndexMapOf(Undo(op))) && Rows.Bounded(f.base, once) && Touched(once, f.key) == once
    ensures !Rows.SomeFails(f.base, IndexMapOf(Undo(op)), once)
    ensures Rows.Reindexing(f.base, IndexMapOf(Undo(op)), once) == marked
  {
    MetaRestored(f.base, op, length, marked, once);
    MarkStays(f, IndexMapOf(op), marked, once);
  }

  /** After a first operation that the metadata followed, its undoing is as free to go. */
  lemma OnceFollowed(c: Core, f: Field, op: RowOp)
    requires Ready(c, f, op) && !op.RemoveRow? && !Rows.SomeFails(f.base, IndexMapOf(op), c.state.fieldMeta)
    ensures var once := PerformRow(c, f, op, true);
      && once.active.None? && Applies(once, f, Undo(op)) && Touched(once.state.fieldMeta, f.key) == once.state.fieldMeta
      && !Rows.SomeFails(f.base, IndexMapOf(Undo(op)), once.state.fieldMeta)
      && Rows.Reindexing(f.base, IndexMapOf(Undo(op)), once.state.fieldMeta) == Touched(c.state.fieldMeta, f.key)
  {
    var items := ItemsOf(c.state, f).value;
    FirstStep(c, f, op);
    ItemsUndone(op, items);
    MarkedIsReady(f, op, c.state.fieldMeta);
    MarkedFollows(f, op, |items|, Touched(c.state.fieldMeta, f.key), PerformRow(c, f, op, true).state.fieldMeta);
  }

  lemma MarkedIsReady(f: Field, op: RowOp, entries: map<string, FieldMeta>)
    requires WellKeyed(f) && Roomy(f.base, entries) && !Rows.SomeFails(f.base, IndexMapOf(op), entries)
    ensures Roomy(f.base, Touched(entries, f.key)) && !Rows.SomeFails(f.base, IndexMapOf(op), Touched(entries, f.key))
  {
    MarkedIsRoomy(f, entries);
    TouchedIsNoRow(f, entries, IndexMapOf(op));
  }

  lemma ItemsBack(c: Core, f: Field, op: RowOp)
    requires Ready(c, f, op) && !op.RemoveRow?
    ensures var once, items := PerformRow(c, f, op, true), ItemsOf(c.state, f).value;
      && ItemsOf(once.state, f) == Some(ItemsAfter(op, items))
      && InRange(Undo(op), |ItemsAfter(op, items)|) && ItemsAfter(Undo(op), ItemsAfter(op, items)) == items
      && Writes.Write(once.state.data, f.path, List(items)) == Writes.Written(c.state.data)
  {
    var items := ItemsOf(c.state, f).value;
    FirstStep(c, f, op);
    ItemsUndone(op, items);
    ArrayWrites(c.state.data, f.path, List(ItemsAfter(op, items)), List(items));
  }

  lemma Undone(c: Core, f: Field, op: RowOp)
    requires Ready(c, f, op) && !op.RemoveRow? && !Rows.SomeFails(f.base, IndexMapOf(op), c.state.fieldMeta)
    ensures var once := PerformRow(c, f, op, true);
      Applies(once, f, Undo(op)) && Restored(c, PerformRow(once, f, Undo(op), true), f)
  {
    OnceFollowed(c, f, op);
    ItemsBack(c, f, op);
    SecondStep(PerformRow(c, f, op, true), f, Undo(op), List(ItemsOf(c.state, f).value));
  }

  // ---- inputs that fail ----

  /** The field of an array named `rows`. */
  function RowsField(rows: string): Field {
    Field([Key(rows)], rows, Rows.MetaPath(Paths.DataSpace, [Key(rows)], false))
  }

  /** The metadata key of a cell in the first row, as `fieldMetaKey` prints it: "rows.0.first name". */
  function CellKey(rows: string, cell: string): string {
    Join(Parts(rows, cell), '.')
  }

  function Parts(rows: string, cell: string): seq<string> {
    [rows, "0", cell]
  }

  predicate Name(rows: string) {
    Paths.DotSafeText(rows) && !IsCanonical(rows)
  }

  /** A name that dots can be read from, but not printed with. */
  predicate Awkward(cell: string) {
    cell != "" && Free(cell, '.') && !Paths.DotSafeText(cell) && !IsCanonical(cell)
  }

  lemma FirstNameIsAwkward()
    ensures Awkward("first name") && Name("rows")
    ensures CellKey("rows", "first name") == "rows" + ['.'] + ("0" + ['.'] + "first name")
  {
    assert "first name"[5] == ' ' && !IsDigit("first name"[0]) && !IsDigit("rows"[0]);
    var parts := Parts("rows", "first name");
    assert parts[1..] == ["0", "first name"] && parts[1..][1..] == ["first name"];
  }

  lemma ReadRaw(input: string, parts: seq<string>)
    requires parts != [] && AllFree(parts, '.') && (forall i :: 0 <= i < |parts| ==> parts[i] != "")
    requires input == Join(parts, '.') && parts[0][0] != '$' && parts[0][0] != '/'
    ensures input != "" && input[0] == parts[0][0]
    ensures Paths.ParsePath(input) == Paths.Valid(Paths.CanonicalPath(Paths.DataSpace, Paths.DotSegments(parts)))
  {
    SplitJoin(parts, '.');
    Paths.JoinKeepsShape(parts);
    assert Paths.UI_PREFIX[0] == '$';
  }

  lemma RowsFieldIsKeyed(rows: string)
    requires Name(rows)
    ensures WellKeyed(RowsField(rows))
  {
    Paths.DotSafeIsFree(rows);
    ReadRaw(rows, [rows]);
    assert Paths.DotSegments([rows]) == [Key(rows)];
    assert Rows.Normalize([Key(rows)]) == [Key(rows)];
  }

  lemma ZeroReadsAsIndex()
    ensures Free("0", '.') && Paths.DotSegment("0") == Index(0)
  {
    RenderIsCanonical(0);
    ParseRender(0);
    assert Render(0) == "0";
  }

  lemma CellKeyParses(rows: string, cell: string)
    requires Name(rows) && Awkward(cell)
    ensures Rows.ParseMeta(CellKey(rows, cell)) == Some(Rows.MetaPath(Paths.DataSpace, [Key(rows), Index(0), Key(cell)], false))
  {
    var path: Path := [Key(rows), Index(0), Key(cell)];
    Paths.DotSafeIsFree(rows);
    ZeroReadsAsIndex();
    ReadRaw(CellKey(rows, cell), Parts(rows, cell));
    assert Paths.DotSegments(Parts(rows, cell)) == path;
    assert Rows.Normalize(path) == path;
  }

  lemma CellKeyFails(rows: string, cell: string, m: Rows.IndexMap)
    requires Name(rows) && Awkward(cell) && Rows.MapIndex(m, 0).Some?
    ensures Rows.IsRowKey(RowsField(rows).base, CellKey(rows, cell)) && Rows.RowOf(RowsField(rows).base, CellKey(rows, cell)) == 0
    ensures Rows.ChangeOf(RowsField(rows).base, m, CellKey(rows, cell)).Fails?
  {
    var base, c := RowsField(rows).base, Rows.MetaPath(Paths.DataSpace, [Key(rows), Index(0), Key(cell)], false);
    CellKeyParses(rows, cell);
    assert base.segments == c.segments[..1];
    assert Rows.RowIndex(c, base) == Some(0);
    AwkwardIsUnprintable(c, base, Rows.MapIndex(m, 0).value);
  }

  lemma AwkwardIsUnprintable(c: Rows.MetaPath, base: Rows.MetaPath, row: int)
    requires |c.segments| == 3 && |base.segments| == 1 && !c.pointer && c.segments[2].Key? && Awkward(c.segments[2].key)
    ensures Rows.FormatMeta(Rows.AtRow(c, base, row)).None?
  {
    assert !Paths.DotSafe(Rows.AtRow(c, base, row).segments[2]);
  }

  /** A form with one row and one entry of metadata. */
  function AwkwardForm(rows: string, cell: string): Core {
    Core(State(Record([rows], map[rows := List([Null])]), Null, Null, Meta(None, false, false, None),
               map[CellKey(rows, cell) := FieldMeta(true, false, false, false)], [], None),
         0, 0, 0, false, false, true, false, None, false, false)
  }

  lemma AwkwardFormIsReady(rows: string, cell: string, item: Json)
    requires Name(rows) && rows !in UNSAFE_KEYS && Awkward(cell)
    ensures ItemsOf(AwkwardForm(rows, cell).state, RowsField(rows)) == Some([Null])
    ensures Ready(AwkwardForm(rows, cell), RowsField(rows), InsertRow(0, item))
  {
    RowsFieldIsKeyed(rows);
    CellKeyFails(rows, cell, Rows.Shift(0, 1));
    RowsAreThere(rows);
    var c, f := AwkwardForm(rows, cell), RowsField(rows);
    assert f.path == [Key(rows)] && c.state.data == Record([rows], map[rows := List([Null])]);
    assert ItemsOf(c.state, f) == Some([Null]);
    assert c.state.fieldMeta.Keys == {CellKey(rows, cell)};
  }

  lemma RowsAreThere(rows: string)
    requires rows !in UNSAFE_KEYS
    ensures var root := Record([rows], map[rows := List([Null])]);
      Writes.ResolveAt(root, [Key(rows)]) == Some(List([Null])) && Writes.Writable(root, [Key(rows)])
  {
    var root := Record([rows], map[rows := List([Null])]);
    assert [Key(rows)][1..] == [];
    assert Writes.Resolve(root, Key(rows)) == Some(List([Null]));
    assert SegmentText(Key(rows)) == rows;
  }

  /** The failing inputs: with a touched cell named "first name" in the first row, inserting a row and
      removing it again does not give the form back. The inserted row stays, and the store refuses
      every transaction from then on. */
  lemma AwkwardRoundTrip(rows: string, cell: string, item: Json)
    requires Name(rows) && rows !in UNSAFE_KEYS && Awkward(cell)
    ensures (var c, f, op := AwkwardForm(rows, cell), RowsField(rows), InsertRow(0, item);
      && Ready(c, f, op) && Applies(PerformRow(c, f, op, true), f, Undo(op))
      && Busy(PerformRow(c, f, op, true))
      && !Restored(c, PerformRow(PerformRow(c, f, op, true), f, Undo(op), true), f)
      && ItemsOf(PerformRow(PerformRow(c, f, op, true), f, Undo(op), true).state, f) == Some([item, Null]))
  {
    var c, f, op := AwkwardForm(rows, cell), RowsField(rows), InsertRow(0, item);
    AwkwardFormIsReady(rows, cell, item);
    CellKeyFails(rows, cell, Rows.Shift(0, 1));
    assert CellKey(rows, cell) in c.state.fieldMeta;
    RoundTrip(c, f, op);
    assert ItemsAfter(op, [Null]) == [item, Null];
  }

  // ---- in place ----

  class FieldArray {
    const store: FormStore
    const field: Field

    constructor (store: FormStore, field: Field)
      ensures this.store == store && this.field == field
    {
      this.store, this.field := store, field;
    }

    /** `deps.set`: one action through the pipeline. */
    method Set(value: Json, ok: bool) returns (accepted: bool)
      requires store.Valid() && Writes.Write(store.state.data, field.path, value) != Writes.Sparse
      modifies store
      ensures store.Valid() && (store.Contents(), accepted) == SetStep(old(store.Contents()), field, value, ok)
    {
      var tx := store.BeginTransaction();
      if tx == null { return false; }
      assert store.Contents() == BeginStep(old(store.Contents()));
      var written := Writes.SetImmutablePath(tx.draft.data, field.path, value);
      accepted := written.Written? && ok;
      if accepted {
        Commit(tx, written.root);
      } else {
        var refused := store.RollbackTransaction(tx);
      }
    }

    method Commit(tx: Transaction, data: Json)
      requires store.Valid() && store.active == tx && store.Contents().active == Some(StartTx(store.state))
      modifies store, tx
      ensures store.Valid()
      ensures store.Contents() ==
        CommitStep(MutateStep(MutateStep(old(store.Contents()), old(store.state).(data := data), false),
                              old(store.state).(data := data, fieldMeta := Touched(old(store.state).fieldMeta, field.key)), true), false, true)
    {
      var written := store.state.(data := data);
      Change(tx, written, false);
      Change(tx, written.(fieldMeta := Touched(written.fieldMeta, field.key)), true);
      var threw := store.CommitTransaction(tx, true);
    }

    method Change(tx: Transaction, after: State, sameRefs: bool)
      requires store.Valid() && store.active == tx && tx.status.Active?
      modifies tx
      ensures store.Valid() && store.Contents() == MutateStep(old(store.Contents()), after, sameRefs) && tx.status.Active?
    {
      var mutated := tx.Mutate(after, sameRefs);
    }

    /** `deps.updateFieldMeta`. */
    method Follow(m: Rows.IndexMap) returns (threw: bool)
      requires store.Valid() && Rows.RowStep(m) && Rows.Bounded(field.base, store.state.fieldMeta) && store.active == null
      modifies store
      ensures store.Valid() && store.Contents() == FollowStep(old(store.Contents()), field, m)
      ensures threw <==> Rows.SomeFails(field.base, m, old(store.state.fieldMeta))
    {
      var moved := Rows.Reindex(store.state.fieldMeta, field.base, m);
      threw := store.UpdateState(if moved.Some? then store.state.(fieldMeta := moved.value) else store.state, true, moved.None?, true);
    }

    /** The write, and the metadata after it. */
    method Apply(ghost op: RowOp, next: seq<Json>, m: Rows.IndexMap, ok: bool) returns (threw: bool)
      requires store.Valid() && Applies(store.Contents(), field, op) && m == IndexMapOf(op)
      requires next == ItemsAfter(op, ItemsOf(store.state, field).value)
      modifies store
      ensures store.Valid() && store.Contents() == PerformRow(old(store.Contents()), field, op, ok)
      ensures old(store.active) == null && threw ==> Busy(store.Contents())
    {
      NeverSparse(store.state.data, field.path, List(next));
      WrittenApplies(store.Contents(), field, List(next), ok);
      var accepted := Set(List(next), ok);
      threw := false;
      if accepted {
        Followed(store.Contents(), field, m);
        threw := Follow(m);
      }
    }

    method Items() returns (items: seq<Json>)
      requires ItemsOf(store.state, field).Some?
      ensures items == ItemsOf(store.state, field).value
    {
      items := ItemsOf(store.state, field).value;
    }

    method InsertValue(index: int, item: Json, ok: bool) returns (threw: bool)
      requires store.Valid() && Applies(store.Contents(), field, InsertRow(index, item))
      modifies store
      ensures store.Valid() && store.Contents() == PerformRow(old(store.Contents()), field, InsertRow(index, item), ok)
    {
      var items := Items();
      threw := Apply(InsertRow(index, item), items[..index] + [item] + items[index..], Rows.Shift(index, 1), ok);
    }

    method RemoveValue(index: int, ok: bool) returns (threw: bool)
      requires store.Valid() && Applies(store.Contents(), field, RemoveRow(index))
      modifies store
      ensures store.Valid() && store.Contents() == PerformRow(old(store.Contents()), field, RemoveRow(index), ok)
    {
      var items := Items();
      threw := Apply(RemoveRow(index), items[..index] + items[index + 1..], Rows.Shift(index, -1), ok);
    }

    method MoveValue(source: int, target: int, ok: bool) returns (threw: bool)
      requires store.Valid() && Applies(store.Contents(), field, MoveRows(source, target))
      modifies store
      ensures store.Valid() && store.Contents() == PerformRow(old(store.Contents()), field, MoveRows(source, target), ok)
    {
      var next := Items();
      var moved := next[source];
      next := next[..source] + next[source + 1..];
      next := next[..target] + [moved] + next[target..];
      threw := Apply(MoveRows(source, target), next, Rows.MoveRow(source, target), ok);
    }

    method SwapValue(a: int, b: int, ok: bool) returns (threw: bool)
      requires store.Valid() && Applies(store.Contents(), field, SwapWith(a, b))
      modifies store
      ensures store.Valid() && store.Contents() == PerformRow(old(store.Contents()), field, SwapWith(a, b), ok)
    {
      var items := Items();
      threw := Apply(SwapWith(a, b), items[a := items[b]][b := items[a]], Rows.SwapRows(a, b), ok);
    }
  }

  /** An array that is there is written without a hole, or not at all. */
  lemma NeverSparse(root: Json, path: Path, value: Json)
    requires Writes.ResolveAt(root, path).Some?
    ensures Writes.Write(root, path, value) != Writes.Sparse
  {
    if Writes.Writable(root, path) { ArrayWrites(root, path, value, Writes.ResolveAt(root, path).value); }
  }
}
