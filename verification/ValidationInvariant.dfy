/** What every stretch of the validation runtime keeps.

    A live run is uncancelled and holds its validators' slots; generations rise with every claim, so
    that of two runs sharing a validator the later one has the higher generation; publications come in
    the order their runs were started; and a live run's revision, lifecycle and generations are the
    current ones. Cancelling only shrinks what is held, starting first frees what it claims, and a new
    revision keeps no run alive. `StepKeeps` and `StepTicks` are the results the runs build on. */
module ValidationInvariant {
  import opened JsonData
  import opened Validation

  // ---- who holds what ----

  predicate TokenOk(token: Token) {
    match token.kind
    case Automatic(id) => token.gens.Keys == {id}
    case Foreground => token.snapshot.Some?
  }

  /** A live token is uncancelled, and is the automatic run of its validator or the foreground run. */
  predicate HeldAt(r: Runtime, t: TokenId) {
    && t < |r.tokens| && r.tokens[t].cancellation.None?
    && match r.tokens[t].kind
       case Automatic(id) => id in r.automatic && r.automatic[id] == t
       case Foreground => r.foreground == Some(t)
  }

  predicate SlotAt(r: Runtime, id: string) {
    id in r.automatic && r.automatic[id] in r.active && r.automatic[id] < |r.tokens|
    && r.tokens[r.automatic[id]].kind == Automatic(id)
  }

  predicate ForegroundAt(r: Runtime, f: TokenId) {
    && f in r.active && f < |r.tokens| && r.tokens[f].kind.Foreground?
    && (forall id :: id in r.tokens[f].gens ==> id !in r.automatic)
  }

  ghost predicate Shape(r: Runtime) {
    && (forall t :: 0 <= t < |r.tokens| ==> TokenOk(r.tokens[t]))
    && (forall t :: t in r.active ==> HeldAt(r, t))
    && (forall id :: id in r.automatic ==> SlotAt(r, id))
    && (r.foreground.Some? ==> ForegroundAt(r, r.foreground.value))
    && r.automaticPaths.Keys == r.automatic.Keys
  }

  /** Two live tokens never hold the same validator. */
  lemma LiveAreDisjoint(r: Runtime, t: TokenId, u: TokenId, id: string)
    requires Shape(r) && t in r.active && u in r.active
    requires HeldAt(r, t) && HeldAt(r, u) && id in r.tokens[t].gens && id in r.tokens[u].gens
    ensures t == u
  {
    assert TokenOk(r.tokens[t]) && TokenOk(r.tokens[u]);
  }

  lemma DetachShape(r: Runtime, t: TokenId)
    requires Shape(r)
    ensures Shape(Detach(r, t))
  {
    var d := Detach(r, t);
    forall u | u in d.active ensures HeldAt(d, u) { assert HeldAt(r, u); assert TokenOk(r.tokens[u]); }
    forall id | id in d.automatic ensures SlotAt(d, id) { assert SlotAt(r, id); assert TokenOk(r.tokens[r.automatic[id]]); }
  }

  lemma CancelHeld(r: Runtime, t: TokenId, reason: Cancellation, u: TokenId)
    requires Shape(r) && t < |r.tokens| && r.tokens[t].cancellation.None? && u in Cancel(r, t, reason).active
    ensures HeldAt(Cancel(r, t, reason), u)
  {
    assert HeldAt(r, u) && TokenOk(r.tokens[u]);
  }

  lemma CancelSlot(r: Runtime, t: TokenId, reason: Cancellation, id: string)
    requires Shape(r) && t < |r.tokens| && r.tokens[t].cancellation.None? && id in Cancel(r, t, reason).automatic
    ensures SlotAt(Cancel(r, t, reason), id)
  {
    assert SlotAt(r, id) && TokenOk(r.tokens[r.automatic[id]]);
  }

  lemma CancelShape(r: Runtime, t: TokenId, reason: Cancellation)
    requires Shape(r)
    ensures Shape(Cancel(r, t, reason))
  {
    var d := Cancel(r, t, reason);
    if t < |r.tokens| && r.tokens[t].cancellation.None? {
      forall u | 0 <= u < |d.tokens| ensures TokenOk(d.tokens[u]) { assert TokenOk(r.tokens[u]); }
      forall u | u in d.active ensures HeldAt(d, u) { CancelHeld(r, t, reason, u); }
      forall id | id in d.automatic ensures SlotAt(d, id) { CancelSlot(r, t, reason, id); }
    }
  }

  // ---- cancelling only shrinks ----

  predicate SameRun(a: Token, b: Token) {
    a.(cancellation := None) == b.(cancellation := None)
  }

  ghost predicate Shrinks(r: Runtime, d: Runtime) {
    && |d.tokens| == |r.tokens| && (forall t :: 0 <= t < |r.tokens| ==> SameRun(d.tokens[t], r.tokens[t]))
    && (forall t :: t in d.active ==> t in r.active)
    && (forall id :: id in d.automatic ==> id in r.automatic && d.automatic[id] == r.automatic[id])
    && (d.foreground == r.foreground || d.foreground == None)
    && d.generations == r.generations && d.foregroundGeneration == r.foregroundGeneration
    && d.revision == r.revision && d.lifecycle == r.lifecycle && d.disposed == r.disposed && d.published == r.published
  }

  lemma CancelShrinks(r: Runtime, t: TokenId, reason: Cancellation)
    ensures Shrinks(r, Cancel(r, t, reason))
  {
  }

  lemma ShrinksTransitive(r: Runtime, d: Runtime, e: Runtime)
    requires Shrinks(r, d) && Shrinks(d, e)
    ensures Shrinks(r, e)
  {
    forall t | 0 <= t < |r.tokens| ensures SameRun(e.tokens[t], r.tokens[t]) {
      assert SameRun(d.tokens[t], r.tokens[t]) && SameRun(e.tokens[t], d.tokens[t]);
    }
  }

  /** Cancelling a token that holds a validator's slot frees it. */
  lemma SlotIsFreed(r: Runtime, id: string)
    requires Shape(r)
    ensures Shape(CancelAutomatic(r, id)) && Shrinks(r, CancelAutomatic(r, id))
    ensures id !in CancelAutomatic(r, id).automatic
  {
    if id in r.automatic {
      var t := r.automatic[id];
      assert SlotAt(r, id) && HeldAt(r, t) && TokenOk(r.tokens[t]);
      CancelShape(r, t, Superseded);
      CancelShrinks(r, t, Superseded);
    }
  }

  lemma ForegroundIsFreed(r: Runtime)
    requires Shape(r)
    ensures Shape(CancelForeground(r)) && Shrinks(r, CancelForeground(r))
    ensures CancelForeground(r).foreground.None?
  {
    if r.foreground.Some? {
      var f := r.foreground.value;
      assert ForegroundAt(r, f) && HeldAt(r, f);
      CancelShape(r, f, Superseded);
      CancelShrinks(r, f, Superseded);
    }
  }

  lemma {:induction false} PendingAreFreed(r: Runtime, order: seq<string>)
    requires Shape(r)
    ensures Shape(CancelPending(r, order)) && Shrinks(r, CancelPending(r, order))
    ensures forall id :: id in order ==> id !in CancelPending(r, order).automatic
  {
    if order != [] {
      var front, last := order[..|order| - 1], order[|order| - 1];
      PendingAreFreed(r, front);
      SlotIsFreed(CancelPending(r, front), last);
      ShrinksTransitive(r, CancelPending(r, front), CancelPending(r, order));
    }
  }

  lemma {:induction false} EachIsCancelled(r: Runtime, ts: seq<TokenId>, reason: Cancellation)
    requires Shape(r)
    ensures Shape(CancelEach(r, ts, reason)) && Shrinks(r, CancelEach(r, ts, reason))
    ensures forall t :: t in ts ==> t !in CancelEach(r, ts, reason).active
  {
    if ts != [] {
      var front, last := ts[..|ts| - 1], ts[|ts| - 1];
      var before := CancelEach(r, front, reason);
      EachIsCancelled(r, front, reason);
      CancelShape(before, last, reason);
      CancelShrinks(before, last, reason);
      ShrinksTransitive(r, before, CancelEach(r, ts, reason));
      assert last in before.active ==> HeldAt(before, last);
    }
  }

  // ---- what the tokens tell of the past ----

  predicate GenBounded(r: Runtime, token: Token) {
    forall id :: id in token.gens ==> id in r.generations && token.gens[id] <= r.generations[id]
  }

  predicate Rises(a: Token, b: Token) {
    forall id :: id in a.gens && id in b.gens ==> a.gens[id] < b.gens[id]
  }

  /** What was published was computed from a snapshot of the revision current at that moment. */
  predicate EntryOk(r: Runtime, p: Publication) {
    p.token < |r.tokens| && r.tokens[p.token].revision == p.revision && r.tokens[p.token].snapshot == Some(p.revision)
  }

  predicate Share(r: Runtime, t: TokenId, u: TokenId) {
    t < |r.tokens| && u < |r.tokens| && exists id :: id in r.tokens[t].gens && id in r.tokens[u].gens
  }

  /** For one validator, a run started later is never overwritten by one started earlier. */
  predicate InOrder(r: Runtime, p: Publication, q: Publication) {
    Share(r, p.token, q.token) ==> p.token <= q.token
  }

  ghost predicate TokensRise(r: Runtime) {
    && (forall t :: 0 <= t < |r.tokens| ==> GenBounded(r, r.tokens[t]))
    && (forall t, u :: 0 <= t < u < |r.tokens| ==> Rises(r.tokens[t], r.tokens[u]))
  }

  ghost predicate LogInOrder(r: Runtime) {
    && (forall i :: 0 <= i < |r.published| ==> EntryOk(r, r.published[i]))
    && (forall i, j :: 0 <= i < j < |r.published| ==> InOrder(r, r.published[i], r.published[j]))
  }

  predicate Timely(r: Runtime, t: TokenId) {
    && t < |r.tokens| && r.tokens[t].revision == r.revision && r.tokens[t].lifecycle == r.lifecycle
    && GensCurrent(r, t)
    && (r.tokens[t].snapshot.Some? ==> r.tokens[t].snapshot.value == r.revision)
  }

  ghost predicate AllTimely(r: Runtime) {
    forall t :: t in r.active ==> Timely(r, t)
  }

  lemma ShrinkKeepsTokens(r: Runtime, d: Runtime)
    requires Shrinks(r, d) && TokensRise(r)
    ensures TokensRise(d)
  {
    forall t | 0 <= t < |d.tokens| ensures GenBounded(d, d.tokens[t]) {
      assert SameRun(d.tokens[t], r.tokens[t]) && GenBounded(r, r.tokens[t]);
    }
    forall t, u | 0 <= t < u < |d.tokens| ensures Rises(d.tokens[t], d.tokens[u]) {
      assert SameRun(d.tokens[t], r.tokens[t]) && SameRun(d.tokens[u], r.tokens[u]) && Rises(r.tokens[t], r.tokens[u]);
    }
  }

  lemma ShrinkKeepsLog(r: Runtime, d: Runtime)
    requires Shrinks(r, d) && LogInOrder(r)
    ensures LogInOrder(d)
  {
    forall i | 0 <= i < |d.published| ensures EntryOk(d, d.published[i]) {
      var p := d.published[i];
      assert EntryOk(r, p);
      assert SameRun(d.tokens[p.token], r.tokens[p.token]);
    }
    forall i, j | 0 <= i < j < |d.published| ensures InOrder(d, d.published[i], d.published[j]) {
      var p, q := d.published[i], d.published[j];
      assert InOrder(r, p, q) && EntryOk(r, p) && EntryOk(r, q);
      assert SameRun(d.tokens[p.token], r.tokens[p.token]) && SameRun(d.tokens[q.token], r.tokens[q.token]);
      assert Share(d, p.token, q.token) <==> Share(r, p.token, q.token);
    }
  }

  lemma ShrinkKeepsTimely(r: Runtime, d: Runtime)
    requires Shrinks(r, d) && forall t :: t in d.active ==> Timely(r, t)
    ensures AllTimely(d)
  {
    forall t | t in d.active ensures Timely(d, t) {
      assert Timely(r, t);
      assert SameRun(d.tokens[t], r.tokens[t]);
    }
  }

  // ---- starting ----

  predicate IdFree(r: Runtime, id: string) {
    && id !in r.automatic
    && (r.foreground.Some? ==> r.foreground.value < |r.tokens| && id !in r.tokens[r.foreground.value].gens)
  }

  lemma FreeIdIsUnheld(r: Runtime, id: string, t: TokenId)
    requires Shape(r) && IdFree(r, id) && t in r.active
    ensures t < |r.tokens| && id !in r.tokens[t].gens
  {
    assert HeldAt(r, t) && TokenOk(r.tokens[t]);
  }

  ghost predicate Inv(r: Runtime) {
    Shape(r) && TokensRise(r) && LogInOrder(r) && AllTimely(r)
  }

  lemma ShrinkKeepsInv(r: Runtime, d: Runtime)
    requires Inv(r) && Shape(d) && Shrinks(r, d)
    ensures Inv(d)
  {
    ShrinkKeepsTokens(r, d);
    ShrinkKeepsLog(r, d);
    ShrinkKeepsTimely(r, d);
  }

  lemma NextGenerationKeeps(r: Runtime, id: string)
    requires Inv(r) && IdFree(r, id)
    ensures Inv(NextGeneration(r, id))
  {
    var n := NextGeneration(r, id);
    forall t | t in n.active ensures HeldAt(n, t) && Timely(n, t) {
      FreeIdIsUnheld(r, id, t);
      assert HeldAt(r, t) && Timely(r, t);
    }
    forall k | k in n.automatic ensures SlotAt(n, k) { assert SlotAt(r, k); }
    assert r.foreground.Some? ==> ForegroundAt(r, r.foreground.value);
    forall t | 0 <= t < |n.tokens| ensures GenBounded(n, n.tokens[t]) { assert GenBounded(r, r.tokens[t]); }
    LogKept(r, n);
  }

  /** The log reads nothing but the tokens. */
  lemma LogKept(r: Runtime, n: Runtime)
    requires LogInOrder(r) && n.published == r.published && r.tokens <= n.tokens
    ensures LogInOrder(n)
  {
    forall i | 0 <= i < |n.published| ensures EntryOk(n, n.published[i]) { assert EntryOk(r, r.published[i]); }
    forall i, j | 0 <= i < j < |n.published| ensures InOrder(n, n.published[i], n.published[j]) {
      assert InOrder(r, r.published[i], r.published[j]) && EntryOk(r, r.published[i]) && EntryOk(r, r.published[j]);
      assert Share(n, n.published[i].token, n.published[j].token) ==> Share(r, r.published[i].token, r.published[j].token);
    }
  }

  /** A token may join when it is timely and its generations are above every earlier claim. */
  predicate Joins(r: Runtime, token: Token) {
    && TokenOk(token) && token.cancellation.None? && token.revision == r.revision && token.lifecycle == r.lifecycle
    && (token.snapshot.Some? ==> token.snapshot.value == r.revision)
    && (forall id :: id in token.gens ==> id in r.generations && r.generations[id] == token.gens[id])
  }

  ghost predicate Above(r: Runtime, token: Token) {
    forall t :: 0 <= t < |r.tokens| ==> Rises(r.tokens[t], token)
  }

  lemma AddTokenKeeps(r: Runtime, token: Token)
    requires TokensRise(r) && Above(r, token)
    requires forall id :: id in token.gens ==> id in r.generations && r.generations[id] == token.gens[id]
    ensures TokensRise(AddToken(r, token))
  {
    var n := AddToken(r, token);
    forall t | 0 <= t < |n.tokens| ensures GenBounded(n, n.tokens[t]) {
      if t < |r.tokens| { assert GenBounded(r, r.tokens[t]); }
    }
    forall t, u | 0 <= t < u < |n.tokens| ensures Rises(n.tokens[t], n.tokens[u]) {
      if u < |r.tokens| { assert Rises(r.tokens[t], r.tokens[u]); } else { assert Rises(r.tokens[t], token); }
    }
  }

  lemma JoinedIsTimely(r: Runtime, token: Token)
    requires AllTimely(r) && Joins(r, token)
    ensures AllTimely(AddToken(r, token))
  {
    var n := AddToken(r, token);
    forall t | t in n.active ensures Timely(n, t) {
      if t in r.active { assert Timely(r, t); }
    }
  }

  lemma AutomaticShape(r: Runtime, id: string, token: Token, path: Path)
    requires Shape(r) && IdFree(r, id) && TokenOk(token) && token.cancellation.None? && token.kind == Automatic(id)
    ensures Shape(AddToken(r, token).(automatic := r.automatic[id := |r.tokens|], automaticPaths := r.automaticPaths[id := path]))
  {
    var n := AddToken(r, token).(automatic := r.automatic[id := |r.tokens|], automaticPaths := r.automaticPaths[id := path]);
    forall t | t in n.active ensures HeldAt(n, t) {
      if t in r.active { FreeIdIsUnheld(r, id, t); assert HeldAt(r, t) && TokenOk(r.tokens[t]); }
    }
    forall k | k in n.automatic ensures SlotAt(n, k) {
      if k != id { assert SlotAt(r, k); }
    }
  }

  /** The next generation of a validator is above everything claimed for it before. */
  lemma NextIsAbove(r: Runtime, token: Token)
    requires TokensRise(r)
    requires forall id :: id in token.gens && id in r.generations ==> r.generations[id] < token.gens[id]
    ensures Above(r, token)
  {
    forall t | 0 <= t < |r.tokens| ensures Rises(r.tokens[t], token) { assert GenBounded(r, r.tokens[t]); }
  }

  function AutomaticToken(n: Runtime, id: string, paths: seq<Path>): Token
    requires id in n.generations
  {
    Token(Automatic(id), n.revision, n.lifecycle, map[id := n.generations[id]], paths, None, None)
  }

  lemma StartAutomaticKeeps(r: Runtime, id: string, paths: seq<Path>, path: Path)
    requires Inv(r) && IdFree(r, id)
    ensures Inv(StartAutomatic(r, id, paths, path))
  {
    var n := NextGeneration(r, id);
    var token := AutomaticToken(n, id, paths);
    NextGenerationKeeps(r, id);
    NextIsAbove(r, token);
    AddTokenKeeps(n, token) by { assert Above(n, token); }
    AutomaticShape(n, id, token, path);
    JoinedIsTimely(n, token);
    FinishStart(n, AddToken(n, token), StartAutomatic(r, id, paths, path));
  }

  lemma FinishStart(n: Runtime, a: Runtime, s: Runtime)
    requires LogInOrder(n) && n.published == s.published && n.tokens <= s.tokens
    requires TokensRise(a) && AllTimely(a) && Shape(s)
    requires a.tokens == s.tokens && a.active == s.active && a.generations == s.generations
    requires a.revision == s.revision && a.lifecycle == s.lifecycle
    ensures Inv(s)
  {
    LogKept(n, s);
    TimelyReads(a, s);
    forall t | 0 <= t < |s.tokens| ensures GenBounded(s, s.tokens[t]) { assert GenBounded(a, a.tokens[t]); }
  }

  /** Timeliness reads neither the slots nor the foreground. */
  lemma TimelyReads(r: Runtime, n: Runtime)
    requires AllTimely(r) && n.tokens == r.tokens && n.active == r.active && n.generations == r.generations
    requires n.revision == r.revision && n.lifecycle == r.lifecycle
    ensures AllTimely(n)
  {
    forall t | t in n.active ensures Timely(n, t) { assert Timely(r, t); }
  }

  /** With no foreground and no pending automatic run there is no live token left to be late. */
  lemma NobodyIsLate(r: Runtime)
    requires Shape(r) && r.foreground.None? && |r.automatic| == 0
    ensures AllTimely(r)
  {
  }

  /** The foreground generation is a mere counter. */
  lemma CounterIsFree(r: Runtime, n: Runtime)
    requires Shape(r) && n == r.(foregroundGeneration := n.foregroundGeneration, revision := n.revision, lifecycle := n.lifecycle, disposed := n.disposed)
    ensures Shape(n)
    ensures TokensRise(r) ==> TokensRise(n)
    ensures LogInOrder(r) ==> LogInOrder(n)
    ensures AllTimely(r) && n.revision == r.revision && n.lifecycle == r.lifecycle ==> AllTimely(n)
  {
    forall t | t in n.active ensures HeldAt(n, t) { assert HeldAt(r, t); }
    forall id | id in n.automatic ensures SlotAt(n, id) { assert SlotAt(r, id); }
    assert r.foreground.Some? ==> ForegroundAt(r, r.foreground.value);
    if TokensRise(r) {
      forall t | 0 <= t < |n.tokens| ensures GenBounded(n, n.tokens[t]) { assert GenBounded(r, r.tokens[t]); }
    }
    if LogInOrder(r) { LogKept(r, n); }
    if AllTimely(r) && n.revision == r.revision && n.lifecycle == r.lifecycle { TimelyReads(r, n); }
  }

  lemma CountedKeeps(r: Runtime)
    requires Inv(r)
    ensures Inv(Counted(r))
  {
    CounterIsFree(r, Counted(r));
  }

  lemma CancelAutomaticKeeps(r: Runtime, id: string)
    requires Inv(r)
    ensures Inv(CancelAutomatic(r, id)) && id !in CancelAutomatic(r, id).automatic
  {
    SlotIsFreed(r, id);
    ShrinkKeepsInv(r, CancelAutomatic(r, id));
  }

  lemma CancelForegroundKeeps(r: Runtime)
    requires Inv(r)
    ensures Inv(CancelForeground(r)) && CancelForeground(r).foreground.None?
    ensures forall id :: id !in r.automatic ==> id !in CancelForeground(r).automatic
  {
    ForegroundIsFreed(r);
    ShrinkKeepsInv(r, CancelForeground(r));
  }

  lemma CancelForegroundOfKeeps(r: Runtime, id: string)
    requires Inv(r) && id !in r.automatic
    ensures Inv(CancelForegroundOf(r, id)) && IdFree(CancelForegroundOf(r, id), id)
  {
    CancelForegroundKeeps(r);
    assert r.foreground.Some? ==> ForegroundAt(r, r.foreground.value);
  }

  lemma ClearKeeps(r: Runtime, id: string)
    requires Inv(r)
    ensures Inv(Clear(r, id)) && IdFree(Clear(r, id), id)
  {
    CountedKeeps(r);
    ClearCounted(Counted(r), id);
  }

  lemma ClearCounted(r: Runtime, id: string)
    requires Inv(r)
    ensures Inv(CancelForegroundOf(CancelAutomatic(r, id), id)) && IdFree(CancelForegroundOf(CancelAutomatic(r, id), id), id)
  {
    CancelAutomaticKeeps(r, id);
    CancelForegroundOfKeeps(CancelAutomatic(r, id), id);
  }

  lemma ScheduleKeeps(r: Runtime, v: Validator, path: Path)
    requires Inv(r)
    ensures Inv(Schedule(r, v, path))
  {
    ClearKeeps(r, v.id);
    StartAutomaticKeeps(Clear(r, v.id), v.id, if v.fields != [] then v.fields else [path], path);
  }

  lemma {:induction false} ScheduleEachKeeps(r: Runtime, vs: seq<Validator>, path: Path)
    requires Inv(r)
    ensures Inv(ScheduleEach(r, vs, path))
  {
    if vs != [] {
      ScheduleEachKeeps(r, vs[..|vs| - 1], path);
      ScheduleKeeps(ScheduleEach(r, vs[..|vs| - 1], path), vs[|vs| - 1], path);
    }
  }

  lemma {:induction false} RescheduleKeeps(r: Runtime, vs: seq<Validator>, retained: seq<(string, Path)>)
    requires Inv(r)
    ensures Inv(Reschedule(r, vs, retained))
  {
    if retained != [] {
      var (id, path) := retained[|retained| - 1];
      var front := Reschedule(r, vs, retained[..|retained| - 1]);
      RescheduleKeeps(r, vs, retained[..|retained| - 1]);
      match Find(vs, id) case None => case Some(v) => ScheduleKeeps(front, v, path);
    }
  }

  lemma {:induction false} ClaimKeeps(r: Runtime, vs: seq<Validator>)
    requires Inv(r) && r.foreground.None?
    ensures Inv(Claim(r, vs)) && Claim(r, vs).foreground.None?
    ensures forall v :: v in vs ==> v.id !in Claim(r, vs).automatic && v.id in Claim(r, vs).generations
    ensures Claim(r, vs).revision == r.revision && Claim(r, vs).lifecycle == r.lifecycle
  {
    if vs != [] {
      var front, id := Claim(r, vs[..|vs| - 1]), vs[|vs| - 1].id;
      ClaimKeeps(r, vs[..|vs| - 1]);
      SlotIsFreed(front, id);
      var freed := CancelAutomatic(front, id);
      ShrinkKeepsInv(front, freed);
      NextGenerationKeeps(freed, id);
      assert vs == vs[..|vs| - 1] + [vs[|vs| - 1]];
    }
  }

  lemma ForegroundShape(c: Runtime, token: Token)
    requires Shape(c) && c.foreground.None? && token.kind.Foreground? && TokenOk(token) && token.cancellation.None?
    requires forall id :: id in token.gens ==> id !in c.automatic
    ensures Shape(AddToken(c, token).(foreground := Some(|c.tokens|)))
  {
    var n := AddToken(c, token).(foreground := Some(|c.tokens|));
    forall t | t in n.active ensures HeldAt(n, t) { if t in c.active { assert HeldAt(c, t); } }
    forall id | id in n.automatic ensures SlotAt(n, id) { assert SlotAt(c, id); }
  }

  ghost predicate TimelyBut(r: Runtime, t: TokenId) {
    forall u :: u in r.active && u != t ==> Timely(r, u)
  }

  lemma OpenedIsTimely(c: Runtime, token: Token)
    requires AllTimely(c)
    ensures TimelyBut(OpenForeground(c, token), |c.tokens|)
  {
    var n := OpenForeground(c, token);
    forall u | u in n.active && u != |c.tokens| ensures Timely(n, u) { assert Timely(c, u); }
  }

  /** A foreground token claims generations that were handed out after every earlier token. */
  ghost predicate Ready(c: Runtime, ids: set<string>) {
    && Inv(c) && c.foreground.None?
    && (forall id :: id in ids ==> id !in c.automatic && id in c.generations)
    && Above(c, ForegroundToken(c, ids, [], 0))
  }

  lemma OpenKeeps(c: Runtime, ids: set<string>, paths: seq<Path>, expected: nat)
    requires Ready(c, ids)
    ensures (var n := OpenForeground(c, ForegroundToken(c, ids, paths, expected));
      Shape(n) && TokensRise(n) && LogInOrder(n) && TimelyBut(n, |c.tokens|))
  {
    var token := ForegroundToken(c, ids, paths, expected);
    var n := OpenForeground(c, token);
    OpenedIsTimely(c, token);
    ForegroundShape(c, token);
    LogKept(c, n);
    assert Above(c, token) by {
      var other := ForegroundToken(c, ids, [], 0);
      forall t | 0 <= t < |c.tokens| ensures Rises(c.tokens[t], token) { assert Rises(c.tokens[t], other); }
    }
    AddTokenKeeps(c, token);
    forall t | 0 <= t < |n.tokens| ensures GenBounded(n, n.tokens[t]) { assert GenBounded(AddToken(c, token), n.tokens[t]); }
  }

  lemma OpenTimely(c: Runtime, ids: set<string>, paths: seq<Path>)
    requires Ready(c, ids)
    ensures Timely(OpenForeground(c, ForegroundToken(c, ids, paths, c.revision)), |c.tokens|)
  {
  }

  /** Cancelling the one token that is late leaves only timely ones. */
  lemma CancelLate(r: Runtime, t: TokenId, reason: Cancellation)
    requires Shape(r) && TokensRise(r) && LogInOrder(r) && TimelyBut(r, t)
    requires t < |r.tokens| && r.tokens[t].cancellation.None?
    ensures Inv(Cancel(r, t, reason))
  {
    var d := Cancel(r, t, reason);
    CancelShape(r, t, reason);
    CancelShrinks(r, t, reason);
    SurvivorsKeep(r, d);
  }

  /** Only live tokens have to be timely. */
  lemma SurvivorsKeep(b: Runtime, d: Runtime)
    requires Shape(b) && TokensRise(b) && LogInOrder(b)
    requires Shape(d) && Shrinks(b, d) && forall t :: t in d.active ==> Timely(b, t)
    ensures Inv(d)
  {
    ShrinkKeepsTokens(b, d);
    ShrinkKeepsLog(b, d);
    ShrinkKeepsTimely(b, d);
  }

  lemma CancelKeeps(r: Runtime, t: TokenId, reason: Cancellation)
    requires Inv(r)
    ensures Inv(Cancel(r, t, reason))
  {
    CancelShape(r, t, reason);
    CancelShrinks(r, t, reason);
    ShrinkKeepsInv(r, Cancel(r, t, reason));
  }

  predicate Below(token: Token, id: string, generation: nat) {
    id in token.gens ==> token.gens[id] < generation
  }

  /** The latest generation of a validator has not been given to any token yet. */
  ghost predicate Overtakes(r: Runtime, id: string) {
    id in r.generations && forall t :: 0 <= t < |r.tokens| ==> Below(r.tokens[t], id, r.generations[id])
  }

  lemma ShrinkOvertakes(r: Runtime, d: Runtime, id: string)
    requires Shrinks(r, d) && Overtakes(r, id)
    ensures Overtakes(d, id)
  {
    forall t | 0 <= t < |d.tokens| ensures Below(d.tokens[t], id, d.generations[id]) {
      assert SameRun(d.tokens[t], r.tokens[t]) && Below(r.tokens[t], id, r.generations[id]);
    }
  }

  lemma NextOvertakes(r: Runtime, id: string, other: string)
    requires TokensRise(r) && (other == id || Overtakes(r, other))
    ensures Overtakes(NextGeneration(r, id), other)
  {
    var n := NextGeneration(r, id);
    forall t | 0 <= t < |n.tokens| ensures Below(n.tokens[t], other, n.generations[other]) {
      assert GenBounded(r, r.tokens[t]);
      assert other != id ==> Below(r.tokens[t], other, r.generations[other]);
    }
  }

  ghost predicate AllOvertake(r: Runtime, vs: seq<Validator>) {
    forall i :: 0 <= i < |vs| ==> Overtakes(r, vs[i].id)
  }

  lemma {:induction false} ClaimOvertakes(r: Runtime, vs: seq<Validator>)
    requires Inv(r) && r.foreground.None?
    ensures AllOvertake(Claim(r, vs), vs)
  {
    if vs != [] {
      var before, rest, id := Claim(r, vs[..|vs| - 1]), vs[..|vs| - 1], vs[|vs| - 1].id;
      ClaimOvertakes(r, rest);
      ClaimKeeps(r, rest);
      SlotIsFreed(before, id);
      var freed := CancelAutomatic(before, id);
      ShrinkKeepsTokens(before, freed);
      forall i | 0 <= i < |vs| ensures Overtakes(NextGeneration(freed, id), vs[i].id) {
        if i < |rest| {
          assert Overtakes(before, rest[i].id);
          ShrinkOvertakes(before, freed, rest[i].id);
        }
        NextOvertakes(freed, id, vs[i].id);
      }
    }
  }

  lemma ClaimIsReady(r: Runtime, vs: seq<Validator>)
    requires Inv(r) && r.foreground.None?
    ensures Ready(Claim(r, vs), Ids(vs)) && Claim(r, vs).revision == r.revision
  {
    var c := Claim(r, vs);
    ClaimKeeps(r, vs);
    ClaimOvertakes(r, vs);
    var token := ForegroundToken(c, Ids(vs), [], 0);
    forall t | 0 <= t < |c.tokens| ensures Rises(c.tokens[t], token) {
      forall id | id in c.tokens[t].gens && id in token.gens ensures c.tokens[t].gens[id] < token.gens[id] {
        var i :| 0 <= i < |vs| && vs[i].id == id;
        assert Overtakes(c, vs[i].id);
        assert Below(c.tokens[t], id, c.generations[id]);
      }
    }
  }

  lemma ClearedKeeps(r: Runtime)
    requires Inv(r)
    ensures Inv(Cleared(r)) && Cleared(r).foreground.None? && Cleared(r).revision == r.revision
  {
    CountedKeeps(r);
    ForegroundIsFreed(Counted(r));
    CancelForegroundKeeps(Counted(r));
  }

  lemma StartedKeeps(r: Runtime, vs: seq<Validator>, paths: seq<Path>, expected: nat, prepared: bool)
    requires Ready(r, Ids(vs))
    ensures (var started := OpenForeground(r, ForegroundToken(r, Ids(vs), paths, expected));
      Inv(if prepared && expected == r.revision then started else Cancel(started, |r.tokens|, Superseded)))
  {
    OpenKeeps(r, Ids(vs), paths, expected);
    var started := OpenForeground(r, ForegroundToken(r, Ids(vs), paths, expected));
    if prepared && expected == r.revision {
      OpenTimely(r, Ids(vs), paths);
      assert forall t :: t in started.active ==> Timely(started, t);
    } else {
      CancelLate(started, |r.tokens|, Superseded);
    }
  }

  lemma ForegroundStartKeeps(r: Runtime, vs: seq<Validator>, paths: seq<Path>, expected: nat, candidate: bool, prepared: bool)
    requires Inv(r)
    ensures Inv(StepStart(r, vs, paths, expected, candidate, prepared))
  {
    ClearedKeeps(r);
    ClaimIsReady(Cleared(r), vs);
    StartedKeeps(Claim(Cleared(r), vs), vs, paths, expected, prepared);
  }

  // ---- every operation ----

  lemma PublishKeeps(r: Runtime, t: TokenId)
    requires Inv(r) && IsCurrent(r, t) && t in r.active && r.tokens[t].snapshot.Some?
    ensures Inv(Publish(r, t))
  {
    var n := Publish(r, t);
    assert Timely(r, t);
    forall u | u in n.active ensures HeldAt(n, u) && Timely(n, u) { assert HeldAt(r, u) && Timely(r, u); }
    forall id | id in n.automatic ensures SlotAt(n, id) { assert SlotAt(r, id); }
    assert r.foreground.Some? ==> ForegroundAt(r, r.foreground.value);
    forall u | 0 <= u < |n.tokens| ensures GenBounded(n, n.tokens[u]) { assert GenBounded(r, r.tokens[u]); }
    PublishedInOrder(r, t);
  }

  lemma PublishedInOrder(r: Runtime, t: TokenId)
    requires TokensRise(r) && LogInOrder(r) && Timely(r, t) && r.tokens[t].snapshot.Some?
    ensures LogInOrder(Publish(r, t))
  {
    var n := Publish(r, t);
    var q := Publication(t, r.revision);
    forall i | 0 <= i < |n.published| ensures EntryOk(n, n.published[i]) {
      if i < |r.published| { assert EntryOk(r, r.published[i]); }
    }
    forall i, j | 0 <= i < j < |n.published| ensures InOrder(n, n.published[i], n.published[j]) {
      var p := r.published[i];
      assert EntryOk(r, p) && GenBounded(r, r.tokens[p.token]);
      if j < |r.published| {
        assert InOrder(r, p, r.published[j]);
        assert Share(n, p.token, n.published[j].token) <==> Share(r, p.token, r.published[j].token);
      } else {
        assert p.token > t ==> Rises(r.tokens[t], r.tokens[p.token]);
      }
    }
  }

  /** A run may publish only while it is live. */
  lemma CurrentIsLive(r: Runtime, t: TokenId)
    requires Inv(r) && IsCurrent(r, t)
    ensures t in r.active
  {
    if r.tokens[t].kind.Foreground? {
      assert ForegroundAt(r, t);
    } else {
      var id :| id in r.automatic && r.automatic[id] == t;
      assert SlotAt(r, id);
    }
  }

  lemma StepForegroundKeeps(r: Runtime, t: TokenId, semantic: bool, candidate: bool)
    requires Inv(r)
    ensures Inv(StepForeground(r, t, semantic, candidate))
  {
    CancelKeeps(r, t, Superseded);
    if IsCurrent(r, t) {
      CurrentIsLive(r, t);
      if r.tokens[t].kind.Foreground? {
        assert TokenOk(r.tokens[t]);
        PublishKeeps(r, t);
      }
    }
  }

  lemma DetachKeeps(r: Runtime, t: TokenId)
    requires Inv(r)
    ensures Inv(Detach(r, t))
  {
    DetachShape(r, t);
    ShrinkKeepsInv(r, Detach(r, t));
  }

  lemma TimerKeeps(r: Runtime, t: TokenId)
    requires Inv(r) && t < |r.tokens| && r.tokens[t].kind.Automatic? && r.tokens[t].cancellation.None? && r.tokens[t].snapshot.None?
    ensures Inv(StepTimer(r, t))
  {
    var n := StepTimer(r, t);
    forall u | 0 <= u < |n.tokens| ensures TokenOk(n.tokens[u]) && GenBounded(n, n.tokens[u]) {
      assert TokenOk(r.tokens[u]) && GenBounded(r, r.tokens[u]);
    }
    forall u | u in n.active ensures HeldAt(n, u) && Timely(n, u) { assert HeldAt(r, u) && Timely(r, u); }
    forall id | id in n.automatic ensures SlotAt(n, id) { assert SlotAt(r, id); }
    assert r.foreground.Some? ==> ForegroundAt(r, r.foreground.value);
    TimerKeepsRise(r, t);
    TimerKeepsLog(r, t);
  }

  lemma TimerKeepsRise(r: Runtime, t: TokenId)
    requires TokensRise(r) && t < |r.tokens|
    ensures TokensRise(StepTimer(r, t))
  {
    var n := StepTimer(r, t);
    forall u, w | 0 <= u < w < |n.tokens| ensures Rises(n.tokens[u], n.tokens[w]) { assert Rises(r.tokens[u], r.tokens[w]); }
  }

  /** A token without a snapshot has published nothing. */
  lemma TimerKeepsLog(r: Runtime, t: TokenId)
    requires LogInOrder(r) && t < |r.tokens| && r.tokens[t].snapshot.None?
    ensures LogInOrder(StepTimer(r, t))
  {
    var n := StepTimer(r, t);
    forall i | 0 <= i < |n.published| ensures EntryOk(n, n.published[i]) { assert EntryOk(r, r.published[i]); }
    forall i, j | 0 <= i < j < |n.published| ensures InOrder(n, n.published[i], n.published[j]) {
      assert InOrder(r, r.published[i], r.published[j]);
      assert Share(n, n.published[i].token, n.published[j].token) <==> Share(r, n.published[i].token, n.published[j].token);
    }
  }

  /** A new revision has no live token left once all are cancelled. */
  lemma AllCancelledKeeps(r: Runtime, b: Runtime, reason: Cancellation)
    requires Inv(r)
    requires b == r.(foregroundGeneration := b.foregroundGeneration, revision := b.revision, lifecycle := b.lifecycle, disposed := b.disposed)
    ensures Inv(CancelEach(b, r.active, reason))
  {
    CounterIsFree(r, b);
    EachIsCancelled(b, r.active, reason);
    SurvivorsKeep(b, CancelEach(b, r.active, reason));
  }

  lemma PendingCleared(b: Runtime, order: seq<string>)
    requires Shape(b) && TokensRise(b) && LogInOrder(b) && b.foreground.None? && Covers(b, order)
    ensures Inv(CancelPending(b, order))
  {
    var d := CancelPending(b, order);
    PendingAreFreed(b, order);
    ShrinkKeepsTokens(b, d);
    ShrinkKeepsLog(b, d);
    assert d.automatic == map[];
    NobodyIsLate(d);
  }

  lemma BumpedKeeps(r: Runtime, order: seq<string>)
    requires Inv(r) && Covers(r, order)
    ensures Inv(CancelPending(CancelForeground(Bump(r)), order))
  {
    CounterIsFree(r, Bump(r));
    var b := CancelForeground(Bump(r));
    ForegroundIsFreed(Bump(r));
    ShrinkKeepsTokens(Bump(r), b);
    ShrinkKeepsLog(Bump(r), b);
    PendingCleared(b, order);
  }

  lemma TriggerKeeps(r: Runtime, vs: seq<Validator>, path: Path, event: Event, mutate: bool, order: seq<string>)
    requires Inv(r) && (mutate ==> Covers(r, order))
    ensures Inv(Trigger(r, vs, path, event, mutate, order))
  {
    var selected := SelectValidators(vs, path, Some(event));
    if mutate {
      BumpedKeeps(r, order);
      var retained := Retained(CancelForeground(Bump(r)), order, Ids(selected));
      var pending := CancelPending(CancelForeground(Bump(r)), order);
      RescheduleKeeps(pending, vs, retained);
      ScheduleEachKeeps(Reschedule(pending, vs, retained), selected, path);
    } else {
      ScheduleEachKeeps(r, selected, path);
    }
  }

  lemma AutomaticKeeps(r: Runtime, t: TokenId, semantic: bool)
    requires Inv(r)
    ensures Inv(StepAutomatic(r, t, semantic))
  {
    if StepAutomatic(r, t, semantic) != r {
      CurrentIsLive(r, t);
      PublishKeeps(r, t);
    }
  }

  lemma StepKeeps(vs: seq<Validator>, r: Runtime, op: Op)
    requires Inv(r) && Admissible(r, op)
    ensures Inv(Step(vs, r, op))
  {
    match op
    case Triggered(path, event, mutate, order) => TriggerKeeps(r, vs, path, event, mutate, order);
    case MutatedAll => AllCancelledKeeps(r, Bump(r), Superseded);
    case TimerFired(t) => if StepTimer(r, t) != r { TimerKeeps(r, t); }
    case AutomaticSettled(t, semantic) => AutomaticKeeps(r, t, semantic);
    case AutomaticEnded(t) => DetachKeeps(r, t);
    case ForegroundStarted(selected, paths, expected, candidate, prepared) =>
      ForegroundStartKeeps(r, selected, paths, expected, candidate, prepared);
    case Cancelled(t, reason) => CancelKeeps(r, t, reason);
    case ForegroundSettled(t, semantic, candidate) => StepForegroundKeeps(r, t, semantic, candidate);
    case ForegroundEnded(t) => DetachKeeps(r, t);
    case LifecycleEnded(dispose) =>
      AllCancelledKeeps(r, Bump(r).(lifecycle := r.lifecycle + 1, disposed := r.disposed || dispose), Aborted);
  }

  // ---- the foreground generation ----

  predicate Kept(a: Token, b: Token) {
    a.kind == b.kind && a.revision == b.revision && a.lifecycle == b.lifecycle && a.gens == b.gens
  }

  /** The foreground generation never decreases; while it stands still nothing was started, mutated
      or reset. */
  ghost predicate Ticks(r: Runtime, d: Runtime) {
    && |r.tokens| <= |d.tokens| && (forall t :: 0 <= t < |r.tokens| ==> Kept(r.tokens[t], d.tokens[t]))
    && r.foregroundGeneration <= d.foregroundGeneration
    && (r.foregroundGeneration == d.foregroundGeneration ==>
          |r.tokens| == |d.tokens| && r.generations == d.generations && r.revision == d.revision && r.lifecycle == d.lifecycle)
  }

  lemma TicksTransitive(r: Runtime, d: Runtime, e: Runtime)
    requires Ticks(r, d) && Ticks(d, e)
    ensures Ticks(r, e)
  {
    forall t | 0 <= t < |r.tokens| ensures Kept(r.tokens[t], e.tokens[t]) {
      assert Kept(r.tokens[t], d.tokens[t]) && Kept(d.tokens[t], e.tokens[t]);
    }
  }

  /** A stretch of code that counts first may start whatever it likes. */
  ghost predicate Grown(r: Runtime, d: Runtime) {
    && |r.tokens| <= |d.tokens| && (forall t :: 0 <= t < |r.tokens| ==> Kept(r.tokens[t], d.tokens[t]))
    && r.foregroundGeneration <= d.foregroundGeneration
  }

  lemma GrownTransitive(r: Runtime, d: Runtime, e: Runtime)
    requires Grown(r, d) && Grown(d, e)
    ensures Grown(r, e)
  {
    forall t | 0 <= t < |r.tokens| ensures Kept(r.tokens[t], e.tokens[t]) {
      assert Kept(r.tokens[t], d.tokens[t]) && Kept(d.tokens[t], e.tokens[t]);
    }
  }

  lemma CancelTicks(r: Runtime, t: TokenId, reason: Cancellation)
    ensures Ticks(r, Cancel(r, t, reason)) && Grown(r, Cancel(r, t, reason))
  {
  }

  lemma {:induction false} CancelEachTicks(r: Runtime, ts: seq<TokenId>, reason: Cancellation)
    ensures Ticks(r, CancelEach(r, ts, reason))
  {
    if ts != [] {
      var before := CancelEach(r, ts[..|ts| - 1], reason);
      CancelEachTicks(r, ts[..|ts| - 1], reason);
      CancelTicks(before, ts[|ts| - 1], reason);
      TicksTransitive(r, before, CancelEach(r, ts, reason));
    }
  }

  lemma ScheduleTicks(r: Runtime, v: Validator, path: Path)
    ensures Ticks(r, Schedule(r, v, path)) && Schedule(r, v, path).foregroundGeneration > r.foregroundGeneration
  {
    var counted := Counted(r);
    var freed := CancelAutomatic(counted, v.id);
    if v.id in counted.automatic { CancelTicks(counted, counted.automatic[v.id], Superseded); }
    var clear := CancelForegroundOf(freed, v.id);
    if freed.foreground.Some? { CancelTicks(freed, freed.foreground.value, Superseded); }
    TicksTransitive(counted, freed, clear);
    forall t | 0 <= t < |r.tokens| ensures Kept(r.tokens[t], Schedule(r, v, path).tokens[t]) {
      assert Kept(counted.tokens[t], clear.tokens[t]);
    }
  }

  lemma {:induction false} ScheduleEachTicks(r: Runtime, vs: seq<Validator>, path: Path)
    ensures Ticks(r, ScheduleEach(r, vs, path))
  {
    if vs != [] {
      var before := ScheduleEach(r, vs[..|vs| - 1], path);
      ScheduleEachTicks(r, vs[..|vs| - 1], path);
      ScheduleTicks(before, vs[|vs| - 1], path);
      TicksTransitive(r, before, ScheduleEach(r, vs, path));
    }
  }

  lemma {:induction false} RescheduleTicks(r: Runtime, vs: seq<Validator>, retained: seq<(string, Path)>)
    ensures Ticks(r, Reschedule(r, vs, retained))
  {
    if retained != [] {
      var before := Reschedule(r, vs, retained[..|retained| - 1]);
      var (id, path) := retained[|retained| - 1];
      RescheduleTicks(r, vs, retained[..|retained| - 1]);
      match Find(vs, id) {
        case None =>
        case Some(v) =>
          ScheduleTicks(before, v, path);
          TicksTransitive(r, before, Schedule(before, v, path));
      }
    }
  }

  lemma {:induction false} PendingTicks(r: Runtime, order: seq<string>)
    ensures Ticks(r, CancelPending(r, order))
  {
    if order != [] {
      var before := CancelPending(r, order[..|order| - 1]);
      PendingTicks(r, order[..|order| - 1]);
      if order[|order| - 1] in before.automatic {
        CancelTicks(before, before.automatic[order[|order| - 1]], Superseded);
        TicksTransitive(r, before, CancelPending(r, order));
      }
    }
  }

  lemma {:induction false} ClaimGrows(r: Runtime, vs: seq<Validator>)
    ensures Grown(r, Claim(r, vs))
  {
    if vs != [] {
      var before, id := Claim(r, vs[..|vs| - 1]), vs[|vs| - 1].id;
      ClaimGrows(r, vs[..|vs| - 1]);
      if id in before.automatic { CancelTicks(before, before.automatic[id], Superseded); }
      GrownTransitive(r, before, NextGeneration(CancelAutomatic(before, id), id));
    }
  }

  lemma TriggerTicks(r: Runtime, vs: seq<Validator>, path: Path, event: Event, mutate: bool, order: seq<string>)
    ensures Ticks(r, Trigger(r, vs, path, event, mutate, order))
  {
    var selected := SelectValidators(vs, path, Some(event));
    if mutate {
      var b := CancelForeground(Bump(r));
      if Bump(r).foreground.Some? { CancelTicks(Bump(r), Bump(r).foreground.value, Superseded); }
      var retained := Retained(b, order, Ids(selected));
      var p := CancelPending(b, order);
      PendingTicks(b, order);
      var s := Reschedule(p, vs, retained);
      RescheduleTicks(p, vs, retained);
      ScheduleEachTicks(s, selected, path);
      TicksTransitive(b, p, s);
      TicksTransitive(b, s, ScheduleEach(s, selected, path));
      assert Ticks(Bump(r), b);
      TicksTransitive(Bump(r), b, ScheduleEach(s, selected, path));
      BumpTicks(r, ScheduleEach(s, selected, path));
    } else {
      ScheduleEachTicks(r, selected, path);
    }
  }

  lemma BumpTicks(r: Runtime, d: Runtime)
    requires Ticks(Bump(r), d)
    ensures Ticks(r, d)
  {
    forall t | 0 <= t < |r.tokens| ensures Kept(r.tokens[t], d.tokens[t]) { assert Kept(Bump(r).tokens[t], d.tokens[t]); }
  }

  lemma StartTicks(r: Runtime, vs: seq<Validator>, paths: seq<Path>, expected: nat, candidate: bool, prepared: bool)
    ensures Ticks(r, StepStart(r, vs, paths, expected, candidate, prepared))
  {
    var cleared := Cleared(r);
    if Counted(r).foreground.Some? { CancelTicks(Counted(r), Counted(r).foreground.value, Superseded); }
    var c := Claim(cleared, vs);
    ClaimGrows(cleared, vs);
    var started := OpenForeground(c, ForegroundToken(c, Ids(vs), paths, expected));
    assert Grown(c, started);
    CancelTicks(started, |c.tokens|, Superseded);
    GrownTransitive(c, started, Cancel(started, |c.tokens|, Superseded));
    assert Grown(Counted(r), cleared);
    GrownTransitive(Counted(r), cleared, c);
    GrownTransitive(Counted(r), c, started);
    GrownTransitive(Counted(r), c, Cancel(started, |c.tokens|, Superseded));
    forall t | 0 <= t < |r.tokens| ensures Kept(r.tokens[t], StepStart(r, vs, paths, expected, candidate, prepared).tokens[t]) {
      assert Kept(Counted(r).tokens[t], started.tokens[t]);
      assert Kept(Counted(r).tokens[t], Cancel(started, |c.tokens|, Superseded).tokens[t]);
    }
  }

  lemma AllCancelledTicks(r: Runtime, b: Runtime, reason: Cancellation)
    requires b.tokens == r.tokens && r.foregroundGeneration < b.foregroundGeneration
    ensures Ticks(r, CancelEach(b, r.active, reason))
  {
    CancelEachTicks(b, r.active, reason);
    var d := CancelEach(b, r.active, reason);
    forall t | 0 <= t < |r.tokens| ensures Kept(r.tokens[t], d.tokens[t]) { assert Kept(b.tokens[t], d.tokens[t]); }
  }

  lemma StepTicks(vs: seq<Validator>, r: Runtime, op: Op)
    ensures Ticks(r, Step(vs, r, op))
  {
    match op
    case Triggered(path, event, mutate, order) => TriggerTicks(r, vs, path, event, mutate, order);
    case MutatedAll => AllCancelledTicks(r, Bump(r), Superseded);
    case ForegroundStarted(selected, paths, expected, candidate, prepared) =>
      StartTicks(r, selected, paths, expected, candidate, prepared);
    case Cancelled(t, reason) => CancelTicks(r, t, reason);
    case ForegroundSettled(t, semantic, candidate) => CancelTicks(r, t, Superseded);
    case LifecycleEnded(dispose) =>
      AllCancelledTicks(r, Bump(r).(lifecycle := r.lifecycle + 1, disposed := r.disposed || dispose), Aborted);
    case _ =>
  }
}
