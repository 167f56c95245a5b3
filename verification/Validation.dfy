/** The asynchronous validation runtime (validation-coordinator.ts and its support files).

    Between two awaits, timers or subscriber calls its code runs undisturbed; each such stretch is one
    `Op`. Any sequence of operations, with any arguments and any answers of the validators, is a run. */
module Validation {
  import opened JsonData

  datatype Event = OnChange | OnBlur

  datatype Validator = Validator(id: string, fields: seq<Path>, trigger: Event)

  datatype Cancellation = Superseded | Aborted

  datatype Kind = Automatic(id: string) | Foreground

  type TokenId = nat

  /** A validation run. `gens` gives the generation it claimed for each of its validators, and
      `snapshot` the revision of the values its validators were given. */
  datatype Token = Token(
    kind: Kind, revision: nat, lifecycle: nat, gens: map<string, nat>, paths: seq<Path>,
    snapshot: Option<nat>, cancellation: Option<Cancellation>)

  /** Issues replaced for the validators of a token, at some revision. */
  datatype Publication = Publication(token: TokenId, revision: nat)

  /** The fields of the runtime. Tokens are numbered in the order they are created. */
  datatype Runtime = Runtime(
    tokens: seq<Token>, automatic: map<string, TokenId>, automaticPaths: map<string, Path>, active: seq<TokenId>,
    generations: map<string, nat>, foreground: Option<TokenId>, foregroundGeneration: nat,
    revision: nat, lifecycle: nat, disposed: bool, published: seq<Publication>)

  function Fresh(): Runtime {
    Runtime([], map[], map[], [], map[], None, 0, 0, 0, false, [])
  }

  // ---- selection ----

  predicate Selects(v: Validator, scope: Path, trigger: Option<Event>) {
    && (trigger.Some? ==> v.trigger == trigger.value)
    && (if v.fields == [] then trigger.Some? else exists i :: 0 <= i < |v.fields| && Overlap(v.fields[i], scope))
  }

  function SelectValidators(vs: seq<Validator>, scope: Path, trigger: Option<Event>): (r: seq<Validator>)
    ensures forall v :: v in r <==> v in vs && Selects(v, scope, trigger)
  {
    if vs == [] then []
    else SelectValidators(vs[..|vs| - 1], scope, trigger) +
         (if Selects(vs[|vs| - 1], scope, trigger) then [vs[|vs| - 1]] else [])
  }

  function Ids(vs: seq<Validator>): set<string> {
    set v | v in vs :: v.id
  }

  // ---- cancelling ----

  function Drop(s: seq<TokenId>, t: TokenId): (r: seq<TokenId>)
    ensures forall u :: u in r <==> u in s && u != t
  {
    if s == [] then []
    else Drop(s[..|s| - 1], t) + (if s[|s| - 1] == t then [] else [s[|s| - 1]])
  }

  /** The validators whose automatic run is this token. */
  function Slots(r: Runtime, t: TokenId): set<string> {
    if t < |r.tokens| then set id | id in r.tokens[t].gens && id in r.automatic && r.automatic[id] == t else {}
  }

  function Detach(r: Runtime, t: TokenId): Runtime {
    r.(active := Drop(r.active, t),
       foreground := if r.foreground == Some(t) then None else r.foreground,
       automatic := r.automatic - Slots(r, t),
       automaticPaths := r.automaticPaths - Slots(r, t))
  }

  function Cancel(r: Runtime, t: TokenId, reason: Cancellation): Runtime {
    if t >= |r.tokens| || r.tokens[t].cancellation.Some? then r
    else Detach(r.(tokens := r.tokens[t := r.tokens[t].(cancellation := Some(reason))]), t)
  }

  function CancelEach(r: Runtime, ts: seq<TokenId>, reason: Cancellation): Runtime {
    if ts == [] then r else Cancel(CancelEach(r, ts[..|ts| - 1], reason), ts[|ts| - 1], reason)
  }

  function CancelForeground(r: Runtime): Runtime {
    if r.foreground.Some? then Cancel(r, r.foreground.value, Superseded) else r
  }

  function CancelAutomatic(r: Runtime, id: string): Runtime {
    if id in r.automatic then Cancel(r, r.automatic[id], Superseded) else r
  }

  // ---- starting ----

  function Counted(r: Runtime): Runtime {
    r.(foregroundGeneration := r.foregroundGeneration + 1)
  }

  function NextGeneration(r: Runtime, id: string): Runtime {
    r.(generations := r.generations[id := (if id in r.generations then r.generations[id] else 0) + 1])
  }

  function AddToken(r: Runtime, token: Token): Runtime {
    r.(tokens := r.tokens + [token], active := r.active + [|r.tokens|])
  }

  function CancelForegroundOf(r: Runtime, id: string): Runtime {
    if r.foreground.Some? && r.foreground.value < |r.tokens| && id in r.tokens[r.foreground.value].gens
    then CancelForeground(r) else r
  }

  function StartAutomatic(r: Runtime, id: string, paths: seq<Path>, path: Path): Runtime {
    var n := NextGeneration(r, id);
    var token := Token(Automatic(id), r.revision, r.lifecycle, map[id := n.generations[id]], paths, None, None);
    AddToken(n, token).(automatic := r.automatic[id := |r.tokens|], automaticPaths := r.automaticPaths[id := path])
  }

  /** The stretch before an automatic run starts: whatever holds its validator is superseded. */
  function Clear(r: Runtime, id: string): Runtime {
    CancelForegroundOf(CancelAutomatic(Counted(r), id), id)
  }

  function Schedule(r: Runtime, v: Validator, path: Path): Runtime {
    StartAutomatic(Clear(r, v.id), v.id, if v.fields != [] then v.fields else [path], path)
  }

  function ScheduleEach(r: Runtime, vs: seq<Validator>, path: Path): Runtime {
    if vs == [] then r else Schedule(ScheduleEach(r, vs[..|vs| - 1], path), vs[|vs| - 1], path)
  }

  /** Every selected validator's automatic run is superseded and its generation claimed. */
  function Claim(r: Runtime, vs: seq<Validator>): Runtime {
    if vs == [] then r
    else NextGeneration(CancelAutomatic(Claim(r, vs[..|vs| - 1]), vs[|vs| - 1].id), vs[|vs| - 1].id)
  }

  function Claimed(r: Runtime, ids: set<string>): map<string, nat> {
    map id | id in ids && id in r.generations :: r.generations[id]
  }

  function Cleared(r: Runtime): Runtime {
    CancelForeground(Counted(r))
  }

  function ForegroundToken(c: Runtime, ids: set<string>, paths: seq<Path>, expected: nat): Token {
    Token(Foreground, c.revision, c.lifecycle, Claimed(c, ids), paths, Some(expected), None)
  }

  function OpenForeground(c: Runtime, token: Token): Runtime {
    AddToken(c, token).(foreground := Some(|c.tokens|))
  }

  // ---- currency ----

  predicate GensCurrent(r: Runtime, t: TokenId)
    requires t < |r.tokens|
  {
    forall id :: id in r.tokens[t].gens ==> id in r.generations && r.generations[id] == r.tokens[t].gens[id]
  }

  /** `isCurrent`, without the semantic guard. */
  predicate IsCurrent(r: Runtime, t: TokenId) {
    && t < |r.tokens|
    && r.tokens[t].cancellation.None?
    && r.tokens[t].revision == r.revision && r.tokens[t].lifecycle == r.lifecycle
    && GensCurrent(r, t)
    && (if r.tokens[t].kind.Foreground? then r.foreground == Some(t) else t in r.automatic.Values)
  }

  function Publish(r: Runtime, t: TokenId): Runtime {
    r.(published := r.published + [Publication(t, r.revision)])
  }

  // ---- operations ----

  /** The identifiers in `order` are those of the pending automatic runs, in the order the map
      iterates them. */
  function CancelPending(r: Runtime, order: seq<string>): Runtime {
    if order == [] then r else CancelAutomatic(CancelPending(r, order[..|order| - 1]), order[|order| - 1])
  }

  function Reschedule(r: Runtime, vs: seq<Validator>, retained: seq<(string, Path)>): Runtime {
    if retained == [] then r
    else
      var front := Reschedule(r, vs, retained[..|retained| - 1]);
      var (id, path) := retained[|retained| - 1];
      match Find(vs, id) case None => front case Some(v) => Schedule(front, v, path)
  }

  function Find(vs: seq<Validator>, id: string): (r: Option<Validator>)
    ensures r.Some? ==> r.value in vs && r.value.id == id
    ensures r.None? ==> forall v :: v in vs ==> v.id != id
  {
    if vs == [] then None else if vs[0].id == id then Some(vs[0]) else Find(vs[1..], id)
  }

  function Retained(r: Runtime, order: seq<string>, selected: set<string>): seq<(string, Path)> {
    if order == [] then []
    else
      var id := order[|order| - 1];
      Retained(r, order[..|order| - 1], selected) +
      (if id in r.automaticPaths && id !in selected then [(id, r.automaticPaths[id])] else [])
  }

  function Bump(r: Runtime): Runtime {
    r.(revision := r.revision + 1, foregroundGeneration := r.foregroundGeneration + 1)
  }

  function Trigger(r: Runtime, vs: seq<Validator>, path: Path, event: Event, mutate: bool, order: seq<string>): Runtime {
    var selected := SelectValidators(vs, path, Some(event));
    if mutate then
      var bumped := CancelForeground(Bump(r));
      var retained := Retained(bumped, order, Ids(selected));
      ScheduleEach(Reschedule(CancelPending(bumped, order), vs, retained), selected, path)
    else ScheduleEach(r, selected, path)
  }

  datatype Op =
    | Triggered(path: Path, event: Event, mutate: bool, order: seq<string>)
    | MutatedAll
    | TimerFired(token: TokenId)
    | AutomaticSettled(token: TokenId, semantic: bool)
    | AutomaticEnded(token: TokenId)
    | ForegroundStarted(vs: seq<Validator>, paths: seq<Path>, expected: nat, candidate: bool, prepared: bool)
    | Cancelled(token: TokenId, reason: Cancellation)
    | ForegroundSettled(token: TokenId, semantic: bool, candidate: bool)
    | ForegroundEnded(token: TokenId)
    | LifecycleEnded(dispose: bool)

  predicate Covers(r: Runtime, order: seq<string>) {
    forall id :: id in r.automatic ==> id in order
  }

  /** What the environment owes an operation: the map's own iteration order. */
  predicate Admissible(r: Runtime, op: Op) {
    op.Triggered? && op.mutate ==> Covers(r, op.order)
  }

  function StepTimer(r: Runtime, t: TokenId): Runtime {
    if t < |r.tokens| && r.tokens[t].kind.Automatic? && r.tokens[t].cancellation.None? && r.tokens[t].snapshot.None?
    then r.(tokens := r.tokens[t := r.tokens[t].(snapshot := Some(r.revision))])
    else r
  }

  function StepAutomatic(r: Runtime, t: TokenId, semantic: bool): Runtime {
    if IsCurrent(r, t) && r.tokens[t].kind.Automatic? && r.tokens[t].snapshot.Some? && semantic then Publish(r, t) else r
  }

  function StepForeground(r: Runtime, t: TokenId, semantic: bool, candidate: bool): Runtime {
    if t >= |r.tokens| || !r.tokens[t].kind.Foreground? then r
    else if !IsCurrent(r, t) || !semantic then (if t in r.active then Cancel(r, t, Superseded) else r)
    else if candidate then r
    else Publish(r, t)
  }

  function StepStart(r: Runtime, vs: seq<Validator>, paths: seq<Path>, expected: nat, candidate: bool, prepared: bool): Runtime {
    if candidate && (r.disposed || expected != r.revision) then r
    else
      var c := Claim(Cleared(r), vs);
      var started := OpenForeground(c, ForegroundToken(c, Ids(vs), paths, expected));
      if prepared && expected == c.revision then started else Cancel(started, |c.tokens|, Superseded)
  }

  function StepEnd(r: Runtime, dispose: bool): Runtime {
    var ended := Bump(r).(lifecycle := r.lifecycle + 1, disposed := r.disposed || dispose);
    CancelEach(ended, ended.active, Aborted)
  }

  function Step(vs: seq<Validator>, r: Runtime, op: Op): Runtime {
    match op
    case Triggered(path, event, mutate, order) => Trigger(r, vs, path, event, mutate, order)
    case MutatedAll => CancelEach(Bump(r), r.active, Superseded)
    case TimerFired(t) => StepTimer(r, t)
    case AutomaticSettled(t, semantic) => StepAutomatic(r, t, semantic)
    case AutomaticEnded(t) => if t in r.active then Detach(r, t) else r
    case ForegroundStarted(selected, paths, expected, candidate, prepared) =>
      StepStart(r, selected, paths, expected, candidate, prepared)
    case Cancelled(t, reason) => Cancel(r, t, reason)
    case ForegroundSettled(t, semantic, candidate) => StepForeground(r, t, semantic, candidate)
    case ForegroundEnded(t) => Detach(r, t)
    case LifecycleEnded(dispose) => StepEnd(r, dispose)
  }
}
