/** The scheduler of field validators (scoped-async-scheduler.ts). */
module Schedulers {
  /* With the staging of scoped-foreground-publication.ts. A publication calls subscribers, who may call
     back; what it needs to undo itself is a `Frame`, and the publications under way form a stack.
     Everything else runs undisturbed between two `Op`s. */

  import opened JsonData

  type TokenId = nat
  type Key = string

  /** An issue array as an object: two arrays with equal contents are still different. */
  datatype IssueList = IssueList(id: nat, size: nat)

  /** What was read of the form when the issues of a key were emitted. */
  type Observation = nat

  datatype Token = Token(
    key: Key, revision: nat, lifecycle: nat, deadline: int,
    started: bool, settled: bool, finished: bool, aborted: bool)

  datatype Prior = Prior(issues: IssueList, observation: Option<Observation>, empty: IssueList)

  /** The fields to schedule once the revocation of an event has been published. */
  datatype Plan = Plan(due: seq<(Key, int)>, generation: nat)

  datatype Frame =
    | Publishing(token: TokenId, key: Key, issues: IssueList, owned: Option<IssueList>, prior: Option<Observation>)
    | Revoking(revoked: map<Key, Prior>, plan: Option<Plan>)
    | Staging(staged: map<Key, IssueList>, emittedBefore: map<Key, IssueList>, observedBefore: map<Key, Observation>)

  datatype Scheduler = Scheduler(
    tokens: seq<Token>, pending: map<Key, TokenId>, emitted: map<Key, IssueList>, observations: map<Key, Observation>,
    publishing: set<Key>, lifecycle: nat, foregroundGeneration: nat, disposed: bool, revision: nat,
    frames: seq<Frame>, published: seq<TokenId>)

  function Fresh(): Scheduler {
    Scheduler([], map[], map[], map[], {}, 0, 0, false, 0, [], [])
  }

  function Put<V>(m: map<Key, V>, k: Key, v: Option<V>): (r: map<Key, V>)
    ensures forall x :: x != k ==> (x in r <==> x in m) && (x in m ==> r[x] == m[x])
    ensures if v.Some? then k in r && r[k] == v.value else k !in r
  {
    match v case Some(value) => m[k := value] case None => m - {k}
  }

  function Get<V>(m: map<Key, V>, k: Key): Option<V> {
    if k in m then Some(m[k]) else None
  }

  function Push(s: Scheduler, f: Frame): Scheduler {
    s.(frames := s.frames + [f])
  }

  function Top(s: Scheduler): Frame
    requires s.frames != []
  {
    s.frames[|s.frames| - 1]
  }

  function Pop(s: Scheduler): Scheduler
    requires s.frames != []
  {
    s.(frames := s.frames[..|s.frames| - 1])
  }

  // ---- tokens ----

  predicate Current(s: Scheduler, t: TokenId) {
    && t < |s.tokens| && !s.disposed && s.lifecycle == s.tokens[t].lifecycle && s.revision == s.tokens[t].revision
    && Get(s.pending, s.tokens[t].key) == Some(t) && !s.tokens[t].aborted
  }

  function Abort(s: Scheduler, t: TokenId): Scheduler {
    if t < |s.tokens| then s.(tokens := s.tokens[t := s.tokens[t].(aborted := true)]) else s
  }

  function Cancel(s: Scheduler, t: TokenId): Scheduler {
    if t >= |s.tokens| then s
    else
      var key := s.tokens[t].key;
      Abort(s, t).(pending := if Get(s.pending, key) == Some(t) then s.pending - {key} else s.pending)
  }

  function CancelKeys(s: Scheduler, keys: set<Key>): Scheduler {
    s.(tokens := seq(|s.tokens|, i requires 0 <= i < |s.tokens| =>
         if s.tokens[i].key in keys && Get(s.pending, s.tokens[i].key) == Some(i) then s.tokens[i].(aborted := true) else s.tokens[i]),
       pending := s.pending - keys)
  }

  function Schedule(s: Scheduler, key: Key, deadline: int): Scheduler {
    var clear := if key in s.pending then Cancel(s, s.pending[key]) else s;
    clear.(tokens := clear.tokens + [Token(key, s.revision, s.lifecycle, deadline, false, false, false, false)],
           pending := clear.pending[key := |clear.tokens|])
  }

  function ScheduleEach(s: Scheduler, due: seq<(Key, int)>): Scheduler {
    if due == [] then s
    else Schedule(ScheduleEach(s, due[..|due| - 1]), due[|due| - 1].0, due[|due| - 1].1)
  }

  // ---- one publication ----

  function OpenPublish(s: Scheduler, t: TokenId, issues: IssueList, observation: Observation): Scheduler
    requires t < |s.tokens|
  {
    var key := s.tokens[t].key;
    Push(s.(emitted := s.emitted[key := issues],
            observations := Put(s.observations, key, if issues.size > 0 then Some(observation) else None),
            published := s.published + [t]),
         Publishing(t, key, issues, Get(s.emitted, key), Get(s.observations, key)))
  }

  function UndoPublish(s: Scheduler, f: Frame): Scheduler
    requires f.Publishing?
  {
    if Get(s.emitted, f.key) == Some(f.issues)
    then s.(emitted := Put(s.emitted, f.key, f.owned), observations := Put(s.observations, f.key, f.prior))
    else s
  }

  // ---- revocation ----

  function Priors(s: Scheduler, keys: set<Key>, mark: nat): map<Key, Prior> {
    map k | k in keys && k in s.emitted && s.emitted[k].size > 0 ::
      Prior(s.emitted[k], Get(s.observations, k), IssueList(mark, 0))
  }

  function OpenRevoke(s: Scheduler, keys: set<Key>, mark: nat, plan: Option<Plan>): Scheduler {
    var priors := Priors(s, keys, mark);
    Push(s.(emitted := map k | k in s.emitted :: if k in priors then priors[k].empty else s.emitted[k],
            observations := s.observations - priors.Keys),
         Revoking(priors, plan))
  }

  predicate Undone(s: Scheduler, priors: map<Key, Prior>, k: Key) {
    k in priors && Get(s.emitted, k) == Some(priors[k].empty)
  }

  function UndoRevoke(s: Scheduler, priors: map<Key, Prior>): Scheduler {
    s.(emitted := map k | k in s.emitted :: if Undone(s, priors, k) then priors[k].issues else s.emitted[k],
       observations := map k | k in s.observations.Keys + priors.Keys && (k in s.observations || (Undone(s, priors, k) && priors[k].observation.Some?)) ::
         if Undone(s, priors, k) && priors[k].observation.Some? then priors[k].observation.value else s.observations[k])
  }

  // ---- a foreground publication ----

  function OpenStage(s: Scheduler, staged: map<Key, IssueList>, observed: map<Key, Observation>): Scheduler {
    Push(s.(emitted := s.emitted + staged,
            observations := map k | k in s.observations.Keys + staged.Keys &&
                (if k in staged then k in observed && staged[k].size > 0 else k in s.observations) ::
              if k in staged then observed[k] else s.observations[k],
            publishing := s.publishing + staged.Keys),
         Staging(staged, map k | k in staged && k in s.emitted :: s.emitted[k],
                 map k | k in staged && k in s.observations :: s.observations[k]))
  }

  predicate Unstaged(s: Scheduler, f: Frame, k: Key)
    requires f.Staging?
  {
    k in f.staged && Get(s.emitted, k) == Some(f.staged[k])
  }

  function UndoStage(s: Scheduler, f: Frame): Scheduler
    requires f.Staging?
  {
    s.(publishing := s.publishing - f.staged.Keys,
       emitted := map k | k in s.emitted && (Unstaged(s, f, k) ==> k in f.emittedBefore) ::
         if Unstaged(s, f, k) then f.emittedBefore[k] else s.emitted[k],
       observations := map k | k in s.observations.Keys + f.observedBefore.Keys &&
           (if Unstaged(s, f, k) then k in f.observedBefore else k in s.observations) ::
         if Unstaged(s, f, k) then f.observedBefore[k] else s.observations[k])
  }

  // ---- operations ----

  /** A field of the projection: its key, whether the event selects it, and its debounce. */
  datatype Field = Field(key: Key, selected: bool, debounce: nat)

  datatype Event = OnChange | OnBlur

  /** `stale` are the keys whose observation no longer matches the form. */
  datatype Projection = Projection(fields: seq<Field>, stale: set<Key>)

  datatype Op =
    | Mutated
    | Scheduled(event: Event, projection: Option<Projection>, throws: bool, now: int, mark: nat)
    | TimerFired(token: TokenId)
    | Settled(token: TokenId, issues: IssueList, observation: Observation, projectionCurrent: bool)
    | Prepared(keys: set<Key>)
    | Staged(staged: map<Key, IssueList>, observed: map<Key, Observation>)
    | Succeeded(timedOut: bool)
    | Thrown
    | Reset(dispose: bool)

  function FieldKeys(fields: seq<Field>): set<Key> {
    set f | f in fields :: f.key
  }

  /** The automatic runs an event may have to repeat. */
  function Unfinished(s: Scheduler): set<Key> {
    set k | k in s.pending && s.pending[k] < |s.tokens| && !s.tokens[s.pending[k]].finished
  }

  function Due(s: Scheduler, fields: seq<Field>, event: Event, now: int): seq<(Key, int)> {
    if fields == [] then []
    else
      var f := fields[|fields| - 1];
      var rest := Due(s, fields[..|fields| - 1], event, now);
      if f.selected then rest + [(f.key, now + f.debounce)]
      else if event.OnChange? && f.key in Unfinished(s) then rest + [(f.key, s.tokens[s.pending[f.key]].deadline)]
      else rest
  }

  function Revoked(s: Scheduler, event: Event, p: Projection): set<Key> {
    s.publishing +
    (set k | k in s.emitted && (k !in FieldKeys(p.fields) || k in p.stale)) +
    (if event.OnChange? then set k | k in Unfinished(s) && k in FieldKeys(p.fields) else {})
  }

  /** What an event does before the projection is taken. */
  function EventCleared(s: Scheduler, event: Event): Scheduler {
    var counted := s.(foregroundGeneration := s.foregroundGeneration + 1, publishing := {});
    if event.OnChange? then CancelKeys(counted, counted.pending.Keys) else counted
  }

  function EventStep(s: Scheduler, event: Event, projection: Option<Projection>, throws: bool, now: int, mark: nat): Scheduler {
    if s.disposed then s
    else
      var clear := EventCleared(s, event);
      if throws then clear
      else match projection
        case None => OpenRevoke(clear, s.publishing, mark, None)
        case Some(p) =>
          OpenRevoke(clear, Revoked(s, event, p), mark, Some(Plan(Due(s, p.fields, event, now), clear.foregroundGeneration)))
  }

  function TimerStep(s: Scheduler, t: TokenId): Scheduler {
    if Current(s, t) && !s.tokens[t].started then s.(tokens := s.tokens[t := s.tokens[t].(started := true)]) else s
  }

  function SettleStep(s: Scheduler, t: TokenId, issues: IssueList, observation: Observation, projectionCurrent: bool): Scheduler {
    if t >= |s.tokens| || !s.tokens[t].started || s.tokens[t].settled then s
    else
      var settled := s.(tokens := s.tokens[t := s.tokens[t].(settled := true)]);
      if Current(s, t) && projectionCurrent then OpenPublish(settled, t, issues, observation) else settled
  }

  function PrepareStep(s: Scheduler, keys: set<Key>): Scheduler {
    CancelKeys(s, keys).(foregroundGeneration := s.foregroundGeneration + 1)
  }

  function SucceedStep(s: Scheduler, timedOut: bool): Scheduler
    requires s.frames != []
  {
    var p := Pop(s);
    match Top(s)
    case Publishing(t, _, _, _, _) =>
      var a := if timedOut then Abort(p, t) else p;
      if Current(a, t) then a.(tokens := a.tokens[t := a.tokens[t].(finished := true)]) else a
    case Revoking(_, plan) =>
      if plan.Some? && !p.disposed && p.foregroundGeneration == plan.value.generation then ScheduleEach(p, plan.value.due) else p
    case Staging(staged, _, _) => p.(publishing := p.publishing - staged.Keys)
  }

  function ThrowStep(s: Scheduler): Scheduler
    requires s.frames != []
  {
    var p, f := Pop(s), Top(s);
    match f
    case Publishing(t, _, _, _, _) => Cancel(UndoPublish(p, f), t)
    case Revoking(priors, _) => UndoRevoke(p, priors)
    case Staging(_, _, _) => UndoStage(p, f)
  }

  function Retired(s: Scheduler, dispose: bool): Scheduler {
    s.(lifecycle := s.lifecycle + 1, foregroundGeneration := s.foregroundGeneration + 1, disposed := s.disposed || dispose)
  }

  function Cleared(s: Scheduler): Scheduler {
    s.(emitted := map[], observations := map[], publishing := {})
  }

  function ResetStep(s: Scheduler, dispose: bool): Scheduler {
    Cleared(CancelKeys(Retired(s, dispose), s.pending.Keys))
  }

  function Step(s: Scheduler, op: Op): Scheduler {
    match op
    case Mutated => s.(revision := s.revision + 1)
    case Scheduled(event, projection, throws, now, mark) => EventStep(s, event, projection, throws, now, mark)
    case TimerFired(t) => TimerStep(s, t)
    case Settled(t, issues, observation, projectionCurrent) => SettleStep(s, t, issues, observation, projectionCurrent)
    case Prepared(keys) => PrepareStep(s, keys)
    case Staged(staged, observed) => OpenStage(s, staged, observed)
    case Succeeded(timedOut) => if s.frames == [] then s else SucceedStep(s, timedOut)
    case Thrown => if s.frames == [] then s else ThrowStep(s)
    case Reset(dispose) => ResetStep(s, dispose)
  }

  // ---- observations are backed by issues ----

  ghost predicate Backed(emitted: map<Key, IssueList>, observations: map<Key, Observation>) {
    forall k :: k in observations ==> k in emitted && emitted[k].size > 0
  }

  /** What a frame would restore is backed as well. */
  ghost predicate FrameOk(f: Frame) {
    match f
    case Publishing(_, _, _, owned, prior) => prior.Some? ==> owned.Some? && owned.value.size > 0
    case Revoking(revoked, _) => forall k :: k in revoked ==> revoked[k].issues.size > 0 && revoked[k].empty.size == 0
    case Staging(_, emittedBefore, observedBefore) => Backed(emittedBefore, observedBefore)
  }

  ghost predicate FramesOk(frames: seq<Frame>) {
    forall i :: 0 <= i < |frames| ==> FrameOk(frames[i])
  }

  /** Keys count as being published only while a foreground publication is under way. */
  ghost predicate StagedBy(frames: seq<Frame>, k: Key) {
    exists i :: 0 <= i < |frames| && frames[i].Staging? && k in frames[i].staged
  }

  ghost predicate PublishingOk(s: Scheduler) {
    forall k :: k in s.publishing ==> StagedBy(s.frames, k)
  }

  ghost predicate IssuesOk(s: Scheduler) {
    Backed(s.emitted, s.observations) && FramesOk(s.frames) && PublishingOk(s)
  }

  lemma StagedStays(frames: seq<Frame>, f: Frame, k: Key)
    requires StagedBy(frames, k)
    ensures StagedBy(frames + [f], k)
  {
    var i :| 0 <= i < |frames| && frames[i].Staging? && k in frames[i].staged;
    assert (frames + [f])[i] == frames[i];
  }

  lemma PushOk(s: Scheduler, d: Scheduler, f: Frame)
    requires IssuesOk(s) && FrameOk(f) && d.frames == s.frames + [f] && Backed(d.emitted, d.observations)
    requires forall k :: k in d.publishing ==> k in s.publishing || (f.Staging? && k in f.staged)
    ensures IssuesOk(d)
  {
    forall k | k in d.publishing ensures StagedBy(d.frames, k) {
      if k in s.publishing { StagedStays(s.frames, f, k); } else { assert d.frames[|s.frames|] == f; }
    }
  }

  lemma OpenPublishOk(s: Scheduler, t: TokenId, issues: IssueList, observation: Observation)
    requires IssuesOk(s) && t < |s.tokens|
    ensures IssuesOk(OpenPublish(s, t, issues, observation))
  {
    var d := OpenPublish(s, t, issues, observation);
    PushOk(s, d, Top(d));
  }

  lemma OpenRevokeOk(s: Scheduler, keys: set<Key>, mark: nat, plan: Option<Plan>)
    requires IssuesOk(s)
    ensures IssuesOk(OpenRevoke(s, keys, mark, plan))
  {
    var d := OpenRevoke(s, keys, mark, plan);
    PushOk(s, d, Top(d));
  }

  lemma OpenStageOk(s: Scheduler, staged: map<Key, IssueList>, observed: map<Key, Observation>)
    requires IssuesOk(s)
    ensures IssuesOk(OpenStage(s, staged, observed))
  {
    var d := OpenStage(s, staged, observed);
    PushOk(s, d, Top(d));
  }

  lemma PopOk(s: Scheduler, d: Scheduler)
    requires IssuesOk(s) && s.frames != [] && d.frames == s.frames[..|s.frames| - 1] && Backed(d.emitted, d.observations)
    requires forall k :: k in d.publishing ==> k in s.publishing && (Top(s).Staging? ==> k !in Top(s).staged)
    ensures IssuesOk(d)
  {
    forall k | k in d.publishing ensures StagedBy(d.frames, k) {
      assert StagedBy(s.frames, k);
      var i :| 0 <= i < |s.frames| && s.frames[i].Staging? && k in s.frames[i].staged;
      assert d.frames[i] == s.frames[i];
    }
  }

  lemma UndoRevokeBacked(s: Scheduler, priors: map<Key, Prior>)
    requires Backed(s.emitted, s.observations)
    requires forall k :: k in priors ==> priors[k].issues.size > 0 && priors[k].empty.size == 0
    ensures Backed(UndoRevoke(s, priors).emitted, UndoRevoke(s, priors).observations)
  {
  }

  lemma UndoStageBacked(s: Scheduler, f: Frame)
    requires Backed(s.emitted, s.observations) && f.Staging? && FrameOk(f)
    ensures Backed(UndoStage(s, f).emitted, UndoStage(s, f).observations)
  {
  }

  lemma ThrowOk(s: Scheduler)
    requires IssuesOk(s) && s.frames != []
    ensures IssuesOk(ThrowStep(s))
  {
    var f := Top(s);
    assert FrameOk(f);
    match f
    case Publishing(_, _, _, _, _) => PopOk(s, ThrowStep(s));
    case Revoking(priors, _) =>
      UndoRevokeBacked(Pop(s), priors);
      PopOk(s, ThrowStep(s));
    case Staging(_, _, _) =>
      UndoStageBacked(Pop(s), f);
      PopOk(s, ThrowStep(s));
  }

  predicate SameIssues(s: Scheduler, d: Scheduler) {
    d.emitted == s.emitted && d.observations == s.observations && d.frames == s.frames && d.publishing == s.publishing
  }

  lemma {:induction false} ScheduleEachKeepsIssues(s: Scheduler, due: seq<(Key, int)>)
    ensures SameIssues(s, ScheduleEach(s, due))
  {
    if due != [] { ScheduleEachKeepsIssues(s, due[..|due| - 1]); }
  }

  lemma SucceedOk(s: Scheduler, timedOut: bool)
    requires IssuesOk(s) && s.frames != []
    ensures IssuesOk(SucceedStep(s, timedOut))
  {
    if Top(s).Revoking? && Top(s).plan.Some? { ScheduleEachKeepsIssues(Pop(s), Top(s).plan.value.due); }
    PopOk(s, SucceedStep(s, timedOut));
  }

  lemma EventOk(s: Scheduler, event: Event, projection: Option<Projection>, throws: bool, now: int, mark: nat)
    requires IssuesOk(s)
    ensures IssuesOk(EventStep(s, event, projection, throws, now, mark))
  {
    if !s.disposed && !throws {
      var clear := EventCleared(s, event);
      match projection
      case None => OpenRevokeOk(clear, s.publishing, mark, None);
      case Some(p) =>
        OpenRevokeOk(clear, Revoked(s, event, p), mark, Some(Plan(Due(s, p.fields, event, now), clear.foregroundGeneration)));
    }
  }

  lemma StepIssuesOk(s: Scheduler, op: Op)
    requires IssuesOk(s)
    ensures IssuesOk(Step(s, op))
  {
    match op
    case Scheduled(event, projection, throws, now, mark) => EventOk(s, event, projection, throws, now, mark);
    case Settled(t, issues, observation, projectionCurrent) =>
      if t < |s.tokens| { OpenPublishOk(s.(tokens := s.tokens[t := s.tokens[t].(settled := true)]), t, issues, observation); }
    case Staged(staged, observed) => OpenStageOk(s, staged, observed);
    case Succeeded(timedOut) => if s.frames != [] { SucceedOk(s, timedOut); }
    case Thrown => if s.frames != [] { ThrowOk(s); }
    case _ =>
  }

  // ---- a publication that throws undoes itself ----

  function ListOf(f: Frame, k: Key): Option<IssueList> {
    match f
    case Publishing(_, key, issues, _, _) => if k == key then Some(issues) else None
    case Revoking(revoked, _) => if k in revoked then Some(revoked[k].empty) else None
    case Staging(staged, _, _) => Get(staged, k)
  }

  /** The list the publication put under the key is still there. */
  predicate InPlace(s: Scheduler, f: Frame, k: Key) {
    ListOf(f, k).Some? && Get(s.emitted, k) == ListOf(f, k)
  }

  predicate SameAt(s: Scheduler, d: Scheduler, k: Key) {
    Get(d.emitted, k) == Get(s.emitted, k) && Get(d.observations, k) == Get(s.observations, k)
  }

  /** The frame remembers what the state held under its keys. */
  ghost predicate Remembers(f: Frame, s: Scheduler) {
    match f
    case Publishing(_, key, _, owned, prior) => owned == Get(s.emitted, key) && prior == Get(s.observations, key)
    case Revoking(revoked, _) =>
      forall k :: k in revoked ==> Get(s.emitted, k) == Some(revoked[k].issues) && Get(s.observations, k) == revoked[k].observation
    case Staging(staged, emittedBefore, observedBefore) =>
      && (forall k :: k in staged ==> Get(emittedBefore, k) == Get(s.emitted, k) && Get(observedBefore, k) == Get(s.observations, k))
      && (forall k :: k in emittedBefore || k in observedBefore ==> k in staged)
  }

  /** Key by key: what the publication put there is replaced by what was there before; what others
      have put there since stays. */
  ghost predicate Restores(before: Scheduler, s: Scheduler, d: Scheduler, f: Frame) {
    forall k :: if InPlace(s, f, k) then SameAt(before, d, k) else SameAt(s, d, k)
  }

  lemma ThrowRestores(before: Scheduler, s: Scheduler)
    requires IssuesOk(s) && s.frames != [] && Remembers(Top(s), before)
    ensures Restores(before, s, ThrowStep(s), Top(s))
  {
    var f := Top(s);
    assert FrameOk(f);
    match f
    case Publishing(_, _, _, _, _) =>
    case Revoking(priors, _) => RevokeRestores(before, s, priors);
    case Staging(_, _, _) => StageRestores(before, s);
  }

  lemma RevokeRestores(before: Scheduler, s: Scheduler, priors: map<Key, Prior>)
    requires IssuesOk(s) && s.frames != [] && Top(s).Revoking? && Top(s).revoked == priors
    requires Remembers(Top(s), before) && FrameOk(Top(s))
    ensures Restores(before, s, ThrowStep(s), Top(s))
  {
    var f, p, d := Top(s), Pop(s), ThrowStep(s);
    forall k ensures if InPlace(s, f, k) then SameAt(before, d, k) else SameAt(s, d, k) {
      assert Undone(p, priors, k) <==> InPlace(s, f, k);
    }
  }

  lemma StageRestores(before: Scheduler, s: Scheduler)
    requires IssuesOk(s) && s.frames != [] && Top(s).Staging? && Remembers(Top(s), before)
    ensures Restores(before, s, ThrowStep(s), Top(s))
  {
    var f, p, d := Top(s), Pop(s), ThrowStep(s);
    forall k ensures if InPlace(s, f, k) then SameAt(before, d, k) else SameAt(s, d, k) {
      assert Unstaged(p, f, k) <==> InPlace(s, f, k);
    }
  }

  predicate Opens(op: Op) {
    op.Scheduled? || op.Settled? || op.Staged?
  }

  /** Opening a publication touches only its keys, and remembers them. */
  lemma OpeningRemembers(s: Scheduler, op: Op)
    requires Opens(op) && |Step(s, op).frames| > |s.frames|
    ensures Remembers(Top(Step(s, op)), s)
    ensures forall k :: InPlace(Step(s, op), Top(Step(s, op)), k) || SameAt(s, Step(s, op), k)
  {
    var d := Step(s, op);
    if op.Scheduled? { EventRemembers(s, op.event, op.projection, op.throws, op.now, op.mark); }
  }

  lemma EventRemembers(s: Scheduler, event: Event, projection: Option<Projection>, throws: bool, now: int, mark: nat)
    requires |EventStep(s, event, projection, throws, now, mark).frames| > |s.frames|
    ensures (var d := EventStep(s, event, projection, throws, now, mark);
      Remembers(Top(d), s) && forall k :: InPlace(d, Top(d), k) || SameAt(s, d, k))
  {
    var clear := EventCleared(s, event);
    match projection
    case None => RevokeRemembers(s, clear, s.publishing, mark, None);
    case Some(p) =>
      RevokeRemembers(s, clear, Revoked(s, event, p), mark, Some(Plan(Due(s, p.fields, event, now), clear.foregroundGeneration)));
  }

  lemma RevokeRemembers(s: Scheduler, clear: Scheduler, keys: set<Key>, mark: nat, plan: Option<Plan>)
    requires clear.emitted == s.emitted && clear.observations == s.observations
    ensures (var d := OpenRevoke(clear, keys, mark, plan);
      Remembers(Top(d), s) && forall k :: InPlace(d, Top(d), k) || SameAt(s, d, k))
  {
  }

  /** A publication that throws before anything else happens leaves issues and observations exactly
      as they were: a single one, a revocation and a staged foreground alike. */
  lemma ThrowingRestoresExactly(s: Scheduler, op: Op)
    requires IssuesOk(s) && Opens(op) && |Step(s, op).frames| > |s.frames|
    ensures ThrowStep(Step(s, op)).emitted == s.emitted && ThrowStep(Step(s, op)).observations == s.observations
  {
    var o := Step(s, op);
    var d := ThrowStep(o);
    StepIssuesOk(s, op);
    OpeningRemembers(s, op);
    ThrowRestores(s, o);
    forall k ensures SameAt(s, d, k) { assert InPlace(o, Top(o), k) || SameAt(s, o, k); }
    EqualMaps(d.emitted, s.emitted, d, s);
  }

  lemma EqualMaps(a: map<Key, IssueList>, b: map<Key, IssueList>, d: Scheduler, s: Scheduler)
    requires a == d.emitted && b == s.emitted && forall k :: SameAt(s, d, k)
    ensures a == b && d.observations == s.observations
  {
    forall k ensures (k in a <==> k in b) && (k in a ==> a[k] == b[k]) { assert SameAt(s, d, k); }
    forall k ensures (k in d.observations <==> k in s.observations) && (k in d.observations ==> d.observations[k] == s.observations[k]) {
      assert SameAt(s, d, k);
    }
  }

  // ---- runs ----

  function From(s: Scheduler, ops: seq<Op>): Scheduler {
    if ops == [] then s else Step(From(s, ops[..|ops| - 1]), ops[|ops| - 1])
  }

  lemma {:induction false} RunIssuesOk(s: Scheduler, ops: seq<Op>)
    requires IssuesOk(s)
    ensures IssuesOk(From(s, ops))
  {
    if ops != [] {
      RunIssuesOk(s, ops[..|ops| - 1]);
      StepIssuesOk(From(s, ops[..|ops| - 1]), ops[|ops| - 1]);
    }
  }

  /** In every reachable state observations exist only for keys with issues, and keys count as being
      published only while a foreground publication is under way. */
  lemma ObservationsAreBacked(ops: seq<Op>, k: Key)
    ensures k in From(Fresh(), ops).observations ==> k in From(Fresh(), ops).emitted && From(Fresh(), ops).emitted[k].size > 0
    ensures From(Fresh(), ops).frames == [] ==> From(Fresh(), ops).publishing == {}
  {
    RunIssuesOk(Fresh(), ops);
    var s := From(Fresh(), ops);
    assert forall x :: x in s.publishing ==> StagedBy(s.frames, x);
    assert s.frames == [] ==> forall x :: !StagedBy(s.frames, x);
  }

  /** The stack never falls below `h` frames on the way. */
  ghost predicate StaysAbove(s: Scheduler, ops: seq<Op>, h: nat) {
    forall i :: 0 <= i <= |ops| ==> |From(s, ops[..i]).frames| > h
  }

  lemma FrameStays(s: Scheduler, op: Op, h: nat)
    requires h < |s.frames| && h < |Step(s, op).frames|
    ensures Step(s, op).frames[h] == s.frames[h]
  {
    match op
    case Succeeded(timedOut) => if s.frames != [] { SucceedPops(s, timedOut); }
    case Thrown => if s.frames != [] { ThrowPops(s); }
    case Scheduled(event, projection, throws, now, mark) => EventPushes(s, event, projection, throws, now, mark);
    case _ =>
  }

  lemma SucceedPops(s: Scheduler, timedOut: bool)
    requires s.frames != []
    ensures SucceedStep(s, timedOut).frames == Pop(s).frames
  {
    if Top(s).Revoking? && Top(s).plan.Some? { ScheduleEachKeepsIssues(Pop(s), Top(s).plan.value.due); }
  }

  lemma ThrowPops(s: Scheduler)
    requires s.frames != []
    ensures ThrowStep(s).frames == Pop(s).frames
  {
  }

  lemma EventPushes(s: Scheduler, event: Event, projection: Option<Projection>, throws: bool, now: int, mark: nat)
    ensures s.frames <= EventStep(s, event, projection, throws, now, mark).frames
  {
  }

  lemma {:induction false} FrameStaysAll(s: Scheduler, ops: seq<Op>, h: nat)
    requires StaysAbove(s, ops, h) && h < |s.frames|
    ensures h < |From(s, ops).frames| && From(s, ops).frames[h] == s.frames[h]
  {
    assert ops[..|ops|] == ops;
    if ops != [] {
      var front := ops[..|ops| - 1];
      forall i | 0 <= i <= |front| ensures |From(s, front[..i]).frames| > h { assert front[..i] == ops[..i]; }
      FrameStaysAll(s, front, h);
      assert |From(s, ops[..|ops|]).frames| > h;
      FrameStays(From(s, front), ops[|ops| - 1], h);
    }
  }

  /** Whatever subscribers did meanwhile, nested publications and their own failures included, a
      publication that throws puts back, under exactly those of its keys nobody has touched since,
      what was there before it, and leaves every other key alone. */
  lemma ThrowRestoresAfterAll(s: Scheduler, op: Op, nested: seq<Op>)
    requires IssuesOk(s) && Opens(op) && |Step(s, op).frames| == |s.frames| + 1
    requires StaysAbove(Step(s, op), nested, |s.frames|) && |From(Step(s, op), nested).frames| == |s.frames| + 1
    ensures (var late := From(Step(s, op), nested); Restores(s, late, ThrowStep(late), Top(Step(s, op))))
  {
    var o := Step(s, op);
    StepIssuesOk(s, op);
    OpeningRemembers(s, op);
    RunIssuesOk(o, nested);
    FrameStaysAll(o, nested, |s.frames|);
    ThrowRestores(s, From(o, nested));
  }

  // ---- superseded tokens ----

  predicate Held(tokens: seq<Token>, pending: map<Key, TokenId>, t: TokenId) {
    t < |tokens| && (Get(pending, tokens[t].key) == Some(t) || tokens[t].aborted)
  }

  /** The pending token of a key is the last one made for it. */
  predicate Newest(tokens: seq<Token>, pending: map<Key, TokenId>, k: Key) {
    && k in pending && pending[k] < |tokens| && tokens[pending[k]].key == k
    && (forall t :: pending[k] < t < |tokens| ==> tokens[t].key != k)
  }

  ghost predicate TokensOk(tokens: seq<Token>, pending: map<Key, TokenId>) {
    && (forall t :: 0 <= t < |tokens| ==> Held(tokens, pending, t))
    && (forall k :: k in pending ==> Newest(tokens, pending, k))
  }

  /** Tokens keep their key; flags are only ever raised. */
  ghost predicate Moves(a: seq<Token>, b: seq<Token>) {
    |a| <= |b| && forall t :: 0 <= t < |a| ==> MovesOn(a[t], b[t])
  }

  predicate MovesOn(a: Token, b: Token) {
    b.key == a.key && b.revision == a.revision && b.lifecycle == a.lifecycle && b.deadline == a.deadline
    && (a.aborted ==> b.aborted) && (a.settled ==> b.settled) && (a.started ==> b.started)
  }

  lemma FlagsOk(a: seq<Token>, b: seq<Token>, pending: map<Key, TokenId>)
    requires TokensOk(a, pending) && Moves(a, b) && |b| == |a|
    ensures TokensOk(b, pending)
  {
    forall t | 0 <= t < |b| ensures Held(b, pending, t) { assert Held(a, pending, t) && MovesOn(a[t], b[t]); }
    forall k | k in pending ensures Newest(b, pending, k) {
      assert Newest(a, pending, k) && MovesOn(a[pending[k]], b[pending[k]]);
      forall t | pending[k] < t < |b| ensures b[t].key != k { assert MovesOn(a[t], b[t]); }
    }
  }

  lemma CancelOk(s: Scheduler, t: TokenId)
    requires TokensOk(s.tokens, s.pending)
    ensures TokensOk(Cancel(s, t).tokens, Cancel(s, t).pending) && Moves(s.tokens, Cancel(s, t).tokens)
  {
    if t < |s.tokens| {
      var a := s.tokens[t := s.tokens[t].(aborted := true)];
      FlagsOk(s.tokens, a, s.pending);
      ReleaseOk(a, s.pending, t);
    }
  }

  /** An aborted token may leave the map. */
  lemma ReleaseOk(tokens: seq<Token>, pending: map<Key, TokenId>, t: TokenId)
    requires TokensOk(tokens, pending) && t < |tokens| && tokens[t].aborted
    ensures TokensOk(tokens, if Get(pending, tokens[t].key) == Some(t) then pending - {tokens[t].key} else pending)
  {
    var rest := if Get(pending, tokens[t].key) == Some(t) then pending - {tokens[t].key} else pending;
    forall u | 0 <= u < |tokens| ensures Held(tokens, rest, u) { assert Held(tokens, pending, u); }
    forall k | k in rest ensures Newest(tokens, rest, k) { assert Newest(tokens, pending, k); }
  }

  lemma CancelKeysOk(s: Scheduler, keys: set<Key>)
    requires TokensOk(s.tokens, s.pending)
    ensures TokensOk(CancelKeys(s, keys).tokens, CancelKeys(s, keys).pending) && Moves(s.tokens, CancelKeys(s, keys).tokens)
  {
    var d := CancelKeys(s, keys);
    forall u | 0 <= u < |d.tokens| ensures Held(d.tokens, d.pending, u) { assert Held(s.tokens, s.pending, u); }
    forall k | k in d.pending ensures Newest(d.tokens, d.pending, k) { assert Newest(s.tokens, s.pending, k); }
  }

  lemma AddOk(tokens: seq<Token>, pending: map<Key, TokenId>, token: Token)
    requires TokensOk(tokens, pending) && token.key !in pending
    ensures TokensOk(tokens + [token], pending[token.key := |tokens|])
  {
    var more, slots := tokens + [token], pending[token.key := |tokens|];
    forall u | 0 <= u < |more| ensures Held(more, slots, u) { if u < |tokens| { assert Held(tokens, pending, u); } }
    forall k | k in slots ensures Newest(more, slots, k) { if k != token.key { assert Newest(tokens, pending, k); } }
  }

  function ClearKey(s: Scheduler, key: Key): Scheduler {
    if key in s.pending then Cancel(s, s.pending[key]) else s
  }

  lemma ClearKeyOk(s: Scheduler, key: Key)
    requires TokensOk(s.tokens, s.pending)
    ensures TokensOk(ClearKey(s, key).tokens, ClearKey(s, key).pending) && Moves(s.tokens, ClearKey(s, key).tokens)
    ensures key !in ClearKey(s, key).pending
  {
    if key in s.pending {
      assert Newest(s.tokens, s.pending, key);
      CancelOk(s, s.pending[key]);
    }
  }

  lemma ScheduleOk(s: Scheduler, key: Key, deadline: int)
    requires TokensOk(s.tokens, s.pending)
    ensures TokensOk(Schedule(s, key, deadline).tokens, Schedule(s, key, deadline).pending)
    ensures Moves(s.tokens, Schedule(s, key, deadline).tokens)
  {
    ClearKeyOk(s, key);
    var clear := ClearKey(s, key);
    AddOk(clear.tokens, clear.pending, Token(key, s.revision, s.lifecycle, deadline, false, false, false, false));
  }

  lemma MovesTransitive(a: seq<Token>, b: seq<Token>, c: seq<Token>)
    requires Moves(a, b) && Moves(b, c)
    ensures Moves(a, c)
  {
    forall t | 0 <= t < |a| ensures MovesOn(a[t], c[t]) { assert MovesOn(a[t], b[t]) && MovesOn(b[t], c[t]); }
  }

  lemma {:induction false} ScheduleEachOk(s: Scheduler, due: seq<(Key, int)>)
    requires TokensOk(s.tokens, s.pending)
    ensures TokensOk(ScheduleEach(s, due).tokens, ScheduleEach(s, due).pending)
    ensures Moves(s.tokens, ScheduleEach(s, due).tokens) && ScheduleEach(s, due).published == s.published
  {
    if due != [] {
      var before := ScheduleEach(s, due[..|due| - 1]);
      ScheduleEachOk(s, due[..|due| - 1]);
      ScheduleOk(before, due[|due| - 1].0, due[|due| - 1].1);
      MovesTransitive(s.tokens, before.tokens, ScheduleEach(s, due).tokens);
    }
  }

  /** For one key, runs publish in the order they were scheduled, each at most once. */
  predicate InOrder(s: Scheduler, t: TokenId, u: TokenId) {
    t < |s.tokens| && u < |s.tokens| && t != u && (s.tokens[t].key == s.tokens[u].key ==> t < u)
  }

  ghost predicate LogOk(s: Scheduler) {
    && (forall i :: 0 <= i < |s.published| ==> s.published[i] < |s.tokens| && s.tokens[s.published[i]].settled)
    && (forall i, j :: 0 <= i < j < |s.published| ==> InOrder(s, s.published[i], s.published[j]))
  }

  ghost predicate RunsOk(s: Scheduler) {
    TokensOk(s.tokens, s.pending) && LogOk(s)
  }

  lemma LogMoves(s: Scheduler, d: Scheduler)
    requires LogOk(s) && Moves(s.tokens, d.tokens) && d.published == s.published
    ensures LogOk(d)
  {
    forall i | 0 <= i < |d.published| ensures d.published[i] < |d.tokens| && d.tokens[d.published[i]].settled {
      assert MovesOn(s.tokens[s.published[i]], d.tokens[s.published[i]]);
    }
    forall i, j | 0 <= i < j < |d.published| ensures InOrder(d, d.published[i], d.published[j]) {
      assert InOrder(s, s.published[i], s.published[j]);
      assert MovesOn(s.tokens[s.published[i]], d.tokens[s.published[i]]) && MovesOn(s.tokens[s.published[j]], d.tokens[s.published[j]]);
    }
  }

  lemma EventRuns(s: Scheduler, event: Event, projection: Option<Projection>, throws: bool, now: int, mark: nat)
    requires RunsOk(s)
    ensures RunsOk(EventStep(s, event, projection, throws, now, mark))
  {
    var d := EventStep(s, event, projection, throws, now, mark);
    CancelKeysOk(s, s.pending.Keys);
    assert d.tokens == s.tokens || d.tokens == CancelKeys(s, s.pending.Keys).tokens;
    assert Moves(s.tokens, s.tokens);
    LogMoves(s, d);
  }

  lemma SettleRuns(s: Scheduler, t: TokenId, issues: IssueList, observation: Observation, projectionCurrent: bool)
    requires RunsOk(s)
    ensures RunsOk(SettleStep(s, t, issues, observation, projectionCurrent))
  {
    var d := SettleStep(s, t, issues, observation, projectionCurrent);
    if d != s {
      FlagsOk(s.tokens, d.tokens, s.pending);
      LogMoves(s, s.(tokens := d.tokens));
      if d.published != s.published { PublishedInOrder(s.(tokens := d.tokens), d, t, s.tokens[t].key); }
      assert forall i :: 0 <= i < |s.published| ==> s.published[i] != t;
    }
  }

  /** The publishing token is pending, hence the newest of its key. */
  lemma PublishedInOrder(s: Scheduler, d: Scheduler, t: TokenId, k: Key)
    requires RunsOk(s) && t < |s.tokens| && s.tokens[t].key == k && Get(s.pending, k) == Some(t) && s.tokens[t].settled
    requires forall i :: 0 <= i < |s.published| ==> s.published[i] != t
    requires d.tokens == s.tokens && d.published == s.published + [t]
    ensures LogOk(d)
  {
    assert Newest(s.tokens, s.pending, k);
    forall i, j | 0 <= i < j < |d.published| ensures InOrder(d, d.published[i], d.published[j]) {
      if j < |s.published| { assert InOrder(s, s.published[i], s.published[j]); }
    }
  }

  lemma SucceedRuns(s: Scheduler, timedOut: bool)
    requires RunsOk(s) && s.frames != []
    ensures RunsOk(SucceedStep(s, timedOut))
  {
    var d := SucceedStep(s, timedOut);
    if Top(s).Revoking? && Top(s).plan.Some? { ScheduleEachOk(Pop(s), Top(s).plan.value.due); }
    if Top(s).Publishing? { FlagsOk(s.tokens, d.tokens, s.pending); }
    LogMoves(s, d);
  }

  lemma ThrowRuns(s: Scheduler)
    requires RunsOk(s) && s.frames != []
    ensures RunsOk(ThrowStep(s))
  {
    if Top(s).Publishing? { CancelOk(UndoPublish(Pop(s), Top(s)), Top(s).token); }
    assert Moves(s.tokens, s.tokens);
    LogMoves(s, ThrowStep(s));
  }

  lemma StepRunsOk(s: Scheduler, op: Op)
    requires RunsOk(s)
    ensures RunsOk(Step(s, op))
  {
    match op
    case Mutated => LogMoves(s, Step(s, op));
    case Scheduled(event, projection, throws, now, mark) => EventRuns(s, event, projection, throws, now, mark);
    case TimerFired(t) =>
      FlagsOk(s.tokens, Step(s, op).tokens, s.pending);
      LogMoves(s, Step(s, op));
    case Settled(t, issues, observation, projectionCurrent) => SettleRuns(s, t, issues, observation, projectionCurrent);
    case Prepared(keys) =>
      CancelKeysOk(s, keys);
      LogMoves(s, Step(s, op));
    case Staged(staged, observed) => LogMoves(s, Step(s, op));
    case Succeeded(timedOut) => if s.frames != [] { SucceedRuns(s, timedOut); }
    case Thrown => if s.frames != [] { ThrowRuns(s); }
    case Reset(dispose) =>
      CancelKeysOk(Retired(s, dispose), s.pending.Keys);
      LogMoves(s, Step(s, op));
  }

  lemma {:induction false} RunRunsOk(s: Scheduler, ops: seq<Op>)
    requires RunsOk(s)
    ensures RunsOk(From(s, ops))
  {
    if ops != [] {
      RunRunsOk(s, ops[..|ops| - 1]);
      StepRunsOk(From(s, ops[..|ops| - 1]), ops[|ops| - 1]);
    }
  }

  /** In every reachable state a run that is no longer its key's pending run has been aborted. */
  lemma SupersededAreAborted(ops: seq<Op>, t: TokenId)
    requires t < |From(Fresh(), ops).tokens|
    ensures (var s := From(Fresh(), ops);
      Get(s.pending, s.tokens[t].key) == Some(t) || (s.tokens[t].aborted && !Current(s, t)))
  {
    RunRunsOk(Fresh(), ops);
    assert Held(From(Fresh(), ops).tokens, From(Fresh(), ops).pending, t);
  }

  /** And it never publishes: over any run each publication is by a run current at that moment, no
      run publishes twice, and for one key no run publishes after a later one has. */
  lemma PublicationsAreInOrder(ops: seq<Op>, i: nat, j: nat)
    requires i < j < |From(Fresh(), ops).published|
    ensures InOrder(From(Fresh(), ops), From(Fresh(), ops).published[i], From(Fresh(), ops).published[j])
  {
    RunRunsOk(Fresh(), ops);
  }

  lemma PublishersAreCurrent(s: Scheduler, op: Op)
    requires Step(s, op).published != s.published
    ensures op.Settled? && Step(s, op).published == s.published + [op.token]
    ensures Current(s, op.token) && s.tokens[op.token].started
  {
    if op.Succeeded? && s.frames != [] && Top(s).Revoking? && Top(s).plan.Some? {
      ScheduleEachPublishes(Pop(s), Top(s).plan.value.due);
    }
  }

  lemma {:induction false} ScheduleEachPublishes(s: Scheduler, due: seq<(Key, int)>)
    ensures ScheduleEach(s, due).published == s.published
  {
    if due != [] { ScheduleEachPublishes(s, due[..|due| - 1]); }
  }
}
