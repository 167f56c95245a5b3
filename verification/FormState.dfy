/** The form state, its submit attempt and the metadata changes the store admits
    (state.ts, attempt-issues.ts, store-metadata.ts). */
module FormStates {
  import opened JsonData
  import opened Issues

  datatype AttemptStatus = Running | Failed | Succeeded

  datatype Attempt = Attempt(submitId: string, revision: int, status: AttemptStatus, issues: seq<Issue>, renderable: seq<Issue>)

  datatype SubmissionStatus = Idle | InProgress | Done | Rejected

  datatype Meta = Meta(stage: Option<string>, submitted: bool, validating: bool, submission: Option<(SubmissionStatus, string)>)

  datatype FieldMeta = FieldMeta(touched: bool, dirty: bool, listenerTriggered: bool, isValidating: bool)

  datatype State = State(
    data: Json,
    uiState: Json,
    policy: Json,
    meta: Meta,
    fieldMeta: map<string, FieldMeta>,
    issues: seq<Issue>,
    attempt: Option<Attempt>)

  /** The part of a state that validators and ownership depend on. */
  datatype Semantics = Semantics(data: Json, uiState: Json, policy: Json, stage: Option<string>)

  function SemanticsOf(s: State): Semantics {
    Semantics(s.data, s.uiState, s.policy, s.meta.stage)
  }

  // ---- submit attempts ----

  function Renderable(status: AttemptStatus, retained: seq<Issue>, own: seq<Issue>): seq<Issue> {
    if status.Failed? then retained + own else retained
  }

  /** The rendered issues are the retained ones, followed by the attempt's own once it failed. */
  predicate Rebased(s: State) {
    s.attempt.Some? ==>
      s.attempt.value.renderable == Renderable(s.attempt.value.status, s.issues, s.attempt.value.issues)
  }

  function Rebase(s: State): State {
    match s.attempt
    case None => s
    case Some(a) => s.(attempt := Some(a.(renderable := Renderable(a.status, s.issues, a.issues))))
  }

  function BeginAttempt(s: State, submitId: string, revision: int): State {
    s.(attempt := Some(Attempt(submitId, revision, Running, [], s.issues)))
  }

  datatype ValidationResult = Completed(issues: seq<Issue>) | Superseded | Aborted

  predicate IsAttempt(s: State, submitId: string, revision: int, status: AttemptStatus) {
    && s.attempt.Some? && s.attempt.value.submitId == submitId
    && s.attempt.value.revision == revision && s.attempt.value.status == status
  }

  predicate HasError(issues: seq<Issue>) {
    exists i :: 0 <= i < |issues| && issues[i].severity.Error?
  }

  /** None where the state is left as it is. */
  function CompleteAttempt(s: State, submitId: string, revision: int, result: ValidationResult, sync: seq<Issue>): Option<State> {
    if !IsAttempt(s, submitId, revision, Running) then None
    else match result
      case Completed(async) =>
        var issues := Normalize(None, sync + async);
        var status := if HasError(issues) then Failed else Succeeded;
        Some(s.(attempt := Some(Attempt(submitId, revision, status, issues, Renderable(status, s.issues, issues)))))
      case _ => ClearAttempt(s)
  }

  function RejectAttempt(s: State, submitId: string, revision: int): Option<State> {
    if !IsAttempt(s, submitId, revision, Succeeded) then None
    else
      var a := s.attempt.value;
      Some(s.(attempt := Some(a.(status := Failed, renderable := s.issues + a.issues))))
  }

  function ClearAttempt(s: State): Option<State> {
    if s.attempt.None? then None else Some(s.(attempt := None))
  }

  // ---- metadata changes ----

  datatype Change =
    | SetFieldMeta(entries: map<string, FieldMeta>)
    | Clear(only: Option<string>)
    | Begin(submitId: string, revision: int)
    | Complete(submitId: string, revision: int, result: ValidationResult, sync: seq<Issue>)
    | Reject(submitId: string, revision: int)
    | SubmitRunning(submitId: string)
    | SubmitOutcome(ok: bool, submitId: string, issues: seq<Issue>)
    | AppendIssues(issues: seq<Issue>)

  /** The next state, or none when the change leaves the very same state. An empty submit id does
      not restrict a clear. */
  function NextMetadata(s: State, change: Change): Option<State> {
    match change
    case SetFieldMeta(entries) => Some(s.(fieldMeta := entries))
    case Clear(id) =>
      if id.Some? && id.value != "" && (s.attempt.None? || s.attempt.value.submitId != id.value) then None else ClearAttempt(s)
    case Begin(id, revision) => Some(BeginAttempt(s, id, revision))
    case Complete(id, revision, result, sync) => CompleteAttempt(s, id, revision, result, sync)
    case Reject(id, revision) => RejectAttempt(s, id, revision)
    case SubmitRunning(id) => Some(s.(meta := s.meta.(submitted := true, submission := Some((InProgress, id)))))
    case SubmitOutcome(ok, id, issues) =>
      Some(s.(meta := s.meta.(submission := Some((if ok then Done else Rejected, id))), issues := s.issues + issues))
    case AppendIssues(issues) => Some(s.(issues := s.issues + issues))
  }

  function ApplyMetadata(s: State, change: Change): Option<State> {
    match NextMetadata(s, change) case None => None case Some(n) => Some(Rebase(n))
  }

  /** No metadata change touches what validators depend on, and every one leaves the rendered issues
      in step with the retained ones. */
  lemma MetadataIsNotSemantic(s: State, change: Change)
    requires ApplyMetadata(s, change).Some?
    ensures SemanticsOf(ApplyMetadata(s, change).value) == SemanticsOf(s)
    ensures Rebased(ApplyMetadata(s, change).value)
  {
  }

  /** The first issue with its key: the one `Dedupe` keeps. */
  ghost predicate IsFirst(s: seq<Issue>, i: nat) {
    i < |s| && KeyOf(s[i]) !in Keys(s[..i])
  }

  ghost predicate HasFirstError(s: seq<Issue>) {
    exists i: nat :: IsFirst(s, i) && s[i].severity.Error?
  }

  lemma ErrorOfAppend(s: seq<Issue>, x: Issue)
    ensures HasError(s + [x]) <==> HasError(s) || x.severity.Error?
  {
    if i :| 0 <= i < |s| && s[i].severity.Error? { assert (s + [x])[i] == s[i]; }
    if x.severity.Error? { assert (s + [x])[|s|] == x; }
  }

  lemma FirstOfAppend(s: seq<Issue>, x: Issue)
    ensures HasFirstError(s + [x]) <==> HasFirstError(s) || (x.severity.Error? && KeyOf(x) !in Keys(s))
  {
    var t := s + [x];
    forall i: nat | i < |s| ensures IsFirst(t, i) <==> IsFirst(s, i) { assert t[..i] == s[..i]; }
    assert t[..|s|] == s;
    assert IsFirst(t, |s|) <==> KeyOf(x) !in Keys(s);
    if i: nat :| IsFirst(s, i) && s[i].severity.Error? { assert IsFirst(t, i); }
  }

  lemma {:induction false} DedupeErrors(s: seq<Issue>)
    ensures HasError(Dedupe(s)) <==> HasFirstError(s)
  {
    if s != [] {
      var front, x := s[..|s| - 1], s[|s| - 1];
      assert s == front + [x];
      DedupeErrors(front);
      FirstOfAppend(front, x);
      ErrorOfAppend(Dedupe(front), x);
    }
  }

  lemma SortErrors(o: StageOrder, s: seq<Issue>)
    ensures HasError(Sort(o, s)) <==> HasError(s)
  {
    SortKeeps(o, s);
    if i :| 0 <= i < |s| && s[i].severity.Error? {
      assert s[i] in multiset(s);
      assert s[i] in Sort(o, s);
    }
    if i :| 0 <= i < |Sort(o, s)| && Sort(o, s)[i].severity.Error? {
      assert Sort(o, s)[i] in multiset(Sort(o, s));
      assert Sort(o, s)[i] in s;
    }
  }

  /** Only the running attempt it names is completed, and the attempt then fails exactly when an
      error comes first among the issues with its key: a duplicate never decides. */
  lemma CompletionIsGuarded(s: State, submitId: string, revision: int, async: seq<Issue>, sync: seq<Issue>)
    ensures (var r := CompleteAttempt(s, submitId, revision, Completed(async), sync);
      && (r.Some? <==> IsAttempt(s, submitId, revision, Running))
      && (r.Some? ==> (r.value.attempt.value.status.Failed? <==> HasFirstError(sync + async))))
  {
    DedupeErrors(sync + async);
    SortErrors(None, Dedupe(sync + async));
  }
}
