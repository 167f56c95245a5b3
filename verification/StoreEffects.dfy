/** What the operations of the store publish. */
module StoreEffects {
  /* The laws of `Stores` hold whatever a commit publishes; this says what it publishes, part by part, and
     what every other operation and every metadata change puts into the state. */

  import opened JsonData
  import opened Issues
  import opened FormStates
  import opened Stores

  // ---- submit attempts ----

  /** The same attempt but for the issues it renders. */
  predicate SameAttempt(a: Option<Attempt>, b: Option<Attempt>) {
    && (a.Some? <==> b.Some?)
    && (a.Some? ==> a.value.submitId == b.value.submitId && a.value.revision == b.value.revision
                    && a.value.status == b.value.status && a.value.issues == b.value.issues)
  }

  /** An attempt renders the retained issues, and its own behind them exactly once it has failed. */
  predicate RendersItself(s: State) {
    s.attempt.Some? ==>
      s.attempt.value.renderable == s.issues + (if s.attempt.value.status.Failed? then s.attempt.value.issues else [])
  }

  // ---- commits ----

  /** Everything of the draft outside data, ui state and policy. */
  predicate RestOf(s: State, draft: State) {
    && s.meta == draft.meta && s.fieldMeta == draft.fieldMeta && s.issues == draft.issues
    && SameAttempt(s.attempt, draft.attempt) && RendersItself(s)
  }

  predicate AllOf(s: State, draft: State) {
    s.data == draft.data && s.uiState == draft.uiState && s.policy == draft.policy && RestOf(s, draft)
  }

  /** The submit pipeline nominated the transaction, and it changed neither references nor contents of
      data, ui state, policy and stage. */
  predicate IsMetadataOnly(c: Core, tx: Tx, prepared: bool) {
    && (c.prepared || prepared) && c.ownedMode && !tx.semantic
    && tx.prev.data == tx.draft.data && tx.prev.uiState == tx.draft.uiState && tx.prev.policy == tx.draft.policy
    && tx.prev.meta.stage == tx.draft.meta.stage
  }

  /** A commit publishes its whole draft and counts a write; a metadata-only one publishes all of it but
      data, ui state and policy, which stay, and counts none. */
  lemma CommitPublishes(c: Core, prepared: bool)
    requires c.held && c.active.Some? && c.active.value.status.Active? && c.active.value.dirty
    ensures (var tx, d := c.active.value, Step(c, CommitTx(prepared, true));
      && d.active.None? && d.owned == c.ownedMode && d.ownedMode == c.ownedMode && d.failure == c.failure && d.disposed == c.disposed
      && (if IsMetadataOnly(c, tx, prepared)
          then RestOf(d.state, tx.draft) && d.state.data == c.state.data && d.state.uiState == c.state.uiState
               && d.state.policy == c.state.policy && d.write == c.write && d.epoch == c.epoch
          else (AllOf(d.state, tx.draft) && d.write == c.write + 1 && d.epoch == c.epoch + (if c.ownedMode then 1 else 0))))
  {
  }

  /** So the state a caller gives to a transaction of its own is the state it finds afterwards. */
  lemma WrittenIsRead(c: Core, after: State, sameRefs: bool)
    requires c.active.None?
    ensures (var ops := [BeginTx, Mutate(after, sameRefs), CommitTx(false, true)]; var d := After(c, ops);
      AllOf(d.state, after) && d.write == c.write + 1 && d.active.None?)
    ensures (var d := Step(c, Update(after, sameRefs, false, true)); AllOf(d.state, after) && d.write == c.write + 1 && d.active.None?)
  {
    AfterMore(c, [], BeginTx);
    AfterMore(c, [BeginTx], Mutate(after, sameRefs));
    AfterMore(c, [BeginTx, Mutate(after, sameRefs)], CommitTx(false, true));
    assert [] + [BeginTx] == [BeginTx] && [BeginTx] + [Mutate(after, sameRefs)] == [BeginTx, Mutate(after, sameRefs)];
    assert [BeginTx, Mutate(after, sameRefs)] + [CommitTx(false, true)] == [BeginTx, Mutate(after, sameRefs), CommitTx(false, true)];
    CommitPublishes(After(c, [BeginTx, Mutate(after, sameRefs)]), false);
    UpdateWrites(c, after, sameRefs);
  }

  lemma AfterMore(c: Core, ops: seq<Op>, op: Op)
    ensures After(c, ops + [op]) == Step(After(c, ops), op)
  {
    assert (ops + [op])[..|ops|] == ops;
  }

  lemma UpdateWrites(c: Core, after: State, sameRefs: bool)
    requires c.active.None?
    ensures (var d := Step(c, Update(after, sameRefs, false, true)); AllOf(d.state, after) && d.write == c.write + 1 && d.active.None?)
  {
  }

  /** What is rolled back, was never touched, or cannot be copied leaves the state as it was. */
  lemma NothingPublished(c: Core, prepared: bool)
    requires c.held && c.active.Some? && c.active.value.status.Active?
    ensures (var d := Step(c, RollbackTx); d.state == c.state && d.active.None? && d.write == c.write && d.epoch == c.epoch)
    ensures !c.active.value.dirty ==> (var d := Step(c, CommitTx(prepared, true)); d.state == c.state && d.active.None? && d.write == c.write)
    ensures c.active.value.dirty ==> (var d := Step(c, CommitTx(prepared, false)); d.state == c.state && d.active == c.active && d.write == c.write)
  {
  }

  /** A transaction starts from the current state, and a mutation changes nothing but its draft. */
  lemma DraftsAreApart(c: Core, after: State, sameRefs: bool)
    requires c.active.None?
    ensures (var b := Step(c, BeginTx); var d := Step(b, Mutate(after, sameRefs));
      && b.active == Some(Tx(c.state, c.state, false, false, Active)) && b.state == c.state
      && d.active == Some(Tx(c.state, after, true, !sameRefs, Active)) && d.state == c.state)
  {
  }

  // ---- publications ----

  predicate CanPublish(c: Core) {
    !c.disposed && c.active.None? && c.plain
  }

  /** Published issues replace the old ones by their normal form, and nothing else of the state. */
  lemma IssuesPublished(c: Core, issues: seq<Issue>, ok: bool)
    ensures (var d := Step(c, PublishIssues(issues, ok));
      if CanPublish(c) && ok then
        && d.state.issues == Normalize(None, issues) && d.state.data == c.state.data && d.state.uiState == c.state.uiState
        && d.state.policy == c.state.policy && d.state.meta == c.state.meta && d.state.fieldMeta == c.state.fieldMeta
        && SameAttempt(d.state.attempt, c.state.attempt) && RendersItself(d.state) && d.failure == c.failure && d.write == c.write
      else d.state == c.state && d.failure == c.failure + 1 && d.write == c.write)
  {
  }

  /** In ownership mode exactly the named fields are marked as validating, new entries included; all other
      marks are taken away, and nothing else of the state changes. */
  lemma StatusPublished(c: Core, paths: set<string>, validating: bool, ok: bool)
    requires c.ownedMode && CanPublish(c)
    ensures (var d := Step(c, ProjectStatus(paths, validating, ok));
      && d.state == c.state.(fieldMeta := d.state.fieldMeta, meta := c.state.meta.(validating := validating))
      && d.state.fieldMeta.Keys == c.state.fieldMeta.Keys + paths && d.write == c.write
      && (forall k :: k in d.state.fieldMeta ==>
            d.state.fieldMeta[k] == (if k in c.state.fieldMeta then c.state.fieldMeta[k] else FieldMeta(false, false, false, false)).(isValidating := k in paths)))
  {
  }

  /** Outside ownership mode the same goes through a transaction of its own. */
  lemma StatusCommitted(c: Core, paths: set<string>, validating: bool)
    requires !c.ownedMode && c.active.None?
    ensures (var d := Step(c, ProjectStatus(paths, validating, true));
      && AllOf(d.state, c.state.(fieldMeta := d.state.fieldMeta, meta := c.state.meta.(validating := validating)))
      && d.state.fieldMeta.Keys == c.state.fieldMeta.Keys + paths && d.active.None?
      && (forall k :: k in d.state.fieldMeta ==>
            d.state.fieldMeta[k] == (if k in c.state.fieldMeta then c.state.fieldMeta[k] else FieldMeta(false, false, false, false)).(isValidating := k in paths)))
  {
    UpdateWrites(c, Projected(c.state, paths, validating), true);
  }

  /** A metadata change is published in ownership mode, refused outside it, and counted when it fails. */
  lemma MetadataPublished(c: Core, change: Change, ok: bool)
    ensures (var d := Step(c, PublishMetadata(change, ok));
      if !c.ownedMode || !CanPublish(c) then d == c
      else if !ok then d == c.(failure := c.failure + 1)
      else (d == c.(state := d.state) && if NextMetadata(c.state, change).None? then d.state == c.state
                                         else (var n := NextMetadata(c.state, change).value;
                                               && d.state.meta == n.meta && d.state.fieldMeta == n.fieldMeta && d.state.issues == n.issues
                                               && SameAttempt(d.state.attempt, n.attempt) && RendersItself(d.state))))
  {
  }

  lemma OwnershipEnabled(c: Core, ok: bool)
    ensures (var d := Step(c, Enable(ok));
      if CanPublish(c) && !c.ownedMode && ok then d == c.(ownedMode := true, owned := true, epoch := c.epoch + 1) else d == c)
  {
  }

  // ---- metadata changes ----

  /** Only the attempt differs. */
  predicate OnlyAttempt(s: State, n: State) {
    n == s.(attempt := n.attempt)
  }

  predicate Names(s: State, submitId: string, revision: int, status: AttemptStatus) {
    && s.attempt.Some? && s.attempt.value.submitId == submitId && s.attempt.value.revision == revision && s.attempt.value.status == status
  }

  /** A new attempt runs, with no issues of its own. */
  lemma BeginRuns(s: State, submitId: string, revision: int)
    ensures (var n := NextMetadata(s, Begin(submitId, revision));
      && n.Some? && OnlyAttempt(s, n.value) && Names(n.value, submitId, revision, Running)
      && n.value.attempt.value.issues == [] && n.value.attempt.value.renderable == s.issues)
  {
  }

  /** A completed validation ends the running attempt it names: failed if its issues hold an error, else
      succeeded; anything but a completed validation clears it. All other attempts are left alone. */
  lemma CompletionEnds(s: State, submitId: string, revision: int, result: ValidationResult, sync: seq<Issue>)
    ensures (var n := NextMetadata(s, Complete(submitId, revision, result, sync));
      if !Names(s, submitId, revision, Running) then n.None?
      else (n.Some? && OnlyAttempt(s, n.value) &&
        match result
        case Completed(async) =>
          var issues := Normalize(None, sync + async);
          var failed := exists i :: 0 <= i < |issues| && issues[i].severity.Error?;
          && Names(n.value, submitId, revision, if failed then Failed else FormStates.Succeeded)
          && n.value.attempt.value.issues == issues && RendersItself(n.value)
        case _ => n.value.attempt.None?))
  {
  }

  /** Only a succeeded attempt can be rejected; it then shows its own issues behind the retained ones. */
  lemma RejectionFails(s: State, submitId: string, revision: int)
    ensures (var n := NextMetadata(s, Reject(submitId, revision));
      if !Names(s, submitId, revision, FormStates.Succeeded) then n.None?
      else (&& n.Some? && OnlyAttempt(s, n.value) && Names(n.value, submitId, revision, Failed)
            && n.value.attempt.value.issues == s.attempt.value.issues && n.value.attempt.value.renderable == s.issues + s.attempt.value.issues))
  {
  }

  /** Clearing takes the attempt away, or only that of a given id. */
  lemma ClearingClears(s: State, only: Option<string>)
    ensures (var n := NextMetadata(s, Clear(only));
      if s.attempt.Some? && (only.None? || only.value == "" || only.value == s.attempt.value.submitId)
      then n == Some(s.(attempt := None)) else n.None?)
  {
  }

  /** The outcome of a submit is recorded under its id, with its issues behind those there are. */
  lemma OutcomeRecorded(s: State, ok: bool, submitId: string, issues: seq<Issue>)
    ensures (var n := NextMetadata(s, SubmitOutcome(ok, submitId, issues));
      && n.Some? && n.value == s.(meta := n.value.meta, issues := s.issues + issues)
      && n.value.meta == s.meta.(submission := n.value.meta.submission)
      && n.value.meta.submission == Some((if ok then Done else Rejected, submitId)))
    ensures (var n := NextMetadata(s, SubmitRunning(submitId));
      n.Some? && n.value == s.(meta := s.meta.(submitted := true, submission := Some((InProgress, submitId)))))
    ensures NextMetadata(s, AppendIssues(issues)) == Some(s.(issues := s.issues + issues))
  {
  }

  lemma EntriesReplaced(s: State, entries: map<string, FieldMeta>)
    ensures NextMetadata(s, SetFieldMeta(entries)) == Some(s.(fieldMeta := entries))
  {
  }
}
