/** The transactional store with its stamps and guards (store.ts, transaction.ts). */
module Stores {
  /* `Step` gives the store after each of its operations; the classes below carry the operations out
     in place. Runs of steps, in any order and with any arguments, are what the results are about. The
     guards that trust the stamps are those of owned-semantic-guard.ts and scoped-capture-receipt.ts. */

  import opened JsonData
  import opened Issues
  import opened FormStates

  datatype TxStatus = Active | Committed | RolledBack

  datatype Tx = Tx(prev: State, draft: State, dirty: bool, semantic: bool, status: TxStatus)

  /** The fields of a store. `owned` says that the current state came from an issue publication or
      from ownership mode; `prepared` that the active transaction was nominated by the submit pipeline;
      `held` that some code still has the active transaction in hand and goes on to commit it or to
      roll it back. */
  datatype Core = Core(
    state: State, write: nat, epoch: nat, failure: nat,
    owned: bool, ownedMode: bool, plain: bool, disposed: bool,
    active: Option<Tx>, prepared: bool, held: bool)

  /** The operations. `ok` tells whether the values offered can be copied into owned storage;
      `sameRefs` whether a mutator handed back the same data, ui state, policy and stage; `throws`
      whether it threw. `Update` begins, mutates and commits in one go and rolls back nothing when that
      fails; `Abandon` is any other way for a holder to lose its transaction. */
  datatype Op =
    | Enable(ok: bool)
    | ProjectStatus(paths: set<string>, validating: bool, ok: bool)
    | PublishMetadata(change: Change, ok: bool)
    | PublishIssues(issues: seq<Issue>, ok: bool)
    | Overflow
    | Update(after: State, sameRefs: bool, throws: bool, ok: bool)
    | BeginTx
    | Abandon
    | Mutate(after: State, sameRefs: bool)
    | EndDirectly(commit: bool)
    | CommitTx(prepared: bool, ok: bool)
    | RollbackTx
    | Dispose

  function StartTx(s: State): Tx {
    Tx(s, s, false, false, Active)
  }

  function Mutated(tx: Tx, after: State, sameRefs: bool): Tx {
    tx.(draft := after, dirty := true, semantic := tx.semantic || !sameRefs)
  }

  // ---- the operations ----

  /** Ownership, issue and metadata publications refuse to run beside a transaction. */
  predicate Unsupported(c: Core) {
    c.disposed || c.active.Some? || !c.plain
  }

  function EnableStep(c: Core, ok: bool): Core {
    if Unsupported(c) || c.ownedMode || !ok then c
    else c.(ownedMode := true, owned := true, epoch := c.epoch + 1)
  }

  function MarkValidating(entries: map<string, FieldMeta>, paths: set<string>): map<string, FieldMeta> {
    map k | k in entries.Keys + paths ::
      if k in entries then entries[k].(isValidating := k in paths) else FieldMeta(false, false, false, true)
  }

  function Projected(s: State, paths: set<string>, validating: bool): State {
    s.(fieldMeta := MarkValidating(s.fieldMeta, paths), meta := s.meta.(validating := validating))
  }

  function ProjectStatusStep(c: Core, paths: set<string>, validating: bool, ok: bool): Core {
    if c.ownedMode then
      if Unsupported(c) then c else c.(state := Projected(c.state, paths, validating))
    else UpdateStep(c, Projected(c.state, paths, validating), true, false, ok)
  }

  /** Begin, mutate, commit; whatever throws on the way, the transaction is out of hand. */
  function UpdateStep(c: Core, after: State, sameRefs: bool, throws: bool, ok: bool): Core {
    if c.active.Some? then c
    else AbandonStep(if throws then BeginStep(c) else CommitStep(MutateStep(BeginStep(c), after, sameRefs), false, ok))
  }

  function AbandonStep(c: Core): Core {
    c.(held := false)
  }

  function PublishMetadataStep(c: Core, change: Change, ok: bool): Core {
    if !c.ownedMode || Unsupported(c) then c
    else if !ok then c.(failure := c.failure + 1)
    else match ApplyMetadata(c.state, change)
      case None => c
      case Some(next) => c.(state := next)
  }

  function PublishIssuesStep(c: Core, issues: seq<Issue>, ok: bool): Core {
    if Unsupported(c) || !ok then c.(failure := c.failure + 1)
    else c.(state := Rebase(c.state.(issues := Normalize(None, issues))),
            epoch := if c.owned then c.epoch else c.epoch + 1,
            owned := true)
  }

  function BeginStep(c: Core): Core {
    if c.active.Some? then c else c.(active := Some(StartTx(c.state)), prepared := false, held := true)
  }

  function MutateStep(c: Core, after: State, sameRefs: bool): Core {
    if c.active.None? || !c.active.value.status.Active? then c
    else c.(active := Some(Mutated(c.active.value, after, sameRefs)))
  }

  function EndDirectlyStep(c: Core, commit: bool): Core {
    if c.active.None? || !c.active.value.status.Active? then c
    else c.(active := Some(c.active.value.(status := if commit then Committed else RolledBack)))
  }

  /** A nominated transaction that changed nothing semantic; the contents are compared as well,
      because a mutator may have edited its draft in place and handed the same references back. */
  predicate MetadataOnly(tx: Tx, prepared: bool, ownedMode: bool) {
    prepared && ownedMode && !tx.semantic && SemanticsOf(tx.prev) == SemanticsOf(tx.draft)
  }

  /** The committed state: a metadata-only commit keeps the stored data, ui state and policy. */
  function NextState(c: Core, tx: Tx, metadataOnly: bool): State {
    if metadataOnly then Rebase(tx.draft.(data := c.state.data, uiState := c.state.uiState, policy := c.state.policy))
    else Rebase(tx.draft)
  }

  function CommitStep(c: Core, prepared: bool, ok: bool): Core {
    if c.active.None? then c
    else
      var tx := c.active.value;
      var nominated := c.prepared || prepared;
      if tx.dirty && !ok then c.(prepared := nominated)
      else if !tx.status.Active? then c.(prepared := false)
      else if !tx.dirty then c.(active := None, prepared := false, held := false)
      else
        var metadataOnly := MetadataOnly(tx, nominated, c.ownedMode);
        var semantic := if metadataOnly then 0 else 1;
        c.(state := NextState(c, tx, metadataOnly), owned := c.ownedMode, active := None, prepared := false, held := false,
           write := c.write + semantic, epoch := if c.ownedMode then c.epoch + semantic else c.epoch)
  }

  function RollbackStep(c: Core): Core {
    if c.active.None? || !c.active.value.status.Active? then c else c.(active := None, prepared := false, held := false)
  }

  function DisposeStep(c: Core): Core {
    if c.disposed then c else c.(disposed := true, active := None, prepared := false, held := false)
  }

  /** Only its holder can do anything with a transaction. */
  predicate NeedsHolder(op: Op) {
    op.Abandon? || op.Mutate? || op.EndDirectly? || op.CommitTx? || op.RollbackTx?
  }

  function Step(c: Core, op: Op): Core {
    if NeedsHolder(op) && !c.held then c else Perform(c, op)
  }

  function Perform(c: Core, op: Op): Core {
    match op
    case Enable(ok) => EnableStep(c, ok)
    case ProjectStatus(paths, validating, ok) => ProjectStatusStep(c, paths, validating, ok)
    case PublishMetadata(change, ok) => PublishMetadataStep(c, change, ok)
    case PublishIssues(issues, ok) => PublishIssuesStep(c, issues, ok)
    case Overflow => c.(failure := c.failure + 1)
    case Update(after, sameRefs, throws, ok) => UpdateStep(c, after, sameRefs, throws, ok)
    case BeginTx => BeginStep(c)
    case Abandon => AbandonStep(c)
    case Mutate(after, sameRefs) => MutateStep(c, after, sameRefs)
    case EndDirectly(commit) => EndDirectlyStep(c, commit)
    case CommitTx(prepared, ok) => CommitStep(c, prepared, ok)
    case RollbackTx => RollbackStep(c)
    case Dispose => DisposeStep(c)
  }

  // ---- what every step keeps ----

  /** Nothing publishes beside a transaction, so its baseline is the current state. */
  predicate Sound(c: Core) {
    && (if c.active.Some? then c.active.value.prev == c.state else !c.prepared && !c.held)
    && (c.ownedMode ==> c.owned)
  }

  lemma UpdateIsSound(c: Core, after: State, sameRefs: bool, throws: bool, ok: bool)
    requires Sound(c)
    ensures Sound(UpdateStep(c, after, sameRefs, throws, ok))
  {
  }

  lemma StepIsSound(c: Core, op: Op)
    requires Sound(c)
    ensures Sound(Step(c, op))
  {
    match op
    case Update(after, sameRefs, throws, ok) => UpdateIsSound(c, after, sameRefs, throws, ok);
    case ProjectStatus(paths, validating, ok) =>
      if !c.ownedMode { UpdateIsSound(c, Projected(c.state, paths, validating), true, false, ok); }
    case _ =>
  }

  lemma UpdateIsRebased(c: Core, after: State, sameRefs: bool, throws: bool, ok: bool)
    requires Rebased(c.state)
    ensures Rebased(UpdateStep(c, after, sameRefs, throws, ok).state)
  {
  }

  /** Once the rendered issues are in step with the retained ones, they stay so. */
  lemma StepIsRebased(c: Core, op: Op)
    requires Rebased(c.state)
    ensures Rebased(Step(c, op).state)
  {
    match op
    case PublishMetadata(change, ok) =>
      if ApplyMetadata(c.state, change).Some? { MetadataIsNotSemantic(c.state, change); }
    case Update(after, sameRefs, throws, ok) => UpdateIsRebased(c, after, sameRefs, throws, ok);
    case ProjectStatus(paths, validating, ok) =>
      if !c.ownedMode { UpdateIsRebased(c, Projected(c.state, paths, validating), true, false, ok); }
    case _ =>
  }

  predicate Grows(c: Core, d: Core) {
    d.write >= c.write && d.epoch >= c.epoch && d.failure >= c.failure
  }

  lemma CommitGrows(c: Core, prepared: bool, ok: bool)
    ensures Grows(c, CommitStep(c, prepared, ok))
  {
  }

  lemma UpdateGrows(c: Core, after: State, sameRefs: bool, throws: bool, ok: bool)
    ensures Grows(c, UpdateStep(c, after, sameRefs, throws, ok))
  {
  }

  lemma StampsGrow(c: Core, op: Op)
    ensures Grows(c, Step(c, op))
  {
    match op
    case CommitTx(prepared, ok) => CommitGrows(c, prepared, ok);
    case ProjectStatus(paths, validating, ok) =>
      UpdateGrows(c, Projected(c.state, paths, validating), true, false, ok);
    case Update(after, sameRefs, throws, ok) => UpdateGrows(c, after, sameRefs, throws, ok);
    case _ =>
  }

  lemma StaysDisposed(c: Core, op: Op)
    ensures c.disposed ==> Step(c, op).disposed
  {
  }

  /** What the write and epoch counters are to determine. */
  datatype Identity = Identity(semantics: Semantics, owned: bool, ownedMode: bool)

  function IdentityOf(c: Core): Identity {
    Identity(SemanticsOf(c.state), c.owned, c.ownedMode)
  }

  lemma CommitIsStamped(c: Core, prepared: bool, ok: bool)
    requires Sound(c)
    ensures CommitStep(c, prepared, ok).write == c.write ==> IdentityOf(CommitStep(c, prepared, ok)) == IdentityOf(c)
  {
  }

  predicate Stamped(c: Core, d: Core) {
    && (d.write == c.write ==> SemanticsOf(d.state) == SemanticsOf(c.state))
    && (d.write == c.write && d.epoch == c.epoch ==> IdentityOf(d) == IdentityOf(c))
  }

  lemma UpdateIsStamped(c: Core, after: State, sameRefs: bool, throws: bool, ok: bool)
    requires Sound(c)
    ensures Stamped(c, UpdateStep(c, after, sameRefs, throws, ok))
  {
  }

  lemma StepIsStamped(c: Core, op: Op)
    requires Sound(c)
    ensures Stamped(c, Step(c, op))
  {
    match op
    case Update(after, sameRefs, throws, ok) => UpdateIsStamped(c, after, sameRefs, throws, ok);
    case ProjectStatus(paths, validating, ok) =>
      if !c.ownedMode { UpdateIsStamped(c, Projected(c.state, paths, validating), true, false, ok); }
    case CommitTx(prepared, ok) => CommitIsStamped(c, prepared, ok);
    case PublishMetadata(change, ok) =>
      if ApplyMetadata(c.state, change).Some? { MetadataIsNotSemantic(c.state, change); }
    case _ =>
  }

  // ---- runs ----

  /** The store after every prefix of a run. */
  function After(c: Core, ops: seq<Op>): Core {
    if ops == [] then c else Step(After(c, ops[..|ops| - 1]), ops[|ops| - 1])
  }

  lemma {:induction false} RunIsSound(c: Core, ops: seq<Op>)
    requires Sound(c)
    ensures Sound(After(c, ops))
    ensures Rebased(c.state) ==> Rebased(After(c, ops).state)
  {
    if ops != [] {
      var front := ops[..|ops| - 1];
      RunIsSound(c, front);
      StepIsSound(After(c, front), ops[|ops| - 1]);
      if Rebased(c.state) { StepIsRebased(After(c, front), ops[|ops| - 1]); }
    }
  }

  /** No counter ever decreases. */
  lemma {:induction false} RunGrows(c: Core, ops: seq<Op>)
    ensures Grows(c, After(c, ops))
    ensures c.disposed ==> After(c, ops).disposed
  {
    if ops != [] {
      RunGrows(c, ops[..|ops| - 1]);
      StampsGrow(After(c, ops[..|ops| - 1]), ops[|ops| - 1]);
      StaysDisposed(After(c, ops[..|ops| - 1]), ops[|ops| - 1]);
    }
  }

  /** Stamp soundness: over any run, an equal write count means equal data, ui state, policy and
      stage, and with an equal epoch also the same ownership. */
  lemma {:induction false} StampsAreSound(c: Core, ops: seq<Op>)
    requires Sound(c)
    ensures After(c, ops).write == c.write ==> SemanticsOf(After(c, ops).state) == SemanticsOf(c.state)
    ensures (After(c, ops).write == c.write && After(c, ops).epoch == c.epoch) ==> IdentityOf(After(c, ops)) == IdentityOf(c)
  {
    if ops != [] {
      var front := ops[..|ops| - 1];
      StampsAreSound(c, front);
      RunIsSound(c, front);
      RunGrows(c, front);
      StampsGrow(After(c, front), ops[|ops| - 1]);
      StepIsStamped(After(c, front), ops[|ops| - 1]);
    }
  }

  // ---- the semantic guard ----

  /** `snapshotOwnership` has no entry for a disposed store. */
  predicate GuardAccepts(captured: Core, now: Core) {
    || captured.disposed || !captured.ownedMode
    || (&& !now.disposed && now.write == captured.write && now.epoch == captured.epoch
        && now.failure == captured.failure && now.state.meta.stage == captured.state.meta.stage)
  }

  /** A guard taken in ownership mode never accepts a semantic change. */
  lemma GuardIsSound(captured: Core, ops: seq<Op>)
    requires Sound(captured) && captured.ownedMode && !captured.disposed
    requires GuardAccepts(captured, After(captured, ops))
    ensures SemanticsOf(After(captured, ops).state) == SemanticsOf(captured.state)
    ensures After(captured, ops).ownedMode
  {
    StampsAreSound(captured, ops);
  }

  /** A step that revokes a guard: a committed transaction other than a metadata-only one, a failed
      publication, or disposal. */
  predicate Revokes(c: Core, op: Op) {
    match op
    case Enable(_) => false
    case ProjectStatus(_, _, _) => false
    case PublishMetadata(_, ok) => !Unsupported(c) && !ok
    case PublishIssues(_, ok) => Unsupported(c) || !ok
    case Overflow => true
    case Update(_, _, throws, ok) => c.active.None? && !throws && ok
    case CommitTx(prepared, ok) =>
      && c.held && c.active.Some? && c.active.value.status.Active? && c.active.value.dirty && ok
      && !MetadataOnly(c.active.value, c.prepared || prepared, true)
    case Dispose => true
    case _ => false
  }

  lemma RevokingStep(c: Core, op: Op)
    requires Sound(c) && c.ownedMode && !c.disposed
    ensures Step(c, op).ownedMode
    ensures Revokes(c, op) <==> !GuardAccepts(c, Step(c, op))
  {
    StepIsStamped(c, op);
  }

  ghost predicate RevokedAt(c: Core, ops: seq<Op>, i: nat) {
    i < |ops| && Revokes(After(c, ops[..i]), ops[i])
  }

  ghost predicate SomeRevokes(c: Core, ops: seq<Op>) {
    exists i: nat :: RevokedAt(c, ops, i)
  }

  lemma EarlierRevokes(c: Core, ops: seq<Op>, i: nat)
    requires ops != [] && i < |ops| - 1
    ensures RevokedAt(c, ops, i) <==> RevokedAt(c, ops[..|ops| - 1], i)
  {
    assert ops[..|ops| - 1][..i] == ops[..i];
  }

  lemma LastRevokes(c: Core, ops: seq<Op>)
    requires ops != []
    ensures var n := |ops| - 1; SomeRevokes(c, ops) <==> SomeRevokes(c, ops[..n]) || Revokes(After(c, ops[..n]), ops[n])
  {
    var n := |ops| - 1;
    assert RevokedAt(c, ops, n) <==> Revokes(After(c, ops[..n]), ops[n]);
    if i: nat :| RevokedAt(c, ops, i) && i != n { EarlierRevokes(c, ops, i); }
    if i: nat :| RevokedAt(c, ops[..n], i) { EarlierRevokes(c, ops, i); }
  }

  lemma RejectedStays(captured: Core, ops: seq<Op>, op: Op)
    requires Sound(captured) && captured.ownedMode && !captured.disposed
    requires !GuardAccepts(captured, After(captured, ops))
    ensures !GuardAccepts(captured, Step(After(captured, ops), op))
  {
    StampsAreSound(captured, ops);
    RunGrows(captured, ops);
    StampsGrow(After(captured, ops), op);
    StaysDisposed(After(captured, ops), op);
  }

  lemma AcceptedUntilRevoked(captured: Core, ops: seq<Op>, op: Op)
    requires Sound(captured) && captured.ownedMode && !captured.disposed
    requires GuardAccepts(captured, After(captured, ops))
    ensures GuardAccepts(captured, Step(After(captured, ops), op)) <==> !Revokes(After(captured, ops), op)
  {
    RunIsSound(captured, ops);
    GuardIsSound(captured, ops);
    RevokingStep(After(captured, ops), op);
  }

  /** Over any run the guard turns false exactly when some step on the way revoked it: metadata,
      issues and validation status can be published under it for ever. */
  lemma {:induction false} GuardIsExact(captured: Core, ops: seq<Op>)
    requires Sound(captured) && captured.ownedMode && !captured.disposed
    ensures GuardAccepts(captured, After(captured, ops)) <==> !SomeRevokes(captured, ops)
  {
    if ops != [] {
      var n := |ops| - 1;
      GuardIsExact(captured, ops[..n]);
      LastRevokes(captured, ops);
      if GuardAccepts(captured, After(captured, ops[..n])) {
        AcceptedUntilRevoked(captured, ops[..n], ops[n]);
      } else {
        RejectedStays(captured, ops[..n], ops[n]);
      }
    }
  }

  // ---- a store that stays busy ----

  /** The store refuses to begin, and nobody is left who can end its transaction: it has ended already,
      or its holder has lost it. */
  predicate Busy(c: Core) {
    c.active.Some? && (!c.held || !c.active.value.status.Active?)
  }

  /** The holder of the store's own active transaction ends it without the store. */
  predicate EndsDirectly(c: Core, op: Op) {
    op.EndDirectly? && c.held && c.active.Some? && c.active.value.status.Active?
  }

  /** A transaction is left open: by an update whose mutator throws or whose commit fails, by a status
      projection whose commit fails, or by a holder that loses it. */
  predicate LeavesOpen(c: Core, op: Op) {
    match op
    case Update(_, _, throws, ok) => c.active.None? && (throws || !ok)
    case ProjectStatus(_, _, ok) => c.active.None? && !c.ownedMode && !ok
    case Abandon => c.held && c.active.Some? && c.active.value.status.Active?
    case _ => false
  }

  predicate LetsGo(c: Core, op: Op) {
    EndsDirectly(c, op) || LeavesOpen(c, op)
  }

  /** Only the first disposal does anything. */
  predicate Disposes(c: Core, op: Op) {
    op.Dispose? && !c.disposed
  }

  lemma BusyStep(c: Core, op: Op)
    requires Sound(c)
    ensures Busy(Step(c, op)) <==> LetsGo(c, op) || (Busy(c) && !Disposes(c, op))
  {
  }

  predicate Frozen(c: Core, d: Core) {
    d.active == c.active && d.state == c.state && d.write == c.write && d.epoch == c.epoch
  }

  lemma BusyStays(c: Core, op: Op)
    requires Busy(c) && !Disposes(c, op)
    ensures Frozen(c, Step(c, op)) && Busy(Step(c, op))
  {
  }

  ghost predicate NoDisposal(c: Core, ops: seq<Op>, from: nat) {
    forall j :: from <= j < |ops| ==> !Disposes(After(c, ops[..j]), ops[j])
  }

  ghost predicate LetGoAt(c: Core, ops: seq<Op>, i: nat) {
    i < |ops| && LetsGo(After(c, ops[..i]), ops[i]) && NoDisposal(c, ops, i + 1)
  }

  ghost predicate SomeLetGo(c: Core, ops: seq<Op>) {
    exists i: nat :: LetGoAt(c, ops, i)
  }

  lemma NoDisposalStep(c: Core, ops: seq<Op>, from: nat)
    requires ops != [] && from < |ops|
    ensures var n := |ops| - 1;
      NoDisposal(c, ops, from) <==> NoDisposal(c, ops[..n], from) && !Disposes(After(c, ops[..n]), ops[n])
  {
    var n := |ops| - 1;
    assert forall k | 0 <= k < n :: ops[..n][..k] == ops[..k] && ops[..n][k] == ops[k];
  }

  lemma LastLetGo(c: Core, ops: seq<Op>, i: nat)
    requires ops != [] && i < |ops| - 1
    ensures var n := |ops| - 1;
      LetGoAt(c, ops, i) <==> LetGoAt(c, ops[..n], i) && !Disposes(After(c, ops[..n]), ops[n])
  {
    NoDisposalStep(c, ops, i + 1);
    assert ops[..|ops| - 1][..i] == ops[..i];
  }

  lemma SomeLetGoStep(c: Core, ops: seq<Op>)
    requires ops != []
    ensures var n := |ops| - 1;
      SomeLetGo(c, ops) <==>
        LetsGo(After(c, ops[..n]), ops[n]) || (SomeLetGo(c, ops[..n]) && !Disposes(After(c, ops[..n]), ops[n]))
  {
    var n := |ops| - 1;
    assert LetGoAt(c, ops, n) <==> LetsGo(After(c, ops[..n]), ops[n]);
    if i: nat :| LetGoAt(c, ops, i) && i != n { LastLetGo(c, ops, i); }
    if i: nat :| LetGoAt(c, ops[..n], i) { LastLetGo(c, ops, i); }
  }

  /** Over any run the store ends up busy exactly when a transaction was ended directly or left open
      and no effective disposal came later. */
  lemma {:induction false} BusyIffLetGo(c: Core, ops: seq<Op>)
    requires Sound(c) && !Busy(c)
    ensures Busy(After(c, ops)) <==> SomeLetGo(c, ops)
  {
    if ops != [] {
      BusyIffLetGo(c, ops[..|ops| - 1]);
      RunIsSound(c, ops[..|ops| - 1]);
      BusyStep(After(c, ops[..|ops| - 1]), ops[|ops| - 1]);
      SomeLetGoStep(c, ops);
    }
  }

  /** Until disposal nothing changes a busy store's transaction, state, writes or epoch. */
  lemma {:induction false} BusyIsFrozen(c: Core, ops: seq<Op>)
    requires Busy(c) && NoDisposal(c, ops, 0)
    ensures Frozen(c, After(c, ops)) && Busy(After(c, ops))
  {
    if ops != [] {
      NoDisposalStep(c, ops, 0);
      BusyIsFrozen(c, ops[..|ops| - 1]);
      BusyStays(After(c, ops[..|ops| - 1]), ops[|ops| - 1]);
    }
  }

  /** Busy means just this: whatever anybody does short of disposal, the store refuses to begin. A
      store that is not busy has a step to freedom. */
  lemma BusyMeansRefusing(c: Core)
    requires Sound(c)
    ensures Busy(c) <==> forall ops :: NoDisposal(c, ops, 0) ==> After(c, ops).active.Some?
  {
    if Busy(c) {
      forall ops | NoDisposal(c, ops, 0) ensures After(c, ops).active.Some? { BusyIsFrozen(c, ops); }
    } else if c.active.Some? {
      var ops := [RollbackTx];
      assert ops[..0] == [] && After(c, ops) == Step(c, RollbackTx);
      assert NoDisposal(c, ops, 0) && After(c, ops).active.None?;
    } else {
      assert NoDisposal(c, [], 0) && After(c, []).active.None?;
    }
  }

  /** A transaction its holder commits or rolls back directly keeps the store busy. */
  lemma EndedDirectlyRefuses(c: Core, commit: bool)
    requires c.active.None?
    ensures var d := After(c, [BeginTx, EndDirectly(commit)]);
      && Busy(d) && d.state == c.state && Step(d, BeginTx) == d && Step(d, RollbackTx) == d
  {
    var ops := [BeginTx, EndDirectly(commit)];
    assert ops[..1] == [BeginTx] && ops[..1][..0] == [];
    assert After(c, ops[..1]) == BeginStep(c);
  }

  /** So does an update whose mutator throws or whose result cannot be committed, and a status
      projection that cannot be committed: nobody ended anything, and still nobody can begin. */
  lemma LeftOpenRefuses(c: Core, after: State, sameRefs: bool, throws: bool, ok: bool, paths: set<string>, validating: bool)
    requires c.active.None?
    ensures throws || !ok ==>
      var d := Step(c, Update(after, sameRefs, throws, ok));
      Busy(d) && d.active.value.status.Active? && d.state == c.state && Step(d, BeginTx) == d
    ensures !c.ownedMode ==>
      var d := Step(c, ProjectStatus(paths, validating, false));
      Busy(d) && d.active.value.status.Active? && d.state == c.state && Step(d, BeginTx) == d
  {
  }

  // ---- capture receipts ----

  /** The stamp of a state object: the counters when it was last current. */
  datatype Stamp = Stamp(write: nat, epoch: nat, failure: nat, owned: bool)

  function StampOf(c: Core): Stamp {
    Stamp(c.write, c.epoch, c.failure, c.ownedMode)
  }

  /** One check of a receipt for a capture stamped `owner`: the epoch accepted from then on, or none
      when it refuses. `same` tells whether stage and contents still match the capture. */
  function Receipt(owner: Stamp, accepted: nat, now: Stamp, same: bool): Option<nat> {
    if now.write != owner.write || now.failure != owner.failure || (now.owned && !owner.owned) then None
    else if owner.owned then (if now.owned && now.epoch == owner.epoch && same then Some(accepted) else None)
    else if now.epoch != accepted && (accepted != owner.epoch || now.epoch != owner.epoch + 1) then None
    else if same then Some(now.epoch)
    else None
  }

  predicate EpochTold(c: Core, d: Core) {
    && (c.ownedMode ==> d.ownedMode)
    && (d.write == c.write && !d.ownedMode ==>
          (c.owned ==> d.owned) && d.epoch == c.epoch + (if d.owned && !c.owned then 1 else 0))
  }

  lemma StepTellsEpoch(c: Core, op: Op)
    requires Sound(c)
    ensures EpochTold(c, Step(c, op))
  {
  }

  /** Without a semantic write, an unowned store's epoch moves at most once: when its state is first
      copied for an issue publication. */
  lemma {:induction false} EpochMovesOnce(c: Core, ops: seq<Op>)
    requires Sound(c)
    ensures EpochTold(c, After(c, ops))
  {
    if ops != [] {
      var front := ops[..|ops| - 1];
      EpochMovesOnce(c, front);
      RunIsSound(c, front);
      RunGrows(c, front);
      StampsGrow(After(c, front), ops[|ops| - 1]);
      StepTellsEpoch(After(c, front), ops[|ops| - 1]);
    }
  }

  /** A receipt for an unowned capture is exact over any run: having accepted any epoch seen on the
      way, it still accepts if and only if there was no semantic write, no failed publication and no
      switch to ownership mode. One step of tolerance is always enough. */
  lemma ReceiptIsExact(c: Core, ops: seq<Op>, accepted: nat)
    requires Sound(c) && !c.ownedMode
    requires c.epoch <= accepted <= After(c, ops).epoch
    ensures (var d := After(c, ops);
      Receipt(StampOf(c), accepted, StampOf(d), SemanticsOf(d.state) == SemanticsOf(c.state)) ==
      if d.write == c.write && d.failure == c.failure && !d.ownedMode then Some(d.epoch) else None)
  {
    EpochMovesOnce(c, ops);
    StampsAreSound(c, ops);
  }

  // ---- in place ----

  /** A mutable draft against a fixed baseline (transaction.ts). */
  class Transaction {
    const prev: State
    var draft: State
    var dirty: bool
    var semantic: bool
    var status: TxStatus

    constructor (s: State)
      ensures Content() == StartTx(s)
    {
      prev := s;
      draft := s;
      dirty := false;
      semantic := false;
      status := Active;
    }

    function Content(): Tx
      reads this
    {
      Tx(prev, draft, dirty, semantic, status)
    }

    method Mutate(after: State, sameRefs: bool) returns (ok: bool)
      modifies this
      ensures ok == old(status).Active?
      ensures Content() == if ok then Mutated(old(Content()), after, sameRefs) else old(Content())
    {
      if !status.Active? { return false; }
      if !sameRefs { semantic := true; }
      draft := after;
      dirty := true;
      return true;
    }

    method End(commit: bool) returns (ok: bool)
      modifies this`status
      ensures ok == old(status).Active?
      ensures status == if ok then (if commit then Committed else RolledBack) else old(status)
    {
      if !status.Active? { return false; }
      status := if commit then Committed else RolledBack;
      return true;
    }
  }

  class FormStore {
    const plain: bool
    var state: State
    var active: Transaction?
    var prepared: set<Transaction>
    var write: nat
    var epoch: nat
    var failure: nat
    var owned: bool
    var ownedMode: bool
    var disposed: bool
    var stamped: Stamp
    ghost var held: bool

    ghost function Contents(): Core
      reads this, active
    {
      Core(state, write, epoch, failure, owned, ownedMode, plain, disposed,
           if active == null then None else Some(active.Content()), active != null && active in prepared, active != null && held)
    }

    /** The stamp of the current state is always the current counters. */
    ghost predicate Valid()
      reads this, active
    {
      && stamped == Stamp(write, epoch, failure, ownedMode)
      && Sound(Contents())
    }

    constructor (initial: State, plain: bool, ownedMode: bool)
      ensures Valid()
      ensures Contents() == Core(if ownedMode then initial else Rebase(initial), 0, 0, 0, ownedMode, ownedMode, plain, false, None, false, false)
    {
      this.plain := plain;
      this.ownedMode := ownedMode;
      state := if ownedMode then initial else Rebase(initial);
      active := null;
      prepared := {};
      write, epoch, failure := 0, 0, 0;
      owned := ownedMode;
      disposed := false;
      stamped := Stamp(0, 0, 0, ownedMode);
    }

    method Restamp()
      modifies this`stamped
      ensures stamped == Stamp(write, epoch, failure, ownedMode)
    {
      stamped := Stamp(write, epoch, failure, ownedMode);
    }

    method EnableOwnership(ok: bool) returns (threw: bool)
      requires Valid()
      modifies this
      ensures Valid() && Contents() == Step(old(Contents()), Enable(ok))
      ensures threw <==> Unsupported(old(Contents())) || (!old(ownedMode) && !ok)
    {
      if disposed || active != null || !plain { return true; }
      if ownedMode { return false; }
      if !ok { return true; }
      ownedMode := true;
      owned := true;
      epoch := epoch + 1;
      Restamp();
      return false;
    }

    method BeginTransaction() returns (tx: Transaction?)
      requires Valid()
      modifies this
      ensures Valid() && Contents() == Step(old(Contents()), BeginTx)
      ensures if old(active) == null then tx != null && tx == active && fresh(tx) && tx.status.Active? else tx == null
      ensures tx != null ==> tx !in prepared
    {
      if active != null { return null; }
      tx := new Transaction(state);
      active := tx;
      held := true;
    }

    method CommitTransaction(tx: Transaction, ok: bool) returns (threw: bool)
      requires Valid()
      modifies this, tx
      ensures Valid()
      ensures Contents() == if tx == old(active) then CommitStep(old(Contents()), false, ok) else old(Contents())
      ensures threw <==> tx != old(active) || (old(tx.dirty) && !ok) || !old(tx.status).Active?
    {
      if tx != active { return true; }
      if tx.dirty && !ok { return true; }
      var metadataOnly := tx in prepared && MetadataOnly(tx.Content(), true, ownedMode);
      prepared := prepared - {tx};
      var next := Rebase(tx.draft);
      if metadataOnly {
        next := Rebase(tx.draft.(data := state.data, uiState := state.uiState, policy := state.policy));
      }
      var ended := tx.End(true);
      if !ended { return true; }
      active := null;
      if !tx.dirty { return false; }
      state := next;
      owned := ownedMode;
      if !metadataOnly {
        write := write + 1;
        if ownedMode { epoch := epoch + 1; }
      }
      Restamp();
      return false;
    }

    method CommitPreparedSubmit(tx: Transaction, ok: bool) returns (threw: bool)
      requires Valid()
      modifies this, tx
      ensures Valid()
      ensures Contents() == if tx == old(active) then CommitStep(old(Contents()), true, ok) else old(Contents())
      ensures threw <==> tx != old(active) || (old(tx.dirty) && !ok) || !old(tx.status).Active?
    {
      prepared := prepared + {tx};
      threw := CommitTransaction(tx, ok);
    }

    method RollbackTransaction(tx: Transaction) returns (threw: bool)
      requires Valid()
      modifies this, tx
      ensures Valid()
      ensures Contents() == if tx == old(active) then RollbackStep(old(Contents())) else old(Contents())
      ensures threw <==> tx != old(active) || !old(tx.status).Active?
    {
      if tx != active { return true; }
      var ended := tx.End(false);
      if !ended { return true; }
      active := null;
      return false;
    }

    /** The holder of the active transaction loses it. */
    ghost method Abandon()
      requires Valid()
      modifies this`held
      ensures Valid() && Contents() == AbandonStep(old(Contents()))
    {
      held := false;
    }

    /** Begin, mutate and commit without a rollback (`updateRuntimeState`, `updateFieldMeta`): whatever
        throws leaves the transaction open. */
    method UpdateState(after: State, sameRefs: bool, throws: bool, ok: bool) returns (threw: bool)
      requires Valid()
      modifies this
      ensures Valid() && Contents() == Step(old(Contents()), Update(after, sameRefs, throws, ok))
      ensures threw <==> old(active) != null || throws || !ok
      ensures old(active) == null && threw ==> Busy(Contents())
    {
      var tx := BeginTransaction();
      if tx == null { return true; }
      if throws {
        Abandon();
        return true;
      }
      var mutated := tx.Mutate(after, sameRefs);
      threw := CommitTransaction(tx, ok);
      Abandon();
    }

    method ProjectValidationStatus(paths: set<string>, validating: bool, ok: bool) returns (threw: bool)
      requires Valid()
      modifies this
      ensures Valid() && Contents() == Step(old(Contents()), ProjectStatus(paths, validating, ok))
      ensures threw <==> if old(ownedMode) then Unsupported(old(Contents())) else old(active) != null || !ok
    {
      if ownedMode && (disposed || active != null || !plain) { return true; }
      var next := Projected(state, paths, validating);
      if !ownedMode {
        threw := UpdateState(next, true, false, ok);
        return;
      }
      state := next;
      Restamp();
      return false;
    }

    method PublishOwnedMetadata(change: Change, ok: bool) returns (threw: bool)
      requires Valid()
      modifies this
      ensures Valid() && Contents() == Step(old(Contents()), PublishMetadata(change, ok))
      ensures threw <==> !old(ownedMode) || Unsupported(old(Contents())) || !ok
    {
      if !ownedMode || disposed || active != null || !plain { return true; }
      if !ok {
        failure := failure + 1;
        Restamp();
        return true;
      }
      var next := ApplyMetadata(state, change);
      if next.None? { return false; }
      state := next.value;
      Restamp();
      return false;
    }

    method PublishIssueOnly(issues: seq<Issue>, ok: bool) returns (threw: bool)
      requires Valid()
      modifies this
      ensures Valid() && Contents() == Step(old(Contents()), PublishIssues(issues, ok))
      ensures threw <==> Unsupported(old(Contents())) || !ok
    {
      if disposed || active != null || !plain || !ok {
        failure := failure + 1;
        Restamp();
        return true;
      }
      state := Rebase(state.(issues := Normalize(None, issues)));
      if !owned { epoch := epoch + 1; }
      owned := true;
      Restamp();
      return false;
    }

    method DisposeStore()
      requires Valid()
      modifies this, active
      ensures Valid() && Contents() == Step(old(Contents()), Dispose)
    {
      if disposed { return; }
      disposed := true;
      if active != null && active.status.Active? {
        var ended := active.End(false);
      }
      active := null;
    }
  }

  /** The closure over the accepted epoch (scoped-capture-receipt.ts). `origin` is what the captured
      object holds by now: its holder may have edited it in place. */
  class CaptureReceipt {
    const owner: Option<Stamp>
    const baseline: Semantics
    var accepted: nat

    constructor (owner: Option<Stamp>, baseline: Semantics)
      ensures this.owner == owner && this.baseline == baseline
      ensures owner.Some? ==> accepted == owner.value.epoch
    {
      this.owner := owner;
      this.baseline := baseline;
      accepted := if owner.Some? then owner.value.epoch else 0;
    }

    /** For an owned capture only the stages are compared again. */
    predicate Same(origin: Semantics, current: Semantics) {
      if owner.Some? && owner.value.owned then origin.stage == baseline.stage && current.stage == baseline.stage
      else origin == baseline && current == baseline
    }

    method Check(now: Option<Stamp>, origin: Semantics, current: Semantics) returns (ok: bool)
      modifies this
      ensures ok <==> owner.Some? && now.Some? && Receipt(owner.value, old(accepted), now.value, Same(origin, current)).Some?
      ensures accepted == if ok then Receipt(owner.value, old(accepted), now.value, Same(origin, current)).value else old(accepted)
    {
      if owner.None? || now.None? { return false; }
      var o, n := owner.value, now.value;
      if n.write != o.write || n.failure != o.failure { return false; }
      if n.owned && !o.owned { return false; }
      if o.owned {
        return n.owned && n.epoch == o.epoch && origin.stage == baseline.stage && current.stage == baseline.stage;
      }
      if n.epoch != accepted {
        if accepted != o.epoch || n.epoch != o.epoch + 1 { return false; }
      }
      if origin.stage != baseline.stage || current.stage != baseline.stage { return false; }
      if origin != baseline || current != baseline { return false; }
      accepted := n.epoch;
      return true;
    }
  }
}
