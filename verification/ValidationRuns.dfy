/** The promises of the validation runtime over whole runs. */
module ValidationRuns {
  import opened JsonData
  import opened Validation
  import opened ValidationInvariant

  // ---- runs ----

  function From(vs: seq<Validator>, r: Runtime, ops: seq<Op>): Runtime {
    if ops == [] then r else Step(vs, From(vs, r, ops[..|ops| - 1]), ops[|ops| - 1])
  }

  ghost predicate PossibleFrom(vs: seq<Validator>, r: Runtime, ops: seq<Op>) {
    forall i :: 0 <= i < |ops| ==> Admissible(From(vs, r, ops[..i]), ops[i])
  }

  function After(vs: seq<Validator>, ops: seq<Op>): Runtime {
    From(vs, Fresh(), ops)
  }

  ghost predicate Possible(vs: seq<Validator>, ops: seq<Op>) {
    PossibleFrom(vs, Fresh(), ops)
  }

  lemma {:induction false} RunKeeps(vs: seq<Validator>, r: Runtime, ops: seq<Op>)
    requires Inv(r) && PossibleFrom(vs, r, ops)
    ensures Inv(From(vs, r, ops))
  {
    if ops != [] {
      var n := |ops| - 1;
      forall i | 0 <= i < n ensures Admissible(From(vs, r, ops[..n][..i]), ops[..n][i]) { assert ops[..n][..i] == ops[..i]; }
      RunKeeps(vs, r, ops[..n]);
      assert Admissible(From(vs, r, ops[..n]), ops[n]);
      StepKeeps(vs, From(vs, r, ops[..n]), ops[n]);
    }
  }

  /** A live run is current. */
  lemma LiveIffCurrent(r: Runtime, t: TokenId)
    requires Inv(r)
    ensures t in r.active <==> IsCurrent(r, t)
  {
    if t in r.active {
      assert HeldAt(r, t) && Timely(r, t);
    } else if IsCurrent(r, t) {
      CurrentIsLive(r, t);
    }
  }

  /** Over every interleaving, a run is live exactly when it is current (so the revision, lifecycle
      and generation tests of `isCurrent` never fail for a live run), and no two live runs share a
      validator. */
  lemma LiveIsCurrent(vs: seq<Validator>, ops: seq<Op>, t: TokenId)
    requires Possible(vs, ops)
    ensures t in After(vs, ops).active <==> IsCurrent(After(vs, ops), t)
  {
    RunKeeps(vs, Fresh(), ops);
    LiveIffCurrent(After(vs, ops), t);
  }

  lemma LiveRunsAreDisjoint(vs: seq<Validator>, ops: seq<Op>, t: TokenId, u: TokenId, id: string)
    requires Possible(vs, ops)
    requires t in After(vs, ops).active && u in After(vs, ops).active
    ensures t < |After(vs, ops).tokens| && u < |After(vs, ops).tokens|
    ensures id in After(vs, ops).tokens[t].gens && id in After(vs, ops).tokens[u].gens ==> t == u
  {
    RunKeeps(vs, Fresh(), ops);
    var r := After(vs, ops);
    assert HeldAt(r, t) && HeldAt(r, u);
    if id in r.tokens[t].gens && id in r.tokens[u].gens { LiveAreDisjoint(r, t, u, id); }
  }

  /** Over every interleaving each publication came from a run that was started, and given its
      values, at the revision it was published for. */
  lemma NoStaleResult(vs: seq<Validator>, ops: seq<Op>, i: nat)
    requires Possible(vs, ops) && i < |After(vs, ops).published|
    ensures EntryOk(After(vs, ops), After(vs, ops).published[i])
  {
    RunKeeps(vs, Fresh(), ops);
  }

  /** For one validator an earlier run never publishes after a later one. */
  lemma PublicationsAreInOrder(vs: seq<Validator>, ops: seq<Op>, i: nat, j: nat)
    requires Possible(vs, ops) && i < j < |After(vs, ops).published|
    ensures InOrder(After(vs, ops), After(vs, ops).published[i], After(vs, ops).published[j])
  {
    RunKeeps(vs, Fresh(), ops);
  }

  // ---- who publishes ----

  lemma CancellingIsSilent(r: Runtime, ts: seq<TokenId>, reason: Cancellation)
    ensures CancelEach(r, ts, reason).published == r.published
  {
  }

  lemma PendingIsSilent(r: Runtime, order: seq<string>)
    ensures CancelPending(r, order).published == r.published
  {
  }

  lemma SchedulingIsSilent(r: Runtime, vs: seq<Validator>, path: Path)
    ensures ScheduleEach(r, vs, path).published == r.published
  {
  }

  lemma ReschedulingIsSilent(r: Runtime, vs: seq<Validator>, retained: seq<(string, Path)>)
    ensures Reschedule(r, vs, retained).published == r.published
  {
  }

  lemma ClaimingIsSilent(r: Runtime, vs: seq<Validator>)
    ensures Claim(r, vs).published == r.published
  {
  }

  lemma TriggerIsSilent(r: Runtime, vs: seq<Validator>, path: Path, event: Event, mutate: bool, order: seq<string>)
    ensures Trigger(r, vs, path, event, mutate, order).published == r.published
  {
    var selected := SelectValidators(vs, path, Some(event));
    if mutate {
      var b := CancelForeground(Bump(r));
      var retained := Retained(b, order, Ids(selected));
      PendingIsSilent(b, order);
      ReschedulingIsSilent(CancelPending(b, order), vs, retained);
      SchedulingIsSilent(Reschedule(CancelPending(b, order), vs, retained), selected, path);
    } else {
      SchedulingIsSilent(r, selected, path);
    }
  }

  /** The one run an operation may publish for. */
  function Publisher(op: Op): Option<TokenId> {
    match op
    case AutomaticSettled(t, _) => Some(t)
    case ForegroundSettled(t, _, candidate) => if candidate then None else Some(t)
    case _ => None
  }

  lemma OthersAreSilent(vs: seq<Validator>, r: Runtime, op: Op)
    requires Publisher(op).None?
    ensures Step(vs, r, op).published == r.published
  {
    match op
    case Triggered(path, event, mutate, order) => TriggerIsSilent(r, vs, path, event, mutate, order);
    case MutatedAll => CancellingIsSilent(Bump(r), r.active, Superseded);
    case ForegroundStarted(selected, paths, expected, candidate, prepared) => ClaimingIsSilent(Cleared(r), selected);
    case LifecycleEnded(dispose) =>
      CancellingIsSilent(Bump(r).(lifecycle := r.lifecycle + 1, disposed := r.disposed || dispose), r.active, Aborted);
    case _ =>
  }

  /** The issues of a validator are replaced only by the run that settles, while it is live, and with
      values of the revision that is current. */
  lemma PublishersAreLive(vs: seq<Validator>, ops: seq<Op>, op: Op)
    requires Possible(vs, ops)
    ensures (var r, n := After(vs, ops), Step(vs, After(vs, ops), op);
      n.published == r.published ||
      (&& Publisher(op).Some? && Publisher(op).value in r.active && Publisher(op).value < |r.tokens|
       && r.tokens[Publisher(op).value].snapshot == Some(r.revision)
       && n.published == r.published + [Publication(Publisher(op).value, r.revision)]))
  {
    var r := After(vs, ops);
    match Publisher(op)
    case None => OthersAreSilent(vs, r, op);
    case Some(t) =>
      RunKeeps(vs, Fresh(), ops);
      LiveIffCurrent(r, t);
      if t in r.active && t < |r.tokens| { assert Timely(r, t) && TokenOk(r.tokens[t]); }
  }

  /** The run whose code an operation takes to its settlement. */
  function SettledRun(op: Op): Option<TokenId> {
    match op
    case AutomaticSettled(t, _) => Some(t)
    case ForegroundSettled(t, _, _) => Some(t)
    case _ => None
  }

  /** The code of a run comes to its settlement once. */
  ghost predicate SettlesOnce(ops: seq<Op>) {
    forall i, j :: 0 <= i < j < |ops| && SettledRun(ops[i]).Some? ==> SettledRun(ops[i]) != SettledRun(ops[j])
  }

  ghost predicate HasSettled(ops: seq<Op>, t: TokenId) {
    exists i :: 0 <= i < |ops| && SettledRun(ops[i]) == Some(t)
  }

  ghost predicate PublishedOnce(r: Runtime, ops: seq<Op>) {
    && (forall k :: 0 <= k < |r.published| ==> HasSettled(ops, r.published[k].token))
    && (forall k, l :: 0 <= k < l < |r.published| ==> r.published[k].token != r.published[l].token)
  }

  lemma StepPublishes(vs: seq<Validator>, r: Runtime, op: Op)
    ensures Step(vs, r, op).published == r.published ||
      (SettledRun(op).Some? && Step(vs, r, op).published == r.published + [Publication(SettledRun(op).value, r.revision)])
  {
    if Publisher(op).None? { OthersAreSilent(vs, r, op); }
  }

  lemma SettledStays(ops: seq<Op>, op: Op, t: TokenId)
    ensures HasSettled(ops, t) ==> HasSettled(ops + [op], t)
    ensures SettledRun(op) == Some(t) ==> HasSettled(ops + [op], t)
    ensures SettlesOnce(ops + [op]) && SettledRun(op) == Some(t) ==> !HasSettled(ops, t)
  {
    var more := ops + [op];
    if i :| 0 <= i < |ops| && SettledRun(ops[i]) == Some(t) { assert SettledRun(more[i]) == Some(t) && more[|ops|] == op; }
    assert more[|ops|] == op;
  }

  /** Over a whole run of the runtime no validation run publishes twice. */
  lemma {:induction false} PublishesOnce(vs: seq<Validator>, ops: seq<Op>)
    requires SettlesOnce(ops)
    ensures PublishedOnce(After(vs, ops), ops)
  {
    if ops != [] {
      var front, op := ops[..|ops| - 1], ops[|ops| - 1];
      assert ops == front + [op];
      assert forall i :: 0 <= i < |front| ==> front[i] == ops[i];
      PublishesOnce(vs, front);
      PublishesOnceStep(vs, front, op);
    }
  }

  lemma PublishesOnceStep(vs: seq<Validator>, ops: seq<Op>, op: Op)
    requires SettlesOnce(ops + [op]) && PublishedOnce(After(vs, ops), ops)
    ensures PublishedOnce(Step(vs, After(vs, ops), op), ops + [op])
  {
    var r, n := After(vs, ops), Step(vs, After(vs, ops), op);
    StepPublishes(vs, r, op);
    forall k | 0 <= k < |n.published| ensures HasSettled(ops + [op], n.published[k].token) {
      SettledStays(ops, op, n.published[k].token);
    }
    if SettledRun(op).Some? { SettledStays(ops, op, SettledRun(op).value); }
  }

  // ---- the verdict of a foreground run ----

  lemma {:induction false} RunTicks(vs: seq<Validator>, r: Runtime, ops: seq<Op>)
    ensures Ticks(r, From(vs, r, ops))
  {
    if ops != [] {
      var before := From(vs, r, ops[..|ops| - 1]);
      RunTicks(vs, r, ops[..|ops| - 1]);
      StepTicks(vs, before, ops[|ops| - 1]);
      TicksTransitive(r, before, From(vs, r, ops));
    }
  }

  /** `isSettledCurrent`, asked again after the last subscriber has been told. */
  predicate IsSettledCurrent(r: Runtime, t: TokenId, generation: nat)
    requires t < |r.tokens|
  {
    && r.foregroundGeneration == generation && r.tokens[t].cancellation.None?
    && r.tokens[t].lifecycle == r.lifecycle && r.tokens[t].revision == r.revision && GensCurrent(r, t)
  }

  /** What a settling run reads of its surroundings: the semantic guard before it publishes, after,
      and at the end, and the caller's signal after it publishes and at the end. */
  datatype Surroundings = Surroundings(semantic: bool, semanticThen: bool, semanticLast: bool, abortedThen: bool, abortedLast: bool)

  datatype Verdict = Completed | Refused(reason: Cancellation)

  function ReasonOf(r: Runtime, t: TokenId): Cancellation {
    if t < |r.tokens| && r.tokens[t].cancellation.Some? then r.tokens[t].cancellation.value else Superseded
  }

  /** The runtime once subscribers have seen the issues. A candidate publishes none. */
  function Told(vs: seq<Validator>, r: Runtime, t: TokenId, candidate: bool, during: seq<Op>): Runtime {
    if candidate then r else From(vs, Publish(r, t), during)
  }

  /** `settleForeground`: subscribers act in `during` while issues are published, and in `after` while
      the end of validation is projected. */
  function SettledVerdict(vs: seq<Validator>, r: Runtime, t: TokenId, candidate: bool,
                          during: seq<Op>, after: seq<Op>, s: Surroundings): Verdict
  {
    if !IsCurrent(r, t) || !s.semantic then Refused(ReasonOf(StepForeground(r, t, s.semantic, candidate), t))
    else
      var told := Told(vs, r, t, candidate, during);
      var valid := !s.abortedThen && s.semanticThen && IsCurrent(told, t);
      var last := From(vs, Detach(told, t), after);
      if s.abortedLast then Refused(Aborted)
      else if valid && t < |last.tokens| && IsSettledCurrent(last, t, told.foregroundGeneration) && s.semanticLast then Completed
      else Refused(ReasonOf(last, t))
  }

  predicate Undisturbed(s: Surroundings) {
    s.semantic && s.semanticThen && s.semanticLast && !s.abortedThen && !s.abortedLast
  }

  /** Whatever subscribers do between a current run's detachment and its verdict, it stays settled
      exactly when nothing was started, mutated or reset meanwhile and the run was not aborted; the
      revision is then still the one it started at. */
  lemma DetachedIsExact(vs: seq<Validator>, r: Runtime, t: TokenId, ops: seq<Op>)
    requires Inv(r) && IsCurrent(r, t)
    ensures t < |From(vs, Detach(r, t), ops).tokens|
    ensures (var now := From(vs, Detach(r, t), ops);
      IsSettledCurrent(now, t, r.foregroundGeneration) <==>
        now.foregroundGeneration == r.foregroundGeneration && now.tokens[t].cancellation.None?)
    ensures (var now := From(vs, Detach(r, t), ops);
      now.foregroundGeneration == r.foregroundGeneration ==> now.revision == r.revision && |now.tokens| == |r.tokens|)
  {
    RunTicks(vs, Detach(r, t), ops);
    assert Kept(Detach(r, t).tokens[t], From(vs, Detach(r, t), ops).tokens[t]);
  }

  lemma ToldKeeps(vs: seq<Validator>, r: Runtime, t: TokenId, candidate: bool, during: seq<Op>)
    requires Inv(r) && t in r.active && r.tokens[t].kind.Foreground?
    requires PossibleFrom(vs, Publish(r, t), during)
    ensures Inv(Told(vs, r, t, candidate, during))
  {
    LiveIffCurrent(r, t);
    if !candidate {
      StepForegroundKeeps(r, t, true, false);
      RunKeeps(vs, Publish(r, t), during);
    }
  }

  /** "Completed" is reported exactly when the run is live when it settles and still live when its
      issues have been seen, nothing was started, mutated or reset and the run was not cancelled
      while its end was projected, the semantic guard held throughout and the caller never aborted. */
  lemma VerdictIsExact(vs: seq<Validator>, r: Runtime, t: TokenId, candidate: bool, during: seq<Op>, after: seq<Op>, s: Surroundings)
    requires Inv(r) && t < |r.tokens| && r.tokens[t].kind.Foreground?
    requires PossibleFrom(vs, Publish(r, t), during)
    ensures SettledVerdict(vs, r, t, candidate, during, after, s) == Completed <==>
      (&& t in r.active && Undisturbed(s)
       && (var told := Told(vs, r, t, candidate, during);
           var last := From(vs, Detach(told, t), after);
           && t in told.active && t < |last.tokens|
           && last.foregroundGeneration == told.foregroundGeneration && last.tokens[t].cancellation.None?))
  {
    LiveIffCurrent(r, t);
    if t in r.active {
      var told := Told(vs, r, t, candidate, during);
      ToldKeeps(vs, r, t, candidate, during);
      LiveIffCurrent(told, t);
      if t in told.active { DetachedIsExact(vs, told, t, after); }
    }
  }

  /** A completed run speaks of the revision and lifecycle that are still current. */
  lemma CompletedIsUpToDate(vs: seq<Validator>, r: Runtime, t: TokenId, candidate: bool, during: seq<Op>, after: seq<Op>, s: Surroundings)
    requires t < |r.tokens| && SettledVerdict(vs, r, t, candidate, during, after, s) == Completed
    ensures (var last := From(vs, Detach(Told(vs, r, t, candidate, during), t), after);
      last.revision == r.revision && last.lifecycle == r.lifecycle)
  {
    var told := Told(vs, r, t, candidate, during);
    var last := From(vs, Detach(told, t), after);
    RunTicks(vs, Publish(r, t), during);
    RunTicks(vs, Detach(told, t), after);
    assert Kept(r.tokens[t], Publish(r, t).tokens[t]) && Kept(Publish(r, t).tokens[t], told.tokens[t]);
    assert Kept(told.tokens[t], Detach(told, t).tokens[t]) && Kept(Detach(told, t).tokens[t], last.tokens[t]);
  }
}
