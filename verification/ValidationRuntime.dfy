/** The validation runtime as the object it is (validation-coordinator.ts), its methods proved against
    the steps of `Validation`. */
module ValidationObjects {
  import opened JsonData
  import opened Validation

  /** The runtime object. Tokens are kept in a table and named by their position in it. */
  class ValidationRuntime {
    const validators: seq<Validator>
    var tokens: seq<Token>
    var automatic: map<string, TokenId>
    var automaticPaths: map<string, Path>
    var active: seq<TokenId>
    var generations: map<string, nat>
    var foreground: Option<TokenId>
    var foregroundGeneration: nat
    var currentRevision: nat
    var lifecycle: nat
    var disposed: bool
    var published: seq<Publication>

    ghost function Contents(): Runtime
      reads this
    {
      Runtime(tokens, automatic, automaticPaths, active, generations, foreground, foregroundGeneration,
              currentRevision, lifecycle, disposed, published)
    }

    constructor (validators: seq<Validator>)
      ensures this.validators == validators && Contents() == Fresh()
    {
      this.validators := validators;
      tokens, automatic, automaticPaths, active := [], map[], map[], [];
      generations, foreground, foregroundGeneration := map[], None, 0;
      currentRevision, lifecycle, disposed, published := 0, 0, false, [];
    }

    method DetachToken(t: TokenId)
      modifies this`active, this`foreground, this`automatic, this`automaticPaths
      ensures Contents() == Detach(old(Contents()), t)
    {
      active := Drop(active, t);
      if foreground == Some(t) { foreground := None; }
      if t < |tokens| {
        var owned := set id | id in tokens[t].gens && id in automatic && automatic[id] == t;
        automatic := automatic - owned;
        automaticPaths := automaticPaths - owned;
      }
    }

    method CancelToken(t: TokenId, reason: Cancellation)
      modifies this
      ensures Contents() == Cancel(old(Contents()), t, reason)
    {
      if t >= |tokens| || tokens[t].cancellation.Some? { return; }
      tokens := tokens[t := tokens[t].(cancellation := Some(reason))];
      DetachToken(t);
    }

    method CancelAll(reason: Cancellation)
      modifies this
      ensures Contents() == CancelEach(old(Contents()), old(active), reason)
    {
      var pending := active;
      for i := 0 to |pending|
        invariant Contents() == CancelEach(old(Contents()), pending[..i], reason)
      {
        assert pending[..i + 1][..i] == pending[..i];
        CancelToken(pending[i], reason);
      }
      assert pending[..|pending|] == pending;
    }

    method SupersedeAutomatic(id: string)
      modifies this
      ensures Contents() == CancelAutomatic(old(Contents()), id)
    {
      if id in automatic { CancelToken(automatic[id], Superseded); }
    }

    method SupersedeForegroundOf(id: string)
      modifies this
      ensures Contents() == CancelForegroundOf(old(Contents()), id)
    {
      if foreground.Some? && foreground.value < |tokens| && id in tokens[foreground.value].gens {
        CancelToken(foreground.value, Superseded);
      }
    }

    method ClearFor(id: string)
      modifies this
      ensures Contents() == Clear(old(Contents()), id)
    {
      foregroundGeneration := foregroundGeneration + 1;
      SupersedeAutomatic(id);
      SupersedeForegroundOf(id);
    }

    method NextValidatorGeneration(id: string)
      modifies this`generations
      ensures Contents() == NextGeneration(old(Contents()), id)
    {
      generations := generations[id := (if id in generations then generations[id] else 0) + 1];
    }

    method ScheduleRun(v: Validator, triggerPath: Path)
      modifies this
      ensures Contents() == Schedule(old(Contents()), v, triggerPath)
    {
      ClearFor(v.id);
      NextValidatorGeneration(v.id);
      var fields := if v.fields != [] then v.fields else [triggerPath];
      automatic := automatic[v.id := |tokens|];
      automaticPaths := automaticPaths[v.id := triggerPath];
      active := active + [|tokens|];
      tokens := tokens + [Token(Automatic(v.id), currentRevision, lifecycle, map[v.id := generations[v.id]], fields, None, None)];
    }

    method ScheduleAll(selected: seq<Validator>, path: Path)
      modifies this
      ensures Contents() == ScheduleEach(old(Contents()), selected, path)
    {
      for i := 0 to |selected|
        invariant Contents() == ScheduleEach(old(Contents()), selected[..i], path)
      {
        assert selected[..i + 1][..i] == selected[..i];
        ScheduleRun(selected[i], path);
      }
      assert selected[..|selected|] == selected;
    }

    method ClaimAll(selected: seq<Validator>)
      modifies this
      ensures Contents() == Claim(old(Contents()), selected)
    {
      for i := 0 to |selected|
        invariant Contents() == Claim(old(Contents()), selected[..i])
      {
        assert selected[..i + 1][..i] == selected[..i];
        var id := selected[i].id;
        SupersedeAutomatic(id);
        NextValidatorGeneration(id);
      }
      assert selected[..|selected|] == selected;
    }

    method ClearForeground()
      modifies this
      ensures Contents() == Cleared(old(Contents()))
    {
      foregroundGeneration := foregroundGeneration + 1;
      if foreground.Some? { CancelToken(foreground.value, Superseded); }
    }

    method AddForeground(ids: set<string>, paths: seq<Path>, expected: nat)
      modifies this
      ensures Contents() == OpenForeground(old(Contents()), ForegroundToken(old(Contents()), ids, paths, expected))
    {
      var gens := map id | id in ids && id in generations :: generations[id];
      foreground := Some(|tokens|);
      active := active + [|tokens|];
      tokens := tokens + [Token(Foreground, currentRevision, lifecycle, gens, paths, Some(expected), None)];
    }

    /** The part of `runForeground` before its validators are called. */
    method StartForeground(selected: seq<Validator>, paths: seq<Path>, expected: nat, candidate: bool, prepared: bool)
      modifies this
      ensures Contents() == StepStart(old(Contents()), selected, paths, expected, candidate, prepared)
    {
      if candidate && (disposed || expected != currentRevision) { return; }
      ClearForeground();
      ClaimAll(selected);
      var t := |tokens|;
      AddForeground(Ids(selected), paths, expected);
      if !prepared || expected != currentRevision { CancelToken(t, Superseded); }
    }

    method CancelPendingRuns(order: seq<string>)
      modifies this
      ensures Contents() == CancelPending(old(Contents()), order)
    {
      for i := 0 to |order|
        invariant Contents() == CancelPending(old(Contents()), order[..i])
      {
        assert order[..i + 1][..i] == order[..i];
        SupersedeAutomatic(order[i]);
      }
      assert order[..|order|] == order;
    }

    method RescheduleUnrelated(selected: set<string>, order: seq<string>)
      modifies this
      ensures Contents() == Reschedule(CancelPending(old(Contents()), order), validators, Retained(old(Contents()), order, selected))
    {
      var retained: seq<(string, Path)> := [];
      for i := 0 to |order|
        invariant Contents() == old(Contents())
        invariant retained == Retained(Contents(), order[..i], selected)
      {
        assert order[..i + 1][..i] == order[..i];
        if order[i] in automaticPaths && order[i] !in selected {
          retained := retained + [(order[i], automaticPaths[order[i]])];
        }
      }
      assert order[..|order|] == order;
      CancelPendingRuns(order);
      ghost var pending := Contents();
      for i := 0 to |retained|
        invariant Contents() == Reschedule(pending, validators, retained[..i])
      {
        assert retained[..i + 1][..i] == retained[..i];
        var (id, path) := retained[i];
        var found := Find(validators, id);
        if found.Some? { ScheduleRun(found.value, path); }
      }
      assert retained[..|retained|] == retained;
    }

    method TriggerEvent(path: Path, event: Event, mutate: bool, order: seq<string>)
      modifies this
      ensures Contents() == Step(validators, old(Contents()), Triggered(path, event, mutate, order))
    {
      var selected := SelectValidators(validators, path, Some(event));
      if mutate {
        currentRevision := currentRevision + 1;
        foregroundGeneration := foregroundGeneration + 1;
        if foreground.Some? { CancelToken(foreground.value, Superseded); }
        RescheduleUnrelated(Ids(selected), order);
      }
      ScheduleAll(selected, path);
    }

    method OnMutation()
      modifies this
      ensures Contents() == Step(validators, old(Contents()), MutatedAll)
    {
      currentRevision := currentRevision + 1;
      foregroundGeneration := foregroundGeneration + 1;
      CancelAll(Superseded);
    }

    method EndLifecycle(project: bool)
      modifies this
      ensures Contents() == Step(validators, old(Contents()), LifecycleEnded(project))
    {
      if project { disposed := true; }
      lifecycle := lifecycle + 1;
      currentRevision := currentRevision + 1;
      foregroundGeneration := foregroundGeneration + 1;
      CancelAll(Aborted);
    }

    method IsTokenCurrent(t: TokenId) returns (ok: bool)
      ensures ok == IsCurrent(Contents(), t)
    {
      if t >= |tokens| { return false; }
      var token := tokens[t];
      if token.cancellation.Some? || token.revision != currentRevision || token.lifecycle != lifecycle { return false; }
      if exists id :: id in token.gens && (id !in generations || generations[id] != token.gens[id]) { return false; }
      return if token.kind.Foreground? then foreground == Some(t) else t in automatic.Values;
    }

    /** The debounce timer fires: the validator is called with the values of this moment. */
    method FireTimer(t: TokenId)
      modifies this`tokens
      ensures Contents() == Step(validators, old(Contents()), TimerFired(t))
    {
      if t < |tokens| && tokens[t].kind.Automatic? && tokens[t].cancellation.None? && tokens[t].snapshot.None? {
        tokens := tokens[t := tokens[t].(snapshot := Some(currentRevision))];
      }
    }

    /** A result, or the failure issue in its place, of an automatic run. */
    method SettleAutomatic(t: TokenId, semantic: bool)
      modifies this`published
      ensures Contents() == Step(validators, old(Contents()), AutomaticSettled(t, semantic))
    {
      var current := IsTokenCurrent(t);
      if current && tokens[t].kind.Automatic? && tokens[t].snapshot.Some? && semantic {
        published := published + [Publication(t, currentRevision)];
      }
    }

    /** The first half of `settleForeground`: publication, or nothing for a candidate. */
    method SettleForeground(t: TokenId, semantic: bool, candidate: bool)
      modifies this
      ensures Contents() == Step(validators, old(Contents()), ForegroundSettled(t, semantic, candidate))
    {
      if t >= |tokens| || !tokens[t].kind.Foreground? { return; }
      var current := IsTokenCurrent(t);
      if !current || !semantic {
        if t in active { CancelToken(t, Superseded); }
      } else if !candidate {
        published := published + [Publication(t, currentRevision)];
      }
    }
  }
}
