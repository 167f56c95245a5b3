/** Where the bound submit lane stands after any history. */
module FinalEffects {
  import opened JsonData
  import opened FinalGenerations

  // ---- what the lane waits for ----

  /** The stretch the lane runs next when `n` of its stretches have run. */
  predicate Answers(act: Act, n: nat) {
    match n
    case 0 => act.SyncChecked?
    case 1 => act.ResultReceived?
    case 2 => act.GateReached?
    case 3 => act.HandlerReached?
    case 4 => act.HandlerReturned?
    case 5 => act.HandlerSettled?
    case _ => false
  }

  /** Everything but the witness is there. */
  predicate AllWell(act: Act) {
    match act
    case SyncChecked(ok) => ok
    case ResultReceived(ok) => ok
    case GateReached(ok) => ok
    case HandlerReached(ok, _) => ok
    case HandlerReturned(ok) => ok
    case HandlerSettled(ok) => ok
    case _ => false
  }

  /** The witness is current when the stretch at `k` runs; before the foreground run its synchronous part. */
  ghost predicate Holds(env: Env, acts: seq<Act>, k: nat, n: nat)
    requires k < |acts|
  {
    var a := After(env, acts[..k]);
    AllWell(acts[k]) && if n == 0 then SyncIsCurrent(a.lanes, a.env.sync, a.env.async, Guard(a)) else Current(a)
  }

  function From(at: seq<nat>, n: nat): nat
    requires n <= |at|
  {
    if n == 0 then 0 else at[n - 1] + 1
  }

  predicate Waits(acts: seq<Act>, start: nat, end: nat, n: nat)
    requires end <= |acts|
  {
    forall m :: start <= m < end ==> !Answers(acts[m], n)
  }

  /** The stretch of number `n` runs at the first act it waits for. */
  ghost predicate RunsAt(acts: seq<Act>, at: seq<nat>, n: nat)
    requires n < |at|
  {
    From(at, n) <= at[n] < |acts| && Answers(acts[at[n]], n) && Waits(acts, From(at, n), at[n], n)
  }

  /** The instants at which the lane's stretches have run: all but perhaps the last had the witness, and
      without a handler there is none after the fourth. */
  ghost predicate Walked(env: Env, acts: seq<Act>, at: seq<nat>) {
    && |at| <= 6
    && (forall n: nat :: n < |at| ==> RunsAt(acts, at, n))
    && (forall n: nat :: n + 1 < |at| ==> at[n] < |acts| && Holds(env, acts, at[n], n))
    && (|at| > 4 ==> at[3] < |acts| && acts[at[3]].HandlerReached? && acts[at[3]].handler)
  }

  /** Refused by the first stretch without the witness; finished when the outcome has settled, or at once
      without a handler; otherwise as far as stretches have run. */
  ghost function Standing(env: Env, acts: seq<Act>, at: seq<nat>): Stage
    requires Walked(env, acts, at)
  {
    if at == [] then Started
    else
      var n := |at| - 1;
      assert RunsAt(acts, at, n);
      if !Holds(env, acts, at[n], n) then Refused
      else match n
        case 0 => Synced
        case 1 => Answered
        case 2 => Checked
        case 3 => if acts[at[3]].handler then Calling else Finished(at[3])
        case 4 => Returned
        case _ => Finished(at[5])
  }

  /** The handler is called by the fourth stretch. */
  ghost function Called(env: Env, acts: seq<Act>, at: seq<nat>): seq<nat>
    requires Walked(env, acts, at)
  {
    if |at| < 4 then []
    else
      assert RunsAt(acts, at, 3);
      if Holds(env, acts, at[3], 3) && acts[at[3]].handler then [at[3]] else []
  }

  predicate Ended(stage: Stage) {
    stage.Refused? || stage.Finished?
  }

  ghost predicate LaneIs(env: Env, acts: seq<Act>, at: seq<nat>) {
    && Walked(env, acts, at)
    && After(env, acts).stage == Standing(env, acts, at) && After(env, acts).calls == Called(env, acts, at)
    && After(env, acts).time == |acts|
    && (!Ended(After(env, acts).stage) ==> From(at, |at|) <= |acts| && Waits(acts, From(at, |at|), |acts|, |at|))
  }

  // ---- one more act ----

  lemma StillHolds(env: Env, acts: seq<Act>, act: Act, k: nat, n: nat)
    requires k < |acts|
    ensures Holds(env, acts + [act], k, n) <==> Holds(env, acts, k, n)
  {
    assert (acts + [act])[..k] == acts[..k];
  }

  lemma StillRuns(env: Env, acts: seq<Act>, act: Act, at: seq<nat>, n: nat)
    requires n < |at| && RunsAt(acts, at, n)
    ensures RunsAt(acts + [act], at, n) && (acts + [act])[at[n]] == acts[at[n]]
    ensures Holds(env, acts + [act], at[n], n) <==> Holds(env, acts, at[n], n)
  {
    StillHolds(env, acts, act, at[n], n);
  }

  lemma StillWalked(env: Env, acts: seq<Act>, act: Act, at: seq<nat>)
    requires Walked(env, acts, at)
    ensures Walked(env, acts + [act], at)
  {
    forall n: nat | n < |at| ensures RunsAt(acts + [act], at, n) { StillRuns(env, acts, act, at, n); }
    forall n: nat | n + 1 < |at| ensures Holds(env, acts + [act], at[n], n) { StillRuns(env, acts, act, at, n); }
    if |at| > 4 { StillRuns(env, acts, act, at, 3); }
  }

  lemma StillStands(env: Env, acts: seq<Act>, act: Act, at: seq<nat>)
    requires Walked(env, acts, at) && Walked(env, acts + [act], at)
    ensures Standing(env, acts + [act], at) == Standing(env, acts, at) && Called(env, acts + [act], at) == Called(env, acts, at)
  {
    if at != [] { StillRuns(env, acts, act, at, |at| - 1); }
    if |at| >= 4 { StillRuns(env, acts, act, at, 3); }
  }

  lemma AfterMore(env: Env, acts: seq<Act>, act: Act)
    ensures After(env, acts + [act]) == Next(After(env, acts), act)
  {
    assert (acts + [act])[..|acts|] == acts;
  }

  /** An act the lane does not wait for leaves it where it is. */
  lemma NotAnswered(a: Attempt, act: Act, n: nat)
    requires Ended(a.stage) || (!Answers(act, n) && n <= 5 && Rank(a.stage) == n)
    ensures Next(a, act).stage == a.stage && Next(a, act).calls == a.calls && Next(a, act).time == a.time + 1
  {
  }

  function Rank(stage: Stage): nat {
    match stage
    case Started => 0
    case Synced => 1
    case Answered => 2
    case Checked => 3
    case Calling => 4
    case Returned => 5
    case _ => 6
  }

  lemma StandingRank(env: Env, acts: seq<Act>, at: seq<nat>)
    requires Walked(env, acts, at) && !Ended(Standing(env, acts, at))
    ensures Rank(Standing(env, acts, at)) == |at| <= 5
    ensures at != [] ==> at[|at| - 1] < |acts| && Holds(env, acts, at[|at| - 1], |at| - 1)
    ensures |at| == 4 ==> acts[at[3]].HandlerReached? && acts[at[3]].handler
    ensures Called(env, acts, at) == if |at| < 4 then [] else [at[3]]
  {
    if at != [] { assert RunsAt(acts, at, |at| - 1); }
  }

  /** A stretch that runs. */
  lemma StretchRuns(env: Env, acts: seq<Act>, act: Act, n: nat)
    requires Answers(act, n) && Rank(After(env, acts).stage) == n && After(env, acts).time == |acts|
    ensures (var a, b := After(env, acts), Next(After(env, acts), act);
      && b.time == a.time + 1
      && b.calls == (if n == 3 && act.handler && Holds(env, acts + [act], |acts|, n) then a.calls + [|acts|] else a.calls)
      && b.stage == (if !Holds(env, acts + [act], |acts|, n) then Refused
                     else if n == 3 then (if act.handler then Calling else Finished(|acts|))
                     else if n == 5 then Finished(|acts|)
                     else if n == 0 then Synced else if n == 1 then Answered else if n == 2 then Checked else Returned))
  {
    assert (acts + [act])[..|acts|] == acts;
  }

  lemma WalksOn(env: Env, acts: seq<Act>, act: Act, at: seq<nat>)
    requires Walked(env, acts, at) && !Ended(Standing(env, acts, at)) && Answers(act, |at|)
    requires From(at, |at|) <= |acts| && Waits(acts, From(at, |at|), |acts|, |at|)
    ensures Walked(env, acts + [act], at + [|acts|])
  {
    var all, more := acts + [act], at + [|acts|];
    StandingRank(env, acts, at);
    StillWalked(env, acts, act, at);
    forall n: nat | n < |more| ensures RunsAt(all, more, n) {
      if n < |at| { assert RunsAt(all, at, n); }
    }
    forall n: nat | n + 1 < |more| ensures Holds(env, all, more[n], n) {
      if n + 1 == |at| { StillHolds(env, acts, act, at[n], n); }
    }
  }

  lemma StaysThere(env: Env, acts: seq<Act>, act: Act, at: seq<nat>)
    requires LaneIs(env, acts, at) && (Ended(After(env, acts).stage) || !Answers(act, |at|))
    ensures LaneIs(env, acts + [act], at)
  {
    AfterMore(env, acts, act);
    StillWalked(env, acts, act, at);
    StillStands(env, acts, act, at);
    if !Ended(After(env, acts).stage) { StandingRank(env, acts, at); }
    NotAnswered(After(env, acts), act, |at|);
  }

  lemma GoesOn(env: Env, acts: seq<Act>, act: Act, at: seq<nat>)
    requires LaneIs(env, acts, at) && !Ended(After(env, acts).stage) && Answers(act, |at|)
    ensures LaneIs(env, acts + [act], at + [|acts|])
  {
    AfterMore(env, acts, act);
    StandingRank(env, acts, at);
    WalksOn(env, acts, act, at);
    StretchRuns(env, acts, act, |at|);
  }

  /** After any history the lane stands exactly where its own stretches have brought it: each ran at the
      first act it waited for, all but perhaps the last with the witness current and everything else
      well; the first without refused it, the fourth called the handler, and the last accepted the outcome. */
  lemma {:induction false} LaneStands(env: Env, acts: seq<Act>) returns (at: seq<nat>)
    ensures LaneIs(env, acts, at)
  {
    if acts == [] {
      at := [];
    } else {
      var front, act := acts[..|acts| - 1], acts[|acts| - 1];
      assert acts == front + [act];
      at := LaneStands(env, front);
      if !Ended(After(env, front).stage) && Answers(act, |at|) {
        GoesOn(env, front, act, at);
        at := at + [|front|];
      } else {
        StaysThere(env, front, act, at);
      }
    }
  }
}
