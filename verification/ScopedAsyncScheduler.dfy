/** The scheduler as the object it is (scoped-async-scheduler.ts). */
module SchedulerObjects {
  /* Its methods are proved against the steps of `Schedulers`. A method that publishes is cut where the
     subscribers are called; the part that undoes it takes the frame the first part left. Keys come as
     sequences, in the order the program's maps and sets iterate them. */

  import opened JsonData
  import opened Schedulers

  function KeySet(keys: seq<Key>): set<Key> {
    set k | k in keys
  }

  class ScopedAsyncScheduler {
    var tokens: seq<Token>
    var pending: map<Key, TokenId>
    var emitted: map<Key, IssueList>
    var observations: map<Key, Observation>
    var publishing: set<Key>
    var lifecycle: nat
    var foregroundGeneration: nat
    var disposed: bool
    var revision: nat
    var frames: seq<Frame>
    var published: seq<TokenId>

    ghost function Contents(): Scheduler
      reads this
    {
      Scheduler(tokens, pending, emitted, observations, publishing, lifecycle, foregroundGeneration, disposed, revision,
                frames, published)
    }

    constructor ()
      ensures Contents() == Fresh()
    {
      tokens, pending, emitted, observations, publishing := [], map[], map[], map[], {};
      lifecycle, foregroundGeneration, disposed, revision, frames, published := 0, 0, false, 0, [], [];
    }

    method IsCurrent(t: TokenId) returns (ok: bool)
      ensures ok == Current(Contents(), t)
    {
      if t >= |tokens| || disposed { return false; }
      var token := tokens[t];
      ok := lifecycle == token.lifecycle && revision == token.revision &&
            token.key in pending && pending[token.key] == t && !token.aborted;
    }

    method CancelToken(t: TokenId)
      modifies this`tokens, this`pending
      ensures Contents() == Cancel(old(Contents()), t)
    {
      if t >= |tokens| { return; }
      var key := tokens[t].key;
      tokens := tokens[t := tokens[t].(aborted := true)];
      if key in pending && pending[key] == t { pending := pending - {key}; }
    }

    method ScheduleField(key: Key, deadline: int)
      modifies this`tokens, this`pending
      ensures Contents() == Schedule(old(Contents()), key, deadline)
    {
      if key in pending { CancelToken(pending[key]); }
      pending := pending[key := |tokens|];
      tokens := tokens + [Token(key, revision, lifecycle, deadline, false, false, false, false)];
    }

    method ScheduleDue(due: seq<(Key, int)>)
      modifies this`tokens, this`pending
      ensures Contents() == ScheduleEach(old(Contents()), due)
    {
      for i := 0 to |due|
        invariant Contents() == ScheduleEach(old(Contents()), due[..i])
      {
        assert due[..i + 1][..i] == due[..i];
        ScheduleField(due[i].0, due[i].1);
      }
      assert due[..|due|] == due;
    }

    method Publish(t: TokenId, issues: IssueList, observation: Observation)
      requires t < |tokens|
      modifies this`emitted, this`observations, this`published, this`frames
      ensures Contents() == OpenPublish(old(Contents()), t, issues, observation)
    {
      var key := tokens[t].key;
      frames := frames + [Publishing(t, key, issues, Get(emitted, key), Get(observations, key))];
      emitted := emitted[key := issues];
      if issues.size > 0 { observations := observations[key := observation]; } else { observations := observations - {key}; }
      published := published + [t];
    }

    method UndoPublication(f: Frame)
      requires f.Publishing?
      modifies this`emitted, this`observations
      ensures Contents() == UndoPublish(old(Contents()), f)
    {
      if f.key in emitted && emitted[f.key] == f.issues {
        if f.owned.None? { emitted := emitted - {f.key}; } else { emitted := emitted[f.key := f.owned.value]; }
        if f.prior.Some? { observations := observations[f.key := f.prior.value]; } else { observations := observations - {f.key}; }
      }
    }

    /** The loop of `revoke` before its publication. */
    method Revoke(keys: seq<Key>, mark: nat, plan: Option<Plan>)
      modifies this`emitted, this`observations, this`frames
      ensures Contents() == OpenRevoke(old(Contents()), KeySet(keys), mark, plan)
    {
      ghost var s := Contents();
      ghost var e0, o0 := emitted, observations;
      var priors: map<Key, Prior> := map[];
      for i := 0 to |keys|
        invariant frames == s.frames
        invariant RevokedPart(e0, o0, mark, KeySet(keys[..i]), priors, emitted, observations)
      {
        var key := keys[i];
        ghost var p1, e1, o1 := priors, emitted, observations;
        if key in emitted && emitted[key].size > 0 {
          priors := priors[key := Prior(emitted[key], Get(observations, key), IssueList(mark, 0))];
          emitted := emitted[key := IssueList(mark, 0)];
          observations := observations - {key};
        }
        KeySetOf(keys, i);
        RevokeStep(e0, o0, mark, KeySet(keys[..i]), p1, e1, o1, key, priors, emitted, observations);
      }
      assert keys[..|keys|] == keys;
      RevokeDone(s, KeySet(keys), mark, plan, priors, emitted, observations);
      frames := frames + [Revoking(priors, plan)];
    }

    /** The loop of `revoke` after its publication has thrown. */
    method UndoRevocation(priors: map<Key, Prior>, keys: seq<Key>)
      requires KeySet(keys) == priors.Keys
      requires forall k :: k in priors ==> priors[k].empty.size == 0 && priors[k].issues.size > 0
      modifies this`emitted, this`observations
      ensures Contents() == UndoRevoke(old(Contents()), priors)
    {
      ghost var s := Contents();
      for i := 0 to |keys|
        invariant UndonePart(s, priors, KeySet(keys[..i]), emitted, observations)
      {
        var key := keys[i];
        ghost var e1, o1 := emitted, observations;
        assert key in KeySet(keys);
        if key in emitted && emitted[key] == priors[key].empty {
          emitted := emitted[key := priors[key].issues];
          if priors[key].observation.Some? { observations := observations[key := priors[key].observation.value]; }
        }
        KeySetOf(keys, i);
        UndoStep(s, priors, KeySet(keys[..i]), e1, o1, key, emitted, observations);
      }
      assert keys[..|keys|] == keys;
      UndoDone(s, priors, emitted, observations);
    }

    /** Every pending run is cancelled; `keys` are the pending keys. */
    method CancelAll(keys: seq<Key>)
      requires KeySet(keys) == pending.Keys
      requires forall k :: k in pending ==> pending[k] < |tokens| && tokens[pending[k]].key == k
      modifies this`tokens, this`pending
      ensures Contents() == CancelKeys(old(Contents()), old(pending).Keys)
    {
      ghost var s := Contents();
      for i := 0 to |keys|
        invariant pending == s.pending - KeySet(keys[..i])
        invariant CancelledPart(s, KeySet(keys[..i]), tokens)
      {
        var key := keys[i];
        ghost var before := tokens;
        assert key in KeySet(keys);
        KeySetOf(keys, i);
        if key in pending {
          assert CancelledAt(s, KeySet(keys[..i]), tokens, pending[key]);
          CancelToken(pending[key]);
        }
        CancelStep(s, KeySet(keys[..i]), before, key, tokens);
      }
      assert keys[..|keys|] == keys;
      assert pending == s.pending - s.pending.Keys;
      CancelDone(s, tokens);
    }

    method Retire(dispose: bool)
      modifies this`lifecycle, this`foregroundGeneration, this`disposed
      ensures Contents() == Retired(old(Contents()), dispose)
    {
      lifecycle := lifecycle + 1;
      foregroundGeneration := foregroundGeneration + 1;
      if dispose { disposed := true; }
    }

    method ResetAll(dispose: bool, keys: seq<Key>)
      requires KeySet(keys) == pending.Keys
      requires forall k :: k in pending ==> pending[k] < |tokens| && tokens[pending[k]].key == k
      modifies this
      ensures Contents() == ResetStep(old(Contents()), dispose)
    {
      Retire(dispose);
      CancelAll(keys);
      emitted, observations, publishing := map[], map[], {};
    }
  }

  // ---- the loops ----

  lemma KeySetOf(keys: seq<Key>, i: nat)
    requires i < |keys|
    ensures KeySet(keys[..i + 1]) == KeySet(keys[..i]) + {keys[i]}
  {
    assert keys[..i + 1] == keys[..i] + [keys[i]];
  }

  predicate RevokedAt(e0: map<Key, IssueList>, o0: map<Key, Observation>, mark: nat, done: set<Key>,
                      priors: map<Key, Prior>, e: map<Key, IssueList>, o: map<Key, Observation>, k: Key) {
    if k in done && k in e0 && e0[k].size > 0 then
      Get(priors, k) == Some(Prior(e0[k], Get(o0, k), IssueList(mark, 0))) && Get(e, k) == Some(IssueList(mark, 0)) && k !in o
    else
      k !in priors && Get(e, k) == Get(e0, k) && Get(o, k) == Get(o0, k)
  }

  ghost predicate RevokedPart(e0: map<Key, IssueList>, o0: map<Key, Observation>, mark: nat, done: set<Key>,
                              priors: map<Key, Prior>, e: map<Key, IssueList>, o: map<Key, Observation>) {
    forall k :: RevokedAt(e0, o0, mark, done, priors, e, o, k)
  }

  lemma RevokeStep(e0: map<Key, IssueList>, o0: map<Key, Observation>, mark: nat, done: set<Key>,
                   p1: map<Key, Prior>, e1: map<Key, IssueList>, o1: map<Key, Observation>, key: Key,
                   p2: map<Key, Prior>, e2: map<Key, IssueList>, o2: map<Key, Observation>)
    requires RevokedPart(e0, o0, mark, done, p1, e1, o1)
    requires if key in e1 && e1[key].size > 0
             then p2 == p1[key := Prior(e1[key], Get(o1, key), IssueList(mark, 0))] &&
                  e2 == e1[key := IssueList(mark, 0)] && o2 == o1 - {key}
             else p2 == p1 && e2 == e1 && o2 == o1
    ensures RevokedPart(e0, o0, mark, done + {key}, p2, e2, o2)
  {
    forall k ensures RevokedAt(e0, o0, mark, done + {key}, p2, e2, o2, k) {
      assert RevokedAt(e0, o0, mark, done, p1, e1, o1, k);
    }
  }

  lemma RevokeDone(s: Scheduler, keys: set<Key>, mark: nat, plan: Option<Plan>,
                   priors: map<Key, Prior>, e: map<Key, IssueList>, o: map<Key, Observation>)
    requires RevokedPart(s.emitted, s.observations, mark, keys, priors, e, o)
    ensures OpenRevoke(s, keys, mark, plan) == s.(emitted := e, observations := o, frames := s.frames + [Revoking(priors, plan)])
  {
    var d := OpenRevoke(s, keys, mark, plan);
    forall k ensures Get(priors, k) == Get(Priors(s, keys, mark), k) && Get(e, k) == Get(d.emitted, k) && Get(o, k) == Get(d.observations, k) {
      assert RevokedAt(s.emitted, s.observations, mark, keys, priors, e, o, k);
    }
    SameMap(priors, Priors(s, keys, mark));
    SameMap(e, d.emitted);
    SameMap(o, d.observations);
  }

  predicate UndoneAt(s: Scheduler, priors: map<Key, Prior>, done: set<Key>, e: map<Key, IssueList>, o: map<Key, Observation>, k: Key) {
    if k in done && Undone(s, priors, k) then
      Get(e, k) == Some(priors[k].issues) &&
      Get(o, k) == if priors[k].observation.Some? then priors[k].observation else Get(s.observations, k)
    else
      Get(e, k) == Get(s.emitted, k) && Get(o, k) == Get(s.observations, k)
  }

  ghost predicate UndonePart(s: Scheduler, priors: map<Key, Prior>, done: set<Key>, e: map<Key, IssueList>, o: map<Key, Observation>) {
    forall k :: UndoneAt(s, priors, done, e, o, k)
  }

  /** A list given back is never empty, so a key that is met again is left alone. */
  lemma UndoStep(s: Scheduler, priors: map<Key, Prior>, done: set<Key>, e1: map<Key, IssueList>, o1: map<Key, Observation>,
                 key: Key, e2: map<Key, IssueList>, o2: map<Key, Observation>)
    requires UndonePart(s, priors, done, e1, o1) && key in priors
    requires priors[key].empty.size == 0 && priors[key].issues.size > 0
    requires if key in e1 && e1[key] == priors[key].empty
             then e2 == e1[key := priors[key].issues] &&
                  o2 == if priors[key].observation.Some? then o1[key := priors[key].observation.value] else o1
             else e2 == e1 && o2 == o1
    ensures UndonePart(s, priors, done + {key}, e2, o2)
  {
    forall k ensures UndoneAt(s, priors, done + {key}, e2, o2, k) { assert UndoneAt(s, priors, done, e1, o1, k); }
  }

  lemma UndoDone(s: Scheduler, priors: map<Key, Prior>, e: map<Key, IssueList>, o: map<Key, Observation>)
    requires UndonePart(s, priors, priors.Keys, e, o)
    ensures e == UndoRevoke(s, priors).emitted && o == UndoRevoke(s, priors).observations
  {
    var d := UndoRevoke(s, priors);
    forall k ensures Get(e, k) == Get(d.emitted, k) && Get(o, k) == Get(d.observations, k) {
      assert UndoneAt(s, priors, priors.Keys, e, o, k);
    }
    SameMap(e, d.emitted);
    SameMap(o, d.observations);
  }

  predicate CancelledAt(s: Scheduler, done: set<Key>, tokens: seq<Token>, t: TokenId)
    requires t < |s.tokens| && t < |tokens|
  {
    tokens[t] == if s.tokens[t].key in done && Get(s.pending, s.tokens[t].key) == Some(t)
                 then s.tokens[t].(aborted := true) else s.tokens[t]
  }

  ghost predicate CancelledPart(s: Scheduler, done: set<Key>, tokens: seq<Token>) {
    |tokens| == |s.tokens| && forall t :: 0 <= t < |tokens| ==> CancelledAt(s, done, tokens, t)
  }

  lemma CancelStep(s: Scheduler, done: set<Key>, before: seq<Token>, key: Key, after: seq<Token>)
    requires CancelledPart(s, done, before) && key in s.pending && s.pending[key] < |before| && s.tokens[s.pending[key]].key == key
    requires after == if key in done then before else before[s.pending[key] := before[s.pending[key]].(aborted := true)]
    ensures CancelledPart(s, done + {key}, after)
  {
    forall t | 0 <= t < |after| ensures CancelledAt(s, done + {key}, after, t) { assert CancelledAt(s, done, before, t); }
  }

  lemma CancelDone(s: Scheduler, tokens: seq<Token>)
    requires CancelledPart(s, s.pending.Keys, tokens)
    ensures tokens == CancelKeys(s, s.pending.Keys).tokens && CancelKeys(s, s.pending.Keys).pending == s.pending - s.pending.Keys
  {
    forall t | 0 <= t < |tokens| ensures tokens[t] == CancelKeys(s, s.pending.Keys).tokens[t] {
      assert CancelledAt(s, s.pending.Keys, tokens, t);
    }
  }

  lemma SameMap<V>(a: map<Key, V>, b: map<Key, V>)
    requires forall k :: Get(a, k) == Get(b, k)
    ensures a == b
  {
    forall k ensures (k in a <==> k in b) && (k in a ==> a[k] == b[k]) { assert Get(a, k) == Get(b, k); }
  }
}
