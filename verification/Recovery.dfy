/**
 * When a start can still succeed. Once nobody is processing, an instance that has yet to
 * take the lock can return success if and only if nothing has been stored at all or the
 * commit record has: a half-populated store is the only dead end.
 */
module Recovery {
  import opened Options
  import RedisLock
  import opened ConfigBootstrap
  import opened CommitRecord
  import opened FailClosed

  // ------------------------------------------------------------- from a committed store

  /** API keys are stored and listed in one transaction. */
  ghost predicate KeysListed(s: Store) {
    forall e :: e in s.data && e.ApiKey? ==> e in s.listed
  }

  lemma StepListsKeys(c: Config, p: nat, s: Store, pc: Pc, a: Action)
    requires KeysListed(s)
    ensures KeysListed(Step(c, p, s, pc, a).store)
  {
    if a.Touch? && pc.Creating? && a.e.ApiKey? {
      assert Atomic(RepoOf(a.e));
    }
  }

  lemma {:induction false} RunListsKeys(c: Config, w: World, evs: seq<Event>)
    requires KeysListed(w.store)
    ensures KeysListed(Run(c, w, evs).store)
    decreases |evs|
  {
    if evs == [] {
    } else {
      if evs[0].Act? && evs[0].p < |w.procs| {
        StepListsKeys(c, evs[0].p, w.store, w.procs[evs[0].p], evs[0].a);
      }
      RunListsKeys(c, Do(c, w, evs[0]), evs[1..]);
    }
  }

  ghost predicate SeenSoFar(s: Store, next: nat, seen: set<Repo>) {
    forall e :: e in s.listed && FlagOf(RepoOf(e)) < next ==> RepoOf(e) in seen
  }

  /** Reading the remaining flags of a committed store ends in success or in the marker. */
  lemma {:induction false} ReadsComplete(c: Config, s: Store, token: nat, completed: bool, next: nat, seen: set<Repo>)
    requires next <= LAST && SeenSoFar(s, next, seen)
    requires Full(c, s) && Committed(s) && KeysListed(s)
    ensures GoN(c, s, ReadFlags(token, completed, next, seen), LAST + 1 - next) ==
      if completed then Leave(s, token, true) else Local(s, MarkCompleted(token))
    decreases LAST - next
  {
    var r := FlagRepo(next);
    var seen' := if HasEntries(s.listed, r) then seen + {r} else seen;
    forall e | e in s.listed && FlagOf(RepoOf(e)) < next + 1 ensures RepoOf(e) in seen' {
      assert FlagOf(RepoOf(e)) == next ==> RepoOf(e) == r;
    }
    if next < LAST {
      ReadsComplete(c, s, token, completed, next + 1, seen');
    } else {
      AllRequiredSeen(c, s, seen');
    }
  }

  lemma AllRequiredSeen(c: Config, s: Store, seen: set<Repo>)
    requires SeenSoFar(s, LAST + 1, seen)
    requires Full(c, s) && Committed(s) && KeysListed(s)
    ensures Judge(c, seen) == Complete
  {
    forall r: Repo | Required(c, r) ensures r in seen {
      if r == ApiKeys {
        var e :| e in s.data && e.ApiKey?;
        assert e in s.listed && FlagOf(RepoOf(e)) <= LAST;
      } else {
        var e :| e in c.entries && RepoOf(e) == r;
        assert e in s.listed && FlagOf(RepoOf(e)) <= LAST;
      }
    }
    JudgeLaws(c, seen);
    assert Required(c, ApiKeys);
  }

  lemma {:induction false} CommittedStoreSucceeds(c: Config, s: Store, recovery: bool)
    requires !RedisLock.Held(s.lock, s.now)
    requires Full(c, s) && Committed(s) && KeysListed(s)
    ensures var l := GoN(c, s, TryLock(recovery), 10); l.pc == Returned(true) && l.store.status == Completed
  {
    var t := s.nextToken;
    var s1 := s.(lock := Some(RedisLock.Lease(t, s.now + LOCK_TTL)), nextToken := t + 1);
    assert Advance(c, s, TryLock(recovery)) == Local(s1, ReadCompleted(t));
    FlagsSucceed(c, s1, t);
    MarkersRead(c, s1, t, 7);
  }

  lemma MarkersRead(c: Config, s: Store, token: nat, k: nat)
    ensures GoN(c, s, ReadCompleted(token), k + 2) == GoN(c, s, ReadFlags(token, s.status == Completed, 0, {}), k)
  {
    GoNSplit(c, s, ReadCompleted(token), 2, k);
  }

  lemma {:induction false} FlagsSucceed(c: Config, s: Store, token: nat)
    requires Full(c, s) && Committed(s) && KeysListed(s)
    ensures var l := GoN(c, s, ReadFlags(token, s.status == Completed, 0, {}), 7);
      l.pc == Returned(true) && l.store.status == Completed
  {
    ReadsComplete(c, s, token, s.status == Completed, 0, {});
    GoNLast(c, s, ReadFlags(token, s.status == Completed, 0, {}), 6);
  }

  lemma {:induction false} GoNLast(c: Config, s: Store, pc: Pc, k: nat)
    ensures GoN(c, s, pc, k + 1) == var l := GoN(c, s, pc, k); Advance(c, l.store, l.pc)
    decreases k
  {
    if k == 0 {
    } else {
      var l := Advance(c, s, pc);
      GoNLast(c, l.store, l.pc, k - 1);
    }
  }

  // ------------------------------------------------------------- from an empty store

  /** Several actions of one instance in a row. */
  function Acts(c: Config, p: nat, s: Store, pc: Pc, acts: seq<Action>): Local
    decreases |acts|
  {
    if acts == [] then Local(s, pc)
    else var l := Step(c, p, s, pc, acts[0]); Acts(c, p, l.store, l.pc, acts[1..])
  }

  lemma {:induction false} ActsAppend(c: Config, p: nat, s: Store, pc: Pc, a: seq<Action>, b: seq<Action>)
    ensures Acts(c, p, s, pc, a + b) == var l := Acts(c, p, s, pc, a); Acts(c, p, l.store, l.pc, b)
    decreases |a|
  {
    if a == [] {
      assert a + b == b;
    } else {
      assert (a + b)[1..] == a[1..] + b;
      var l := Step(c, p, s, pc, a[0]);
      ActsAppend(c, p, l.store, l.pc, a[1..], b);
    }
  }

  function Events(p: nat, acts: seq<Action>): seq<Event> {
    seq(|acts|, i requires 0 <= i < |acts| => Act(p, acts[i]))
  }

  lemma {:induction false} RunActs(c: Config, w: World, p: nat, acts: seq<Action>)
    requires p < |w.procs|
    ensures Run(c, w, Events(p, acts)) ==
      var l := Acts(c, p, w.store, w.procs[p], acts); World(l.store, w.procs[p := l.pc])
    decreases |acts|
  {
    if acts != [] {
      assert Events(p, acts)[1..] == Events(p, acts[1..]);
      RunActs(c, Do(c, w, Act(p, acts[0])), p, acts[1..]);
    } else {
      assert w.procs[p := w.procs[p]] == w.procs;
    }
  }

  /** One create from its existence check to its list entry; for a transaction the last touch is idle. */
  lemma {:induction false} CreateOne(c: Config, p: nat, s: Store, token: nat, stage: nat, done: set<Entry>, e: Entry)
    requires stage <= LAST && e in StageEntries(c, stage, token) - done && e !in s.data
    ensures var l := Acts(c, p, s, Creating(token, stage, done, done, done), [Touch(e), Touch(e), Touch(e)]);
      && l.pc == Creating(token, stage, done + {e}, done + {e}, done + {e})
      && l.store.data == s.data + {e}
  {
    var pc0 := Creating(token, stage, done, done, done);
    var l1 := Create(c, p, s, pc0, e);
    var l2 := Create(c, p, l1.store, l1.pc, e);
    var l3 := Create(c, p, l2.store, l2.pc, e);
    assert Acts(c, p, l2.store, l2.pc, [Touch(e)]) == l3;
    assert [Touch(e), Touch(e)][1..] == [Touch(e)];
    assert [Touch(e), Touch(e), Touch(e)][1..] == [Touch(e), Touch(e)];
  }

  lemma {:induction false} FinishStage(c: Config, p: nat, s: Store, token: nat, stage: nat, done: set<Entry>)
    returns (acts: seq<Action>)
    requires stage <= LAST && done <= StageEntries(c, stage, token)
    requires forall e :: e in StageEntries(c, stage, token) - done ==> e !in s.data
    ensures var all := StageEntries(c, stage, token);
      var l := Acts(c, p, s, Creating(token, stage, done, done, done), acts);
      l.pc == Creating(token, stage, all, all, all) && l.store.data == s.data + (all - done)
    decreases StageEntries(c, stage, token) - done
  {
    var all := StageEntries(c, stage, token);
    if all - done == {} {
      assert forall e :: e in all ==> e in all - done || e in done;
      assert all == done;
      acts := [];
    } else {
      var e :| e in all - done;
      var touches := [Touch(e), Touch(e), Touch(e)];
      CreateOne(c, p, s, token, stage, done, e);
      var pc := Creating(token, stage, done, done, done);
      var l := Acts(c, p, s, pc, touches);
      var rest := FinishStage(c, p, l.store, token, stage, done + {e});
      ActsAppend(c, p, s, pc, touches, rest);
      acts := touches + rest;
    }
  }

  /** Nothing of this stage or a later one is stored yet. */
  ghost predicate StoredBelow(c: Config, s: Store, stage: nat) {
    forall e :: e in s.data ==> e in c.entries && StageOf(RepoOf(e)) < stage
  }

  lemma {:induction false} FinishStages(c: Config, p: nat, s: Store, token: nat, stage: nat)
    returns (acts: seq<Action>)
    requires c.Valid() && stage <= LAST && StoredBelow(c, s, stage)
    ensures var l := Acts(c, p, s, Creating(token, stage, {}, {}, {}), acts);
      l.pc == Returned(true) && l.store.status == Completed
    decreases LAST - stage
  {
    var pc, all := Creating(token, stage, {}, {}, {}), StageEntries(c, stage, token);
    StageIsNew(c, s, token, stage);
    var creates := FinishStage(c, p, s, token, stage, {});
    var l := Acts(c, p, s, pc, creates);
    if stage < LAST {
      var rest := FinishStages(c, p, l.store, token, stage + 1);
      assert ([Go] + rest)[1..] == rest;
      ActsAppend(c, p, s, pc, creates, [Go] + rest);
      acts := creates + ([Go] + rest);
    } else {
      assert [Go, Go][1..] == [Go];
      var last := Acts(c, p, l.store, MarkCompleted(token), [Go]);
      assert last == Leave(l.store.(status := Completed), token, true);
      ActsAppend(c, p, s, pc, creates, [Go, Go]);
      acts := creates + [Go, Go];
    }
  }

  lemma StageIsNew(c: Config, s: Store, token: nat, stage: nat)
    requires c.Valid() && stage <= LAST && StoredBelow(c, s, stage)
    ensures forall e :: e in StageEntries(c, stage, token) ==> e !in s.data
    ensures stage < LAST ==>
      forall e :: e in StageEntries(c, stage, token) ==> e in c.entries && StageOf(RepoOf(e)) == stage
  {}

  // ------------------------------------------------------------- the theorem

  ghost predicate CanSucceed(c: Config, w: World, p: nat) {
    exists after :: p < |Run(c, w, after).procs| && Run(c, w, after).procs[p] == Returned(true)
  }

  /** These events make instance `p` succeed and set the marker, and leave the others where they are. */
  ghost predicate Completes(c: Config, w: World, p: nat, after: seq<Event>) {
    && p < |w.procs| && Run(c, w, after).procs == w.procs[p := Returned(true)]
    && Run(c, w, after).store.status == Completed
  }

  /** Enough time for any lease in place to expire. */
  function Outwait(s: Store): Event {
    Tick(if s.lock.Some? then s.lock.value.expiry else 0)
  }

  lemma {:induction false} CommittedCompletes(c: Config, w: World, p: nat) returns (after: seq<Event>)
    requires p < |w.procs| && w.procs[p].TryLock?
    requires Full(c, w.store) && Committed(w.store) && KeysListed(w.store)
    ensures Completes(c, w, p, after)
  {
    var tick := Outwait(w.store);
    var w' := Do(c, w, tick);
    CommittedStoreSucceeds(c, w'.store, w'.procs[p].recovery);
    RunSteps(c, w', p, 10);
    RunOne(c, w, tick);
    RunAppend(c, w, [tick], Steps(p, 10));
    after := [tick] + Steps(p, 10);
  }

  lemma {:induction false} EmptyCompletes(c: Config, w: World, p: nat) returns (after: seq<Event>)
    requires c.Valid() && p < |w.procs| && w.procs[p].TryLock?
    requires w.store.data == {} && w.store.listed == {} && w.store.status != Completed
    ensures Completes(c, w, p, after)
  {
    var tick := Outwait(w.store);
    var w1 := Do(c, w, tick);
    ReachCreating(c, w1.store, w1.procs[p].recovery);
    RunSteps(c, w1, p, 10);
    var w2 := Run(c, w1, Steps(p, 10));
    var acts := FinishStages(c, p, w2.store, w1.store.nextToken, 0);
    RunActs(c, w2, p, acts);
    RunOne(c, w, tick);
    RunAppend(c, w, [tick], Steps(p, 10));
    RunAppend(c, w, [tick] + Steps(p, 10), Events(p, acts));
    after := [tick] + Steps(p, 10) + Events(p, acts);
  }

  /** At the lock, in the first wait, or at the recheck after it. */
  predicate Startable(pc: Pc) {
    pc.TryLock? || (pc.Waiting? && !pc.recovery) || pc.Recheck?
  }

  /** The wait ends, the marker is read once more, and the instance goes for the lock. */
  function ToLock(pc: Pc): seq<Action> {
    if pc.Waiting? then [Timeout, Go] else if pc.Recheck? then [Go] else []
  }

  lemma {:induction false} ReachesLock(c: Config, p: nat, s: Store, pc: Pc)
    requires Startable(pc)
    ensures Acts(c, p, s, pc, ToLock(pc)) ==
      Local(s, if pc.TryLock? then pc else if s.status == Completed then Returned(true) else TryLock(true))
  {
    if pc.Waiting? {
      assert [Timeout, Go][1..] == [Go] && [Go][1..] == [];
      assert Acts(c, p, s, Recheck, [Go]) == Advance(c, s, Recheck);
    } else if pc.Recheck? {
      assert [Go][1..] == [];
    }
  }

  lemma {:induction false} StartableCompletes(c: Config, w: World, p: nat) returns (after: seq<Event>)
    requires Inv(c, w) && KeysListed(w.store) && p < |w.procs| && Startable(w.procs[p])
    requires w.store.data == {} || Committed(w.store)
    ensures Completes(c, w, p, after)
  {
    var first := Events(p, ToLock(w.procs[p]));
    var w1 := Run(c, w, first);
    ReachesLock(c, p, w.store, w.procs[p]);
    RunActs(c, w, p, ToLock(w.procs[p]));
    if w1.procs[p] == Returned(true) {
      after := first;
    } else {
      var rest;
      if Committed(w.store) {
        rest := CommittedCompletes(c, w1, p);
      } else {
        rest := EmptyCompletes(c, w1, p);
      }
      RunAppend(c, w, first, rest);
      assert w1.procs[p := Returned(true)] == w.procs[p := Returned(true)];
      after := first + rest;
    }
  }

  /** A reachable world in which nobody is processing. */
  ghost predicate Quiescent(c: Config, n: nat, before: seq<Event>) {
    var w := Run(c, Init(n), before);
    c.Valid() && |w.procs| == n && forall q :: 0 <= q < n ==> !Processing(w.procs[q])
  }

  /**
   * In every reachable world in which nobody is processing, an instance that is at the lock,
   * waiting for the first time, or about to recheck can still return success if and only if
   * the store holds no entry at all or holds an API key.
   */
  lemma {:induction false} RecoverableIff(c: Config, n: nat, before: seq<Event>, p: nat)
    requires Quiescent(c, n, before) && p < n && Startable(Run(c, Init(n), before).procs[p])
    ensures var w := Run(c, Init(n), before);
      CanSucceed(c, w, p) <==> w.store.data == {} || Committed(w.store)
  {
    var w := Run(c, Init(n), before);
    RunKeepsInv(c, Init(n), before);
    RunListsKeys(c, Init(n), before);
    if w.store.data == {} || Committed(w.store) {
      var after := StartableCompletes(c, w, p);
      assert Run(c, w, after).procs[p] == Returned(true);
    } else {
      forall after ensures |Run(c, w, after).procs| == n && Run(c, w, after).procs[p] != Returned(true) {
        NoLaterSuccess(c, n, before, after, p);
      }
    }
  }

  // ------------------------------------------------------------- the extended wait

  /** Everyone has ended or is in the extended wait, `p` without success, and the marker is not set. */
  ghost predicate Stuck(w: World, p: nat) {
    && p < |w.procs| && w.store.status != Completed && w.procs[p] != Returned(true)
    && forall q :: 0 <= q < |w.procs| ==>
         w.procs[q] == Waiting(true) || w.procs[q].Returned? || w.procs[q].Crashed?
  }

  lemma {:induction false} StuckForever(c: Config, w: World, p: nat, evs: seq<Event>)
    requires Stuck(w, p)
    ensures Stuck(Run(c, w, evs), p)
    decreases |evs|
  {
    if evs == [] {
    } else {
      StuckForever(c, Do(c, w, evs[0]), p, evs[1..]);
    }
  }

  /**
   * In the extended wait an instance does not take the lock any more. With nobody processing
   * it can succeed if and only if the marker is set, or the store allows it and another
   * instance is still on its way to the lock.
   */
  lemma {:induction false} ExtendedWaitIff(c: Config, n: nat, before: seq<Event>, p: nat)
    requires Quiescent(c, n, before) && p < n && Run(c, Init(n), before).procs[p] == Waiting(true)
    ensures var w := Run(c, Init(n), before);
      CanSucceed(c, w, p) <==>
        || w.store.status == Completed
        || ((w.store.data == {} || Committed(w.store)) && exists q :: 0 <= q < n && Startable(w.procs[q]))
  {
    var w := Run(c, Init(n), before);
    RunKeepsInv(c, Init(n), before);
    RunListsKeys(c, Init(n), before);
    if w.store.status == Completed {
      RunOne(c, w, Act(p, Go));
      assert Run(c, w, [Act(p, Go)]).procs[p] == Returned(true);
    } else if w.store.data != {} && !Committed(w.store) {
      forall after ensures |Run(c, w, after).procs| == n && Run(c, w, after).procs[p] != Returned(true) {
        NoLaterSuccess(c, n, before, after, p);
      }
    } else if q: nat :| q < n && Startable(w.procs[q]) {
      var after := StartableCompletes(c, w, q);
      var w' := Run(c, w, after);
      RunAppend(c, w, after, [Act(p, Go)]);
      RunOne(c, w', Act(p, Go));
      assert Run(c, w, after + [Act(p, Go)]).procs[p] == Returned(true);
    } else {
      forall after ensures Stuck(Run(c, w, after), p) {
        StuckForever(c, w, p, after);
      }
    }
  }

  /** The dead end is reached from every config with entries: one entry stored, and a crash. */
  lemma {:induction false} HalfStoredIsDeadEnd(c: Config, n: nat, a: Entry)
    requires c.Valid() && n >= 2 && First(c) < LAST && a in FirstEntries(c)
    ensures !CanSucceed(c, Run(c, Init(n), WriteScript(c, 0, a) + [Act(0, Crash)]), 1)
  {
    DiesAfterFirstStore(c, n, a);
    RecoverableIff(c, n, WriteScript(c, 0, a) + [Act(0, Crash)], 1);
  }
}
