/**
 * What a bootstrap run that died half-way leaves behind. Without a reset, no later
 * instance ever succeeds or commits; whether later instances can still write entries
 * depends on what the half-finished run managed to list.
 */
module FailClosed {
  import opened Options
  import RedisLock
  import opened ConfigBootstrap
  import opened CommitRecord

  /** Something was stored, nothing was committed, and nobody is processing. */
  ghost predicate Stranded(w: World) {
    && w.store.data != {}
    && !Committed(w.store)
    && forall p :: 0 <= p < |w.procs| ==> !Processing(w.procs[p])
  }

  // ------------------------------------------------------------- no later success

  ghost predicate DoomedStore(c: Config, s: Store, e: Entry) {
    && SoundStore(c, s) && !Committed(s) && e in s.data
  }

  /** No instance has got past the stage of an entry that existed before it started. */
  ghost predicate DoomedPc(pc: Pc, e: Entry) {
    match pc
    case ReadInProgress(_, completed) => !completed
    case ReadFlags(_, completed, _, seen) => !completed && ApiKeys !in seen
    case Creating(_, stage, checked, stored, done) =>
      stage <= StageOf(RepoOf(e)) && e !in checked && e !in stored && e !in done
    case MarkCompleted(_) => false
    case _ => true
  }

  lemma DoomedStep(c: Config, p: nat, s: Store, pc: Pc, a: Action, e: Entry)
    requires c.Valid() && DoomedStore(c, s, e) && SoundPc(c, s, pc) && DoomedPc(pc, e)
    ensures var l := Step(c, p, s, pc, a);
      DoomedStore(c, l.store, e) && DoomedPc(l.pc, e)
  {
    assert e in c.entries;
    StepIsSound(c, p, s, pc, a);
    if pc.ReadFlags? {
      assert !HasEntries(s.listed, ApiKeys);
      JudgeLaws(c, pc.seen);
      assert Required(c, ApiKeys);
    } else if pc.Creating? {
      assert pc.stage < LAST;
      assert pc.stage == StageOf(RepoOf(e)) ==> e in StageEntries(c, pc.stage, pc.token);
    }
  }

  ghost predicate Doomed(c: Config, w: World, e: Entry) {
    && Inv(c, w) && DoomedStore(c, w.store, e)
    && forall p :: 0 <= p < |w.procs| ==> DoomedPc(w.procs[p], e)
  }

  lemma {:induction false} DoomedForever(c: Config, w: World, evs: seq<Event>, e: Entry)
    requires Doomed(c, w, e)
    ensures Doomed(c, Run(c, w, evs), e)
    decreases |evs|
  {
    if evs == [] {
    } else {
      var w' := Do(c, w, evs[0]);
      DoKeepsInv(c, w, evs[0]);
      if evs[0].Act? && evs[0].p < |w.procs| {
        DoomedStep(c, evs[0].p, w.store, w.procs[evs[0].p], evs[0].a, e);
      }
      assert Doomed(c, w', e);
      DoomedForever(c, w', evs[1..], e);
    }
  }

  /**
   * Fail closed: after a run has stored an entry and died before its API key, nothing is
   * ever committed and no instance ever returns success, whether it takes the lock, waits,
   * or recovers after a timeout.
   */
  lemma {:induction false} NoLaterSuccess(c: Config, n: nat, before: seq<Event>, after: seq<Event>, p: nat)
    requires c.Valid() && p < n
    requires Stranded(Run(c, Init(n), before))
    ensures var w := Run(c, Init(n), before);
      var w' := Run(c, w, after);
      |w'.procs| == n && !Committed(w'.store) && w'.procs[p] != Returned(true)
  {
    var w := Run(c, Init(n), before);
    RunKeepsInv(c, Init(n), before);
    var e :| e in w.store.data;
    DoomedForever(c, w, after, e);
    RunKeepsInv(c, w, after);
    assert SoundPc(c, Run(c, w, after).store, Run(c, w, after).procs[p]);
  }

  // ------------------------------------------------------------- no later write

  /** An instance that can see the listed entry `e` in its flags never starts creating. */
  ghost predicate WarnedPc(pc: Pc, e: Entry) {
    match pc
    case ReadInProgress(_, completed) => !completed
    case ReadFlags(_, completed, next, seen) =>
      && !completed && ApiKeys !in seen && next <= LAST
      && (FlagOf(RepoOf(e)) < next ==> RepoOf(e) in seen)
    case MarkInProgress(_) => false
    case Creating(_, _, _, _, _) => false
    case MarkCompleted(_) => false
    case _ => true
  }

  lemma WarnedStep(c: Config, p: nat, s: Store, pc: Pc, a: Action, e: Entry)
    requires c.Valid() && SoundStore(c, s) && !Committed(s) && e in s.listed && WarnedPc(pc, e)
    ensures var l := Step(c, p, s, pc, a);
      && WarnedPc(l.pc, e)
      && l.store.data == s.data && l.store.listed == s.listed && l.store.status == s.status
  {
    if pc.ReadFlags? {
      WarnedFlag(c, s, pc, e);
    }
  }

  /** Some repository seen, but not the API keys: incomplete. */
  lemma {:induction false} JudgedIncomplete(c: Config, seen: set<Repo>, r: Repo)
    requires r in seen && ApiKeys !in seen
    ensures Judge(c, seen).Incomplete?
  {
    JudgeLaws(c, seen);
    assert Required(c, ApiKeys);
  }

  lemma {:induction false} WarnedFlag(c: Config, s: Store, pc: Pc, e: Entry)
    requires c.Valid() && SoundStore(c, s) && !Committed(s) && e in s.listed && WarnedPc(pc, e) && pc.ReadFlags?
    ensures var l := ReadFlag(c, s, pc);
      && WarnedPc(l.pc, e)
      && l.store.data == s.data && l.store.listed == s.listed && l.store.status == s.status
  {
    assert !HasEntries(s.listed, ApiKeys);
    if pc.next < LAST {
      assert HasEntries(s.listed, RepoOf(e));
    } else {
      assert FlagOf(RepoOf(e)) < LAST;
      JudgedIncomplete(c, pc.seen, RepoOf(e));
    }
  }

  lemma {:induction false} WarnedForever(c: Config, w: World, evs: seq<Event>, e: Entry)
    requires Inv(c, w) && !Committed(w.store) && e in w.store.listed
    requires forall p :: 0 <= p < |w.procs| ==> WarnedPc(w.procs[p], e)
    ensures var s := Run(c, w, evs).store;
      s.data == w.store.data && s.listed == w.store.listed && s.status == w.store.status
    decreases |evs|
  {
    if evs == [] {
    } else {
      DoKeepsInv(c, w, evs[0]);
      if evs[0].Act? && evs[0].p < |w.procs| {
        WarnedStep(c, evs[0].p, w.store, w.procs[evs[0].p], evs[0].a, e);
      }
      WarnedForever(c, Do(c, w, evs[0]), evs[1..], e);
    }
  }

  /** An instance that finds every entry of the first stage taken cannot create anything. */
  ghost predicate BlockedPc(c: Config, pc: Pc) {
    match pc
    case ReadInProgress(_, completed) => !completed
    case ReadFlags(_, completed, _, seen) => !completed && ApiKeys !in seen
    case Creating(_, stage, checked, stored, done) =>
      stage <= First(c) && checked == {} && stored == {} && done == {}
    case MarkCompleted(_) => false
    case _ => true
  }

  lemma BlockedStep(c: Config, p: nat, s: Store, pc: Pc, a: Action)
    requires c.Valid() && SoundStore(c, s) && !Committed(s) && BlockedPc(c, pc)
    requires First(c) < LAST && FirstEntries(c) <= s.data
    ensures var l := Step(c, p, s, pc, a);
      BlockedPc(c, l.pc) && l.store.data == s.data && l.store.listed == s.listed && l.store.status != Completed
  {
    if pc.ReadFlags? {
      assert !HasEntries(s.listed, ApiKeys);
      JudgeLaws(c, pc.seen);
      assert Required(c, ApiKeys);
    } else if pc.Creating? {
      assert pc.stage < First(c) ==> StageEntries(c, pc.stage, pc.token) == {};
      assert pc.stage == First(c) ==> StageEntries(c, pc.stage, pc.token) == FirstEntries(c) != {};
    }
  }

  lemma {:induction false} BlockedForever(c: Config, w: World, evs: seq<Event>)
    requires Inv(c, w) && !Committed(w.store)
    requires First(c) < LAST && FirstEntries(c) <= w.store.data
    requires forall p :: 0 <= p < |w.procs| ==> BlockedPc(c, w.procs[p])
    ensures Run(c, w, evs).store.data == w.store.data
    decreases |evs|
  {
    if evs == [] {
    } else {
      DoKeepsInv(c, w, evs[0]);
      if evs[0].Act? && evs[0].p < |w.procs| {
        BlockedStep(c, evs[0].p, w.store, w.procs[evs[0].p], evs[0].a);
      }
      BlockedForever(c, Do(c, w, evs[0]), evs[1..]);
    }
  }

  // ------------------------------------------------------------- a later write

  /** `k` successful commands in a row of one instance. */
  function GoN(c: Config, s: Store, pc: Pc, k: nat): Local
    decreases k
  {
    if k == 0 then Local(s, pc) else var l := Advance(c, s, pc); GoN(c, l.store, l.pc, k - 1)
  }

  /** An instance that finds the lock free and no entry listed gets to the first stage. */
  lemma {:induction false} ReachCreating(c: Config, s: Store, recovery: bool)
    requires !RedisLock.Held(s.lock, s.now) && s.listed == {} && s.status != Completed
    ensures GoN(c, s, TryLock(recovery), 10) ==
      Local(s.(lock := Some(RedisLock.Lease(s.nextToken, s.now + LOCK_TTL)),
               nextToken := s.nextToken + 1, status := InProgress),
            Creating(s.nextToken, 0, {}, {}, {}))
  {
    var s1 := s.(lock := Some(RedisLock.Lease(s.nextToken, s.now + LOCK_TTL)), nextToken := s.nextToken + 1);
    var t := s.nextToken;
    assert GoN(c, s1, ReadFlags(t, false, 4, {}), 3)
      == Local(s1.(status := InProgress), Creating(t, 0, {}, {}, {}));
    assert GoN(c, s1, ReadFlags(t, false, 1, {}), 6) == GoN(c, s1, ReadFlags(t, false, 4, {}), 3);
    assert GoN(c, s1, ReadInProgress(t, false), 8) == GoN(c, s1, ReadFlags(t, false, 1, {}), 6);
  }

  lemma {:induction false} GoNSplit(c: Config, s: Store, pc: Pc, i: nat, j: nat)
    ensures GoN(c, s, pc, i + j) == var l := GoN(c, s, pc, i); GoN(c, l.store, l.pc, j)
    decreases i
  {
    if i == 0 {
    } else {
      var l := Advance(c, s, pc);
      GoNSplit(c, l.store, l.pc, i - 1, j);
    }
  }

  lemma {:induction false} GoNThen(c: Config, s: Store, pc: Pc, i: nat, j: nat, l: Local)
    requires GoN(c, s, pc, i) == l
    ensures GoN(c, s, pc, i + j) == GoN(c, l.store, l.pc, j)
  {
    GoNSplit(c, s, pc, i, j);
  }

  lemma {:induction false} SkipEmptyStages(c: Config, s: Store, token: nat, stage: nat, k: nat)
    requires stage + k <= First(c)
    ensures GoN(c, s, Creating(token, stage, {}, {}, {}), k) == Local(s, Creating(token, stage + k, {}, {}, {}))
    decreases k
  {
    if k == 0 {
    } else {
      assert StageEntries(c, stage, token) == {};
      SkipEmptyStages(c, s, token, stage + 1, k - 1);
    }
  }

  lemma {:induction false} RunAppend(c: Config, w: World, a: seq<Event>, b: seq<Event>)
    ensures Run(c, w, a + b) == Run(c, Run(c, w, a), b)
    decreases |a|
  {
    if a == [] {
      assert a + b == b;
    } else {
      assert (a + b)[1..] == a[1..] + b;
      RunAppend(c, Do(c, w, a[0]), a[1..], b);
    }
  }

  /** Instance `p` taking `k` successful steps in a row. */
  function Steps(p: nat, k: nat): seq<Event> {
    seq(k, _ => Act(p, Go))
  }

  lemma {:induction false} RunSteps(c: Config, w: World, p: nat, k: nat)
    requires p < |w.procs|
    ensures Run(c, w, Steps(p, k)) ==
      var l := GoN(c, w.store, w.procs[p], k); World(l.store, w.procs[p := l.pc])
    decreases k
  {
    if k > 0 {
      assert Steps(p, k)[1..] == Steps(p, k - 1);
      RunSteps(c, Do(c, w, Act(p, Go)), p, k - 1);
    } else {
      assert w.procs[p := w.procs[p]] == w.procs;
    }
  }

  /** Lock, read, judge the store empty, skip the empty stages, and store one entry. */
  function WriteScript(c: Config, p: nat, e: Entry): seq<Event> {
    Steps(p, 10 + First(c)) + [Act(p, Touch(e))] + [Act(p, Touch(e))]
  }

  /** The store that script leads to: one more entry, one more writer, a new lease. */
  function Wrote(s: Store, p: nat, e: Entry): Store {
    s.(data := s.data + {e}, listed := if Atomic(RepoOf(e)) then {e} else {}, status := InProgress,
       lock := Some(RedisLock.Lease(s.nextToken, s.now + LOCK_TTL)), nextToken := s.nextToken + 1,
       writers := s.writers + {p})
  }

  /** Two commands of one create in the first stage. */
  lemma CreateFirst(c: Config, p: nat, s: Store, t: nat, e: Entry)
    requires First(c) < LAST && e in FirstEntries(c) && e !in s.data && s.listed == {}
    ensures Create(c, p, s, Creating(t, First(c), {}, {}, {}), e) == Local(s, Creating(t, First(c), {e}, {}, {}))
    ensures Create(c, p, s, Creating(t, First(c), {e}, {}, {}), e).store ==
      s.(data := s.data + {e}, listed := if Atomic(RepoOf(e)) then {e} else {}, writers := s.writers + {p})
  {
    assert e in StageEntries(c, First(c), t);
    var none: set<Entry> := {};
    assert none + {e} == {e};
    assert s.listed + {e} == {e};
  }

  lemma {:induction false} ReachFirstStage(c: Config, s: Store, recovery: bool)
    requires !RedisLock.Held(s.lock, s.now) && s.listed == {} && s.status != Completed
    ensures GoN(c, s, TryLock(recovery), 10 + First(c)) ==
      Local(s.(lock := Some(RedisLock.Lease(s.nextToken, s.now + LOCK_TTL)),
               nextToken := s.nextToken + 1, status := InProgress),
            Creating(s.nextToken, First(c), {}, {}, {}))
  {
    var k := First(c);
    var s1 := s.(lock := Some(RedisLock.Lease(s.nextToken, s.now + LOCK_TTL)),
                 nextToken := s.nextToken + 1, status := InProgress);
    ReachCreating(c, s, recovery);
    SkipEmptyStages(c, s1, s.nextToken, 0, k);
    GoNThen(c, s, TryLock(recovery), 10, k, Local(s1, Creating(s.nextToken, 0, {}, {}, {})));
  }

  lemma {:induction false} RunOne(c: Config, w: World, ev: Event)
    ensures Run(c, w, [ev]) == Do(c, w, ev)
  {
    assert [ev][1..] == [];
  }

  /** The events after which `p` is about to check its first entry. */
  lemma {:induction false} ReachFirstCreate(c: Config, w: World, p: nat)
    requires p < |w.procs| && w.procs[p].TryLock? && !RedisLock.Held(w.store.lock, w.store.now)
    requires w.store.listed == {} && w.store.status != Completed
    ensures var s := w.store;
      Run(c, w, Steps(p, 10 + First(c))) ==
      World(s.(lock := Some(RedisLock.Lease(s.nextToken, s.now + LOCK_TTL)),
               nextToken := s.nextToken + 1, status := InProgress),
            w.procs[p := Creating(s.nextToken, First(c), {}, {}, {})])
  {
    ReachFirstStage(c, w.store, w.procs[p].recovery);
    RunSteps(c, w, p, 10 + First(c));
  }

  lemma {:induction false} FreshWrite(c: Config, w: World, p: nat, e: Entry)
    requires p < |w.procs| && w.procs[p].TryLock? && !RedisLock.Held(w.store.lock, w.store.now)
    requires w.store.listed == {} && w.store.status != Completed
    requires First(c) < LAST && e in FirstEntries(c) && e !in w.store.data
    ensures var w' := Run(c, w, WriteScript(c, p, e));
      && w'.store == Wrote(w.store, p, e)
      && |w'.procs| == |w.procs| && forall q :: 0 <= q < |w.procs| && q != p ==> w'.procs[q] == w.procs[q]
  {
    var touch := [Act(p, Touch(e))];
    var w1 := Run(c, w, Steps(p, 10 + First(c)));
    ReachFirstCreate(c, w, p);
    CreateFirst(c, p, w1.store, w.store.nextToken, e);
    var w2 := Do(c, w1, Act(p, Touch(e)));
    assert w2.store == w1.store && w2.procs[p] == Creating(w.store.nextToken, First(c), {e}, {}, {});
    assert Run(c, w, WriteScript(c, p, e)) == Do(c, w2, Act(p, Touch(e))) by {
      RunAppend(c, w, Steps(p, 10 + First(c)) + touch, touch);
      RunAppend(c, w, Steps(p, 10 + First(c)), touch);
      RunOne(c, w1, Act(p, Touch(e)));
      RunOne(c, w2, Act(p, Touch(e)));
    }
  }

  /**
   * After a half-finished run, later instances store nothing if and only if that run got
   * an entry listed, or stored everything its first stage had to create. When an entry is
   * listed, later instances do not touch the marker either.
   */
  lemma {:induction false} NoLaterWrite(c: Config, n: nat, before: seq<Event>, p: nat)
    requires c.Valid() && p < n
    requires var w := Run(c, Init(n), before);
      Stranded(w) && |w.procs| == n && w.procs[p].TryLock?
    ensures var w := Run(c, Init(n), before);
      && ((forall after :: Run(c, w, after).store.data == w.store.data)
          <==> w.store.listed != {} || FirstEntries(c) <= w.store.data)
      && (w.store.listed != {} ==> forall after ::
            Run(c, w, after).store.listed == w.store.listed && Run(c, w, after).store.status == w.store.status)
  {
    var w := Run(c, Init(n), before);
    RunKeepsInv(c, Init(n), before);
    StrandedIsConfigured(c, w);
    if w.store.listed != {} {
      var e :| e in w.store.listed;
      forall after ensures var s := Run(c, w, after).store;
        s.data == w.store.data && s.listed == w.store.listed && s.status == w.store.status
      {
        WarnedForever(c, w, after, e);
      }
    } else if FirstEntries(c) <= w.store.data {
      forall after ensures Run(c, w, after).store.data == w.store.data {
        BlockedForever(c, w, after);
      }
    } else {
      var e :| e in FirstEntries(c) && e !in w.store.data;
      var ticks := [Tick(if w.store.lock.Some? then w.store.lock.value.expiry else 0)];
      var w' := Do(c, w, ticks[0]);
      FreshWrite(c, w', p, e);
      RunAppend(c, w, ticks, WriteScript(c, p, e));
      RunOne(c, w, ticks[0]);
      assert e in Run(c, w, ticks + WriteScript(c, p, e)).store.data;
    }
  }

  /**
   * Every config with entries can be stranded: instance 0 stores one entry of the first
   * stage and dies, and the others have yet to start. Where that stage is not a transaction
   * nothing is listed then, so with two entries or more in it a later instance can still
   * store another one.
   */
  lemma {:induction false} DiesAfterFirstStore(c: Config, n: nat, a: Entry)
    requires c.Valid() && n >= 2 && First(c) < LAST && a in FirstEntries(c)
    ensures var before := WriteScript(c, 0, a) + [Act(0, Crash)];
      var w := Run(c, Init(n), before);
      && Stranded(w) && w.store.data == {a}
      && w.store.listed == (if Atomic(StageRepo(First(c))) then {a} else {})
      && |w.procs| == n && w.procs[1] == TryLock(false)
      && (!Atomic(StageRepo(First(c))) && FirstEntries(c) != {a} ==>
            exists after :: Run(c, w, after).store.data != w.store.data)
  {
    var script, crash := WriteScript(c, 0, a), Act(0, Crash);
    var w1 := Run(c, Init(n), script);
    FreshWrite(c, Init(n), 0, a);
    RunAppend(c, Init(n), script, [crash]);
    RunOne(c, w1, crash);
    var w := Do(c, w1, crash);
    assert w.store.data == {a} && RepoOf(a) == StageRepo(First(c));
    NobodyProcessing(c, w1);
    NoLaterWrite(c, n, script + [crash], 1);
  }

  /** Nobody is processing once instance 0, the only one to have started, is dead. */
  lemma NobodyProcessing(c: Config, w: World)
    requires |w.procs| >= 2 && forall q :: 1 <= q < |w.procs| ==> w.procs[q] == TryLock(false)
    ensures var w' := Do(c, w, Act(0, Crash)); forall p :: 0 <= p < |w'.procs| ==> !Processing(w'.procs[p])
  {}

  lemma StrandedIsConfigured(c: Config, w: World)
    requires Inv(c, w) && Stranded(w)
    ensures First(c) < LAST
  {
    var e :| e in w.store.data;
    var k := StageOf(RepoOf(e));
    assert k < LAST && e in StageEntries(c, k, 0);
  }
}
