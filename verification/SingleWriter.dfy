/**
 * What the lock adds: when every holder acts only while its lease is live, at most one
 * instance ever stores entries, across waits, takeovers and crashes, exactly when the
 * first store of the config is visible to validation or leaves nothing else to store.
 */
module SingleWriter {
  import opened Options
  import RedisLock
  import opened ConfigBootstrap
  import opened CommitRecord
  import opened FailClosed

  ghost predicate Owns(s: Store, pc: Pc) {
    Processing(pc) && s.lock.Some? && s.lock.value.token == pc.token
  }

  /** A command between acquiring and returning happens under the instance's own live lease. */
  ghost predicate Lawful(w: World, ev: Event) {
    ev.Act? && ev.p < |w.procs| && Processing(w.procs[ev.p]) && (ev.a.Go? || ev.a.Touch? || ev.a.AckLost?)
    ==> Owns(w.store, w.procs[ev.p]) && w.store.now < w.store.lock.value.expiry
  }

  ghost predicate LawfulRun(c: Config, w: World, evs: seq<Event>)
    decreases |evs|
  {
    evs != [] ==> Lawful(w, evs[0]) && LawfulRun(c, Do(c, w, evs[0]), evs[1..])
  }

  ghost predicate AtMostOne(ps: set<nat>) {
    forall p, q :: p in ps && q in ps ==> p == q
  }

  /** The first create is listed together with its data key, or it is the only one of its stage. */
  ghost predicate FirstStoreShows(c: Config) {
    || First(c) == LAST
    || Atomic(StageRepo(First(c)))
    || forall a, b :: a in FirstEntries(c) && b in FirstEntries(c) ==> a == b
  }

  /** A newcomer either sees an entry or finds its whole first stage taken. */
  ghost predicate Settled(c: Config, s: Store) {
    s.listed != {} || (First(c) < LAST && FirstEntries(c) <= s.data)
  }

  ghost predicate OwnerOk(c: Config, s: Store, p: nat, pc: Pc) {
    match pc
    case ReadFlags(_, _, next, seen) =>
      next <= LAST && forall e :: e in s.listed && FlagOf(RepoOf(e)) < next ==> RepoOf(e) in seen
    case MarkInProgress(_) => s.listed == {}
    case Creating(_, stage, checked, stored, done) =>
      || s.writers <= {p}
      || (BlockedPc(c, pc) && First(c) < LAST && FirstEntries(c) <= s.data)
    case _ => true
  }

  ghost predicate StoreOk(c: Config, s: Store) {
    && SoundStore(c, s)
    && (s.lock.Some? ==> s.lock.value.token < s.nextToken)
    && (s.writers != {} ==> Settled(c, s))
    && AtMostOne(s.writers)
  }

  ghost predicate Exclusive(c: Config, w: World) {
    && Inv(c, w) && StoreOk(c, w.store)
    && (forall p :: 0 <= p < |w.procs| && Processing(w.procs[p]) ==> w.procs[p].token < w.store.nextToken)
    && (forall p, q :: 0 <= p < q < |w.procs| && Processing(w.procs[p]) && Processing(w.procs[q])
          ==> w.procs[p].token != w.procs[q].token)
    && (forall p :: 0 <= p < |w.procs| && Owns(w.store, w.procs[p]) ==> OwnerOk(c, w.store, p, w.procs[p]))
  }

  /** The lock-independent part of a step by an instance that does not hold the lock. */
  lemma IdleStep(c: Config, p: nat, s: Store, pc: Pc, a: Action)
    requires !Processing(pc) || a.Fail? || a.Timeout? || a.Crash?
    ensures var l := Step(c, p, s, pc, a);
      && l.store.data == s.data && l.store.listed == s.listed && l.store.writers == s.writers
      && (l.pc == ReadCompleted(s.nextToken) && !Processing(pc)
          ==> l.store.nextToken == s.nextToken + 1
              && l.store.lock.Some? && l.store.lock.value.token == s.nextToken)
      && (l.pc != ReadCompleted(s.nextToken) || Processing(pc)
          ==> l.store.lock == s.lock && l.store.nextToken == s.nextToken && (Processing(l.pc) ==> l.pc == pc))
  {}

  lemma OwnerReads(c: Config, p: nat, s: Store, pc: Pc)
    requires c.Valid() && StoreOk(c, s) && SoundPc(c, s, pc) && OwnerOk(c, s, p, pc) && pc.ReadFlags?
    ensures OwnerOk(c, s, p, ReadFlag(c, s, pc).pc)
  {
    var r := FlagRepo(pc.next);
    var seen' := if HasEntries(s.listed, r) then pc.seen + {r} else pc.seen;
    JudgeLaws(c, seen');
    forall e | e in s.listed && FlagOf(RepoOf(e)) <= pc.next ensures RepoOf(e) in seen' {
      assert FlagOf(RepoOf(e)) == pc.next ==> RepoOf(e) == r;
    }
  }

  /** Past the first stage, its entries are listed. */
  lemma PastFirst(c: Config, s: Store, pc: Pc)
    requires SoundPc(c, s, pc) && pc.Creating? && First(c) < pc.stage
    ensures s.listed != {}
  {
    var f :| f in StageEntries(c, First(c), 0);
    assert StageOf(RepoOf(f)) == First(c);
    assert f in s.listed;
  }

  /** The first store of all makes the store settled. */
  lemma CreateSettles(c: Config, p: nat, s: Store, pc: Pc, e: Entry)
    requires c.Valid() && FirstStoreShows(c) && SoundStore(c, s) && SoundPc(c, s, pc) && pc.Creating?
    requires s.writers != {} ==> Settled(c, s)
    ensures var l := Create(c, p, s, pc, e); l.store.writers != {} ==> Settled(c, l.store)
  {
    var k := First(c);
    if pc.stage < k {
      assert StageEntries(c, pc.stage, pc.token) == {};
    } else if k < pc.stage {
      PastFirst(c, s, pc);
    } else if k < LAST {
      assert StageEntries(c, pc.stage, pc.token) == FirstEntries(c);
      assert forall f :: f in FirstEntries(c) ==> RepoOf(f) == StageRepo(k);
    }
  }

  /** Where every entry of the first stage is taken, a create stores nothing. */
  lemma BlockedCreate(c: Config, p: nat, s: Store, pc: Pc, e: Entry)
    requires pc.Creating? && BlockedPc(c, pc) && First(c) < LAST && FirstEntries(c) <= s.data
    ensures var l := Create(c, p, s, pc, e); l == Local(s, pc) || l == Leave(s, pc.token, false)
  {
    assert pc.stage < First(c) ==> StageEntries(c, pc.stage, pc.token) == {};
    assert pc.stage == First(c) ==> StageEntries(c, pc.stage, pc.token) == FirstEntries(c);
  }

  lemma OnlyWriter(c: Config, p: nat, s: Store, pc: Pc, e: Entry)
    requires pc.Creating? && s.writers <= {p}
    ensures var l := Create(c, p, s, pc, e);
      && l.store.writers <= {p} && l.store.lock == s.lock && l.store.nextToken == s.nextToken
      && (l.pc.Creating? || l.pc.Returned?)
  {}

  /** A create by the lock holder. */
  lemma OwnerCreates(c: Config, p: nat, s: Store, pc: Pc, e: Entry)
    requires c.Valid() && FirstStoreShows(c) && StoreOk(c, s) && SoundPc(c, s, pc) && pc.Creating?
    requires OwnerOk(c, s, p, pc)
    ensures var l := Create(c, p, s, pc, e); StoreOk(c, l.store) && OwnerOk(c, l.store, p, l.pc)
  {
    if s.writers <= {p} {
      CreateIsSound(c, p, s, pc, e);
      CreateSettles(c, p, s, pc, e);
      OnlyWriter(c, p, s, pc, e);
    } else {
      BlockedCreate(c, p, s, pc, e);
    }
  }

  lemma OwnerAdvances(c: Config, p: nat, s: Store, pc: Pc)
    requires c.Valid() && StoreOk(c, s) && SoundPc(c, s, pc) && Processing(pc) && OwnerOk(c, s, p, pc)
    ensures var l := Advance(c, s, pc);
      && OwnerOk(c, l.store, p, l.pc)
      && l.store.writers == s.writers && l.store.data == s.data && l.store.listed == s.listed
      && l.store.lock == s.lock && l.store.nextToken == s.nextToken
      && (Processing(l.pc) ==> l.pc.token == pc.token)
  {
    if pc.ReadFlags? {
      OwnerReads(c, p, s, pc);
    } else if pc.Creating? {
      assert pc.stage < First(c) ==> StageEntries(c, pc.stage, pc.token) == {};
      assert pc.stage == First(c) < LAST ==> StageEntries(c, pc.stage, pc.token) == FirstEntries(c) != {};
    }
  }

  /** What a create leaves alone. */
  lemma {:induction false} CreateFrame(c: Config, p: nat, s: Store, pc: Pc, e: Entry)
    requires pc.Creating?
    ensures var l := Create(c, p, s, pc, e);
      && l.store.lock == s.lock && l.store.nextToken == s.nextToken
      && (Processing(l.pc) ==> l.pc.token == pc.token)
  {}

  /** What a step of the holder keeps. */
  ghost predicate OwnerKept(c: Config, p: nat, s: Store, pc: Pc, l: Local)
    requires Processing(pc)
  {
    && StoreOk(c, l.store) && OwnerOk(c, l.store, p, l.pc)
    && l.store.lock == s.lock && l.store.nextToken == s.nextToken
    && (Processing(l.pc) ==> l.pc.token == pc.token)
  }

  lemma {:induction false} OwnerTouches(c: Config, p: nat, s: Store, pc: Pc, e: Entry)
    requires c.Valid() && FirstStoreShows(c) && StoreOk(c, s) && SoundPc(c, s, pc) && pc.Creating?
    requires OwnerOk(c, s, p, pc)
    ensures OwnerKept(c, p, s, pc, Create(c, p, s, pc, e))
  {
    CreateFrame(c, p, s, pc, e);
    OwnerCreates(c, p, s, pc, e);
  }

  lemma {:induction false} OwnerGoes(c: Config, p: nat, s: Store, pc: Pc)
    requires c.Valid() && StoreOk(c, s) && SoundPc(c, s, pc) && Processing(pc) && OwnerOk(c, s, p, pc)
    ensures OwnerKept(c, p, s, pc, Advance(c, s, pc))
  {
    AdvanceIsSound(c, s, pc);
    OwnerAdvances(c, p, s, pc);
  }

  lemma {:induction false} OwnerStep(c: Config, p: nat, s: Store, pc: Pc, a: Action)
    requires c.Valid() && FirstStoreShows(c) && StoreOk(c, s) && SoundPc(c, s, pc) && Processing(pc)
    requires OwnerOk(c, s, p, pc) && (a.Go? || a.Touch? || a.AckLost?)
    ensures OwnerKept(c, p, s, pc, Step(c, p, s, pc, a))
  {
    if a.Touch? {
      if pc.Creating? {
        OwnerTouches(c, p, s, pc, a.e);
      }
    } else {
      OwnerGoes(c, p, s, pc);
    }
  }

  /** Installing the outcome of a step by an instance that did not use the lock. */
  lemma IdlePlaced(c: Config, w: World, p: nat, a: Action)
    requires Exclusive(c, w) && p < |w.procs|
    requires !Processing(w.procs[p]) || a.Fail? || a.Timeout? || a.Crash?
    requires Inv(c, Do(c, w, Act(p, a)))
    ensures Exclusive(c, Do(c, w, Act(p, a)))
  {
    IdleStep(c, p, w.store, w.procs[p], a);
  }

  lemma OwnerPlaced(c: Config, w: World, p: nat, a: Action)
    requires FirstStoreShows(c) && Exclusive(c, w) && p < |w.procs|
    requires Owns(w.store, w.procs[p]) && (a.Go? || a.Touch? || a.AckLost?)
    requires Inv(c, Do(c, w, Act(p, a)))
    ensures Exclusive(c, Do(c, w, Act(p, a)))
  {
    OwnerStep(c, p, w.store, w.procs[p], a);
  }

  lemma DoKeepsExclusive(c: Config, w: World, ev: Event)
    requires FirstStoreShows(c) && Exclusive(c, w) && Lawful(w, ev)
    ensures Exclusive(c, Do(c, w, ev))
  {
    DoKeepsInv(c, w, ev);
    if ev.Act? && ev.p < |w.procs| {
      if !Processing(w.procs[ev.p]) || ev.a.Fail? || ev.a.Timeout? || ev.a.Crash? {
        IdlePlaced(c, w, ev.p, ev.a);
      } else {
        OwnerPlaced(c, w, ev.p, ev.a);
      }
    }
  }

  lemma {:induction false} RunKeepsExclusive(c: Config, w: World, evs: seq<Event>)
    requires FirstStoreShows(c) && Exclusive(c, w) && LawfulRun(c, w, evs)
    ensures Exclusive(c, Run(c, w, evs))
    decreases |evs|
  {
    if evs == [] {
    } else {
      DoKeepsExclusive(c, w, evs[0]);
      RunKeepsExclusive(c, Do(c, w, evs[0]), evs[1..]);
    }
  }

  // ------------------------------------------------------------- two writers

  lemma {:induction false} LawfulAppend(c: Config, w: World, a: seq<Event>, b: seq<Event>)
    requires LawfulRun(c, w, a) && LawfulRun(c, Run(c, w, a), b)
    ensures LawfulRun(c, w, a + b)
    decreases |a|
  {
    if a == [] {
      assert a + b == b;
    } else {
      assert (a + b)[1..] == a[1..] + b;
      LawfulAppend(c, Do(c, w, a[0]), a[1..], b);
    }
  }

  lemma {:induction false} LawfulOne(c: Config, w: World, ev: Event)
    requires Lawful(w, ev)
    ensures LawfulRun(c, w, [ev])
  {
    assert [ev][1..] == [];
  }

  /** An instance that runs alone keeps its own live lease. */
  lemma {:induction false} LawfulSteps(c: Config, w: World, p: nat, k: nat)
    requires p < |w.procs|
    requires Processing(w.procs[p]) ==> Owns(w.store, w.procs[p]) && w.store.now < w.store.lock.value.expiry
    ensures LawfulRun(c, w, Steps(p, k))
    decreases k
  {
    if k == 0 {
    } else {
      assert Steps(p, k)[1..] == Steps(p, k - 1);
      LawfulSteps(c, Do(c, w, Act(p, Go)), p, k - 1);
    }
  }

  lemma {:induction false} LawfulWrite(c: Config, w: World, p: nat, e: Entry)
    requires p < |w.procs| && w.procs[p].TryLock? && !RedisLock.Held(w.store.lock, w.store.now)
    requires w.store.listed == {} && w.store.status != Completed
    requires First(c) < LAST && e in FirstEntries(c) && e !in w.store.data
    ensures LawfulRun(c, w, WriteScript(c, p, e))
  {
    var touch := [Act(p, Touch(e))];
    var w1 := Run(c, w, Steps(p, 10 + First(c)));
    LawfulSteps(c, w, p, 10 + First(c));
    ReachFirstCreate(c, w, p);
    CreateFirst(c, p, w1.store, w.store.nextToken, e);
    LawfulOne(c, w1, touch[0]);
    LawfulAppend(c, w, Steps(p, 10 + First(c)), touch);
    var w2 := Do(c, w1, touch[0]);
    RunAppend(c, w, Steps(p, 10 + First(c)), touch);
    RunOne(c, w1, touch[0]);
    LawfulOne(c, w2, touch[0]);
    LawfulAppend(c, w, Steps(p, 10 + First(c)) + touch, touch);
  }

  /** Instance 0 stops after its first data key; instance 1 takes over and stores another entry. */
  lemma TwoWriters(c: Config, n: nat) returns (evs: seq<Event>)
    requires c.Valid() && n >= 2 && !FirstStoreShows(c)
    ensures LawfulRun(c, Init(n), evs)
    ensures 0 in Run(c, Init(n), evs).store.writers && 1 in Run(c, Init(n), evs).store.writers
  {
    var a, b :| a in FirstEntries(c) && b in FirstEntries(c) && a != b;
    assert RepoOf(a) == RepoOf(b) == StageRepo(First(c));
    var w0 := Init(n);
    var first := WriteScript(c, 0, a);
    FreshWrite(c, w0, 0, a);
    LawfulWrite(c, w0, 0, a);
    var w1 := Run(c, w0, first);
    var pause := [Tick(LOCK_TTL)];
    var w2 := Do(c, w1, pause[0]);
    LawfulOne(c, w1, pause[0]);
    RunOne(c, w1, pause[0]);
    LawfulAppend(c, w0, first, pause);
    RunAppend(c, w0, first, pause);
    var second := WriteScript(c, 1, b);
    FreshWrite(c, w2, 1, b);
    LawfulWrite(c, w2, 1, b);
    LawfulAppend(c, w0, first + pause, second);
    RunAppend(c, w0, first + pause, second);
    evs := first + pause + second;
  }

  /**
   * When holders act only under live leases, at most one of any `n >= 2` instances ever
   * stores an entry, in every run, if and only if the config's first store shows.
   */
  lemma {:induction false} SingleWriterIff(c: Config, n: nat)
    requires c.Valid() && n >= 2
    ensures (forall evs :: LawfulRun(c, Init(n), evs) ==> AtMostOne(Run(c, Init(n), evs).store.writers))
      <==> FirstStoreShows(c)
  {
    if FirstStoreShows(c) {
      forall evs | LawfulRun(c, Init(n), evs) ensures AtMostOne(Run(c, Init(n), evs).store.writers) {
        RunKeepsExclusive(c, Init(n), evs);
      }
    } else {
      var evs := TwoWriters(c, n);
      assert 0 in Run(c, Init(n), evs).store.writers && 1 in Run(c, Init(n), evs).store.writers;
    }
  }
}
