/**
 * The other half of what the lock adds: whether a create can meet an entry that another
 * instance stored. Under live leases it cannot, exactly when the config's first stage is
 * stored and listed in one transaction. A single signer or network is enough to fail it.
 */
module CreateCollision {
  import opened Options
  import RedisLock
  import opened ConfigBootstrap
  import opened CommitRecord
  import opened FailClosed
  import opened SingleWriter

  /** The existence check of a create that finds its entry already stored. */
  ghost predicate Collides(c: Config, w: World, ev: Event) {
    && ev.Act? && ev.p < |w.procs| && ev.a.Touch?
    && var pc := w.procs[ev.p];
       && pc.Creating? && pc.stage <= LAST
       && ev.a.e in StageEntries(c, pc.stage, pc.token) - pc.done
       && ev.a.e !in pc.checked && ev.a.e in w.store.data
  }

  /** After every lawful run, no lawful event is a collision. */
  ghost predicate CollisionFree(c: Config, n: nat) {
    forall evs, ev :: LawfulRun(c, Init(n), evs) && Lawful(Run(c, Init(n), evs), ev)
      ==> !Collides(c, Run(c, Init(n), evs), ev)
  }

  /** The first entry ever stored is listed by the same command. */
  ghost predicate FirstStoreListed(c: Config) {
    First(c) == LAST || Atomic(StageRepo(First(c)))
  }

  // ------------------------------------------------------------- no collision

  /** Whatever is stored of the holder's stage, the holder has stored, and nothing of a later one is. */
  ghost predicate OwnWork(s: Store, pc: Pc) {
    pc.Creating? ==>
      && pc.stored <= pc.checked
      && forall e :: e in s.data ==>
           StageOf(RepoOf(e)) <= pc.stage && (StageOf(RepoOf(e)) == pc.stage ==> e in pc.stored)
  }

  ghost predicate Visible(s: Store) {
    s.data != {} ==> s.listed != {}
  }

  ghost predicate Clean(c: Config, w: World) {
    && Exclusive(c, w) && Visible(w.store)
    && forall p :: 0 <= p < |w.procs| && Owns(w.store, w.procs[p]) ==> OwnWork(w.store, w.procs[p])
  }

  lemma StageOfEntry(c: Config, stage: nat, token: nat, e: Entry)
    requires stage <= LAST && e in StageEntries(c, stage, token)
    ensures StageOf(RepoOf(e)) == stage
  {}

  /** A create shows at once, or something was listed before. */
  lemma CreateIsVisible(c: Config, p: nat, s: Store, pc: Pc, e: Entry)
    requires FirstStoreListed(c) && Visible(s) && SoundPc(c, s, pc) && pc.Creating?
    ensures Visible(Create(c, p, s, pc, e).store)
  {
    if pc.stage <= LAST && e in StageEntries(c, pc.stage, pc.token) {
      StageOfEntry(c, pc.stage, pc.token, e);
      if First(c) < pc.stage {
        PastFirst(c, s, pc);
      } else if pc.stage == First(c) {
        assert Atomic(RepoOf(e));
      }
    }
  }

  lemma CreateIsOwnWork(c: Config, p: nat, s: Store, pc: Pc, e: Entry)
    requires pc.Creating? && OwnWork(s, pc)
    ensures var l := Create(c, p, s, pc, e); OwnWork(l.store, l.pc)
  {
    if pc.stage <= LAST && e in StageEntries(c, pc.stage, pc.token) {
      StageOfEntry(c, pc.stage, pc.token, e);
    }
  }

  lemma AdvanceIsOwnWork(c: Config, p: nat, s: Store, pc: Pc)
    requires Processing(pc) && Visible(s) && OwnWork(s, pc) && OwnerOk(c, s, p, pc)
    ensures var l := Advance(c, s, pc); OwnWork(l.store, l.pc) && Visible(l.store)
  {}

  lemma OwnerStaysClean(c: Config, p: nat, s: Store, pc: Pc, a: Action)
    requires FirstStoreListed(c) && SoundPc(c, s, pc) && Processing(pc) && OwnerOk(c, s, p, pc)
    requires Visible(s) && OwnWork(s, pc) && (a.Go? || a.Touch? || a.AckLost?)
    ensures var l := Step(c, p, s, pc, a); OwnWork(l.store, l.pc) && Visible(l.store)
  {
    if a.Touch? {
      if pc.Creating? {
        CreateIsVisible(c, p, s, pc, a.e);
        CreateIsOwnWork(c, p, s, pc, a.e);
      }
    } else {
      AdvanceIsOwnWork(c, p, s, pc);
    }
  }

  /** A step of an instance that does not use the lock. */
  lemma {:induction false} IdleStaysClean(c: Config, w: World, p: nat, a: Action)
    requires Clean(c, w) && p < |w.procs| && Exclusive(c, Do(c, w, Act(p, a)))
    requires !Processing(w.procs[p]) || a.Fail? || a.Timeout? || a.Crash?
    ensures Clean(c, Do(c, w, Act(p, a)))
  {
    IdleStep(c, p, w.store, w.procs[p], a);
  }

  /** A step of the lock holder: nobody else owns the lock before or after. */
  lemma {:induction false} HolderStaysClean(c: Config, w: World, p: nat, a: Action)
    requires FirstStoreListed(c) && Clean(c, w) && p < |w.procs| && Exclusive(c, Do(c, w, Act(p, a)))
    requires Owns(w.store, w.procs[p]) && (a.Go? || a.Touch? || a.AckLost?)
    ensures Clean(c, Do(c, w, Act(p, a)))
  {
    var pc := w.procs[p];
    assert SoundPc(c, w.store, pc);
    OwnerStaysClean(c, p, w.store, pc, a);
    OwnerStep(c, p, w.store, pc, a);
  }

  lemma {:induction false} DoKeepsClean(c: Config, w: World, ev: Event)
    requires FirstStoreListed(c) && Clean(c, w) && Lawful(w, ev)
    ensures Clean(c, Do(c, w, ev))
  {
    DoKeepsExclusive(c, w, ev);
    if ev.Act? && ev.p < |w.procs| {
      if !Processing(w.procs[ev.p]) || ev.a.Fail? || ev.a.Timeout? || ev.a.Crash? {
        IdleStaysClean(c, w, ev.p, ev.a);
      } else {
        HolderStaysClean(c, w, ev.p, ev.a);
      }
    }
  }

  lemma {:induction false} RunKeepsClean(c: Config, w: World, evs: seq<Event>)
    requires FirstStoreListed(c) && Clean(c, w) && LawfulRun(c, w, evs)
    ensures Clean(c, Run(c, w, evs))
    decreases |evs|
  {
    if evs == [] {
    } else {
      DoKeepsClean(c, w, evs[0]);
      RunKeepsClean(c, Do(c, w, evs[0]), evs[1..]);
    }
  }

  lemma CleanDoesNotCollide(c: Config, w: World, ev: Event)
    requires Clean(c, w) && Lawful(w, ev)
    ensures !Collides(c, w, ev)
  {
    if Collides(c, w, ev) {
      var pc := w.procs[ev.p];
      StageOfEntry(c, pc.stage, pc.token, ev.a.e);
      assert false;
    }
  }

  // ------------------------------------------------------------- a collision

  /** Instance 0 stores the data key of `e` and stops; instance 1 takes over and reaches the same create. */
  function TakeOver(c: Config, e: Entry): seq<Event> {
    WriteScript(c, 0, e) + [Tick(LOCK_TTL)] + Steps(1, 10 + First(c))
  }

  /**
   * Where the first stage is not a transaction, every entry of it, even the only one, can be
   * met by a second instance: that instance has judged the store empty and set the marker
   * again, and its create fails. Only instance 0 has written.
   */
  lemma {:induction false} SecondCreateCollides(c: Config, n: nat, e: Entry)
    requires c.Valid() && n >= 2 && !FirstStoreListed(c) && e in FirstEntries(c)
    ensures LawfulRun(c, Init(n), TakeOver(c, e))
    ensures var w, ev := Run(c, Init(n), TakeOver(c, e)), Act(1, Touch(e));
      && Lawful(w, ev) && Collides(c, w, ev)
      && w.store.data == {e} && w.store.writers == {0} && w.store.status == InProgress
      && Do(c, w, ev).procs[1] == Returned(false)
  {
    var w0 := Init(n);
    var first, pause, second := WriteScript(c, 0, e), [Tick(LOCK_TTL)], Steps(1, 10 + First(c));
    assert RepoOf(e) == StageRepo(First(c));
    FreshWrite(c, w0, 0, e);
    LawfulWrite(c, w0, 0, e);
    var w1 := Run(c, w0, first);
    var w2 := Do(c, w1, pause[0]);
    LawfulOne(c, w1, pause[0]);
    RunOne(c, w1, pause[0]);
    LawfulAppend(c, w0, first, pause);
    RunAppend(c, w0, first, pause);
    LawfulSteps(c, w2, 1, 10 + First(c));
    ReachFirstCreate(c, w2, 1);
    LawfulAppend(c, w0, first + pause, second);
    RunAppend(c, w0, first + pause, second);
    AtSecondCreate(c, w2, Run(c, w2, second), e);
  }

  lemma AtSecondCreate(c: Config, w: World, w': World, e: Entry)
    requires First(c) < LAST && e in FirstEntries(c) && e in w.store.data && |w.procs| >= 2
    requires var s := w.store;
      w' == World(s.(lock := Some(RedisLock.Lease(s.nextToken, s.now + LOCK_TTL)),
                     nextToken := s.nextToken + 1, status := InProgress),
                  w.procs[1 := Creating(s.nextToken, First(c), {}, {}, {})])
    ensures Lawful(w', Act(1, Touch(e))) && Collides(c, w', Act(1, Touch(e)))
    ensures Do(c, w', Act(1, Touch(e))).procs[1] == Returned(false)
  {
    assert e in StageEntries(c, First(c), w.store.nextToken);
  }

  /**
   * When holders act only under live leases, no create of any of `n >= 2` instances meets an
   * entry stored by another one, in every run, if and only if the config has no entries or
   * its first stage is stored and listed in one transaction.
   */
  lemma CollisionFreeIff(c: Config, n: nat)
    requires c.Valid() && n >= 2
    ensures CollisionFree(c, n) <==> FirstStoreListed(c)
  {
    if FirstStoreListed(c) {
      forall evs, ev | LawfulRun(c, Init(n), evs) && Lawful(Run(c, Init(n), evs), ev)
        ensures !Collides(c, Run(c, Init(n), evs), ev)
      {
        RunKeepsClean(c, Init(n), evs);
        CleanDoesNotCollide(c, Run(c, Init(n), evs), ev);
      }
    } else {
      assert FirstEntries(c) == StageEntries(c, First(c), 0) != {};
      var e :| e in FirstEntries(c);
      SecondCreateCollides(c, n, e);
    }
  }
}
