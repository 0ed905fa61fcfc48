/**
 * The initialization lock from the side of those it keeps out, and what an instance has read
 * before it skips.
 */
module RelayerLock {
  import opened Options
  import RedisLock
  import opened RelayerInit
  import opened DuplicateWork
  import opened RelayerOutcome

  type Leases = seq<Option<RedisLock.Lease>>

  /** Event `ev` of instance `q` takes the lock. */
  predicate Takes(d: Deployment, w: World, ev: Event, q: nat) {
    && ev == Act(q, Go) && q < |w.procs| && w.procs[q].TryLock?
    && q < |Do(d, w, ev).procs| && InSection(Do(d, w, ev).procs[q])
  }

  /** The lease each instance obtained in a run, if any. */
  function Taken(d: Deployment, evs: seq<Event>): (r: Leases)
    ensures |r| == |d|
    decreases |evs|
  {
    if evs == [] then seq(|d|, _ => None)
    else
      var front, last := evs[..|evs| - 1], evs[|evs| - 1];
      var w := Run(d, Init(d), front);
      if last.Act? && last.p < |d| && Takes(d, w, last, last.p)
      then Taken(d, front)[last.p := Some(RedisLock.Lease(Do(d, w, last).procs[last.p].token.value, w.store.now + 120))]
      else Taken(d, front)
  }

  /** The lock that instance `q` took is still in its hands. */
  ghost predicate Unreleased(w: World, taken: Leases, q: nat) {
    && q < |w.procs| == |taken| && taken[q].Some? && w.store.now < taken[q].value.expiry
    && (InSection(w.procs[q]) || w.procs[q].Crashed? || taken[q].value.token in w.store.releases)
  }

  ghost predicate SomeoneHolds(w: World, taken: Leases) {
    exists q: nat :: Unreleased(w, taken, q)
  }

  /** Leases are told apart by their tokens. */
  ghost predicate TokensOk(s: Store, taken: Leases) {
    && (forall q :: 0 <= q < |taken| && taken[q].Some? ==> taken[q].value.token < s.nextToken)
    && (forall t :: t in s.releases ==> t < s.nextToken)
    && forall p, q :: 0 <= p < q < |taken| && taken[p].Some? && taken[q].Some? ==>
         taken[p].value.token != taken[q].value.token
  }

  /** What an instance's position says about its lease. */
  ghost predicate PositionOk(s: Store, pc: Pc, lease: Option<RedisLock.Lease>) {
    && (InSection(pc) ==> lease.Some? && lease.value.token == pc.token.value)
    && (!InSection(pc) && !pc.Returned? && !pc.Crashed? ==> lease.None?)
    && (lease.Some? && lease.value.token in s.releases ==> pc.Returned?)
  }

  ghost predicate LockOk(w: World, taken: Leases) {
    && (RedisLock.Held(w.store.lock, w.store.now) ==>
          exists q: nat :: Unreleased(w, taken, q) && taken[q] == w.store.lock)
    && forall q: nat :: Unreleased(w, taken, q) ==> w.store.lock == taken[q]
  }

  ghost predicate HistoryOk(w: World, taken: Leases) {
    && |taken| == |w.procs| && TokensOk(w.store, taken) && LockOk(w, taken)
    && forall q :: 0 <= q < |taken| ==> PositionOk(w.store, w.procs[q], taken[q])
  }

  /** What a step does to the lock, when it does not take it. */
  ghost predicate OtherStep(s: Store, pc: Pc, l: Local) {
    && l.store.lock == s.lock && l.store.nextToken == s.nextToken && l.store.now == s.now
    && (if InSection(pc) && l.pc.Returned? then l.store.releases == s.releases + {pc.token.value}
        else l.store.releases == s.releases)
    && (InSection(l.pc) ==> InSection(pc) && l.pc.token == pc.token)
    && (!InSection(l.pc) && !l.pc.Returned? && !l.pc.Crashed? ==> !InSection(pc) && !pc.Returned? && !pc.Crashed?)
    && (InSection(pc) ==> InSection(l.pc) || l.pc.Returned? || l.pc.Crashed?)
    && (pc.Returned? ==> l.pc == pc) && (pc.Crashed? ==> l.pc == pc)
  }

  lemma {:induction false} StepFrame(relayers: seq<string>, p: nat, s: Store, pc: Pc, a: Action)
    ensures var l := Step(relayers, p, s, pc, a);
      if a.Go? && pc.TryLock? && InSection(l.pc)
      then && !RedisLock.Held(s.lock, s.now) && l.pc.token.value == s.nextToken
           && l.store == s.(lock := Some(RedisLock.Lease(s.nextToken, s.now + 120)), nextToken := s.nextToken + 1)
      else OtherStep(s, pc, l)
  {}

  lemma {:induction false} TakeKeeps(d: Deployment, w: World, taken: Leases, p: nat)
    requires |w.procs| == |d| && HistoryOk(w, taken) && Takes(d, w, Act(p, Go), p)
    ensures var w' := Do(d, w, Act(p, Go));
      HistoryOk(w', taken[p := Some(RedisLock.Lease(w'.procs[p].token.value, w.store.now + 120))])
  {
    var w' := Do(d, w, Act(p, Go));
    var taken' := taken[p := Some(RedisLock.Lease(w'.procs[p].token.value, w.store.now + 120))];
    StepFrame(d[p], p, w.store, w.procs[p], Go);
    assert Unreleased(w', taken', p);
    forall q: nat | Unreleased(w', taken', q) ensures q == p {
      if q != p {
        assert Unreleased(w, taken, q);
        assert false;
      }
    }
  }

  lemma {:induction false} OtherKeeps(d: Deployment, w: World, taken: Leases, p: nat, a: Action)
    requires |w.procs| == |d| && HistoryOk(w, taken) && p < |d|
    requires OtherStep(w.store, w.procs[p], Step(d[p], p, w.store, w.procs[p], a))
    ensures HistoryOk(Do(d, w, Act(p, a)), taken)
  {
    var w' := Do(d, w, Act(p, a));
    assert PositionOk(w.store, w.procs[p], taken[p]);
    forall q: nat ensures Unreleased(w', taken, q) <==> Unreleased(w, taken, q) {
      if q < |taken| && q != p && taken[q].Some? && InSection(w.procs[p]) {
        assert taken[q].value.token != taken[p].value.token;
      }
    }
    forall q | 0 <= q < |taken| && q != p ensures PositionOk(w'.store, w'.procs[q], taken[q]) {
      assert PositionOk(w.store, w.procs[q], taken[q]);
      if taken[q].Some? && InSection(w.procs[p]) {
        assert taken[q].value.token != taken[p].value.token;
      }
    }
  }

  lemma {:induction false} ReleaseKeeps(d: Deployment, w: World, taken: Leases, t: nat)
    requires HistoryOk(w, taken)
    ensures HistoryOk(Do(d, w, ReleaseLands(t)), taken)
  {
    var w' := Do(d, w, ReleaseLands(t));
    if t in w.store.releases {
      forall q: nat ensures Unreleased(w', taken, q) <==> Unreleased(w, taken, q) && taken[q].value.token != t {
        if q < |taken| {
          assert PositionOk(w.store, w.procs[q], taken[q]);
        }
      }
      if RedisLock.Held(w'.store.lock, w'.store.now) {
        var q: nat :| Unreleased(w, taken, q) && taken[q] == w.store.lock;
        assert Unreleased(w', taken, q);
      }
    }
  }

  lemma {:induction false} TickKeeps(d: Deployment, w: World, taken: Leases, seconds: nat)
    requires HistoryOk(w, taken)
    ensures HistoryOk(Do(d, w, Tick(seconds)), taken)
  {
    var w' := Do(d, w, Tick(seconds));
    forall q: nat | Unreleased(w', taken, q) ensures Unreleased(w, taken, q) {}
    if RedisLock.Held(w'.store.lock, w'.store.now) {
      var q: nat :| Unreleased(w, taken, q) && taken[q] == w.store.lock;
      assert Unreleased(w', taken, q);
    }
  }

  lemma {:induction false} ActKeeps(d: Deployment, w: World, taken: Leases, p: nat, a: Action)
    requires |w.procs| == |d| && HistoryOk(w, taken) && p < |d|
    ensures var w' := Do(d, w, Act(p, a));
      if a.Go? && Takes(d, w, Act(p, a), p)
      then HistoryOk(w', taken[p := Some(RedisLock.Lease(w'.procs[p].token.value, w.store.now + 120))])
      else HistoryOk(w', taken)
  {
    StepFrame(d[p], p, w.store, w.procs[p], a);
    if a.Go? && Takes(d, w, Act(p, a), p) {
      TakeKeeps(d, w, taken, p);
    } else {
      OtherKeeps(d, w, taken, p, a);
    }
  }

  lemma {:induction false} RunIsOk(d: Deployment, evs: seq<Event>)
    ensures HistoryOk(Run(d, Init(d), evs), Taken(d, evs))
    decreases |evs|
  {
    if evs == [] {
    } else {
      var front, last := evs[..|evs| - 1], evs[|evs| - 1];
      var w, taken := Run(d, Init(d), front), Taken(d, front);
      RunIsOk(d, front);
      RunKeepsInv(d, Init(d), front);
      RunLast(d, evs);
      match last
      case Tick(seconds) => TickKeeps(d, w, taken, seconds);
      case ReleaseLands(t) => ReleaseKeeps(d, w, taken, t);
      case Act(p, a) =>
        if p < |d| {
          ActKeeps(d, w, taken, p, a);
        }
    }
  }

  /**
   * In every run, an instance that tries the initialization lock is refused if and only if some instance took
   * it less than 120 seconds ago and is still at work, has died, or has returned without its
   * release having landed.
   */
  lemma {:induction false} LockRefusedIff(d: Deployment, evs: seq<Event>, p: nat)
    requires p < |d| == |Run(d, Init(d), evs).procs| && Run(d, Init(d), evs).procs[p].TryLock?
    ensures var w := Run(d, Init(d), evs);
      Do(d, w, Act(p, Go)).procs[p].Waiting? <==> SomeoneHolds(w, Taken(d, evs))
  {
    RunIsOk(d, evs);
    var w, taken := Run(d, Init(d), evs), Taken(d, evs);
    assert RedisLock.Held(w.store.lock, w.store.now) <==> SomeoneHolds(w, taken) by {
      if q: nat :| Unreleased(w, taken, q) {
        assert w.store.lock == taken[q];
      }
    }
    var pc := Advance(d[p], p, w.store, w.procs[p]).pc;
    assert pc == Acquire(w.store, w.procs[p].recovery).pc;
    assert pc.Waiting? <==> RedisLock.Held(w.store.lock, w.store.now);
    assert Do(d, w, Act(p, Go)).procs[p] == pc;
  }

  // ------------------------------------------------------------------ what was read

  /** Event `k` is the read of the global mark, found fresh, with which the check of `p` began. */
  ghost predicate GlobalRead(d: Deployment, evs: seq<Event>, p: nat, token: Option<nat>, k: nat) {
    && k < |evs| && evs[k] == Act(p, Go)
    && var w := Run(d, Init(d), evs[..k]);
       p < |w.procs| && w.procs[p] == Check(token, 0, []) && Recent(w.store.global, w.store.now)
  }

  ghost predicate CheckOk(d: Deployment, evs: seq<Event>, p: nat, pc: Pc) {
    && (pc.Check? && pc.next > 0 ==> exists k: nat :: GlobalRead(d, evs, p, pc.token, k))
    && (pc.Check? && pc.next == 0 ==> pc.readings == [])
    && (pc.Returned? && pc.outcome.Skipped? ==> exists token, k: nat :: GlobalRead(d, evs, p, token, k))
  }

  lemma {:induction false} GlobalStays(d: Deployment, evs: seq<Event>, p: nat, token: Option<nat>, k: nat)
    requires evs != [] && GlobalRead(d, evs[..|evs| - 1], p, token, k)
    ensures GlobalRead(d, evs, p, token, k)
  {
    assert evs[..|evs| - 1][..k] == evs[..k];
  }

  lemma {:induction false} CheckStays(d: Deployment, evs: seq<Event>, p: nat, pc: Pc)
    requires evs != [] && CheckOk(d, evs[..|evs| - 1], p, pc)
    ensures CheckOk(d, evs, p, pc)
  {
    var front := evs[..|evs| - 1];
    if pc.Check? && pc.next > 0 {
      var k: nat :| GlobalRead(d, front, p, pc.token, k);
      GlobalStays(d, evs, p, pc.token, k);
    } else if pc.Returned? && pc.outcome.Skipped? {
      var token, k: nat :| GlobalRead(d, front, p, token, k);
      GlobalStays(d, evs, p, token, k);
    }
  }

  /** How a step gets into a check, or out of one by skipping. */
  lemma {:induction false} CheckStep(relayers: seq<string>, p: nat, s: Store, pc: Pc, a: Action)
    requires pc.Check? && pc.next == 0 ==> pc.readings == []
    ensures var pc' := Step(relayers, p, s, pc, a).pc;
      && (pc'.Check? && pc'.next > 0 ==>
            pc' == pc || (pc.Check? && pc'.token == pc.token && (pc.next > 0 || (a.Go? && Recent(s.global, s.now)))))
      && (pc'.Check? && pc'.next == 0 ==> pc'.readings == [])
      && (pc'.Returned? && pc'.outcome.Skipped? ==> pc' == pc || (pc.Check? && pc.next > 0))
  {}

  /** Every skip began with the global mark read as fresh. */
  lemma {:induction false} SkipsReadGlobal(d: Deployment, evs: seq<Event>, p: nat)
    requires p < |d|
    ensures |Run(d, Init(d), evs).procs| == |d| && CheckOk(d, evs, p, Run(d, Init(d), evs).procs[p])
    decreases |evs|
  {
    RunKeepsInv(d, Init(d), evs);
    if evs == [] {
    } else {
      var front, last := evs[..|evs| - 1], evs[|evs| - 1];
      var w := Run(d, Init(d), front);
      SkipsReadGlobal(d, front, p);
      var pc := w.procs[p];
      RunLast(d, evs);
      CheckStays(d, evs, p, pc);
      if last.Act? && last.p == p {
        CheckStep(d[p], p, w.store, pc, last.a);
        if pc.Check? && pc.next == 0 && last.a.Go? && Recent(w.store.global, w.store.now) {
          assert GlobalRead(d, evs, p, pc.token, |front|);
        }
      }
    }
  }
}
