/**
 * Who stands in the way of a start: the config lock is refused exactly because of an instance
 * that took it less than 120 seconds ago and has not released it, be it at work, dead, or
 * returned with its release still under way. What an instance has read under the lock is what
 * was there when it read it.
 */
module LockHistory {
  import opened Options
  import RedisLock
  import opened ConfigBootstrap
  import opened FailClosed
  import opened StartOutcome

  type Leases = seq<Option<RedisLock.Lease>>

  /** Event `ev` of instance `q` takes the lock. */
  predicate Takes(c: Config, w: World, ev: Event, q: nat) {
    && ev == Act(q, Go) && q < |w.procs| && w.procs[q].TryLock?
    && q < |Do(c, w, ev).procs| && Do(c, w, ev).procs[q].ReadCompleted?
  }

  /** The lease each instance obtained in a run, if any. */
  function Taken(c: Config, n: nat, evs: seq<Event>): (r: Leases)
    ensures |r| == n
    decreases |evs|
  {
    if evs == [] then seq(n, _ => None)
    else
      var front, last := evs[..|evs| - 1], evs[|evs| - 1];
      var w := Run(c, Init(n), front);
      if last.Act? && last.p < n && Takes(c, w, last, last.p)
      then Taken(c, n, front)[last.p := Some(RedisLock.Lease(Do(c, w, last).procs[last.p].token, w.store.now + 120))]
      else Taken(c, n, front)
  }

  /** The lock that instance `q` took is still in its hands. */
  ghost predicate Unreleased(w: World, taken: Leases, q: nat) {
    && q < |w.procs| == |taken| && taken[q].Some? && w.store.now < taken[q].value.expiry
    && (Processing(w.procs[q]) || w.procs[q].Crashed? || taken[q].value.token in w.store.releases)
  }

  ghost predicate SomeoneHolds(w: World, taken: Leases) {
    exists q: nat :: Unreleased(w, taken, q)
  }

  /** Leases are told apart by their tokens. */
  ghost predicate TokensOk(s: Store, taken: Leases) {
    && (forall q :: 0 <= q < |taken| && taken[q].Some? ==> taken[q].value.token < s.nextToken)
    && (forall t :: t in s.releases ==> t < s.nextToken)
    && forall p, q :: 0 <= p < q < |taken| && taken[p].Some? && taken[q].Some? ==>
         taken[p].value.token != taken[q].value.token
  }

  /** What an instance's position says about its lease. */
  ghost predicate PositionOk(s: Store, pc: Pc, lease: Option<RedisLock.Lease>) {
    && (Processing(pc) ==> lease.Some? && lease.value.token == pc.token)
    && (pc.TryLock? || pc.Waiting? || pc.Recheck? ==> lease.None?)
    && (lease.Some? && lease.value.token in s.releases ==> pc.Returned?)
  }

  ghost predicate LockOk(w: World, taken: Leases) {
    && (RedisLock.Held(w.store.lock, w.store.now) ==>
          exists q: nat :: Unreleased(w, taken, q) && taken[q] == w.store.lock)
    && forall q: nat :: Unreleased(w, taken, q) ==> w.store.lock == taken[q]
  }

  ghost predicate HistoryOk(w: World, taken: Leases) {
    && |taken| == |w.procs| && TokensOk(w.store, taken) && LockOk(w, taken)
    && forall q :: 0 <= q < |taken| ==> PositionOk(w.store, w.procs[q], taken[q])
  }

  /** What a step does to the lock, when it does not take it. */
  ghost predicate OtherStep(s: Store, pc: Pc, l: Local) {
    && l.store.lock == s.lock && l.store.nextToken == s.nextToken && l.store.now == s.now
    && (if Processing(pc) && l.pc.Returned? then l.store.releases == s.releases + {pc.token}
        else l.store.releases == s.releases)
    && (Processing(l.pc) ==> Processing(pc) && l.pc.token == pc.token)
    && (l.pc.TryLock? || l.pc.Waiting? || l.pc.Recheck? ==> pc.TryLock? || pc.Waiting? || pc.Recheck?)
    && (Processing(pc) ==> Processing(l.pc) || l.pc.Returned? || l.pc.Crashed?)
    && (pc.Returned? ==> l.pc == pc) && (pc.Crashed? ==> l.pc == pc)
  }

  lemma {:induction false} StepFrame(c: Config, p: nat, s: Store, pc: Pc, a: Action)
    ensures var l := Step(c, p, s, pc, a);
      if a.Go? && pc.TryLock? && l.pc.ReadCompleted?
      then && !RedisLock.Held(s.lock, s.now) && l.pc.token == s.nextToken
           && l.store == s.(lock := Some(RedisLock.Lease(s.nextToken, s.now + 120)), nextToken := s.nextToken + 1)
      else OtherStep(s, pc, l)
  {}

  lemma {:induction false} TakeKeeps(c: Config, w: World, taken: Leases, p: nat)
    requires HistoryOk(w, taken) && Takes(c, w, Act(p, Go), p)
    ensures var w' := Do(c, w, Act(p, Go));
      HistoryOk(w', taken[p := Some(RedisLock.Lease(w'.procs[p].token, w.store.now + 120))])
  {
    var w' := Do(c, w, Act(p, Go));
    var taken' := taken[p := Some(RedisLock.Lease(w'.procs[p].token, w.store.now + 120))];
    StepFrame(c, p, w.store, w.procs[p], Go);
    assert Unreleased(w', taken', p);
    forall q: nat | Unreleased(w', taken', q) ensures q == p {
      if q != p {
        assert Unreleased(w, taken, q);
        assert false;
      }
    }
  }

  lemma {:induction false} OtherKeeps(c: Config, w: World, taken: Leases, p: nat, a: Action)
    requires HistoryOk(w, taken) && p < |w.procs| && OtherStep(w.store, w.procs[p], Step(c, p, w.store, w.procs[p], a))
    ensures HistoryOk(Do(c, w, Act(p, a)), taken)
  {
    var w' := Do(c, w, Act(p, a));
    assert PositionOk(w.store, w.procs[p], taken[p]);
    forall q: nat ensures Unreleased(w', taken, q) <==> Unreleased(w, taken, q) {
      if q < |taken| && q != p && taken[q].Some? && Processing(w.procs[p]) {
        assert taken[q].value.token != taken[p].value.token;
      }
    }
    forall q | 0 <= q < |taken| && q != p ensures PositionOk(w'.store, w'.procs[q], taken[q]) {
      assert PositionOk(w.store, w.procs[q], taken[q]);
      if taken[q].Some? && Processing(w.procs[p]) {
        assert taken[q].value.token != taken[p].value.token;
      }
    }
  }

  lemma {:induction false} ReleaseKeeps(c: Config, w: World, taken: Leases, t: nat)
    requires HistoryOk(w, taken)
    ensures HistoryOk(Do(c, w, ReleaseLands(t)), taken)
  {
    var w' := Do(c, w, ReleaseLands(t));
    if t in w.store.releases {
      forall q: nat ensures Unreleased(w', taken, q) <==> Unreleased(w, taken, q) && taken[q].value.token != t {
        if q < |taken| {
          assert PositionOk(w.store, w.procs[q], taken[q]);
        }
      }
      if RedisLock.Held(w'.store.lock, w'.store.now) {
        var q: nat :| Unreleased(w, taken, q) && taken[q] == w.store.lock;
        assert Unreleased(w', taken, q);
      }
    }
  }

  lemma {:induction false} TickKeeps(c: Config, w: World, taken: Leases, seconds: nat)
    requires HistoryOk(w, taken)
    ensures HistoryOk(Do(c, w, Tick(seconds)), taken)
  {
    var w' := Do(c, w, Tick(seconds));
    forall q: nat | Unreleased(w', taken, q) ensures Unreleased(w, taken, q) {}
    if RedisLock.Held(w'.store.lock, w'.store.now) {
      var q: nat :| Unreleased(w, taken, q) && taken[q] == w.store.lock;
      assert Unreleased(w', taken, q);
    }
  }

  lemma {:induction false} RunIsOk(c: Config, n: nat, evs: seq<Event>)
    ensures HistoryOk(Run(c, Init(n), evs), Taken(c, n, evs))
    decreases |evs|
  {
    if evs == [] {
    } else {
      var front, last := evs[..|evs| - 1], evs[|evs| - 1];
      var w, taken := Run(c, Init(n), front), Taken(c, n, front);
      RunIsOk(c, n, front);
      RunLast(c, n, evs);
      match last
      case Tick(seconds) => TickKeeps(c, w, taken, seconds);
      case ReleaseLands(t) => ReleaseKeeps(c, w, taken, t);
      case Act(p, a) =>
        if p < n {
          StepFrame(c, p, w.store, w.procs[p], a);
          if Takes(c, w, last, p) {
            TakeKeeps(c, w, taken, p);
          } else {
            OtherKeeps(c, w, taken, p, a);
          }
        }
    }
  }

  /**
   * In every run, an instance that tries the lock is refused if and only if some instance took
   * it less than 120 seconds ago and is still at work, has died, or has returned without its
   * release having landed.
   */
  lemma {:induction false} LockRefusedIff(c: Config, n: nat, evs: seq<Event>, p: nat)
    requires p < n && |Run(c, Init(n), evs).procs| == n && Run(c, Init(n), evs).procs[p].TryLock?
    ensures var w := Run(c, Init(n), evs);
      Do(c, w, Act(p, Go)).procs[p].Waiting? <==> SomeoneHolds(w, Taken(c, n, evs))
  {
    RunIsOk(c, n, evs);
    var w, taken := Run(c, Init(n), evs), Taken(c, n, evs);
    assert RedisLock.Held(w.store.lock, w.store.now) <==> SomeoneHolds(w, taken) by {
      if q: nat :| Unreleased(w, taken, q) {
        assert w.store.lock == taken[q];
      }
    }
    var pc := Advance(c, w.store, w.procs[p]).pc;
    assert pc == Acquire(w.store, w.procs[p].recovery).pc;
    assert pc.Waiting? <==> RedisLock.Held(w.store.lock, w.store.now);
    assert Do(c, w, Act(p, Go)).procs[p] == pc;
  }

  // ------------------------------------------------------------- what was read

  /** Event `k` of the run is a read by instance `p` at a given position. */
  ghost predicate ReadAt(c: Config, n: nat, evs: seq<Event>, p: nat, k: nat) {
    k < |evs| && evs[k] == Act(p, Go) && p < |Run(c, Init(n), evs[..k]).procs|
  }

  ghost predicate MarkerRead(c: Config, n: nat, evs: seq<Event>, p: nat, completed: bool, k: nat) {
    && ReadAt(c, n, evs, p, k)
    && var w := Run(c, Init(n), evs[..k]);
       w.procs[p].ReadCompleted? && (completed <==> w.store.status == Completed)
  }

  /** Flag `f` was read, and found as recorded. */
  ghost predicate FlagWasRead(c: Config, n: nat, evs: seq<Event>, p: nat, f: nat, seen: set<Repo>, k: nat)
    requires f <= LAST
  {
    && ReadAt(c, n, evs, p, k)
    && var w := Run(c, Init(n), evs[..k]);
       && w.procs[p].ReadFlags? && w.procs[p].next == f
       && (FlagRepo(f) in seen <==> HasEntries(w.store.listed, FlagRepo(f)))
  }

  ghost predicate FlagOk(c: Config, n: nat, evs: seq<Event>, p: nat, f: nat, seen: set<Repo>) {
    f <= LAST && exists k: nat :: FlagWasRead(c, n, evs, p, f, seen, k)
  }

  ghost predicate ReadsOk(c: Config, n: nat, evs: seq<Event>, p: nat, pc: Pc) {
    && (pc.ReadInProgress? || pc.ReadFlags? ==> exists k: nat :: MarkerRead(c, n, evs, p, pc.completed, k))
    && (pc.ReadFlags? ==>
          && pc.next <= LAST
          && (forall f: nat :: f < pc.next ==> FlagOk(c, n, evs, p, f, pc.seen))
          && forall f: nat :: pc.next <= f <= LAST ==> FlagRepo(f) !in pc.seen)
  }

  lemma {:induction false} MarkerStays(c: Config, n: nat, evs: seq<Event>, p: nat, completed: bool, k: nat)
    requires evs != [] && MarkerRead(c, n, evs[..|evs| - 1], p, completed, k)
    ensures MarkerRead(c, n, evs, p, completed, k)
  {
    assert evs[..|evs| - 1][..k] == evs[..k];
  }

  lemma {:induction false} FlagStays(c: Config, n: nat, evs: seq<Event>, p: nat, f: nat,
                                     seen: set<Repo>, more: set<Repo>, k: nat)
    requires f <= LAST && evs != [] && FlagWasRead(c, n, evs[..|evs| - 1], p, f, seen, k)
    requires FlagRepo(f) in seen <==> FlagRepo(f) in more
    ensures FlagWasRead(c, n, evs, p, f, more, k)
  {
    assert evs[..|evs| - 1][..k] == evs[..k];
  }

  lemma {:induction false} ReadsStay(c: Config, n: nat, evs: seq<Event>, p: nat, pc: Pc)
    requires evs != [] && ReadsOk(c, n, evs[..|evs| - 1], p, pc)
    ensures ReadsOk(c, n, evs, p, pc)
  {
    var front := evs[..|evs| - 1];
    if pc.ReadInProgress? || pc.ReadFlags? {
      var k: nat :| MarkerRead(c, n, front, p, pc.completed, k);
      MarkerStays(c, n, evs, p, pc.completed, k);
    }
    if pc.ReadFlags? {
      forall f: nat | f < pc.next ensures FlagOk(c, n, evs, p, f, pc.seen) {
        assert FlagOk(c, n, front, p, f, pc.seen);
        var k: nat :| FlagWasRead(c, n, front, p, f, pc.seen, k);
        FlagStays(c, n, evs, p, f, pc.seen, pc.seen, k);
      }
    }
  }

  lemma {:induction false} FlagReads(c: Config, n: nat, evs: seq<Event>, p: nat)
    requires evs != [] && evs[|evs| - 1] == Act(p, Go)
    requires var w := Run(c, Init(n), evs[..|evs| - 1]);
      p < |w.procs| && w.procs[p].ReadFlags? && ReadsOk(c, n, evs[..|evs| - 1], p, w.procs[p])
    ensures var w := Run(c, Init(n), evs[..|evs| - 1]); ReadsOk(c, n, evs, p, ReadFlag(c, w.store, w.procs[p]).pc)
  {
    var front, last := evs[..|evs| - 1], |evs| - 1;
    var w := Run(c, Init(n), front);
    var pc := w.procs[p];
    ReadsStay(c, n, evs, p, pc);
    var pc' := ReadFlag(c, w.store, pc).pc;
    if pc'.ReadFlags? {
      forall f: nat | f < pc'.next ensures FlagOk(c, n, evs, p, f, pc'.seen) {
        if f < pc.next {
          assert FlagOk(c, n, front, p, f, pc.seen);
          var k: nat :| FlagWasRead(c, n, front, p, f, pc.seen, k);
          OtherFlag(f, pc.next);
          FlagStays(c, n, evs, p, f, pc.seen, pc'.seen, k);
        } else {
          assert FlagWasRead(c, n, evs, p, f, pc'.seen, last);
        }
      }
      forall f: nat | pc'.next <= f <= LAST ensures FlagRepo(f) !in pc'.seen {
        OtherFlag(f, pc.next);
      }
    }
  }

  lemma {:induction false} OtherFlag(f: nat, g: nat)
    requires f <= LAST && g <= LAST
    ensures FlagRepo(f) == FlagRepo(g) <==> f == g
  {
    assert FlagOf(FlagRepo(f)) == f && FlagOf(FlagRepo(g)) == g;
  }

  /**
   * In every run, what an instance knows under the lock it has read there itself: the marker
   * as it was at that moment, and each flag as the lists were when it read that flag.
   */
  lemma {:induction false} ReadsAreReal(c: Config, n: nat, evs: seq<Event>, p: nat)
    requires p < n
    ensures |Run(c, Init(n), evs).procs| == n && ReadsOk(c, n, evs, p, Run(c, Init(n), evs).procs[p])
    decreases |evs|
  {
    ProcsStay(c, n, evs);
    if evs == [] {
    } else {
      var front, last := evs[..|evs| - 1], evs[|evs| - 1];
      var w := Run(c, Init(n), front);
      ReadsAreReal(c, n, front, p);
      RunLast(c, n, evs);
      ReadsStay(c, n, evs, p, w.procs[p]);
      if last == Act(p, Go) && w.procs[p].ReadFlags? {
        FlagReads(c, n, evs, p);
      } else if last == Act(p, Go) && w.procs[p].ReadCompleted? {
        assert MarkerRead(c, n, evs, p, w.store.status == Completed, |front|);
      } else if last.Act? && last.p == p {
        OtherReads(c, p, w.store, w.procs[p], last.a);
      }
    }
  }

  /** Other commands do not touch what was read. */
  lemma {:induction false} OtherReads(c: Config, p: nat, s: Store, pc: Pc, a: Action)
    requires !(a.Go? && (pc.ReadFlags? || pc.ReadCompleted?))
    ensures var pc' := Step(c, p, s, pc, a).pc;
      && (pc'.ReadInProgress? ==> pc' == pc)
      && (pc'.ReadFlags? ==> pc' == pc || (pc.ReadInProgress? && pc' == ReadFlags(pc.token, pc.completed, 0, {})))
  {}
}
