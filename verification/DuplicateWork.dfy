/**
 * What the relayer initialization lock is for: not doing the work twice. Two successful
 * batches are 300 seconds apart in every run if and only if all instances have the same
 * relayers and nothing goes wrong: no command fails, no wait times out, and no instance
 * dies or loses its lease between taking the lock and dropping it.
 */
module DuplicateWork {
  import opened Options
  import RedisLock
  import opened RelayerInit

  /** What a run may contain besides successful commands and the passing of time. */
  datatype Fault =
    | Failure     // a command or a batch fails
    | Impatience  // a bounded wait ends
    | Lapse       // an instance dies, or its lease expires, while it holds a guard

  /** Between acquiring the lock and dropping the guard. */
  predicate InSection(pc: Pc) {
    (pc.Check? || pc.Batch? || pc.Recording?) && pc.token.Some?
  }

  predicate Holds(s: Store, pc: Pc)
    requires InSection(pc)
  {
    RedisLock.Held(s.lock, s.now) && s.lock.value.token == pc.token.value
  }

  ghost predicate KeepsLeases(w: World) {
    forall p :: 0 <= p < |w.procs| && InSection(w.procs[p]) ==> Holds(w.store, w.procs[p])
  }

  ghost predicate Permits(faults: set<Fault>, d: Deployment, w: World, ev: Event) {
    && (ev.Act? && ev.a.Fail? ==> Failure in faults)
    && (ev.Act? && ev.a.Timeout? ==> Impatience in faults)
    && (ev.Act? && ev.a.Crash? && ev.p < |w.procs| && InSection(w.procs[ev.p]) ==> Lapse in faults)
    && (Lapse !in faults ==> KeepsLeases(Do(d, w, ev)))
  }

  ghost predicate Orderly(faults: set<Fault>, d: Deployment, w: World, evs: seq<Event>)
    decreases |evs|
  {
    evs != [] ==> Permits(faults, d, w, evs[0]) && Orderly(faults, d, Do(d, w, evs[0]), evs[1..])
  }

  /** Any two successful batches are at least the staleness threshold apart. */
  ghost predicate Spaced(batches: set<Success>) {
    forall a, b :: a in batches && b in batches && a != b ==> a.at + STALENESS <= b.at || b.at + STALENESS <= a.at
  }

  ghost predicate NoDuplicateWork(faults: set<Fault>, d: Deployment) {
    forall evs :: Orderly(faults, d, Init(d), evs) ==> Spaced(Run(d, Init(d), evs).store.batches)
  }

  // ------------------------------------------------------------------ no duplicates

  /** Positions reached without failures or timeouts. */
  predicate Ordinary(pc: Pc) {
    match pc
    case TryLock(recovery) => !recovery
    case Waiting(recovery) => !recovery
    case Recheck => false
    case Batch(token, record) => token.Some? && record
    case Recording(token, _, _) => token.Some?
    case _ => true
  }

  /** All marks, of every relayer anywhere, are at least as late as `at`. */
  ghost predicate Recorded(d: Deployment, s: Store, at: nat) {
    && s.global.Some? && s.global.value >= at
    && forall q, k :: 0 <= q < |d| && 0 <= k < |d[q]| ==> d[q][k] in s.marks && s.marks[d[q][k]] >= at
  }

  /** Batches have been recorded, except for the one that instance `p` is recording. */
  ghost predicate HistoryOk(d: Deployment, s: Store, p: nat, pc: Pc) {
    forall b :: b in s.batches ==> b.at <= s.now && (Recorded(d, s, b.at) || (pc.Recording? && b.p == p))
  }

  ghost predicate StampOk(s: Store, stamp: Option<nat>) {
    stamp.Some? ==> stamp.value <= s.now && forall b :: b in s.batches ==> b.at <= stamp.value
  }

  ghost predicate MarkedUpTo(relayers: seq<string>, s: Store, pos: nat, at: nat) {
    pos <= |relayers| && forall k :: 0 <= k < pos ==> relayers[k] in s.marks && s.marks[relayers[k]] >= at
  }

  /** What the holder of the lock knows. */
  ghost predicate WorkOk(d: Deployment, s: Store, p: nat, pc: Pc)
    requires p < |d|
  {
    match pc
    case Batch(_, _) => forall b :: b in s.batches ==> b.at + STALENESS <= s.now
    case Recording(_, pos, stamp) =>
      StampOk(s, stamp) && pos <= |d[p]| && forall b :: b in s.batches && b.p == p ==> MarkedUpTo(d[p], s, pos, b.at)
    case _ => true
  }

  /** A mark that is not recent puts every recorded batch out of range. */
  lemma {:induction false} StaleMeansOld(d: Deployment, p: nat, s: Store, pc: Pc)
    requires p < |d| && pc.Check? && SoundPc(d, s, p, pc) && HistoryOk(d, s, p, pc)
    ensures var l := ReadMark(d[p], s, pc); l.pc.Batch? ==> WorkOk(d, s, p, l.pc)
  {
    var l := ReadMark(d[p], s, pc);
    if l.pc.Batch? && pc.next > 0 {
      var r := d[p][pc.next - 1];
      forall b | b in s.batches ensures b.at + STALENESS <= s.now {
        assert Recorded(d, s, b.at) && r in s.marks;
      }
    }
  }

  /** The last mark completes the record, because the sets are the same. */
  lemma {:induction false} RecordCompletes(d: Deployment, p: nat, s: Store, at: nat, stamp: nat)
    requires SameSets(d) && p < |d| && d[p] != [] && MarkedUpTo(d[p], s, |d[p]|, at) && at <= stamp
    ensures Recorded(d, s.(global := Some(stamp)), at)
  {
    forall q, k | 0 <= q < |d| && 0 <= k < |d[q]| ensures d[q][k] in s.marks && s.marks[d[q][k]] >= at {
      assert d[q][k] in d[q];
      assert d[q][k] in d[p];
    }
  }

  /** One step of recording. */
  lemma {:induction false} RecordStep(d: Deployment, p: nat, s: Store, pc: Pc)
    requires SameSets(d) && p < |d| && d[p] != [] && pc.Recording?
    requires HistoryOk(d, s, p, pc) && WorkOk(d, s, p, pc)
    ensures var l := Record(d[p], s, pc);
      && HistoryOk(d, l.store, p, l.pc) && WorkOk(d, l.store, p, l.pc) && l.store.batches == s.batches
  {
    var l := Record(d[p], s, pc);
    if pc.stamp.Some? {
      forall b | b in s.batches && Recorded(d, s, b.at) ensures Recorded(d, l.store, b.at) {}
      if pc.pos == |d[p]| {
        forall b | b in s.batches && b.p == p ensures Recorded(d, l.store, b.at) {
          RecordCompletes(d, p, s, b.at, pc.stamp.value);
        }
      }
    }
  }

  /** A step of the lock holder. */
  lemma {:induction false} HolderStep(d: Deployment, p: nat, s: Store, pc: Pc)
    requires SameSets(d) && p < |d| && SoundPc(d, s, p, pc) && InSection(pc) && Ordinary(pc)
    requires HistoryOk(d, s, p, pc) && WorkOk(d, s, p, pc) && Spaced(s.batches)
    ensures var l := Advance(d[p], p, s, pc);
      HistoryOk(d, l.store, p, l.pc) && WorkOk(d, l.store, p, l.pc) && Spaced(l.store.batches)
  {
    if pc.Check? {
      StaleMeansOld(d, p, s, pc);
    } else if pc.Recording? {
      RecordStep(d, p, s, pc);
    } else {
      BatchStep(d, p, s, pc);
    }
  }

  /** The batch itself: later than all others by the threshold. */
  lemma {:induction false} BatchStep(d: Deployment, p: nat, s: Store, pc: Pc)
    requires p < |d| && pc.Batch? && Ordinary(pc)
    requires HistoryOk(d, s, p, pc) && WorkOk(d, s, p, pc) && Spaced(s.batches)
    ensures var l := Advance(d[p], p, s, pc);
      HistoryOk(d, l.store, p, l.pc) && WorkOk(d, l.store, p, l.pc) && Spaced(l.store.batches)
  {
    var s' := Advance(d[p], p, s, pc).store;
    forall b | b in s.batches ensures Recorded(d, s', b.at) {
      assert Recorded(d, s, b.at);
    }
  }

  /** What a step of the lock holder does to the lock. */
  lemma {:induction false} HolderFrame(relayers: seq<string>, p: nat, s: Store, pc: Pc)
    requires InSection(pc) && Ordinary(pc)
    ensures var l := Advance(relayers, p, s, pc);
      && Ordinary(l.pc) && l.store.lock == s.lock && l.store.now == s.now && l.store.nextToken == s.nextToken
      && (if InSection(l.pc) then l.pc.token == pc.token && l.store.releases == s.releases
          else l.store.releases == s.releases + {pc.token.value})
  {}

  /** A step of an instance that does not hold the lock. */
  lemma {:induction false} OutsideFrame(relayers: seq<string>, p: nat, s: Store, pc: Pc, a: Action)
    requires !InSection(pc) && Ordinary(pc) && (a.Go? || a.Crash?)
    ensures var l := Step(relayers, p, s, pc, a);
      && Ordinary(l.pc) && l.store.releases == s.releases && l.store.now == s.now
      && l.store.batches == s.batches && l.store.marks == s.marks && l.store.global == s.global
      && (if InSection(l.pc)
          then !RedisLock.Held(s.lock, s.now) && l.pc == Check(Some(s.nextToken), 0, [])
               && Holds(l.store, l.pc) && l.store.nextToken == s.nextToken + 1
          else l.store.lock == s.lock && l.store.nextToken == s.nextToken)
  {}

  /** The part of the invariant about the lock. */
  ghost predicate LockOk(w: World) {
    && KeepsLeases(w)
    && (forall p :: 0 <= p < |w.procs| ==> Ordinary(w.procs[p]))
    && (forall t :: t in w.store.releases ==> t < w.store.nextToken)
    && (forall p :: 0 <= p < |w.procs| && InSection(w.procs[p]) ==>
          w.procs[p].token.value < w.store.nextToken && w.procs[p].token.value !in w.store.releases)
    && forall p, q :: 0 <= p < q < |w.procs| ==> !(InSection(w.procs[p]) && InSection(w.procs[q]))
  }

  /** The part about the work: `p` is the only one that may be recording. */
  ghost predicate WorldOk(d: Deployment, w: World) {
    && |w.procs| == |d| && Spaced(w.store.batches)
    && (forall b :: b in w.store.batches ==>
          b.at <= w.store.now && b.p < |d| && (Recorded(d, w.store, b.at) || w.procs[b.p].Recording?))
    && forall p :: 0 <= p < |d| && InSection(w.procs[p]) ==> WorkOk(d, w.store, p, w.procs[p])
  }

  ghost predicate Quiet(d: Deployment, w: World) {
    Inv(d, w) && LockOk(w) && WorldOk(d, w)
  }

  lemma {:induction false} LockStays(d: Deployment, w: World, ev: Event)
    requires |w.procs| == |d| && LockOk(w) && Permits({}, d, w, ev)
    ensures LockOk(Do(d, w, ev))
  {
    if ev.Act? && ev.p < |d| {
      if InSection(w.procs[ev.p]) {
        HolderFrame(d[ev.p], ev.p, w.store, w.procs[ev.p]);
      } else {
        OutsideFrame(d[ev.p], ev.p, w.store, w.procs[ev.p], ev.a);
      }
    }
  }

  /** The lock holder is the only one that can be recording. */
  lemma {:induction false} HolderHistory(d: Deployment, w: World, p: nat)
    requires p < |d| == |w.procs| && LockOk(w) && WorldOk(d, w) && InSection(w.procs[p])
    ensures HistoryOk(d, w.store, p, w.procs[p])
  {
    forall b | b in w.store.batches && w.procs[b.p].Recording? ensures b.p == p {
      assert Ordinary(w.procs[b.p]) && InSection(w.procs[b.p]);
    }
  }

  lemma {:induction false} HolderWork(d: Deployment, w: World, p: nat)
    requires SameSets(d) && Quiet(d, w) && p < |d| && InSection(w.procs[p])
    requires Inv(d, Do(d, w, Act(p, Go))) && LockOk(Do(d, w, Act(p, Go)))
    ensures WorldOk(d, Do(d, w, Act(p, Go)))
  {
    var w' := Do(d, w, Act(p, Go));
    HolderHistory(d, w, p);
    assert SoundPc(d, w.store, p, w.procs[p]) && Ordinary(w.procs[p]);
    HolderStep(d, p, w.store, w.procs[p]);
    BatchesOf(d[p], p, w.store, w.procs[p]);
  }

  lemma {:induction false} BatchesOf(relayers: seq<string>, p: nat, s: Store, pc: Pc)
    ensures var l := Advance(relayers, p, s, pc);
      forall b :: b in l.store.batches ==> b in s.batches || b.p == p
  {}

  lemma {:induction false} OutsideWork(d: Deployment, w: World, p: nat, a: Action)
    requires Quiet(d, w) && p < |d| && !InSection(w.procs[p]) && (a.Go? || a.Crash?)
    ensures WorldOk(d, Do(d, w, Act(p, a)))
  {
    var w' := Do(d, w, Act(p, a));
    assert Ordinary(w.procs[p]);
    OutsideFrame(d[p], p, w.store, w.procs[p], a);
    forall b | b in w'.store.batches ensures Recorded(d, w'.store, b.at) || w'.procs[b.p].Recording? {
      if Recorded(d, w.store, b.at) {
        assert Recorded(d, w'.store, b.at);
      } else {
        assert w.procs[b.p].Recording? && InSection(w.procs[b.p]);
      }
    }
    forall q | 0 <= q < |d| && InSection(w'.procs[q]) ensures WorkOk(d, w'.store, q, w'.procs[q]) {
      if q != p {
        WorkFrame(d, w.store, w'.store, q, w.procs[q]);
      }
    }
  }

  /** The holder's knowledge depends on the marks, the history and the time only, and time may pass. */
  lemma {:induction false} WorkFrame(d: Deployment, s: Store, s': Store, p: nat, pc: Pc)
    requires p < |d| && WorkOk(d, s, p, pc)
    requires s'.batches == s.batches && s'.marks == s.marks && s'.global == s.global && s.now <= s'.now
    ensures WorkOk(d, s', p, pc)
  {
    if pc.Recording? {
      forall b | b in s.batches && b.p == p ensures MarkedUpTo(d[p], s', pc.pos, b.at) {
        assert MarkedUpTo(d[p], s, pc.pos, b.at);
      }
    }
  }

  lemma {:induction false} StillWork(d: Deployment, w: World, ev: Event)
    requires Quiet(d, w) && !ev.Act?
    ensures WorldOk(d, Do(d, w, ev))
  {
    var w' := Do(d, w, ev);
    forall b | b in w'.store.batches && Recorded(d, w.store, b.at) ensures Recorded(d, w'.store, b.at) {}
    forall q | 0 <= q < |d| && InSection(w'.procs[q]) ensures WorkOk(d, w'.store, q, w'.procs[q]) {
      WorkFrame(d, w.store, w'.store, q, w.procs[q]);
    }
  }

  lemma {:induction false} DoKeepsQuiet(d: Deployment, w: World, ev: Event)
    requires SameSets(d) && Quiet(d, w) && Permits({}, d, w, ev)
    ensures Quiet(d, Do(d, w, ev))
  {
    DoKeepsInv(d, w, ev);
    LockStays(d, w, ev);
    if !ev.Act? {
      StillWork(d, w, ev);
    } else if ev.p < |d| {
      if InSection(w.procs[ev.p]) {
        HolderWork(d, w, ev.p);
      } else {
        OutsideWork(d, w, ev.p, ev.a);
      }
    }
  }

  lemma {:induction false} RunKeepsQuiet(d: Deployment, w: World, evs: seq<Event>)
    requires SameSets(d) && Quiet(d, w) && Orderly({}, d, w, evs)
    ensures Quiet(d, Run(d, w, evs))
    decreases |evs|
  {
    if evs == [] {
    } else {
      DoKeepsQuiet(d, w, evs[0]);
      RunKeepsQuiet(d, Do(d, w, evs[0]), evs[1..]);
    }
  }

  // ------------------------------------------------------------------ duplicates

  /** Nothing an instance does takes a lease away from another one. */
  lemma {:induction false} ActKeepsLeases(d: Deployment, w: World, p: nat, a: Action)
    requires KeepsLeases(w)
    ensures KeepsLeases(Do(d, w, Act(p, a)))
  {}

  /** Successful commands, and those faults of instances that are allowed. */
  ghost predicate Acting(faults: set<Fault>, evs: seq<Event>) {
    forall k :: 0 <= k < |evs| ==> evs[k].Act? && Allowed(faults, evs[k].a)
  }

  predicate Allowed(faults: set<Fault>, a: Action) {
    match a
    case Go => true
    case Fail => Failure in faults
    case Timeout => Impatience in faults
    case Crash => false
  }

  lemma {:induction false} ActingIsOrderly(faults: set<Fault>, d: Deployment, w: World, evs: seq<Event>)
    requires KeepsLeases(w) && Acting(faults, evs)
    ensures Orderly(faults, d, w, evs) && KeepsLeases(Run(d, w, evs))
    decreases |evs|
  {
    if evs == [] {
    } else {
      assert evs[0].Act?;
      ActKeepsLeases(d, w, evs[0].p, evs[0].a);
      assert forall k :: 0 <= k < |evs[1..]| ==> evs[1..][k] == evs[k + 1];
      ActingIsOrderly(faults, d, Do(d, w, evs[0]), evs[1..]);
    }
  }

  lemma {:induction false} OrderlyAppend(faults: set<Fault>, d: Deployment, w: World, a: seq<Event>, b: seq<Event>)
    requires Orderly(faults, d, w, a) && Orderly(faults, d, Run(d, w, a), b)
    ensures Orderly(faults, d, w, a + b) && Run(d, w, a + b) == Run(d, Run(d, w, a), b)
    decreases |a|
  {
    if a == [] {
      assert a + b == b;
    } else {
      assert (a + b)[1..] == a[1..] + b;
      OrderlyAppend(faults, d, Do(d, w, a[0]), a[1..], b);
    }
  }

  lemma {:induction false} OrderlyOne(faults: set<Fault>, d: Deployment, w: World, ev: Event)
    requires Permits(faults, d, w, ev)
    ensures Orderly(faults, d, w, [ev]) && Run(d, w, [ev]) == Do(d, w, ev)
  {
    assert [ev][1..] == [];
  }

  /** A run with two batches less than the threshold apart. */
  ghost predicate Duplicates(faults: set<Fault>, d: Deployment, evs: seq<Event>) {
    Orderly(faults, d, Init(d), evs) && !Spaced(Run(d, Init(d), evs).store.batches)
  }

  lemma {:induction false} NotSpaced(batches: set<Success>, a: Success, b: Success)
    requires a in batches && b in batches && a != b && a.at < b.at + STALENESS && b.at < a.at + STALENESS
    ensures !Spaced(batches)
  {}

  // A failure: two instances cannot reach the lock and initialize without it.

  function Unlocked(p: nat): seq<Event> {
    [Act(p, Go), Act(p, Fail), Act(p, Go)]
  }

  lemma {:induction false} UnlockedBatch(d: Deployment, w: World, p: nat)
    requires |w.procs| == |d| && p < |d| && w.procs[p] == Check(None, 0, []) && w.store.global.None?
    ensures Run(d, w, Unlocked(p)) ==
      World(w.store.(batches := w.store.batches + {Success(p, w.store.now)}), w.procs[p := Returned(RanBatch)])
  {
    RunTwo(d, w, Unlocked(p));
    var w2 := Do(d, Do(d, w, Act(p, Go)), Act(p, Fail));
    assert w2 == World(w.store, w.procs[p := Batch(None, false)]);
    assert Unlocked(p)[2..] == [Act(p, Go)] && [Act(p, Go)][1..] == [];
  }

  lemma {:induction false} FailureDuplicates(faults: set<Fault>, d: Deployment, i: nat, j: nat)
    requires Failure in faults && Rivals(d, i, j)
    ensures Duplicates(faults, d, Unlocked(i) + Unlocked(j))
  {
    var w0 := Init(d);
    var w1 := Run(d, w0, Unlocked(i));
    UnlockedBatch(d, w0, i);
    UnlockedBatch(d, w1, j);
    RunAppend(d, w0, Unlocked(i), Unlocked(j));
    ActingIsOrderly(faults, d, w0, Unlocked(i) + Unlocked(j));
    NotSpaced(Run(d, w1, Unlocked(j)).store.batches, Success(i, 0), Success(j, 0));
  }

  // A lapse: the holder stops after its batch, before anything is recorded.

  function Overtaken(i: nat, j: nat): seq<Event> {
    Steps(j, 4) + [Tick(LOCK_TTL)] + Steps(i, 4)
  }

  lemma {:induction false} LapseDuplicates(faults: set<Fault>, d: Deployment, i: nat, j: nat)
    requires Lapse in faults && Rivals(d, i, j)
    ensures Duplicates(faults, d, Overtaken(i, j))
  {
    var w0, tick := Init(d), Tick(LOCK_TTL);
    LockedBatch(d, w0, j);
    ActingIsOrderly(faults, d, w0, Steps(j, 4));
    var w1 := Run(d, w0, Steps(j, 4));
    var w2 := Do(d, w1, tick);
    OrderlyOne(faults, d, w1, tick);
    OrderlyAppend(faults, d, w0, Steps(j, 4), [tick]);
    LockedBatch(d, w2, i);
    StepsAreOrderly(faults, d, w2, i, 4);
    OrderlyAppend(faults, d, w0, Steps(j, 4) + [tick], Steps(i, 4));
    NotSpaced(Run(d, w2, Steps(i, 4)).store.batches, Success(j, 0), Success(i, LOCK_TTL));
  }

  /** With lapses allowed, successful commands need nothing else. */
  lemma {:induction false} StepsAreOrderly(faults: set<Fault>, d: Deployment, w: World, p: nat, k: nat)
    requires Lapse in faults
    ensures Orderly(faults, d, w, Steps(p, k))
    decreases k
  {
    if k == 0 {
    } else {
      assert Steps(p, k)[1..] == Steps(p, k - 1);
      StepsAreOrderly(faults, d, Do(d, w, Act(p, Go)), p, k - 1);
    }
  }

  // The others need a first instance that finishes and releases the lock.

  /** Instance `j` records its batch, and its release lands. */
  function Closing(d: Deployment, j: nat): seq<Event>
    requires j < |d|
  {
    Steps(j, 2 * |d[j]| + 2) + [ReleaseLands(0)]
  }

  /** Where the first batch is recorded and released, and `i` is anywhere outside the section. */
  ghost predicate Closed(d: Deployment, w: World, i: nat, j: nat, pc: Pc)
    requires Rivals(d, i, j)
  {
    && |w.procs| == |d| && w.procs[i] == pc
    && (forall q :: 0 <= q < |d| ==> !InSection(w.procs[q]))
    && w.store.now == 0 && w.store.lock.None? && w.store.nextToken == 1 && w.store.global == Some(0)
    && w.store.batches == {Success(j, 0)}
    && (forall r :: r in w.store.marks <==> r in d[j]) && (forall r :: r in d[j] ==> w.store.marks[r] == 0)
  }

  lemma {:induction false} AfterClosing(faults: set<Fault>, d: Deployment, w: World, i: nat, j: nat, pc: Pc)
    requires Rivals(d, i, j) && !InSection(pc)
    requires w == World(Batched(Init(d).store, j), Init(d).procs[i := pc][j := Recording(Some(0), 0, None)])
    ensures Orderly(faults, d, w, Closing(d, j)) && Closed(d, Run(d, w, Closing(d, j)), i, j, pc)
  {
    var steps, release := Steps(j, 2 * |d[j]| + 2), ReleaseLands(0);
    var w1 := Run(d, w, steps);
    RecordsAll(d, w, j, |d[j]|);
    assert d[j][0..] == d[j];
    AllMarked(map[], d[j], 0);
    ActingIsOrderly(faults, d, w, steps);
    var w2 := Do(d, w1, release);
    assert w1.store.lock == Some(RedisLock.Lease(0, LOCK_TTL)) && 0 in w1.store.releases;
    assert {} + {Success(j, 0)} == {Success(j, 0)};
    assert Closed(d, w2, i, j, pc);
    OrderlyOne(faults, d, w1, release);
    OrderlyAppend(faults, d, w, steps, [release]);
  }

  // A wait that ends: `i` finds nothing completed, and does not look again once it has the lock.

  function GivesUp(i: nat): seq<Event> {
    [Act(i, Go), Act(i, Timeout), Act(i, Go)]
  }

  lemma {:induction false} AfterGivingUp(d: Deployment, w: World, i: nat)
    requires |w.procs| == |d| && i < |d| && w.procs[i] == TryLock(false)
    requires RedisLock.Held(w.store.lock, w.store.now) && w.store.global.None?
    ensures Run(d, w, GivesUp(i)) == World(w.store, w.procs[i := TryLock(true)])
  {
    var w1 := Do(d, w, Act(i, Go));
    assert w1 == World(w.store, w.procs[i := Waiting(false)]);
    var w2 := Do(d, w1, Act(i, Timeout));
    assert w2 == World(w.store, w.procs[i := Recheck]);
    RunTwo(d, w, GivesUp(i));
    assert GivesUp(i)[2..] == [Act(i, Go)] && [Act(i, Go)][1..] == [];
  }

  lemma {:induction false} TakesOver(d: Deployment, w: World, i: nat, j: nat)
    requires Rivals(d, i, j) && Closed(d, w, i, j, TryLock(true))
    ensures Run(d, w, Steps(i, 2)).store.batches == {Success(j, 0), Success(i, 0)}
  {
    var w1 := Do(d, w, Act(i, Go));
    assert w1.procs[i] == Batch(Some(1), true) && w1.store.batches == w.store.batches && w1.store.now == 0;
    assert Steps(i, 2) == [Act(i, Go), Act(i, Go)] && Steps(i, 2)[2..] == [];
    RunTwo(d, w, Steps(i, 2));
  }

  function Impatient(d: Deployment, i: nat, j: nat): seq<Event>
    requires j < |d|
  {
    Opening(i, j) + GivesUp(i) + Closing(d, j) + Steps(i, 2)
  }

  lemma {:induction false} ImpatienceDuplicates(faults: set<Fault>, d: Deployment, i: nat, j: nat)
    requires Impatience in faults && Rivals(d, i, j)
    ensures Duplicates(faults, d, Impatient(d, i, j))
  {
    var w0, lead := Init(d), Opening(i, j) + GivesUp(i);
    var w1 := Run(d, w0, Opening(i, j));
    AfterOpening(d, i, j);
    AfterGivingUp(d, w1, i);
    RunAppend(d, w0, Opening(i, j), GivesUp(i));
    ActingIsOrderly(faults, d, w0, lead);
    var w2 := Run(d, w0, lead);
    assert w2.procs == Init(d).procs[i := TryLock(true)][j := Recording(Some(0), 0, None)];
    AfterClosing(faults, d, w2, i, j, TryLock(true));
    OrderlyAppend(faults, d, w0, lead, Closing(d, j));
    var w3 := Run(d, w2, Closing(d, j));
    TakesOver(d, w3, i, j);
    ActingIsOrderly(faults, d, w3, Steps(i, 2));
    OrderlyAppend(faults, d, w0, lead + Closing(d, j), Steps(i, 2));
    NotSpaced(Run(d, w3, Steps(i, 2)).store.batches, Success(j, 0), Success(i, 0));
  }

  // Different sets: `i` finds a relayer without a mark.

  /** Reading marks up to the first one that is missing. */
  lemma {:induction false} ReadsToMissing(d: Deployment, w: World, i: nat, n: nat)
    requires |w.procs| == |d| && i < |d| && w.procs[i].Check? && InSection(w.procs[i]) && 0 < w.procs[i].next
    requires w.procs[i].next + n <= |d[i]| && d[i][w.procs[i].next + n - 1] !in w.store.marks
    requires forall k :: w.procs[i].next - 1 <= k < w.procs[i].next + n - 1 ==>
      Recent(Mark(w.store, d[i][k]), w.store.now)
    ensures Run(d, w, Steps(i, n + 1)) == World(w.store, w.procs[i := Batch(w.procs[i].token, true)])
    decreases n
  {
    var w1 := Do(d, w, Act(i, Go));
    assert Steps(i, n + 1)[1..] == Steps(i, n);
    if n == 0 {
      assert d[i][w.procs[i].next - 1] !in w.store.marks;
    } else {
      assert w1.store == w.store && w1.procs[i].next == w.procs[i].next + 1;
      ReadsToMissing(d, w1, i, n - 1);
      assert w1.procs[i := Batch(w.procs[i].token, true)] == w.procs[i := Batch(w.procs[i].token, true)];
    }
  }

  /** The position of the first relayer of `i` that `j` does not have. */
  lemma {:induction false} FirstMissing(a: seq<string>, b: seq<string>, r: string) returns (m: nat)
    requires r in a && r !in b
    ensures m < |a| && a[m] !in b && forall k :: 0 <= k < m ==> a[k] in b
    decreases |a|
  {
    if a[0] !in b {
      m := 0;
    } else {
      var k := FirstMissing(a[1..], b, r);
      m := k + 1;
    }
  }

  function Unequal(d: Deployment, i: nat, j: nat, m: nat): seq<Event>
    requires j < |d|
  {
    Opening(i, j) + Closing(d, j) + Steps(i, 2 + (m + 1) + 1)
  }

  lemma {:induction false} FindsMissing(d: Deployment, w: World, i: nat, j: nat, m: nat)
    requires Rivals(d, i, j) && Closed(d, w, i, j, TryLock(false))
    requires m < |d[i]| && d[i][m] !in d[j] && forall k :: 0 <= k < m ==> d[i][k] in d[j]
    ensures Run(d, w, Steps(i, 2 + (m + 1) + 1)).store.batches == {Success(j, 0), Success(i, 0)}
  {
    var w1 := Do(d, w, Act(i, Go));
    assert w1.procs[i] == Check(Some(1), 0, []);
    var w2 := Do(d, w1, Act(i, Go));
    assert w2.procs[i] == Check(Some(1), 1, []) && w2.store == w1.store && w2.store.marks == w.store.marks;
    ReadsToMissing(d, w2, i, m);
    var w3 := Run(d, w2, Steps(i, m + 1));
    var evs := Steps(i, 2 + (m + 1) + 1);
    assert evs[2..] == Steps(i, m + 1) + [Act(i, Go)];
    RunTwo(d, w, evs);
    RunAppend(d, w2, Steps(i, m + 1), [Act(i, Go)]);
    assert [Act(i, Go)][1..] == [];
    assert w3.procs[i] == Batch(Some(1), true);
  }

  lemma {:induction false} DifferenceDuplicates(faults: set<Fault>, d: Deployment, i: nat, j: nat, m: nat)
    requires Rivals(d, i, j)
    requires m < |d[i]| && d[i][m] !in d[j] && forall k :: 0 <= k < m ==> d[i][k] in d[j]
    ensures Duplicates(faults, d, Unequal(d, i, j, m))
  {
    var w0 := Init(d);
    var w1, last := Run(d, w0, Opening(i, j)), Steps(i, 2 + (m + 1) + 1);
    AfterOpening(d, i, j);
    ActingIsOrderly(faults, d, w0, Opening(i, j));
    AfterClosing(faults, d, w1, i, j, TryLock(false));
    OrderlyAppend(faults, d, w0, Opening(i, j), Closing(d, j));
    var w2 := Run(d, w1, Closing(d, j));
    FindsMissing(d, w2, i, j, m);
    ActingIsOrderly(faults, d, w2, last);
    OrderlyAppend(faults, d, w0, Opening(i, j) + Closing(d, j), last);
    NotSpaced(Run(d, w2, last).store.batches, Success(j, 0), Success(i, 0));
  }

  // ------------------------------------------------------------------ the theorem

  /**
   * Where at least two instances have relayers, successful batches are at least 300 seconds
   * apart in every run with the given kinds of fault, if and only if there are none and all
   * instances with relayers have the same ones.
   */
  lemma {:induction false} NoDuplicateWorkIff(faults: set<Fault>, d: Deployment, i: nat, j: nat)
    requires Rivals(d, i, j)
    ensures NoDuplicateWork(faults, d) <==> faults == {} && SameSets(d)
  {
    if faults != {} {
      var f :| f in faults;
      match f
      case Failure => FailureDuplicates(faults, d, i, j);
      case Impatience => ImpatienceDuplicates(faults, d, i, j);
      case Lapse => LapseDuplicates(faults, d, i, j);
    } else if SameSets(d) {
      forall evs | Orderly({}, d, Init(d), evs) ensures Spaced(Run(d, Init(d), evs).store.batches) {
        RunKeepsQuiet(d, Init(d), evs);
      }
    } else {
      var a: nat, b: nat, r :| a < |d| && b < |d| && d[b] != [] && r in d[a] && r !in d[b];
      var m := FirstMissing(d[a], d[b], r);
      DifferenceDuplicates(faults, d, a, b, m);
    }
  }
}
