/**
 * How relayer initialization ends for one instance: exactly which event makes it return and
 * how, that only a failed batch is an error, and that it can always go on to success.
 */
module RelayerOutcome {
  import opened Options
  import opened RelayerInit

  /** What an instance can return. */
  datatype Ending = Skip | Wait | Initialize | Error

  predicate EndedAs(pc: Pc, e: Ending) {
    && pc.Returned?
    && match e
       case Skip => pc.outcome.Skipped?
       case Wait => pc.outcome.Waited?
       case Initialize => pc.outcome.RanBatch?
       case Error => pc.outcome.BatchFailed?
  }

  /** The event that ends it, in terms of the marks and of the instance's position. */
  ghost predicate EndsNow(d: Deployment, w: World, p: nat, ev: Event, e: Ending)
    requires p < |d| && p < |w.procs|
  {
    && ev.Act? && ev.p == p
    && var pc, s, a := w.procs[p], w.store, ev.a;
       match e
       case Skip => // the last of its relayers is found fresh, after the global mark and all the others
         a.Go? && pc.Check? && 0 < pc.next == |d[p]| && Recent(Mark(s, d[p][pc.next - 1]), s.now)
       case Wait => // the global mark is found fresh
         a.Go? && (pc.Waiting? || pc.Recheck?) && Recent(s.global, s.now)
       case Initialize => // the batch succeeded; then all marks are written, or writing one failed, or none was due
         || (a.Go? && pc.Recording? && pc.pos >= |d[p]| && pc.stamp.Some?)
         || (a.Fail? && pc.Recording?)
         || (a.Go? && pc.Batch? && !pc.record)
       case Error => // a relayer of the batch could not be initialized
         a.Fail? && pc.Batch?
  }

  lemma {:induction false} StepEnds(d: Deployment, w: World, p: nat, ev: Event, e: Ending)
    requires p < |d| == |w.procs| && !w.procs[p].Returned?
    ensures EndedAs(Do(d, w, ev).procs[p], e) <==> EndsNow(d, w, p, ev, e)
  {}

  lemma {:induction false} RunLast(d: Deployment, evs: seq<Event>)
    requires evs != []
    ensures Run(d, Init(d), evs) == Do(d, Run(d, Init(d), evs[..|evs| - 1]), evs[|evs| - 1])
  {
    var front, last := evs[..|evs| - 1], evs[|evs| - 1];
    assert evs == front + [last];
    RunAppend(d, Init(d), front, [last]);
    assert [last][1..] == [];
  }

  ghost predicate EndsAt(d: Deployment, evs: seq<Event>, p: nat, e: Ending, k: nat)
    requires p < |d|
  {
    && k < |evs|
    && var w := Run(d, Init(d), evs[..k]);
       p < |w.procs| && !w.procs[p].Returned? && EndsNow(d, w, p, evs[k], e)
  }

  /**
   * In every run an instance that has relayers has skipped, waited, initialized, or returned
   * an error, if and only if the corresponding event happened to it. In particular it returns
   * an error exactly when its own batch failed.
   */
  lemma {:induction false} EndingIff(d: Deployment, evs: seq<Event>, p: nat, e: Ending)
    requires p < |d| && d[p] != []
    ensures |Run(d, Init(d), evs).procs| == |d|
    ensures EndedAs(Run(d, Init(d), evs).procs[p], e) <==> exists k :: EndsAt(d, evs, p, e, k)
    decreases |evs|
  {
    RunKeepsInv(d, Init(d), evs);
    if evs == [] {
    } else {
      var last := |evs| - 1;
      var front := evs[..last];
      var w := Run(d, Init(d), front);
      RunLast(d, evs);
      EndingIff(d, front, p, e);
      if !w.procs[p].Returned? {
        StepEnds(d, w, p, evs[last], e);
        assert EndsAt(d, evs, p, e, last) <==> EndedAs(Run(d, Init(d), evs).procs[p], e);
      } else {
        assert Run(d, Init(d), evs).procs[p] == w.procs[p];
        assert !EndsAt(d, evs, p, e, last);
      }
      forall k | 0 <= k < last ensures EndsAt(d, evs, p, e, k) <==> EndsAt(d, front, p, e, k) {
        assert evs[..k] == front[..k];
      }
    }
  }

  // ------------------------------------------------------------------ what is recorded

  /** An error happened to `p` at the lock, or anywhere. */
  ghost predicate Erred(d: Deployment, evs: seq<Event>, p: nat, atLock: bool) {
    exists k :: 0 <= k < |evs| && evs[k] == Act(p, Fail)
      && (atLock ==> p < |Run(d, Init(d), evs[..k]).procs| && Run(d, Init(d), evs[..k]).procs[p].TryLock?)
  }

  lemma {:induction false} ErredLast(d: Deployment, evs: seq<Event>, p: nat, atLock: bool)
    requires evs != []
    ensures var last := |evs| - 1;
      Erred(d, evs, p, atLock) <==>
        || Erred(d, evs[..last], p, atLock)
        || (evs[last] == Act(p, Fail) && (atLock ==>
              p < |Run(d, Init(d), evs[..last]).procs| && Run(d, Init(d), evs[..last]).procs[p].TryLock?))
  {
    var last := |evs| - 1;
    var front := evs[..last];
    forall k | 0 <= k < last ensures evs[..k] == front[..k] && evs[k] == front[k] {}
    if Erred(d, front, p, atLock) {
      var k :| 0 <= k < |front| && front[k] == Act(p, Fail)
        && (atLock ==> p < |Run(d, Init(d), front[..k]).procs| && Run(d, Init(d), front[..k]).procs[p].TryLock?);
      assert evs[k] == Act(p, Fail);
    }
  }

  /** The marks of the first `n` relayers exist. */
  ghost predicate MarkedFirst(relayers: seq<string>, s: Store, n: nat) {
    n <= |relayers| && forall k :: 0 <= k < n ==> relayers[k] in s.marks
  }

  /** A batch is followed by its marks unless the lock could not be reached, and by all of them unless one fails. */
  ghost predicate RecordsOk(relayers: seq<string>, s: Store, pc: Pc, lockErred: bool, erred: bool) {
    match pc
    case Check(_, _, _) => !lockErred
    case TryLock(_) => !lockErred
    case Waiting(_) => !lockErred
    case Recheck => !lockErred
    case Batch(token, record) => (record <==> !lockErred) && (lockErred ==> token.None?)
    case Recording(_, pos, _) => !lockErred && MarkedFirst(relayers, s, pos)
    case Returned(o) => o.RanBatch? && !erred ==> s.global.Some? && MarkedFirst(relayers, s, |relayers|)
    case Crashed => true
  }

  lemma {:induction false} StepRecords(relayers: seq<string>, p: nat, s: Store, pc: Pc, a: Action,
                                       lockErred: bool, erred: bool)
    requires RecordsOk(relayers, s, pc, lockErred, erred) && (lockErred ==> erred)
    requires pc.Check? ==> pc.next <= |relayers|
    ensures var l := Step(relayers, p, s, pc, a);
      RecordsOk(relayers, l.store, l.pc, lockErred || (a.Fail? && pc.TryLock?), erred || a.Fail?)
  {}

  /** Marks are never removed. */
  ghost predicate MarksGrow(s: Store, s': Store) {
    s.marks.Keys <= s'.marks.Keys && (s.global.Some? ==> s'.global.Some?)
  }

  lemma {:induction false} RecordsStay(relayers: seq<string>, s: Store, s': Store, pc: Pc, lockErred: bool, erred: bool)
    requires RecordsOk(relayers, s, pc, lockErred, erred) && MarksGrow(s, s')
    ensures RecordsOk(relayers, s', pc, lockErred, erred)
  {
    if pc.Recording? {
      assert forall k :: 0 <= k < pc.pos ==> relayers[k] in s.marks.Keys;
    }
    if pc.Returned? && pc.outcome.RanBatch? && !erred {
      assert forall k :: 0 <= k < |relayers| ==> relayers[k] in s.marks.Keys;
    }
  }

  lemma {:induction false} DoGrowsMarks(d: Deployment, w: World, ev: Event)
    ensures MarksGrow(w.store, Do(d, w, ev).store)
  {}

  /**
   * In every run a batch that follows a lock error is not recorded and every other one is: an
   * instance that initialized and met no error has left the global mark and a mark for each
   * of its relayers, also when it initialized as a last resort, without the lock.
   */
  lemma {:induction false} BatchesAreRecorded(d: Deployment, evs: seq<Event>, p: nat)
    requires p < |d| && d[p] != []
    ensures var w := Run(d, Init(d), evs);
      |w.procs| == |d| && RecordsOk(d[p], w.store, w.procs[p], Erred(d, evs, p, true), Erred(d, evs, p, false))
    decreases |evs|
  {
    RunKeepsInv(d, Init(d), evs);
    if evs == [] {
    } else {
      var front, last := evs[..|evs| - 1], evs[|evs| - 1];
      var w := Run(d, Init(d), front);
      RunKeepsInv(d, Init(d), front);
      BatchesAreRecorded(d, front, p);
      RunLast(d, evs);
      ErredLast(d, evs, p, true);
      ErredLast(d, evs, p, false);
      if last.Act? && last.p == p {
        assert SoundPc(d, w.store, p, w.procs[p]);
        StepRecords(d[p], p, w.store, w.procs[p], last.a, Erred(d, front, p, true), Erred(d, front, p, false));
      } else {
        DoGrowsMarks(d, w, last);
        RecordsStay(d[p], w.store, Do(d, w, last).store, w.procs[p],
                    Erred(d, front, p, true), Erred(d, front, p, false));
      }
    }
  }

  // ------------------------------------------------------------------ how often it tries

  datatype Kind = LockAttempt | WaitEnds | Rechecks

  predicate Is(kind: Kind, pc: Pc, a: Action) {
    match kind
    case LockAttempt => pc.TryLock? && (a.Go? || a.Fail?)
    case WaitEnds => pc.Waiting? && a.Timeout?
    case Rechecks => pc.Recheck? && (a.Go? || a.Fail?)
  }

  /** How many events of a kind have happened to instance `p`. */
  function Count(d: Deployment, evs: seq<Event>, p: nat, kind: Kind): nat
    decreases |evs|
  {
    if evs == [] then 0
    else
      var front, last := evs[..|evs| - 1], evs[|evs| - 1];
      var w := Run(d, Init(d), front);
      Count(d, front, p, kind)
      + if last.Act? && last.p == p && p < |w.procs| && Is(kind, w.procs[p], last.a) then 1 else 0
  }

  /** Attempts, ended waits and rechecks so far, by position. */
  predicate Tried(pc: Pc, attempts: nat, ended: nat, rechecks: nat) {
    match pc
    case Check(token, _, _) => ended == rechecks == 0 && attempts == if token.Some? then 1 else 0
    case TryLock(recovery) => attempts == ended == rechecks == if recovery then 1 else 0
    case Waiting(recovery) => ended == rechecks == (if recovery then 1 else 0) && attempts == ended + 1
    case Recheck => attempts == ended == 1 && rechecks == 0
    case Batch(token, record) =>
      if token.None? && record then attempts == ended == 2 && rechecks == 1
      else attempts == ended + 1 <= 2 && rechecks == ended
    case _ => attempts <= 2 && ended <= 2 && rechecks <= 1
  }

  lemma {:induction false} StepCounts(relayers: seq<string>, p: nat, s: Store, pc: Pc, a: Action,
                                      attempts: nat, ended: nat, rechecks: nat)
    requires Tried(pc, attempts, ended, rechecks)
    ensures Tried(Step(relayers, p, s, pc, a).pc,
                  attempts + if Is(LockAttempt, pc, a) then 1 else 0,
                  ended + if Is(WaitEnds, pc, a) then 1 else 0,
                  rechecks + if Is(Rechecks, pc, a) then 1 else 0)
  {}

  /**
   * In every run an instance attempts the lock at most twice and rechecks at most once, and
   * it initializes as a last resort, without the lock, only after two waits have ended.
   */
  lemma {:induction false} TriesAreBounded(d: Deployment, evs: seq<Event>, p: nat)
    requires p < |d|
    ensures |Run(d, Init(d), evs).procs| == |d|
    ensures Tried(Run(d, Init(d), evs).procs[p], Count(d, evs, p, LockAttempt),
                  Count(d, evs, p, WaitEnds), Count(d, evs, p, Rechecks))
    decreases |evs|
  {
    RunKeepsInv(d, Init(d), evs);
    if evs == [] {
    } else {
      var front, last := evs[..|evs| - 1], evs[|evs| - 1];
      var w := Run(d, Init(d), front);
      TriesAreBounded(d, front, p);
      RunLast(d, evs);
      if last.Act? && last.p == p {
        StepCounts(d[p], p, w.store, w.procs[p], last.a, Count(d, front, p, LockAttempt),
                   Count(d, front, p, WaitEnds), Count(d, front, p, Rechecks));
      }
    }
  }

  // ------------------------------------------------------------------ it can always go on

  /** What to hope for next: the end of a wait, or a command that succeeds. */
  function Onward(pc: Pc): Action {
    if pc.Waiting? then Timeout else Go
  }

  /** A bound on the steps left. */
  function Left(n: nat, pc: Pc): nat {
    match pc
    case Recording(_, pos, stamp) => (if pos < n then 2 * (n - pos) else 0) + if stamp.None? then 2 else 1
    case Batch(_, _) => 2 * n + 3
    case Waiting(recovery) => if recovery then 2 * n + 4 else 2 * n + 7
    case TryLock(recovery) => if recovery then 2 * n + 5 else 3 * n + 10
    case Recheck => 2 * n + 6
    case Check(token, next, _) =>
      (if token.Some? then 2 * n + 8 else 3 * n + 11) + if next <= n then n + 1 - next else 0
    case _ => 0
  }

  lemma {:induction false} GetsCloser(d: Deployment, p: nat, s: Store, pc: Pc)
    requires p < |d| && SoundPc(d, s, p, pc) && !pc.Returned? && !pc.Crashed?
    ensures var pc' := Step(d[p], p, s, pc, Onward(pc)).pc;
      !pc'.Crashed? && (Succeeded(pc') || (!pc'.Returned? && Left(|d[p]|, pc') < Left(|d[p]|, pc)))
  {}

  /**
   * From every reachable world, an instance that has neither returned nor died can go on to
   * success by its own steps, none of which fails, within a bound linear in its relayers.
   */
  lemma {:induction false} CanAlwaysSucceed(d: Deployment, w: World, p: nat) returns (evs: seq<Event>)
    requires Inv(d, w) && p < |d| && !w.procs[p].Returned? && !w.procs[p].Crashed?
    ensures p < |Run(d, w, evs).procs| && Succeeded(Run(d, w, evs).procs[p])
    ensures forall k :: 0 <= k < |evs| ==> evs[k] == Act(p, Go) || evs[k] == Act(p, Timeout)
    ensures |evs| <= Left(|d[p]|, w.procs[p]) <= 4 * |d[p]| + 12
    decreases Left(|d[p]|, w.procs[p])
  {
    var ev := Act(p, Onward(w.procs[p]));
    var w' := Do(d, w, ev);
    assert SoundPc(d, w.store, p, w.procs[p]);
    GetsCloser(d, p, w.store, w.procs[p]);
    DoKeepsInv(d, w, ev);
    if Succeeded(w'.procs[p]) {
      evs := [ev];
      assert evs[1..] == [];
    } else {
      var rest := CanAlwaysSucceed(d, w', p);
      evs := [ev] + rest;
      assert evs[1..] == rest;
    }
  }

  /** An event of an instance other than a poll that finds nothing. */
  predicate Moves(pc: Pc, a: Action) {
    match a
    case Timeout => pc.Waiting?
    case _ => !pc.Returned? && !pc.Crashed? && !pc.Waiting?
  }

  /** How many moves instance `p` has made. */
  function MovesOf(d: Deployment, evs: seq<Event>, p: nat): nat
    decreases |evs|
  {
    if evs == [] then 0
    else
      var front, last := evs[..|evs| - 1], evs[|evs| - 1];
      var w := Run(d, Init(d), front);
      MovesOf(d, front, p) + if last.Act? && last.p == p && p < |w.procs| && Moves(w.procs[p], last.a) then 1 else 0
  }

  lemma {:induction false} MoveGetsCloser(d: Deployment, p: nat, s: Store, pc: Pc, a: Action)
    requires p < |d| && SoundPc(d, s, p, pc)
    ensures var pc' := Step(d[p], p, s, pc, a).pc;
      Left(|d[p]|, pc') + (if Moves(pc, a) then 1 else 0) <= Left(|d[p]|, pc)
  {}

  /**
   * Whatever fails, times out or succeeds, every command brings an instance closer to its
   * end: in every run it makes at most `4n + 12` moves for its `n` relayers.
   */
  lemma {:induction false} MovesAreBounded(d: Deployment, evs: seq<Event>, p: nat)
    requires p < |d|
    ensures |Run(d, Init(d), evs).procs| == |d|
    ensures MovesOf(d, evs, p) + Left(|d[p]|, Run(d, Init(d), evs).procs[p]) <= 4 * |d[p]| + 12
    decreases |evs|
  {
    RunKeepsInv(d, Init(d), evs);
    if evs == [] {
    } else {
      var front, last := evs[..|evs| - 1], evs[|evs| - 1];
      var w := Run(d, Init(d), front);
      RunKeepsInv(d, Init(d), front);
      MovesAreBounded(d, front, p);
      RunLast(d, evs);
      if last.Act? && last.p == p {
        assert SoundPc(d, w.store, p, w.procs[p]);
        MoveGetsCloser(d, p, w.store, w.procs[p], last.a);
      }
    }
  }
}
