/**
 * How a start ends: exactly which command makes an instance return, with success or with
 * failure, and how often it can try before that.
 */
module StartOutcome {
  import opened ConfigBootstrap
  import opened CommitRecord
  import opened FailClosed
  import opened CreateCollision

  /** The flags an instance has read once it reads the last one. */
  function AllFlags(s: Store, pc: Pc): set<Repo>
    requires pc.ReadFlags?
  {
    if HasEntries(s.listed, ApiKeys) then pc.seen + {ApiKeys} else pc.seen
  }

  /** Some repository has entries and a required one does not. */
  ghost predicate HalfPopulated(c: Config, seen: set<Repo>) {
    seen != {} && exists r: Repo :: Required(c, r) && r !in seen
  }

  /**
   * What ends a start in failure: an error at the lock or past it, the end of the extended
   * wait, a half-populated store, or a create that finds its entry in place.
   */
  ghost predicate FailsNow(c: Config, w: World, p: nat, ev: Event) {
    && ev.Act? && ev.p == p && p < |w.procs|
    && var pc := w.procs[p];
       match ev.a
       case Go => pc.ReadFlags? && pc.next == LAST && !pc.completed && HalfPopulated(c, AllFlags(w.store, pc))
       case Touch(_) => Collides(c, w, ev)
       case Fail => pc.TryLock? || Processing(pc)
       case AckLost => Processing(pc)
       case Timeout => pc == Waiting(true)
       case Crash => false
  }

  /** What ends it in success: the completion marker seen by a waiter or under the lock, or written. */
  ghost predicate SucceedsNow(w: World, p: nat, ev: Event) {
    && ev == Act(p, Go) && p < |w.procs|
    && var pc := w.procs[p];
       || ((pc.Waiting? || pc.Recheck?) && w.store.status == Completed)
       || (pc.ReadFlags? && pc.next == LAST && pc.completed)
       || pc.MarkCompleted?
  }

  lemma {:induction false} FlagsEnd(c: Config, s: Store, pc: Pc)
    requires pc.ReadFlags?
    ensures ReadFlag(c, s, pc).pc == Returned(true) <==> pc.next == LAST && pc.completed
    ensures ReadFlag(c, s, pc).pc == Returned(false) <==>
      pc.next == LAST && !pc.completed && HalfPopulated(c, AllFlags(s, pc))
  {
    var seen := AllFlags(s, pc);
    JudgeLaws(c, seen);
  }

  lemma {:induction false} StepEnds(c: Config, w: World, p: nat, ev: Event)
    requires p < |w.procs| && !w.procs[p].Returned?
    ensures var pc := Do(c, w, ev).procs[p];
      && (pc == Returned(false) <==> FailsNow(c, w, p, ev))
      && (pc == Returned(true) <==> SucceedsNow(w, p, ev))
  {
    if w.procs[p].ReadFlags? {
      FlagsEnd(c, w.store, w.procs[p]);
    }
  }

  /** Event `k` of the run is what ended the start of `p`. */
  ghost predicate EndsAt(c: Config, n: nat, evs: seq<Event>, p: nat, ok: bool, k: nat) {
    && k < |evs|
    && var w := Run(c, Init(n), evs[..k]);
       && p < |w.procs| && !w.procs[p].Returned?
       && if ok then SucceedsNow(w, p, evs[k]) else FailsNow(c, w, p, evs[k])
  }

  lemma {:induction false} ProcsStay(c: Config, n: nat, evs: seq<Event>)
    ensures |Run(c, Init(n), evs).procs| == n
    decreases |evs|
  {
    if evs == [] {
    } else {
      var front, last := evs[..|evs| - 1], evs[|evs| - 1];
      ProcsStay(c, n, front);
      RunLast(c, n, evs);
    }
  }

  lemma {:induction false} RunLast(c: Config, n: nat, evs: seq<Event>)
    requires evs != []
    ensures Run(c, Init(n), evs) == Do(c, Run(c, Init(n), evs[..|evs| - 1]), evs[|evs| - 1])
  {
    var front, last := evs[..|evs| - 1], evs[|evs| - 1];
    assert evs == front + [last];
    RunAppend(c, Init(n), front, [last]);
    RunOne(c, Run(c, Init(n), front), last);
  }

  /**
   * In every run an instance has returned success, or failure, if and only if one of the
   * listed events happened to it; nothing else ends a start, and nothing changes how it ended.
   */
  lemma {:induction false} OutcomeIff(c: Config, n: nat, evs: seq<Event>, p: nat, ok: bool)
    requires p < n
    ensures |Run(c, Init(n), evs).procs| == n
    ensures Run(c, Init(n), evs).procs[p] == Returned(ok) <==> exists k :: EndsAt(c, n, evs, p, ok, k)
    decreases |evs|
  {
    ProcsStay(c, n, evs);
    if evs == [] {
    } else {
      var last := |evs| - 1;
      var front := evs[..last];
      var w := Run(c, Init(n), front);
      ProcsStay(c, n, front);
      RunLast(c, n, evs);
      OutcomeIff(c, n, front, p, ok);
      if !w.procs[p].Returned? {
        StepEnds(c, w, p, evs[last]);
        assert EndsAt(c, n, evs, p, ok, last) <==> Run(c, Init(n), evs).procs[p] == Returned(ok);
      } else {
        assert Run(c, Init(n), evs).procs[p] == w.procs[p];
        assert !EndsAt(c, n, evs, p, ok, last);
      }
      forall k | 0 <= k < last ensures EndsAt(c, n, evs, p, ok, k) <==> EndsAt(c, n, front, p, ok, k) {
        assert evs[..k] == front[..k];
      }
    }
  }

  // ------------------------------------------------------------- how often it tries

  datatype Kind = LockAttempt | WaitEnds | Rechecks

  predicate Is(kind: Kind, pc: Pc, a: Action) {
    match kind
    case LockAttempt => pc.TryLock? && (a.Go? || a.Fail?)
    case WaitEnds => pc.Waiting? && a.Timeout?
    case Rechecks => pc.Recheck? && (a.Go? || a.Fail?)
  }

  /** How many events of a kind have happened to instance `p`. */
  function Count(c: Config, n: nat, evs: seq<Event>, p: nat, kind: Kind): nat
    decreases |evs|
  {
    if evs == [] then 0
    else
      var front, last := evs[..|evs| - 1], evs[|evs| - 1];
      var w := Run(c, Init(n), front);
      Count(c, n, front, p, kind)
      + if last.Act? && last.p == p && p < |w.procs| && Is(kind, w.procs[p], last.a) then 1 else 0
  }

  /** Attempts, ended waits and rechecks so far, by position. */
  predicate Tried(pc: Pc, attempts: nat, ended: nat, rechecks: nat) {
    match pc
    case TryLock(recovery) => attempts == ended == rechecks == if recovery then 1 else 0
    case Waiting(recovery) => ended == rechecks == (if recovery then 1 else 0) && attempts == ended + 1
    case Recheck => attempts == ended == 1 && rechecks == 0
    case Returned(_) => attempts <= 2 && ended <= 2 && rechecks <= 1
    case _ => attempts <= 2 && ended <= 1 && rechecks <= 1
  }

  lemma {:induction false} StepCounts(c: Config, p: nat, s: Store, pc: Pc, a: Action,
                                      attempts: nat, ended: nat, rechecks: nat)
    requires Tried(pc, attempts, ended, rechecks)
    ensures Tried(Step(c, p, s, pc, a).pc,
                  attempts + if Is(LockAttempt, pc, a) then 1 else 0,
                  ended + if Is(WaitEnds, pc, a) then 1 else 0,
                  rechecks + if Is(Rechecks, pc, a) then 1 else 0)
  {}

  /**
   * In every run an instance attempts the lock at most twice, waits at most twice to the end
   * and rechecks at most once in between; the second wait to end is the end of its start.
   */
  lemma {:induction false} TriesAreBounded(c: Config, n: nat, evs: seq<Event>, p: nat)
    requires p < n
    ensures |Run(c, Init(n), evs).procs| == n
    ensures Tried(Run(c, Init(n), evs).procs[p], Count(c, n, evs, p, LockAttempt),
                  Count(c, n, evs, p, WaitEnds), Count(c, n, evs, p, Rechecks))
    decreases |evs|
  {
    ProcsStay(c, n, evs);
    if evs == [] {
    } else {
      var front, last := evs[..|evs| - 1], evs[|evs| - 1];
      var w := Run(c, Init(n), front);
      TriesAreBounded(c, n, front, p);
      RunLast(c, n, evs);
      if last.Act? && last.p == p {
        StepCounts(c, p, w.store, w.procs[p], last.a, Count(c, n, front, p, LockAttempt),
                   Count(c, n, front, p, WaitEnds), Count(c, n, front, p, Rechecks));
      }
    }
  }
}
