/**
 * Relayer initialization coordinated between instances (`src/bootstrap/initialize_relayers.rs`
 * with the marks of `src/utils/redis.rs`). As in the config bootstrap, every awaited Redis
 * command is one event and a run is any sequence of events. Time is in whole seconds, as
 * the marks are.
 */
module RelayerInit {
  import opened Options
  import RedisLock

  const LOCK_TTL: nat := 120
  const STALENESS: nat := 300

  /** The relayer ids each instance found in the repository when it started. */
  type Deployment = seq<seq<string>>

  /** A read mark and the time of the read. */
  datatype Reading = Reading(ts: nat, at: nat)

  /** How an instance came to return. */
  datatype Outcome =
    | NothingToDo
    | Skipped(readings: seq<Reading>)   // every own relayer was read as recently initialized
    | Waited(reading: Reading)          // the global mark was read as recent
    | RanBatch                          // its own batch succeeded
    | BatchFailed

  /** `token` is the lock value while the instance holds a guard. */
  datatype Pc =
    | Check(token: Option<nat>, next: nat, readings: seq<Reading>)
    | TryLock(recovery: bool)
    | Waiting(recovery: bool)
    | Recheck
    | Batch(token: Option<nat>, record: bool)
    | Recording(token: Option<nat>, pos: nat, stamp: Option<nat>)
    | Returned(outcome: Outcome)
    | Crashed

  /** A batch in which every relayer of instance `p` was initialized. */
  datatype Success = Success(p: nat, at: nat)

  /** Redis, the clock and the history of successful batches. */
  datatype Store = Store(
    marks: map<string, nat>, global: Option<nat>, lock: Option<RedisLock.Lease>,
    now: nat, nextToken: nat, releases: set<nat>, batches: set<Success>)

  datatype World = World(store: Store, procs: seq<Pc>)

  datatype Action = Go | Fail | Timeout | Crash
  datatype Event = Tick(seconds: nat) | ReleaseLands(token: nat) | Act(p: nat, a: Action)

  datatype Local = Local(store: Store, pc: Pc)

  function Start(relayers: seq<string>): Pc {
    if relayers == [] then Returned(NothingToDo) else Check(None, 0, [])
  }

  function Init(d: Deployment): World {
    World(Store(map[], None, None, 0, 0, {}, {}), seq(|d|, p requires 0 <= p < |d| => Start(d[p])))
  }

  predicate Recent(mark: Option<nat>, now: nat) {
    mark.Some? && now - mark.value < STALENESS
  }

  function Mark(s: Store, r: string): Option<nat> {
    if r in s.marks then Some(s.marks[r]) else None
  }

  /** Return, dropping the guard if there is one. */
  function Leave(s: Store, token: Option<nat>, outcome: Outcome): Local {
    Local(if token.Some? then s.(releases := s.releases + {token.value}) else s, Returned(outcome))
  }

  /** The relayer set was not recently initialized, or that could not be established. */
  function NotRecent(s: Store, token: Option<nat>): Local {
    Local(s, if token.Some? then Batch(token, true) else TryLock(false))
  }

  /** One read of `was_relayer_set_recently_initialized`: the global mark, then relayer by relayer. */
  function ReadMark(relayers: seq<string>, s: Store, pc: Pc): Local
    requires pc.Check?
  {
    if pc.next == 0 then
      if Recent(s.global, s.now) then Local(s, pc.(next := 1)) else NotRecent(s, pc.token)
    else if pc.next > |relayers| then Local(s, pc)
    else
      var mark := Mark(s, relayers[pc.next - 1]);
      if !Recent(mark, s.now) then NotRecent(s, pc.token)
      else
        var readings := pc.readings + [Reading(mark.value, s.now)];
        if pc.next == |relayers| then Leave(s, pc.token, Skipped(readings))
        else Local(s, pc.(next := pc.next + 1, readings := readings))
  }

  function Acquire(s: Store, recovery: bool): Local {
    match RedisLock.TryAcquire(s.lock, s.nextToken, LOCK_TTL, s.now)
    case Some(l) =>
      Local(s.(lock := Some(l), nextToken := s.nextToken + 1),
            if recovery then Batch(Some(s.nextToken), true) else Check(Some(s.nextToken), 0, []))
    case None => Local(s, Waiting(recovery))
  }

  function ReadGlobal(s: Store, otherwise: Pc): Local {
    Local(s, if Recent(s.global, s.now) then Returned(Waited(Reading(s.global.value, s.now))) else otherwise)
  }

  /** One mark: the timestamp is taken first, and the write lands later. */
  function Record(relayers: seq<string>, s: Store, pc: Pc): Local
    requires pc.Recording?
  {
    if pc.stamp.None? then Local(s, pc.(stamp := Some(s.now)))
    else if pc.pos < |relayers| then
      Local(s.(marks := s.marks[relayers[pc.pos] := pc.stamp.value]), pc.(pos := pc.pos + 1, stamp := None))
    else Leave(s.(global := pc.stamp), pc.token, RanBatch)
  }

  function Advance(relayers: seq<string>, p: nat, s: Store, pc: Pc): Local {
    match pc
    case Check(_, _, _) => ReadMark(relayers, s, pc)
    case TryLock(recovery) => Acquire(s, recovery)
    case Waiting(_) => ReadGlobal(s, pc)
    case Recheck => ReadGlobal(s, TryLock(true))
    case Batch(token, record) =>
      var s' := s.(batches := s.batches + {Success(p, s.now)});
      if record then Local(s', Recording(token, 0, None)) else Leave(s', token, RanBatch)
    case Recording(_, _, _) => Record(relayers, s, pc)
    case _ => Local(s, pc)
  }

  /** Failures degrade gracefully: an unreadable mark or lock leads to initializing anyway. */
  function Errored(s: Store, pc: Pc): Local {
    match pc
    case Check(token, _, _) => NotRecent(s, token)
    case TryLock(_) => Local(s, Batch(None, false))
    case Recheck => Local(s, TryLock(true))
    case Batch(token, _) => Leave(s, token, BatchFailed)
    case Recording(token, _, _) => Leave(s, token, RanBatch)
    case _ => Local(s, pc)
  }

  function Step(relayers: seq<string>, p: nat, s: Store, pc: Pc, a: Action): Local {
    match a
    case Go => Advance(relayers, p, s, pc)
    case Fail => Errored(s, pc)
    case Timeout =>
      if pc.Waiting? then Local(s, if pc.recovery then Batch(None, true) else Recheck) else Local(s, pc)
    case Crash => Local(s, if pc.Returned? then pc else Crashed)
  }

  function Do(d: Deployment, w: World, ev: Event): World {
    match ev
    case Tick(seconds) => w.(store := w.store.(now := w.store.now + seconds))
    case ReleaseLands(token) =>
      if token !in w.store.releases then w
      else w.(store := w.store.(lock := RedisLock.Release(w.store.lock, token),
                                releases := w.store.releases - {token}))
    case Act(p, a) =>
      if p >= |w.procs| || p >= |d| then w
      else
        var l := Step(d[p], p, w.store, w.procs[p], a);
        World(l.store, w.procs[p := l.pc])
  }

  function Run(d: Deployment, w: World, evs: seq<Event>): World
    decreases |evs|
  {
    if evs == [] then w else Run(d, Do(d, w, evs[0]), evs[1..])
  }

  // ------------------------------------------------------------------ what marks mean

  /** Relayer `r` was initialized by a successful batch that finished by time `at`. */
  ghost predicate InitializedBy(d: Deployment, s: Store, r: string, at: nat) {
    exists b :: b in s.batches && b.p < |d| && r in d[b.p] && b.at <= at
  }

  /** Some batch finished by time `at`. */
  ghost predicate BatchBy(d: Deployment, s: Store, at: nat) {
    exists b :: b in s.batches && b.p < |d| && d[b.p] != [] && b.at <= at
  }

  ghost predicate RanBy(s: Store, p: nat, at: nat) {
    exists b :: b in s.batches && b.p == p && b.at <= at
  }

  ghost predicate SoundStore(d: Deployment, s: Store) {
    && (forall r :: r in s.marks ==> s.marks[r] <= s.now && InitializedBy(d, s, r, s.marks[r]))
    && (s.global.Some? ==> s.global.value <= s.now && BatchBy(d, s, s.global.value))
  }

  /** A reading of a mark that was fresh when it was read. */
  ghost predicate Fresh(s: Store, g: Reading) {
    g.ts <= g.at <= s.now && g.at - g.ts < STALENESS
  }

  ghost predicate GoodReadings(d: Deployment, s: Store, relayers: seq<string>, readings: seq<Reading>) {
    && |readings| <= |relayers|
    && forall k :: 0 <= k < |readings| ==>
         Fresh(s, readings[k]) && InitializedBy(d, s, relayers[k], readings[k].ts)
  }

  ghost predicate SoundOutcome(d: Deployment, s: Store, p: nat, o: Outcome)
    requires p < |d|
  {
    match o
    case NothingToDo => d[p] == []
    case Skipped(readings) => |readings| == |d[p]| && GoodReadings(d, s, d[p], readings)
    case Waited(g) => Fresh(s, g) && BatchBy(d, s, g.ts)
    case RanBatch => RanBy(s, p, s.now)
    case BatchFailed => true
  }

  ghost predicate SoundPc(d: Deployment, s: Store, p: nat, pc: Pc)
    requires p < |d|
  {
    match pc
    case Check(_, next, readings) =>
      d[p] != [] && next <= |d[p]| && GoodReadings(d, s, d[p], readings)
      && |readings| == if next == 0 then 0 else next - 1
    case Recording(_, pos, stamp) =>
      d[p] != [] && pos <= |d[p]| && RanBy(s, p, s.now)
      && (stamp.Some? ==> stamp.value <= s.now && RanBy(s, p, stamp.value))
    case Returned(o) => SoundOutcome(d, s, p, o)
    case _ => d[p] != []
  }

  ghost predicate Inv(d: Deployment, w: World) {
    && |w.procs| == |d|
    && SoundStore(d, w.store)
    && forall p :: 0 <= p < |d| ==> SoundPc(d, w.store, p, w.procs[p])
  }

  /** History and time only grow. */
  ghost predicate Extends(s: Store, s': Store) {
    s.batches <= s'.batches && s.now <= s'.now
  }

  lemma SoundPcGrows(d: Deployment, s: Store, s': Store, p: nat, pc: Pc)
    requires p < |d| && Extends(s, s') && SoundPc(d, s, p, pc)
    ensures SoundPc(d, s', p, pc)
  {}

  lemma ReadIsSound(d: Deployment, p: nat, s: Store, pc: Pc)
    requires p < |d| && SoundStore(d, s) && SoundPc(d, s, p, pc) && pc.Check?
    ensures var l := ReadMark(d[p], s, pc);
      Extends(s, l.store) && SoundStore(d, l.store) && SoundPc(d, l.store, p, l.pc)
  {}

  lemma RecordIsSound(d: Deployment, p: nat, s: Store, pc: Pc)
    requires p < |d| && SoundStore(d, s) && SoundPc(d, s, p, pc) && pc.Recording?
    ensures var l := Record(d[p], s, pc);
      Extends(s, l.store) && SoundStore(d, l.store) && SoundPc(d, l.store, p, l.pc)
  {}

  lemma StepIsSound(d: Deployment, p: nat, s: Store, pc: Pc, a: Action)
    requires p < |d| && SoundStore(d, s) && SoundPc(d, s, p, pc)
    ensures var l := Step(d[p], p, s, pc, a);
      Extends(s, l.store) && SoundStore(d, l.store) && SoundPc(d, l.store, p, l.pc)
  {
    if a.Go? && pc.Check? {
      ReadIsSound(d, p, s, pc);
    } else if a.Go? && pc.Recording? {
      RecordIsSound(d, p, s, pc);
    }
  }

  lemma DoKeepsInv(d: Deployment, w: World, ev: Event)
    requires Inv(d, w)
    ensures Inv(d, Do(d, w, ev)) && Extends(w.store, Do(d, w, ev).store)
  {
    var w' := Do(d, w, ev);
    if ev.Act? && ev.p < |d| {
      StepIsSound(d, ev.p, w.store, w.procs[ev.p], ev.a);
    }
    forall q | 0 <= q < |d| ensures SoundPc(d, w'.store, q, w'.procs[q]) {
      if !(ev.Act? && q == ev.p) {
        SoundPcGrows(d, w.store, w'.store, q, w.procs[q]);
      }
    }
  }

  lemma {:induction false} RunKeepsInv(d: Deployment, w: World, evs: seq<Event>)
    requires Inv(d, w)
    ensures Inv(d, Run(d, w, evs))
    decreases |evs|
  {
    if evs == [] {
    } else {
      DoKeepsInv(d, w, evs[0]);
      RunKeepsInv(d, Do(d, w, evs[0]), evs[1..]);
    }
  }

  /**
   * Every return is justified, in every run and even when instances hold different relayer
   * sets. A skip means that each of the instance's relayers, at the moment its mark was
   * read, had been initialized by a successful batch and marked less than 300 seconds
   * before. A successful wait means that some successful batch preceded a global mark less
   * than 300 seconds old. Otherwise success means the instance's own batch succeeded.
   */
  lemma {:induction false} EveryReturnIsJustified(d: Deployment, evs: seq<Event>, p: nat)
    requires p < |d|
    ensures var w := Run(d, Init(d), evs);
      && |w.procs| == |d|
      && (w.procs[p].Returned? ==> SoundOutcome(d, w.store, p, w.procs[p].outcome))
  {
    RunKeepsInv(d, Init(d), evs);
    assert SoundPc(d, Run(d, Init(d), evs).store, p, Run(d, Init(d), evs).procs[p]);
  }

  // ------------------------------------------------------------------ own relayers

  ghost predicate Initialized(d: Deployment, s: Store, r: string) {
    InitializedBy(d, s, r, s.now)
  }

  /** An instance that has returned success, by whatever path. */
  ghost predicate Succeeded(pc: Pc) {
    pc.Returned? && !pc.outcome.BatchFailed?
  }

  /** In every run, success means that all the instance's own relayers have been initialized. */
  ghost predicate SuccessCoversOwnSet(d: Deployment) {
    forall evs, p, r | 0 <= p < |d| && r in d[p] ::
      var w := Run(d, Init(d), evs);
      |w.procs| == |d| && Succeeded(w.procs[p]) ==> Initialized(d, w.store, r)
  }

  /** All instances that have relayers at all have the same ones. */
  ghost predicate SameSets(d: Deployment) {
    forall i, j, r :: 0 <= i < |d| && 0 <= j < |d| && d[j] != [] && r in d[i] ==> r in d[j]
  }

  lemma {:induction false} SameSetsSuffice(d: Deployment, evs: seq<Event>, p: nat, r: string)
    requires SameSets(d) && p < |d| && r in d[p]
    ensures var w := Run(d, Init(d), evs);
      |w.procs| == |d| && (Succeeded(w.procs[p]) ==> Initialized(d, w.store, r))
  {
    EveryReturnIsJustified(d, evs, p);
    RunKeepsInv(d, Init(d), evs);
    var w := Run(d, Init(d), evs);
    if Succeeded(w.procs[p]) {
      match w.procs[p].outcome
      case Skipped(readings) =>
        var k :| 0 <= k < |d[p]| && d[p][k] == r;
        assert InitializedBy(d, w.store, r, readings[k].ts);
      case Waited(g) =>
        assert BatchBy(d, w.store, g.ts);
      case RanBatch =>
    }
  }

  // ------------------------------------------------------------------ different sets

  function Steps(p: nat, k: nat): seq<Event> {
    seq(k, _ => Act(p, Go))
  }

  lemma {:induction false} RunAppend(d: Deployment, w: World, a: seq<Event>, b: seq<Event>)
    ensures Run(d, w, a + b) == Run(d, Run(d, w, a), b)
    decreases |a|
  {
    if a == [] {
      assert a + b == b;
    } else {
      assert (a + b)[1..] == a[1..] + b;
      RunAppend(d, Do(d, w, a[0]), a[1..], b);
    }
  }

  /** Two instances with relayers. */
  ghost predicate Rivals(d: Deployment, i: nat, j: nat) {
    i < |d| && j < |d| && i != j && d[i] != [] && d[j] != []
  }

  lemma {:induction false} RunTwo(d: Deployment, w: World, evs: seq<Event>)
    requires |evs| >= 2
    ensures Run(d, w, evs) == Run(d, Do(d, Do(d, w, evs[0]), evs[1]), evs[2..])
  {
    assert evs[1..][1..] == evs[2..];
  }

  /** The store after an instance took the lock and finished its batch. */
  function Batched(s: Store, p: nat): Store {
    s.(lock := Some(RedisLock.Lease(s.nextToken, s.now + LOCK_TTL)), nextToken := s.nextToken + 1,
       batches := s.batches + {Success(p, s.now)})
  }

  lemma {:induction false} LockedBatch(d: Deployment, w: World, p: nat)
    requires |w.procs| == |d| && p < |d| && w.procs[p] == Check(None, 0, [])
    requires w.store.global.None? && !RedisLock.Held(w.store.lock, w.store.now)
    ensures Run(d, w, Steps(p, 4)) ==
      World(Batched(w.store, p), w.procs[p := Recording(Some(w.store.nextToken), 0, None)])
  {
    var evs := Steps(p, 4);
    assert evs == [Act(p, Go), Act(p, Go), Act(p, Go), Act(p, Go)];
    var w1 := Do(d, w, Act(p, Go));
    var w2 := Do(d, w1, Act(p, Go));
    assert w2.procs == w.procs[p := Check(Some(w.store.nextToken), 0, [])];
    var w3 := Do(d, w2, Act(p, Go));
    assert w3.procs == w.procs[p := Batch(Some(w.store.nextToken), true)];
    RunTwo(d, w, evs);
    RunTwo(d, w2, evs[2..]);
  }

  /** Instance `i` has looked once; then `j` takes the lock and finishes its batch. */
  function Opening(i: nat, j: nat): seq<Event> {
    [Act(i, Go)] + Steps(j, 4)
  }

  lemma {:induction false} AfterOpening(d: Deployment, i: nat, j: nat)
    requires Rivals(d, i, j)
    ensures Run(d, Init(d), Opening(i, j)) ==
      World(Batched(Init(d).store, j), Init(d).procs[i := TryLock(false)][j := Recording(Some(0), 0, None)])
  {
    var w1 := Do(d, Init(d), Act(i, Go));
    assert w1 == World(Init(d).store, Init(d).procs[i := TryLock(false)]);
    assert [Act(i, Go)][1..] == [];
    RunAppend(d, Init(d), [Act(i, Go)], Steps(j, 4));
    LockedBatch(d, w1, j);
  }

  /** Stamp and write of one mark, or of the global mark at the end. */
  lemma {:induction false} RecordsOne(d: Deployment, w: World, p: nat, k: nat)
    requires |w.procs| == |d| && p < |d| && w.procs[p].Recording? && w.procs[p].token.Some?
    requires w.procs[p].stamp.None? && w.procs[p].pos <= |d[p]|
    ensures var s, pc := w.store, w.procs[p];
      Run(d, w, Steps(p, k + 2)) == Run(d,
        if pc.pos < |d[p]| then World(s.(marks := s.marks[d[p][pc.pos] := s.now]), w.procs[p := pc.(pos := pc.pos + 1)])
        else World(s.(global := Some(s.now), releases := s.releases + {pc.token.value}),
                   w.procs[p := Returned(RanBatch)]),
        Steps(p, k))
  {
    var w1 := Do(d, w, Act(p, Go));
    assert w1.procs == w.procs[p := w.procs[p].(stamp := Some(w.store.now))];
    var w2 := Do(d, w1, Act(p, Go));
    RunTwo(d, w, Steps(p, k + 2));
    assert Steps(p, k + 2)[2..] == Steps(p, k);
    assert w.procs[p].pos < |d[p]| ==> w2.procs == w.procs[p := w.procs[p].(pos := w.procs[p].pos + 1)];
    assert w.procs[p].pos == |d[p]| ==> w2.procs == w.procs[p := Returned(RanBatch)];
  }

  lemma {:induction false} RecordsAll(d: Deployment, w: World, p: nat, n: nat)
    requires |w.procs| == |d| && p < |d| && w.procs[p].Recording? && w.procs[p].token.Some?
    requires w.procs[p].stamp.None? && w.procs[p].pos + n == |d[p]|
    ensures var w', pos := Run(d, w, Steps(p, 2 * n + 2)), w.procs[p].pos;
      && w'.procs == w.procs[p := Returned(RanBatch)]
      && w'.store == w.store.(marks := MarkAll(w.store.marks, d[p][pos..], w.store.now), global := Some(w.store.now),
                              releases := w.store.releases + {w.procs[p].token.value})
    decreases n
  {
    var s, pc := w.store, w.procs[p];
    RecordsOne(d, w, p, 2 * n);
    if n == 0 {
      assert d[p][pc.pos..] == [] && Steps(p, 0) == [];
    } else {
      assert d[p][pc.pos..][1..] == d[p][pc.pos + 1..];
      var w2 := World(s.(marks := s.marks[d[p][pc.pos] := s.now]), w.procs[p := pc.(pos := pc.pos + 1)]);
      RecordsAll(d, w2, p, n - 1);
      assert w2.procs[p := Returned(RanBatch)] == w.procs[p := Returned(RanBatch)];
    }
  }

  function MarkAll(marks: map<string, nat>, relayers: seq<string>, now: nat): map<string, nat>
    decreases |relayers|
  {
    if relayers == [] then marks else MarkAll(marks[relayers[0] := now], relayers[1..], now)
  }

  lemma {:induction false} AllMarked(marks: map<string, nat>, relayers: seq<string>, now: nat)
    ensures var m := MarkAll(marks, relayers, now);
      && (forall r :: r in m <==> r in marks || r in relayers)
      && (forall r :: r in m ==> m[r] == if r in relayers then now else marks[r])
    decreases |relayers|
  {
    if relayers == [] {
    } else {
      var more := marks[relayers[0] := now];
      AllMarked(more, relayers[1..], now);
      assert MarkAll(marks, relayers, now) == MarkAll(more, relayers[1..], now);
      assert forall r :: r in relayers <==> r == relayers[0] || r in relayers[1..];
      assert forall r :: r in more <==> r == relayers[0] || r in marks;
    }
  }

  /** Instance `i` waits while `j` initializes its own relayers and sets the global mark. */
  function Outwaited(d: Deployment, i: nat, j: nat): seq<Event>
    requires j < |d|
  {
    Opening(i, j) + [Act(i, Go)] + Steps(j, 2 * |d[j]| + 2) + [Act(i, Go)]
  }

  /** If `j` does not know relayer `r`, instance `i` returns success without it. */
  lemma {:induction false} WaiterMissesRelayer(d: Deployment, i: nat, j: nat, r: string)
    requires i < |d| && j < |d| && d[j] != [] && r in d[i] && r !in d[j]
    ensures var w := Run(d, Init(d), Outwaited(d, i, j));
      |w.procs| == |d| && Succeeded(w.procs[i]) && !Initialized(d, w.store, r)
  {
    var w0, go, steps := Init(d), [Act(i, Go)], Steps(j, 2 * |d[j]| + 2);
    var w1 := Run(d, w0, Opening(i, j));
    AfterOpening(d, i, j);
    var w2 := Do(d, w1, Act(i, Go));
    assert w2 == World(w1.store, w1.procs[i := Waiting(false)]);
    assert go[1..] == [];
    RecordsAll(d, w2, j, |d[j]|);
    RunAppend(d, w0, Opening(i, j), go);
    RunAppend(d, w0, Opening(i, j) + go, steps);
    var w3 := Run(d, w2, steps);
    RunAppend(d, w0, Opening(i, j) + go + steps, go);
    assert w3.procs[i] == Waiting(false) && w3.store.global == Some(0) && w3.store.now == 0;
    assert w3.store.batches == {} + {Success(j, 0)};
  }

  /**
   * Waiting looks at the global mark only, so success covers an instance's own relayers in
   * every run if and only if all instances with relayers have the same set of them.
   */
  lemma OwnSetIff(d: Deployment)
    ensures SuccessCoversOwnSet(d) <==> SameSets(d)
  {
    if SameSets(d) {
      forall evs, p, r | 0 <= p < |d| && r in d[p]
        ensures var w := Run(d, Init(d), evs);
          |w.procs| == |d| && Succeeded(w.procs[p]) ==> Initialized(d, w.store, r)
      {
        SameSetsSuffice(d, evs, p, r);
      }
    } else {
      var i, j, r :| 0 <= i < |d| && 0 <= j < |d| && d[j] != [] && r in d[i] && r !in d[j];
      WaiterMissesRelayer(d, i, j, r);
      assert Succeeded(Run(d, Init(d), Outwaited(d, i, j)).procs[i]);
    }
  }
}
