/**
 * Draining shutdown of the pool server (`plugins/lib/pool-server.ts`). A run is any
 * interleaving of messages, completions, emergency signals, drain-loop checks and time.
 */
module DrainingShutdown {
  const SHUTDOWN_TIMEOUT_MS: nat := 30000
  const EMERGENCY_TIMEOUT_MS: nat := 10000

  datatype Message = Work | Shutdown | Health | Other

  /** A drain loop; `Stopped` records the time and the counter when it went on to `stop`. */
  datatype Progress = Waiting | Stopped(at: nat, active: nat)
  datatype Drain = Drain(emergency: bool, start: nat, progress: Progress)

  function TimeoutMs(d: Drain): nat {
    if d.emergency then EMERGENCY_TIMEOUT_MS else SHUTDOWN_TIMEOUT_MS
  }

  /** `inFlight` are the execute and precompile requests whose handlers have not settled. */
  datatype Server = Server(
    activeRequests: int, shuttingDown: bool, drains: seq<Drain>, now: nat,
    inFlight: set<nat>, nextRequest: nat)

  function Init(): Server {
    Server(0, false, [], 0, {}, 0)
  }

  datatype Event =
    | Tick(ms: nat)
    | Receive(message: Message)
    | Settle(request: nat)      // a work request's handler settles; `finally` runs
    | Emergency                 // the memory monitor's callback
    | Check(drain: nat)         // one test of a drain loop

  function Begin(s: Server, emergency: bool): Server {
    s.(shuttingDown := true, drains := s.drains + [Drain(emergency, s.now, Waiting)])
  }

  function OnMessage(s: Server, message: Message): Server {
    if s.shuttingDown && message != Shutdown && message != Health then s
    else match message
      case Work =>
        s.(activeRequests := s.activeRequests + 1, inFlight := s.inFlight + {s.nextRequest},
           nextRequest := s.nextRequest + 1)
      case Shutdown => if s.shuttingDown then s else Begin(s, false)
      case _ => s
  }

  /** The loop's test: sleep on while requests are active and the timeout has not elapsed. */
  function OnCheck(s: Server, k: nat): Server
    requires k < |s.drains|
  {
    var d := s.drains[k];
    if !d.progress.Waiting? then s
    else if s.activeRequests > 0 && s.now - d.start < TimeoutMs(d) then s
    else
      var active := if s.activeRequests > 0 then s.activeRequests else 0;
      s.(drains := s.drains[k := d.(progress := Stopped(s.now, active))])
  }

  function Do(s: Server, ev: Event): Server {
    match ev
    case Tick(ms) => s.(now := s.now + ms)
    case Receive(message) => OnMessage(s, message)
    case Settle(request) =>
      if request in s.inFlight
      then s.(activeRequests := s.activeRequests - 1, inFlight := s.inFlight - {request}) else s
    case Emergency => if s.shuttingDown then s else Begin(s, true)
    case Check(k) => if k < |s.drains| then OnCheck(s, k) else s
  }

  function Run(s: Server, evs: seq<Event>): Server
    decreases |evs|
  {
    if evs == [] then s else Run(Do(s, evs[0]), evs[1..])
  }

  ghost predicate DrainOk(d: Drain, now: nat) {
    && d.start <= now
    && (d.progress.Stopped? ==> d.progress.active == 0 || d.progress.at - d.start >= TimeoutMs(d))
  }

  ghost predicate Inv(s: Server) {
    && s.activeRequests == |s.inFlight|
    && (forall r :: r in s.inFlight ==> r < s.nextRequest)
    && |s.drains| == (if s.shuttingDown then 1 else 0)
    && forall k :: 0 <= k < |s.drains| ==> DrainOk(s.drains[k], s.now)
  }

  /** The same loop, later: once it has stopped, it stays as it is. */
  ghost predicate SameDrain(d: Drain, d': Drain) {
    d'.start == d.start && d'.emergency == d.emergency && (d.progress.Stopped? ==> d' == d)
  }

  lemma DoKeepsInv(s: Server, ev: Event)
    requires Inv(s)
    ensures Inv(Do(s, ev))
    ensures s.shuttingDown ==> Do(s, ev).shuttingDown && Do(s, ev).inFlight <= s.inFlight
    ensures s.shuttingDown ==> SameDrain(s.drains[0], Do(s, ev).drains[0])
  {
    match ev
    case Tick(_) =>
    case Receive(message) => ReceiveKeepsInv(s, message);
    case Settle(_) =>
    case Emergency =>
    case Check(k) => if k < |s.drains| { CheckKeepsInv(s, k); }
  }

  lemma ReceiveKeepsInv(s: Server, message: Message)
    requires Inv(s)
    ensures Inv(OnMessage(s, message))
    ensures s.shuttingDown ==> OnMessage(s, message) == s
  {}

  lemma CheckKeepsInv(s: Server, k: nat)
    requires Inv(s) && k < |s.drains|
    ensures var t := OnCheck(s, k);
      Inv(t) && t.shuttingDown == s.shuttingDown && t.inFlight == s.inFlight && SameDrain(s.drains[0], t.drains[0])
  {}

  lemma {:induction false} RunKeepsInv(s: Server, evs: seq<Event>)
    requires Inv(s)
    ensures Inv(Run(s, evs))
    decreases |evs|
  {
    if evs == [] {
    } else {
      DoKeepsInv(s, evs[0]);
      RunKeepsInv(Do(s, evs[0]), evs[1..]);
    }
  }

  lemma {:induction false} DrainsForGood(s: Server, evs: seq<Event>)
    requires Inv(s) && s.shuttingDown
    ensures var t := Run(s, evs);
      && Inv(t) && t.shuttingDown && t.inFlight <= s.inFlight
      && SameDrain(s.drains[0], t.drains[0])
    decreases |evs|
  {
    if evs == [] {
    } else {
      DoKeepsInv(s, evs[0]);
      DrainsForGood(Do(s, evs[0]), evs[1..]);
    }
  }

  /**
   * In every run: the counter is the number of unsettled work requests; at most one of the
   * normal and emergency drains ever starts, exactly when shutdown has begun; and a drain
   * has gone on to stop only with nothing active or with its timeout elapsed.
   */
  lemma {:induction false} DrainIsSound(evs: seq<Event>)
    ensures var s := Run(Init(), evs);
      && s.activeRequests == |s.inFlight|
      && |s.drains| == (if s.shuttingDown then 1 else 0)
      && (s.shuttingDown && s.drains[0].progress.Stopped? ==>
            s.drains[0].progress.active == 0
            || s.drains[0].progress.at - s.drains[0].start >= TimeoutMs(s.drains[0]))
  {
    RunKeepsInv(Init(), evs);
  }

  /** Once shutdown has begun, in-flight requests only leave, and the same drain stays in charge. */
  lemma {:induction false} ShutdownOnlyDrains(before: seq<Event>, after: seq<Event>)
    requires Run(Init(), before).shuttingDown
    ensures var s := Run(Init(), before);
      var t := Run(s, after);
      && t.shuttingDown && t.inFlight <= s.inFlight && t.activeRequests <= s.activeRequests
      && |s.drains| == |t.drains| == 1 && SameDrain(s.drains[0], t.drains[0])
  {
    var s := Run(Init(), before);
    RunKeepsInv(Init(), before);
    DrainsForGood(s, after);
    SubsetSize(Run(s, after).inFlight, s.inFlight);
  }

  // ------------------------------------------------------------------ what starts and ends a drain

  predicate Trigger(ev: Event) {
    ev == Receive(Shutdown) || ev == Emergency
  }

  /** Position of the first shutdown message or emergency, or the length of the run. */
  function FirstTrigger(evs: seq<Event>): (k: nat)
    ensures k <= |evs| && (k < |evs| ==> Trigger(evs[k])) && forall j :: 0 <= j < k ==> !Trigger(evs[j])
  {
    if evs == [] || Trigger(evs[0]) then 0 else 1 + FirstTrigger(evs[1..])
  }

  function Elapsed(evs: seq<Event>): nat {
    if evs == [] then 0
    else Elapsed(evs[..|evs| - 1]) + if evs[|evs| - 1].Tick? then evs[|evs| - 1].ms else 0
  }

  /** Work requests received before the first trigger. */
  function Admitted(evs: seq<Event>): nat {
    if evs == [] then 0
    else
      var front, last := evs[..|evs| - 1], evs[|evs| - 1];
      Admitted(front) + if last == Receive(Work) && FirstTrigger(front) == |front| then 1 else 0
  }

  /** Request `r` was settled after it had been admitted. */
  ghost predicate Settled(evs: seq<Event>, r: nat) {
    exists j :: 0 <= j < |evs| && evs[j] == Settle(r) && r < Admitted(evs[..j])
  }

  lemma {:induction false} RunLast(s: Server, evs: seq<Event>)
    requires evs != []
    ensures Run(s, evs) == Do(Run(s, evs[..|evs| - 1]), evs[|evs| - 1])
    decreases |evs|
  {
    var front := evs[..|evs| - 1];
    if front != [] {
      RunLast(Do(s, evs[0]), evs[1..]);
      assert evs[1..][..|evs[1..]| - 1] == front[1..];
    }
  }

  lemma {:induction false} TriggerLast(evs: seq<Event>)
    requires evs != []
    ensures var front, k := evs[..|evs| - 1], FirstTrigger(evs);
      if FirstTrigger(front) < |front| then k == FirstTrigger(front)
      else k == if Trigger(evs[|evs| - 1]) then |front| else |evs|
  {
    var front, k := evs[..|evs| - 1], FirstTrigger(evs);
    assert forall j :: 0 <= j < |front| ==> front[j] == evs[j];
  }

  lemma {:induction false} SettledLast(evs: seq<Event>, r: nat)
    requires evs != []
    ensures var front, last := evs[..|evs| - 1], evs[|evs| - 1];
      Settled(evs, r) <==> Settled(front, r) || (last == Settle(r) && r < Admitted(front))
  {
    var front := evs[..|evs| - 1];
    forall j | 0 <= j < |front| ensures evs[..j] == front[..j] && evs[j] == front[j] {}
    if Settled(front, r) {
      var j :| 0 <= j < |front| && front[j] == Settle(r) && r < Admitted(front[..j]);
      assert evs[j] == Settle(r);
    }
  }

  ghost predicate FlightOk(inFlight: set<nat>, evs: seq<Event>) {
    forall r: nat :: r in inFlight <==> r < Admitted(evs) && !Settled(evs, r)
  }

  /** What the server's state has to be after a run. */
  ghost predicate Explained(s: Server, evs: seq<Event>) {
    && s.now == Elapsed(evs) && s.nextRequest == Admitted(evs)
    && FlightOk(s.inFlight, evs) && DrainsOk(s, evs)
  }

  /** Whether the drain has begun, which one, and when. */
  ghost predicate DrainsOk(s: Server, evs: seq<Event>) {
    var k := FirstTrigger(evs);
    && (s.shuttingDown <==> k < |evs|)
    && |s.drains| == (if k < |evs| then 1 else 0)
    && (k < |evs| ==> s.drains[0].start == Elapsed(evs[..k]) && s.drains[0].emergency == evs[k].Emergency?)
  }

  lemma {:induction false} InFlightStep(s: Server, evs: seq<Event>)
    requires evs != [] && Explained(s, evs[..|evs| - 1])
    ensures FlightOk(Do(s, evs[|evs| - 1]).inFlight, evs)
  {
    var front, t := evs[..|evs| - 1], Do(s, evs[|evs| - 1]).inFlight;
    forall r: nat ensures r in t <==> r < Admitted(evs) && !Settled(evs, r) {
      SettledLast(evs, r);
      NotSettledYet(front, r);
      assert r in s.inFlight <==> r < Admitted(front) && !Settled(front, r);
    }
  }

  lemma {:induction false} DrainsStep(s: Server, evs: seq<Event>)
    requires evs != [] && DrainsOk(s, evs[..|evs| - 1]) && s.now == Elapsed(evs[..|evs| - 1])
    ensures DrainsOk(Do(s, evs[|evs| - 1]), evs)
  {
    var front := evs[..|evs| - 1];
    var k := FirstTrigger(front);
    TriggerLast(evs);
    assert k < |front| ==> evs[..k] == front[..k] && evs[k] == front[k];
  }

  /** Only admitted requests are settled. */
  lemma {:induction false} NotSettledYet(evs: seq<Event>, r: nat)
    ensures Settled(evs, r) ==> r < Admitted(evs)
    decreases |evs|
  {
    if evs == [] {
    } else {
      SettledLast(evs, r);
      NotSettledYet(evs[..|evs| - 1], r);
    }
  }

  /**
   * In every run: the first shutdown message or emergency, and nothing else, begins the one
   * drain, of its own kind and at its own time; the work requests admitted are exactly those
   * received before it; and those in flight are exactly the admitted ones not settled since.
   */
  lemma {:induction false} RunIsExplained(evs: seq<Event>)
    ensures Explained(Run(Init(), evs), evs)
    decreases |evs|
  {
    if evs == [] {
    } else {
      var front := evs[..|evs| - 1];
      var s := Run(Init(), front);
      RunIsExplained(front);
      RunLast(Init(), evs);
      InFlightStep(s, evs);
      DrainsStep(s, evs);
    }
  }

  /**
   * In every run, a test of the drain loop ends the wait if and only if it had ended before,
   * no admitted request is unsettled, or 30 seconds (10 in an emergency) have passed since
   * the first trigger.
   */
  lemma {:induction false} DrainStopsIff(evs: seq<Event>)
    requires FirstTrigger(evs) < |evs|
    ensures var s, k := Run(Init(), evs), FirstTrigger(evs);
      && |s.drains| == 1 && |Do(s, Check(0)).drains| == 1
      && (Do(s, Check(0)).drains[0].progress.Stopped? <==>
            || s.drains[0].progress.Stopped?
            || (forall r: nat :: r < Admitted(evs) ==> Settled(evs, r))
            || Elapsed(evs) - Elapsed(evs[..k]) >= if evs[k].Emergency? then 10000 else 30000)
  {
    var s := Run(Init(), evs);
    RunIsExplained(evs);
    RunKeepsInv(Init(), evs);
    if s.inFlight == {} {
      assert forall r: nat :: r !in s.inFlight;
    } else {
      var r :| r in s.inFlight;
      assert |s.inFlight| == |s.inFlight - {r}| + 1;
    }
  }

  lemma {:induction false} SubsetSize(a: set<nat>, b: set<nat>)
    requires a <= b
    ensures |a| <= |b|
    decreases |a|
  {
    if a == {} {
    } else {
      var x :| x in a;
      SubsetSize(a - {x}, b - {x});
    }
  }
}

/** The memory-pressure monitor of the pool server. */
module MemoryMonitor {
  datatype Sample = Sample(heapUsedRatio: real, now: int)

  /** What one check asks for. */
  datatype Action = Nothing | Warn | CollectGarbage | EvictCaches | EmergencyRestart

  datatype State = State(consecutiveHighPressure: nat, emergencyTriggered: bool, lastWarningTime: int)

  const WARNING := 0.75
  const GC := 0.80
  const CRITICAL := 0.85
  const EMERGENCY := 0.92
  const COOLDOWN_MS: int := 10000

  function Counted(n: nat, ratio: real): nat {
    if ratio >= CRITICAL then n + 1 else if ratio < WARNING then 0 else n
  }

  /** The state after one check, and what it asked for. */
  function Check(s: State, x: Sample): (State, Action) {
    var n := Counted(s.consecutiveHighPressure, x.heapUsedRatio);
    if x.heapUsedRatio >= EMERGENCY || n >= 6 then
      if s.emergencyTriggered then (s.(consecutiveHighPressure := n), Nothing)
      else (s.(consecutiveHighPressure := 0, emergencyTriggered := true), EmergencyRestart)
    else if x.heapUsedRatio >= CRITICAL then
      if x.now - s.lastWarningTime < COOLDOWN_MS then (s.(consecutiveHighPressure := n), Nothing)
      else (s.(consecutiveHighPressure := n, lastWarningTime := x.now), EvictCaches)
    else if x.heapUsedRatio >= GC then (s.(consecutiveHighPressure := n), CollectGarbage)
    else if x.heapUsedRatio >= WARNING && !(x.now - s.lastWarningTime < COOLDOWN_MS * 3) then
      (s.(consecutiveHighPressure := n, lastWarningTime := x.now), Warn)
    else (s.(consecutiveHighPressure := n), Nothing)
  }

  class PoolServerMemoryMonitor {
    var consecutiveHighPressure: nat
    var emergencyTriggered: bool
    var lastWarningTime: int

    function Current(): State
      reads this
    {
      State(consecutiveHighPressure, emergencyTriggered, lastWarningTime)
    }

    constructor ()
      ensures Current() == State(0, false, 0)
    {
      consecutiveHighPressure := 0;
      emergencyTriggered := false;
      lastWarningTime := 0;
    }

    method CheckMemoryPressure(heapUsedRatio: real, now: int) returns (action: Action)
      modifies this
      ensures (Current(), action) == Check(old(Current()), Sample(heapUsedRatio, now))
    {
      action := Nothing;
      if heapUsedRatio >= CRITICAL {
        consecutiveHighPressure := consecutiveHighPressure + 1;
      } else if heapUsedRatio < WARNING {
        consecutiveHighPressure := 0;
      }
      if heapUsedRatio >= EMERGENCY || consecutiveHighPressure >= 6 {
        if emergencyTriggered { return; }
        emergencyTriggered := true;
        action := EmergencyRestart;
        consecutiveHighPressure := 0;
      } else if heapUsedRatio >= CRITICAL {
        if now - lastWarningTime < COOLDOWN_MS { return; }
        lastWarningTime := now;
        action := EvictCaches;
      } else if heapUsedRatio >= GC {
        action := CollectGarbage;
      } else if heapUsedRatio >= WARNING {
        if now - lastWarningTime < COOLDOWN_MS * 3 { return; }
        lastWarningTime := now;
        action := Warn;
      }
    }
  }

  /** State after a trace of samples, and the actions so far. */
  function After(t: seq<Sample>): (State, seq<Action>) {
    if t == [] then (State(0, false, 0), [])
    else
      var (s, actions) := After(t[..|t| - 1]);
      var (s', a) := Check(s, t[|t| - 1]);
      (s', actions + [a])
  }

  /** Samples of at least 0.85. */
  function CriticalCount(t: seq<Sample>): nat {
    if t == [] then 0
    else CriticalCount(t[..|t| - 1]) + if t[|t| - 1].heapUsedRatio >= CRITICAL then 1 else 0
  }

  /** A stretch `t[a..b]` without a sample below 0.75 and with six of at least 0.85. */
  ghost predicate Sustained(t: seq<Sample>, a: nat, b: nat) {
    && a <= b <= |t|
    && (forall k :: a <= k < b ==> t[k].heapUsedRatio >= WARNING)
    && CriticalCount(t[a..b]) >= 6
  }

  ghost predicate Alarming(t: seq<Sample>) {
    || (exists i :: 0 <= i < |t| && t[i].heapUsedRatio >= EMERGENCY)
    || exists a: nat, b: nat :: Sustained(t, a, b)
  }

  function Emergencies(actions: seq<Action>): nat {
    if actions == [] then 0
    else Emergencies(actions[..|actions| - 1]) + if actions[|actions| - 1].EmergencyRestart? then 1 else 0
  }

  /** Critical samples since the last one below 0.75. */
  function Streak(t: seq<Sample>): nat {
    if t == [] then 0 else Counted(Streak(t[..|t| - 1]), t[|t| - 1].heapUsedRatio)
  }

  /** A stretch that ends here has at most the streak's critical samples. */
  lemma {:induction false} StreakIsMaximal(t: seq<Sample>, a: nat)
    requires a <= |t| && forall k :: a <= k < |t| ==> t[k].heapUsedRatio >= WARNING
    ensures CriticalCount(t[a..]) <= Streak(t)
    decreases |t|
  {
    if a == |t| {
    } else {
      var front := t[..|t| - 1];
      assert t[a..][..|t[a..]| - 1] == front[a..];
      StreakIsMaximal(front, a);
    }
  }

  /** And one such stretch has exactly those. */
  lemma {:induction false} StreakIsReached(t: seq<Sample>) returns (a: nat)
    ensures a <= |t| && forall k :: a <= k < |t| ==> t[k].heapUsedRatio >= WARNING
    ensures CriticalCount(t[a..]) == Streak(t)
    decreases |t|
  {
    if t == [] {
      a := 0;
    } else if t[|t| - 1].heapUsedRatio < WARNING {
      a := |t|;
    } else {
      var front := t[..|t| - 1];
      a := StreakIsReached(front);
      assert t[a..][..|t[a..]| - 1] == front[a..];
    }
  }

  lemma StillAlarming(t: seq<Sample>)
    requires t != [] && Alarming(t[..|t| - 1])
    ensures Alarming(t)
  {
    var front := t[..|t| - 1];
    if i :| 0 <= i < |front| && front[i].heapUsedRatio >= EMERGENCY {
      assert t[i] == front[i];
    } else {
      var a: nat, b: nat :| Sustained(front, a, b);
      SustainedInBoth(t, a, b);
    }
  }

  /** A stretch that does not reach the last sample. */
  lemma {:induction false} SustainedInBoth(t: seq<Sample>, a: nat, b: nat)
    requires a <= b < |t|
    ensures Sustained(t[..|t| - 1], a, b) <==> Sustained(t, a, b)
  {
    var front := t[..|t| - 1];
    assert t[a..b] == front[a..b];
    assert forall k :: a <= k < b ==> front[k] == t[k];
  }

  /** A stretch that reaches the last sample shows in the streak. */
  lemma {:induction false} SustainedNow(t: seq<Sample>, a: nat)
    requires Sustained(t, a, |t|)
    ensures Streak(t) >= 6
  {
    assert t[a..|t|] == t[a..];
    StreakIsMaximal(t, a);
  }

  lemma {:induction false} NewlyAlarming(t: seq<Sample>)
    requires t != [] && Alarming(t) && t[|t| - 1].heapUsedRatio < EMERGENCY && Streak(t) < 6
    ensures Alarming(t[..|t| - 1])
  {
    var front := t[..|t| - 1];
    if i :| 0 <= i < |t| && t[i].heapUsedRatio >= EMERGENCY {
      assert front[i] == t[i];
    } else {
      var a: nat, b: nat :| Sustained(t, a, b);
      if b == |t| {
        SustainedNow(t, a);
      }
      SustainedInBoth(t, a, b);
    }
  }

  /** What one more sample adds. */
  lemma AlarmingSnoc(t: seq<Sample>)
    requires t != []
    ensures var front := t[..|t| - 1];
      Alarming(t) <==> Alarming(front) || t[|t| - 1].heapUsedRatio >= EMERGENCY || Streak(t) >= 6
  {
    if Alarming(t[..|t| - 1]) {
      StillAlarming(t);
    } else if t[|t| - 1].heapUsedRatio < EMERGENCY {
      if Streak(t) >= 6 {
        var a := StreakIsReached(t);
        assert t[a..|t|] == t[a..];
        assert Sustained(t, a, |t|);
      } else if Alarming(t) {
        NewlyAlarming(t);
      }
    }
  }

  /**
   * Over every trace of samples: the emergency restart is asked for at most once, and it
   * has been by now if and only if some sample was at least 0.92 or six samples of at
   * least 0.85 occurred with none below 0.75 among them.
   */
  lemma {:induction false} EmergencyIff(t: seq<Sample>)
    ensures var (s, actions) := After(t);
      && Emergencies(actions) == (if Alarming(t) then 1 else 0)
      && s.emergencyTriggered == Alarming(t)
      && (!Alarming(t) ==> s.consecutiveHighPressure == Streak(t))
    decreases |t|
  {
    if t == [] {
      assert forall a: nat, b: nat :: !Sustained(t, a, b);
    } else {
      var front := t[..|t| - 1];
      EmergencyIff(front);
      AlarmingSnoc(t);
      var (s, actions) := After(front);
      var (s', a) := Check(s, t[|t| - 1]);
      assert (actions + [a])[..|actions|] == actions;
    }
  }

  // ------------------------------------------------------------------ spacing

  /** Actions that are throttled by the cooldown. */
  predicate Throttled(a: Action) {
    a.Warn? || a.EvictCaches?
  }

  ghost predicate Monotone(t: seq<Sample>) {
    forall i, j :: 0 <= i <= j < |t| ==> t[i].now <= t[j].now
  }

  /** The action at a position depends on the samples up to it. */
  lemma {:induction false} ActionAt(t: seq<Sample>, i: nat)
    requires i < |t|
    ensures |After(t).1| == |t| && After(t).1[i] == Check(After(t[..i]).0, t[i]).1
    decreases |t|
  {
    var front := t[..|t| - 1];
    if i < |front| {
      ActionAt(front, i);
      assert front[..i] == t[..i];
    } else if front != [] {
      ActionAt(front, 0);
    }
  }

  /** The recorded time is no earlier than any throttled action. */
  lemma {:induction false} RecordedIsLatest(t: seq<Sample>, i: nat)
    requires Monotone(t) && i < |t| && |After(t).1| == |t| && Throttled(After(t).1[i])
    ensures After(t).0.lastWarningTime >= t[i].now
    decreases |t|
  {
    var front := t[..|t| - 1];
    if i < |front| {
      ActionAt(front, i);
      RecordedIsLatest(front, i);
    }
  }

  /**
   * Under a monotone clock, two cache evictions or warnings are never closer than the
   * cooldown, and a warning follows neither by less than three cooldowns.
   */
  lemma {:induction false} ThrottledActionsAreSpaced(t: seq<Sample>, i: nat, j: nat)
    requires Monotone(t) && i < j < |t|
    ensures |After(t).1| == |t|
    ensures Throttled(After(t).1[i]) && Throttled(After(t).1[j]) ==>
      t[j].now - t[i].now >= if After(t).1[j].Warn? then 3 * COOLDOWN_MS else COOLDOWN_MS
  {
    ActionAt(t, i);
    ActionAt(t, j);
    if Throttled(After(t).1[i]) {
      var front := t[..j];
      ActionAt(front, i);
      assert front[..i] == t[..i];
      RecordedIsLatest(front, i);
    }
  }

  // ------------------------------------------------------------------ what is due

  /** Nothing throttled for some time before sample `j`, counting from the clock's zero. */
  ghost predicate QuietFor(t: seq<Sample>, j: nat, ms: int)
    requires j < |t| && |After(t).1| == |t|
  {
    t[j].now >= ms && forall i :: 0 <= i < j && Throttled(After(t).1[i]) ==> t[j].now - t[i].now >= ms
  }

  /** The recorded time is zero or that of a throttled action. */
  lemma {:induction false} RecordedIsSome(t: seq<Sample>)
    ensures |After(t).1| == |t|
    ensures After(t).0.lastWarningTime == 0 ||
      exists i :: 0 <= i < |t| && Throttled(After(t).1[i]) && After(t).0.lastWarningTime == t[i].now
    decreases |t|
  {
    if t == [] {
    } else {
      var front := t[..|t| - 1];
      RecordedIsSome(front);
      assert forall i :: 0 <= i < |front| ==> After(t).1[i] == After(front).1[i] && front[i] == t[i];
      assert After(t).1[|front|] == Check(After(front).0, t[|front|]).1;
    }
  }

  lemma {:induction false} CooldownIsQuiet(t: seq<Sample>, j: nat, ms: int)
    requires Monotone(t) && j < |t| && t[0].now >= 0
    ensures |After(t).1| == |t|
    ensures t[j].now - After(t[..j]).0.lastWarningTime >= ms <==> QuietFor(t, j, ms)
  {
    var front := t[..j];
    ActionAt(t, j);
    RecordedIsSome(front);
    forall i | 0 <= i < j ensures After(front).1[i] == After(t).1[i] && front[i] == t[i] {
      ActionAt(t, i);
      ActionAt(front, i);
      assert front[..i] == t[..i];
    }
    forall i | 0 <= i < j && Throttled(After(t).1[i]) ensures t[i].now <= After(front).0.lastWarningTime {
      RecordedIsLatest(front, i);
    }
    NotNegative(front);
  }

  lemma {:induction false} NotNegative(t: seq<Sample>)
    requires t != [] ==> Monotone(t) && t[0].now >= 0
    ensures After(t).0.lastWarningTime >= 0
  {
    RecordedIsSome(t);
  }

  /** The counter after the alarm is the streak since then. */
  lemma {:induction false} CounterSinceAlarm(t: seq<Sample>, a: nat)
    requires a < |t| && !Alarming(t[..a]) && Alarming(t[..a + 1])
    ensures var s := After(t).0; s.emergencyTriggered && s.consecutiveHighPressure == Streak(t[a + 1..])
    decreases |t|
  {
    var j := |t| - 1;
    if a == j {
      assert t[..a + 1] == t;
      CounterAtAlarm(t);
      assert t[a + 1..] == [];
    } else {
      PrefixOf(t, a, j);
      PrefixOf(t, a + 1, j);
      CounterSinceAlarm(t[..j], a);
      SuffixOf(t, a + 1, j);
      StreakGrows(t, a + 1, j);
      assert t[a + 1..j + 1] == t[a + 1..];
    }
  }

  lemma {:induction false} CounterAtAlarm(t: seq<Sample>)
    requires t != [] && !Alarming(t[..|t| - 1]) && Alarming(t)
    ensures var s := After(t).0; s.emergencyTriggered && s.consecutiveHighPressure == 0
  {
    EmergencyIff(t[..|t| - 1]);
    AlarmingSnoc(t);
  }

  /** What a sample calls for, given the streak it ends and whether the alarm was raised before. */
  ghost function Due(t: seq<Sample>, j: nat, streak: nat, raised: bool): Action
    requires j < |t| && |After(t).1| == |t|
  {
    var ratio := t[j].heapUsedRatio;
    if ratio >= EMERGENCY || streak >= 6 then (if raised then Nothing else EmergencyRestart)
    else if ratio >= CRITICAL then (if QuietFor(t, j, 10000) then EvictCaches else Nothing)
    else if ratio >= GC then CollectGarbage
    else if ratio >= WARNING then (if QuietFor(t, j, 30000) then Warn else Nothing)
    else Nothing
  }

  /**
   * Under a monotone clock every sample gets the action it calls for: before the alarm by the
   * streak so far, and after it, where the restart is never asked for again, by the streak
   * since. Caches are evicted, or a warning given, whenever none of the two happened within
   * 10 seconds before, or 30.
   */
  lemma {:induction false} ActionIsDue(t: seq<Sample>, j: nat)
    requires Monotone(t) && j < |t| && t[0].now >= 0
    ensures |After(t).1| == |t|
    ensures !Alarming(t[..j]) ==> After(t).1[j] == Due(t, j, Streak(t[..j + 1]), false)
    ensures forall a: nat :: a < j && !Alarming(t[..a]) && Alarming(t[..a + 1]) ==>
      After(t).1[j] == Due(t, j, Streak(t[a + 1..j + 1]), true)
  {
    ActionAt(t, j);
    if !Alarming(t[..j]) {
      DueBeforeAlarm(t, j);
    }
    forall a: nat | a < j && !Alarming(t[..a]) && Alarming(t[..a + 1])
      ensures After(t).1[j] == Due(t, j, Streak(t[a + 1..j + 1]), true)
    {
      DueAfterAlarm(t, j, a);
    }
  }

  lemma {:induction false} DueBeforeAlarm(t: seq<Sample>, j: nat)
    requires Monotone(t) && j < |t| && t[0].now >= 0 && !Alarming(t[..j])
    ensures |After(t).1| == |t| && After(t).1[j] == Due(t, j, Streak(t[..j + 1]), false)
  {
    EmergencyIff(t[..j]);
    DueFrom(t, j, Streak(t[..j]), false);
    StreakGrows(t, 0, j);
    assert t[0..j] == t[..j] && t[0..j + 1] == t[..j + 1];
  }

  lemma {:induction false} DueAfterAlarm(t: seq<Sample>, j: nat, a: nat)
    requires Monotone(t) && a < j < |t| && t[0].now >= 0 && !Alarming(t[..a]) && Alarming(t[..a + 1])
    ensures |After(t).1| == |t| && After(t).1[j] == Due(t, j, Streak(t[a + 1..j + 1]), true)
  {
    PrefixOf(t, a, j);
    PrefixOf(t, a + 1, j);
    CounterSinceAlarm(t[..j], a);
    SuffixOf(t, a + 1, j);
    DueFrom(t, j, Streak(t[a + 1..j]), true);
    StreakGrows(t, a + 1, j);
  }

  lemma {:induction false} PrefixOf(t: seq<Sample>, a: nat, j: nat)
    requires a <= j <= |t|
    ensures t[..j][..a] == t[..a]
  {}

  lemma {:induction false} SuffixOf(t: seq<Sample>, a: nat, j: nat)
    requires a <= j <= |t|
    ensures t[..j][a..] == t[a..j]
  {}

  lemma {:induction false} StreakGrows(t: seq<Sample>, a: nat, j: nat)
    requires a <= j < |t|
    ensures Streak(t[a..j + 1]) == Counted(Streak(t[a..j]), t[j].heapUsedRatio)
  {
    var s := t[a..j + 1];
    assert s[..|s| - 1] == t[a..j] && s[|s| - 1] == t[j];
  }

  /** The action follows from the counter and the flag before the sample. */
  lemma {:induction false} DueFrom(t: seq<Sample>, j: nat, counter: nat, raised: bool)
    requires Monotone(t) && j < |t| && t[0].now >= 0
    requires After(t[..j]).0.consecutiveHighPressure == counter && After(t[..j]).0.emergencyTriggered == raised
    ensures |After(t).1| == |t| && After(t).1[j] == Due(t, j, Counted(counter, t[j].heapUsedRatio), raised)
  {
    ActionAt(t, j);
    CooldownIsQuiet(t, j, 10000);
    CooldownIsQuiet(t, j, 30000);
  }
}
