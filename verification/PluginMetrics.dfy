/**
 * Execution metrics of the worker pool (`plugins/lib/worker-pool.ts`): bounded counter
 * maps and the counters that concurrent `runPlugin` calls update.
 */
module BoundedCounters {
  import opened JsMap

  type Counter = Entry<nat>

  function Sum(s: seq<Counter>): nat {
    if s == [] then 0 else s[0].value + Sum(s[1..])
  }

  function Bump(s: seq<Counter>, key: string): seq<Counter> {
    var i := Find(s, key);
    Put(s, Entry(key, if i < |s| then s[i].value + 1 else 1))
  }

  /** The count that the size limit throws away with the oldest key. */
  function Spilled(s: seq<Counter>, key: string, maxSize: nat): nat {
    if |Bump(s, key)| > maxSize then Bump(s, key)[0].value else 0
  }

  function Increment(s: seq<Counter>, key: string, maxSize: nat): seq<Counter> {
    if |Bump(s, key)| > maxSize then Bump(s, key)[1..] else Bump(s, key)
  }

  lemma {:induction false} SumUpdate(s: seq<Counter>, i: nat, c: Counter)
    requires i < |s|
    ensures Sum(s[i := c]) == Sum(s) - s[i].value + c.value
    decreases |s|
  {
    var t := s[i := c];
    if i == 0 {
      assert t[1..] == s[1..];
    } else {
      assert t[1..] == s[1..][i - 1 := c];
      SumUpdate(s[1..], i - 1, c);
    }
  }

  lemma {:induction false} SumSnoc(s: seq<Counter>, c: Counter)
    ensures Sum(s + [c]) == Sum(s) + c.value
    decreases |s|
  {
    if s == [] {
      assert s + [c] == [c] && [c][1..] == [];
    } else {
      assert (s + [c])[1..] == s[1..] + [c];
      SumSnoc(s[1..], c);
    }
  }

  /** Counts are conserved, keys stay distinct, and the map never outgrows its limit. */
  lemma {:induction false} IncrementLaws(s: seq<Counter>, key: string, maxSize: nat)
    requires Distinct(s)
    ensures Distinct(Increment(s, key, maxSize))
    ensures |s| <= maxSize ==> |Increment(s, key, maxSize)| <= maxSize
    ensures Sum(Increment(s, key, maxSize)) + Spilled(s, key, maxSize) == Sum(s) + 1
  {
    BumpLaws(s, key);
    assert Sum(Bump(s, key)) == Bump(s, key)[0].value + Sum(Bump(s, key)[1..]);
  }

  lemma {:induction false} BumpLaws(s: seq<Counter>, key: string)
    requires Distinct(s)
    ensures Distinct(Bump(s, key)) && 1 <= |Bump(s, key)| <= |s| + 1
    ensures Sum(Bump(s, key)) == Sum(s) + 1
  {
    var i := Find(s, key);
    if i < |s| {
      SumUpdate(s, i, Entry(key, s[i].value + 1));
    } else {
      SumSnoc(s, Entry(key, 1));
    }
  }

  function CountOf(s: seq<Counter>, key: string): nat {
    var i := Find(s, key);
    if i < |s| then s[i].value else 0
  }

  lemma {:induction false} BumpAt(s: seq<Counter>, key: string, k: string)
    requires Distinct(s)
    ensures CountOf(Bump(s, key), k) == CountOf(s, k) + if k == key then 1 else 0
  {
    var i, t := Find(s, key), Bump(s, key);
    BumpLaws(s, key);
    if Find(s, k) < |s| {
      assert t[Find(s, k)].key == k;
      FindDistinct(t, Find(s, k));
    } else if k == key {
      assert t[|s|].key == k;
      FindDistinct(t, |s|);
    }
  }

  /** The first entry goes, and no other count changes. */
  lemma {:induction false} TailAt(s: seq<Counter>, k: string)
    requires Distinct(s) && s != []
    ensures CountOf(s[1..], k) == if k == s[0].key then 0 else CountOf(s, k)
  {
    var t := s[1..];
    if Find(t, k) < |t| {
      assert t[Find(t, k)] == s[Find(t, k) + 1];
      FindDistinct(s, Find(t, k) + 1);
    }
  }

  /** An increment adds one to its own key, and drops the first key's count if the map is full. */
  lemma {:induction false} IncrementAt(s: seq<Counter>, key: string, maxSize: nat, k: string)
    requires Distinct(s)
    ensures var t := Bump(s, key);
      CountOf(Increment(s, key, maxSize), k) ==
        if |t| > maxSize && k == t[0].key then 0 else CountOf(s, k) + if k == key then 1 else 0
    ensures |Bump(s, key)| > maxSize ==> CountOf(Bump(s, key), Bump(s, key)[0].key) == Bump(s, key)[0].value
  {
    BumpLaws(s, key);
    BumpAt(s, key, k);
    TailAt(Bump(s, key), k);
    FindDistinct(Bump(s, key), 0);
    BumpAt(s, key, Bump(s, key)[0].key);
  }

  class BoundedMap {
    var entries: seq<Counter>

    /** `incrementBoundedMap`: set the incremented count, then delete the first key if over the limit. */
    method Increase(key: string, maxSize: nat)
      requires Distinct(entries)
      modifies this
      ensures entries == Increment(old(entries), key, maxSize) && Distinct(entries)
    {
      IncrementLaws(entries, key, maxSize);
      var i := Find(entries, key);
      if i < |entries| {
        entries := entries[i := Entry(key, entries[i].value + 1)];
      } else {
        entries := entries + [Entry(key, 1)];
      }
      if |entries| > maxSize {
        entries := entries[1..];
      }
    }
  }
}

module PluginMetrics {
  import opened Options
  import opened JsMap
  import opened BoundedCounters

  const MAX_ENTRIES: nat := 1000

  /** A bounded map, with the increments made and the counts evicted, by key, since the last reset. */
  datatype Tally = Tally(entries: seq<Counter>, increments: multiset<string>, evicted: multiset<string>)

  const NO_CODE: string := "NO_COMPILED_CODE"

  /**
   * Executions. `minTime` is `None` for the initial `Infinity`; `untimed` counts the
   * executions since the last reset that record no time.
   */
  datatype Executions = Executions(
    total: nat, successful: nat, failed: nat,
    totalTime: int, minTime: Option<int>, maxTime: int, untimed: nat)

  datatype Metrics = Metrics(
    executions: Executions, cacheHits: nat, cacheMisses: nat, compilations: nat, plugins: Tally, errors: Tally)

  function NoTally(): Tally {
    Tally([], multiset{}, multiset{})
  }

  function Initial(): Metrics {
    Metrics(Executions(0, 0, 0, 0, None, 0, 0), 0, 0, 0, NoTally(), NoTally())
  }

  /** Where a call got its code from. Empty compiled code sends it on to the lookup by id. */
  datatype Route = FromRequest | FromCache | FromCompiler | ByIdAfterCompiler

  /** Where a `runPlugin` call is suspended, or how it ended. */
  datatype Phase =
    | NotStarted
    | Compiling(start: int)
    | InPool(start: int, plugin: string, route: Route)
    | Done(success: bool, plugin: string, route: Route, code: Option<string>, time: int)   // the worker task settled
    | GaveUp(compiled: bool)   // there was no code to run, even after compiling
    | Rejected                 // compilation failed

  /**
   * The metrics, the calls, the calls as they were at the last reset, and the compilations
   * outside of calls since then.
   */
  datatype World = World(metrics: Metrics, calls: seq<Phase>, base: seq<Phase>, precompiled: nat)

  /** The outcome of the worker task. */
  datatype TaskResult = Succeeded | Failed(code: Option<string>) | Threw

  datatype Event =
    | CodeInRequest(i: nat, plugin: string, now: int)   // compiled code came with the request
    | CacheHit(i: nat, plugin: string, now: int)        // found by path, or by id without a path
    | CacheMiss(i: nat, now: int)                       // by path: compile on demand
    | NoCode(i: nat)                                    // not found by id: give up
    | Compiled(i: nat, plugin: string)
    | CompiledEmpty(i: nat, plugin: string, found: bool)   // empty code: look up by id as well
    | CompileRejected(i: nat)                           // `runPlugin` rejects
    | Finish(i: nat, result: TaskResult, now: int)
    | Precompiled                                       // `precompilePlugin` and its variant for source text
    | Reset

  /** The first key of a full map, as often as it had been counted. */
  function Lost(entries: seq<Counter>, key: string): multiset<string> {
    var t := Bump(entries, key);
    if |t| > MAX_ENTRIES then multiset{}[t[0].key := t[0].value] else multiset{}
  }

  function Count(t: Tally, key: string): Tally {
    Tally(Increment(t.entries, key, MAX_ENTRIES), t.increments + multiset{key}, t.evicted + Lost(t.entries, key))
  }

  function Max(a: int, b: int): int { if a < b then b else a }
  function Min(a: Option<int>, b: int): int { if a.Some? && a.value < b then a.value else b }

  /** A finished worker task. */
  function Timed(x: Executions, success: bool, time: int): Executions {
    x.(total := x.total + 1,
       successful := if success then x.successful + 1 else x.successful,
       failed := if success then x.failed else x.failed + 1,
       totalTime := x.totalTime + time, minTime := Some(Min(x.minTime, time)), maxTime := Max(x.maxTime, time))
  }

  /** The error code a task result is counted under. */
  function ErrorCode(result: TaskResult): Option<string> {
    match result
    case Succeeded => None
    case Failed(code) => if code.Some? && code.value != "" then code else None
    case Threw => Some("WORKER_ERROR")
  }

  function Settle(m: Metrics, result: TaskResult, time: int): Metrics {
    var code := ErrorCode(result);
    m.(executions := Timed(m.executions, result.Succeeded?, time),
       errors := if code.Some? then Count(m.errors, code.value) else m.errors)
  }

  /** No code by id either: an execution that fails without taking time. */
  function GiveUp(m: Metrics): Metrics {
    var x := m.executions;
    m.(executions := x.(total := x.total + 1, failed := x.failed + 1, untimed := x.untimed + 1),
       cacheMisses := m.cacheMisses + 1, errors := Count(m.errors, NO_CODE))
  }

  function Dispatch(m: Metrics, plugin: string): Metrics {
    m.(plugins := Count(m.plugins, plugin))
  }

  /** What one event does to the metrics and to the call it belongs to. */
  function Effect(m: Metrics, ph: Phase, ev: Event): (Metrics, Phase) {
    match ph
    case NotStarted => (
      match ev
      case CodeInRequest(_, plugin, now) => (Dispatch(m, plugin), InPool(now, plugin, FromRequest))
      case CacheHit(_, plugin, now) =>
        (Dispatch(m, plugin).(cacheHits := m.cacheHits + 1), InPool(now, plugin, FromCache))
      case CacheMiss(_, now) => (m.(cacheMisses := m.cacheMisses + 1), Compiling(now))
      case NoCode(_) => (GiveUp(m), GaveUp(false))
      case _ => (m, ph))
    case Compiling(start) => (
      match ev
      case Compiled(_, plugin) =>
        (Dispatch(m, plugin).(compilations := m.compilations + 1), InPool(start, plugin, FromCompiler))
      case CompiledEmpty(_, plugin, found) =>
        if found
        then (Dispatch(m, plugin).(compilations := m.compilations + 1, cacheHits := m.cacheHits + 1),
              InPool(start, plugin, ByIdAfterCompiler))
        else (GiveUp(m).(compilations := m.compilations + 1), GaveUp(true))
      case CompileRejected(_) => (m, Rejected)
      case _ => (m, ph))
    case InPool(start, plugin, route) =>
      if ev.Finish?
      then (Settle(m, ev.result, ev.now - start),
            Done(ev.result.Succeeded?, plugin, route, ErrorCode(ev.result), ev.now - start))
      else (m, ph)
    case _ => (m, ph)
  }

  function Do(w: World, ev: Event): World {
    if ev.Reset? then World(Initial(), w.calls, w.calls, 0)
    else if ev.Precompiled? then
      w.(metrics := w.metrics.(compilations := w.metrics.compilations + 1), precompiled := w.precompiled + 1)
    else if ev.i >= |w.calls| then w
    else
      var (m, ph) := Effect(w.metrics, w.calls[ev.i], ev);
      w.(metrics := m, calls := w.calls[ev.i := ph])
  }

  function Start(n: nat): World {
    var calls := seq(n, _ => NotStarted);
    World(Initial(), calls, calls, 0)
  }

  function Run(w: World, evs: seq<Event>): World
    decreases |evs|
  {
    if evs == [] then w else Run(Do(w, evs[0]), evs[1..])
  }

  // ------------------------------------------------------------------ conservation

  /** Retained plus evicted counts are the increments, within the size limit. */
  ghost predicate TallyOk(t: Tally) {
    && Distinct(t.entries) && |t.entries| <= MAX_ENTRIES
    && Sum(t.entries) + |t.evicted| == |t.increments|
    && forall k :: CountOf(t.entries, k) + t.evicted[k] == t.increments[k]
  }

  /** The total lies between the extremes multiplied by the timed executions. */
  ghost predicate TimesOk(x: Executions, n: nat) {
    && 0 <= x.maxTime && x.totalTime <= x.maxTime * n
    && (x.minTime.None? ==> n == 0 && x.totalTime == 0)
    && (x.minTime.Some? ==> x.minTime.value * n <= x.totalTime && x.minTime.value <= x.maxTime)
  }

  ghost predicate ExecutionsOk(x: Executions) {
    x.successful + x.failed == x.total && x.untimed <= x.failed && TimesOk(x, x.total - x.untimed)
  }

  ghost predicate TotalOk(x: Executions) {
    x.totalTime <= x.maxTime * x.total
  }

  ghost predicate Balanced(m: Metrics) {
    ExecutionsOk(m.executions) && TallyOk(m.plugins) && TallyOk(m.errors)
  }

  lemma CountKeepsTally(t: Tally, key: string)
    requires TallyOk(t)
    ensures TallyOk(Count(t, key))
  {
    IncrementLaws(t.entries, key, MAX_ENTRIES);
    forall k ensures CountOf(Count(t, key).entries, k) + Count(t, key).evicted[k] == Count(t, key).increments[k] {
      IncrementAt(t.entries, key, MAX_ENTRIES, k);
      BumpAt(t.entries, key, k);
    }
    LostSize(t.entries, key);
  }

  lemma {:induction false} LostSize(entries: seq<Counter>, key: string)
    ensures |Lost(entries, key)| == Spilled(entries, key, MAX_ENTRIES)
  {}

  /** Adding one bounded sample keeps a sum between its bounds. */
  lemma SampleBounds(sum: int, n: nat, lo: int, hi: int, lo': int, hi': int, t: int)
    requires lo * n <= sum <= hi * n && lo' <= lo && lo' <= t <= hi' && hi <= hi'
    ensures lo' * (n + 1) <= sum + t <= hi' * (n + 1)
  {
    assert lo' * n <= lo * n && hi * n <= hi' * n;
  }

  lemma TimedKeepsExecutions(x: Executions, success: bool, time: int)
    requires ExecutionsOk(x)
    ensures ExecutionsOk(Timed(x, success, time))
  {
    var n := x.total - x.untimed;
    var lo := if x.minTime.Some? then x.minTime.value else time;
    SampleBounds(x.totalTime, n, lo, x.maxTime, Min(x.minTime, time), Max(x.maxTime, time), time);
  }

  lemma {:induction false} EffectKeepsExecutions(m: Metrics, ph: Phase, ev: Event)
    requires ExecutionsOk(m.executions)
    ensures ExecutionsOk(Effect(m, ph, ev).0.executions)
  {
    if ev.Finish? && ph.InPool? {
      TimedKeepsExecutions(m.executions, ev.result.Succeeded?, ev.now - ph.start);
    }
  }

  /** Each tally is left alone or counts one key. */
  lemma {:induction false} EffectOnTallies(m: Metrics, ph: Phase, ev: Event)
    ensures var m' := Effect(m, ph, ev).0;
      && (m'.plugins == m.plugins || exists k :: m'.plugins == Count(m.plugins, k))
      && (m'.errors == m.errors || exists k :: m'.errors == Count(m.errors, k))
  {}

  lemma {:induction false} EffectKeepsBalance(m: Metrics, ph: Phase, ev: Event)
    requires Balanced(m)
    ensures Balanced(Effect(m, ph, ev).0)
  {
    var m' := Effect(m, ph, ev).0;
    EffectKeepsExecutions(m, ph, ev);
    EffectOnTallies(m, ph, ev);
    if m'.plugins != m.plugins {
      var k :| m'.plugins == Count(m.plugins, k);
      CountKeepsTally(m.plugins, k);
    }
    if m'.errors != m.errors {
      var k :| m'.errors == Count(m.errors, k);
      CountKeepsTally(m.errors, k);
    }
  }

  lemma {:induction false} RunKeepsBalance(w: World, evs: seq<Event>)
    requires Balanced(w.metrics)
    ensures Balanced(Run(w, evs).metrics)
    decreases |evs|
  {
    if evs == [] {
    } else {
      if !evs[0].Reset? && !evs[0].Precompiled? && evs[0].i < |w.calls| {
        EffectKeepsBalance(w.metrics, w.calls[evs[0].i], evs[0]);
      }
      RunKeepsBalance(Do(w, evs[0]), evs[1..]);
    }
  }

  // ------------------------------------------------------------------ the census

  // How much a call in a given phase has contributed to each counter.

  function Bit(b: bool): int { if b then 1 else 0 }

  function Executed(ph: Phase): int { Bit(ph.Done? || ph.GaveUp?) }
  function DidSucceed(ph: Phase): int { Bit(ph.Done? && ph.success) }

  function Time(ph: Phase): int { if ph.Done? then ph.time else 0 }

  /** Dispatches of one plugin, and errors with one code. */
  function DispatchedAs(plugin: string): Phase -> int {
    (ph: Phase) => Bit((ph.InPool? || ph.Done?) && ph.plugin == plugin)
  }

  function ErredAs(code: string): Phase -> int {
    (ph: Phase) => Bit((ph.Done? && ph.code == Some(code)) || (ph.GaveUp? && code == NO_CODE))
  }

  predicate Routed(ph: Phase, route: Route) {
    (ph.InPool? || ph.Done?) && ph.route == route
  }

  function Hits(ph: Phase): int {
    Bit(Routed(ph, FromCache) || Routed(ph, ByIdAfterCompiler))
  }

  /** A call that compiles has missed by path; one that gives up has missed by id as well. */
  function Misses(ph: Phase): int {
    Bit(ph.Compiling? || ph.Rejected? || Compilations(ph) == 1) + Bit(ph.GaveUp?)
  }

  function Compilations(ph: Phase): int {
    Bit(Routed(ph, FromCompiler) || Routed(ph, ByIdAfterCompiler) || ph == GaveUp(true))
  }

  /** The sum of a contribution over all calls. */
  function Census(calls: seq<Phase>, weight: Phase -> int): int {
    if calls == [] then 0 else weight(calls[0]) + Census(calls[1..], weight)
  }

  lemma {:induction false} CensusUpdate(calls: seq<Phase>, i: nat, ph: Phase, weight: Phase -> int)
    requires i < |calls|
    ensures Census(calls[i := ph], weight) + weight(calls[i]) == Census(calls, weight) + weight(ph)
    decreases |calls|
  {
    var t := calls[i := ph];
    if i == 0 {
      assert t[1..] == calls[1..];
    } else {
      assert t[1..] == calls[1..][i - 1 := ph];
      CensusUpdate(calls[1..], i - 1, ph, weight);
    }
  }

  /** A counter is what the calls contributed since the last reset, and `extra` besides. */
  ghost predicate Explained(counter: int, w: World, weight: Phase -> int, extra: int) {
    counter + Census(w.base, weight) == Census(w.calls, weight) + extra
  }

  /** The counters are what the calls themselves show to have happened since the last reset. */
  ghost predicate CountersOk(w: World) {
    && Explained(w.metrics.executions.total, w, Executed, 0)
    && Explained(w.metrics.executions.successful, w, DidSucceed, 0)
    && Explained(w.metrics.executions.totalTime, w, Time, 0)
    && Explained(w.metrics.cacheHits, w, Hits, 0)
    && Explained(w.metrics.cacheMisses, w, Misses, 0)
    && Explained(w.metrics.compilations, w, Compilations, w.precompiled)
  }

  /** And so are the increments of every key. */
  ghost predicate TalliesOk(w: World) {
    forall k :: Explained(w.metrics.plugins.increments[k], w, DispatchedAs(k), 0)
             && Explained(w.metrics.errors.increments[k], w, ErredAs(k), 0)
  }

  /** Call `i` was measured since the last reset. */
  ghost predicate Measured(w: World, i: nat) {
    i < |w.calls| == |w.base| && w.calls[i].Done? && !w.base[i].Done?
  }

  /** The extremes are the least and the greatest time measured since then, and 0 if that is greater. */
  ghost predicate ExtremesOk(w: World) {
    var x := w.metrics.executions;
    && |w.calls| == |w.base|
    && (forall i: nat :: Measured(w, i) ==> x.minTime.Some? && x.minTime.value <= w.calls[i].time <= x.maxTime)
    && (x.minTime.Some? ==> exists i: nat :: Measured(w, i) && w.calls[i].time == x.minTime.value)
    && 0 <= x.maxTime && (x.maxTime > 0 ==> exists i: nat :: Measured(w, i) && w.calls[i].time == x.maxTime)
  }

  ghost predicate Accounted(w: World) {
    CountersOk(w) && TalliesOk(w) && ExtremesOk(w)
  }

  /** Each event moves the counters as it moves its call. */
  lemma {:induction false} EffectIsAccounted(m: Metrics, ph: Phase, ev: Event)
    ensures var (m', ph') := Effect(m, ph, ev);
      && m'.executions.total + Executed(ph) == m.executions.total + Executed(ph')
      && m'.executions.successful + DidSucceed(ph) == m.executions.successful + DidSucceed(ph')
      && m'.executions.totalTime + Time(ph) == m.executions.totalTime + Time(ph')
      && m'.cacheHits + Hits(ph) == m.cacheHits + Hits(ph')
      && m'.cacheMisses + Misses(ph) == m.cacheMisses + Misses(ph')
      && m'.compilations + Compilations(ph) == m.compilations + Compilations(ph')
  {}

  lemma {:induction false} EffectIsTallied(m: Metrics, ph: Phase, ev: Event, k: string)
    ensures var (m', ph') := Effect(m, ph, ev);
      && m'.plugins.increments[k] + DispatchedAs(k)(ph) == m.plugins.increments[k] + DispatchedAs(k)(ph')
      && m'.errors.increments[k] + ErredAs(k)(ph) == m.errors.increments[k] + ErredAs(k)(ph')
  {}

  /** The extremes move only with a call that is measured. */
  lemma {:induction false} EffectOnExtremes(m: Metrics, ph: Phase, ev: Event)
    ensures var (m', ph') := Effect(m, ph, ev);
      if ph'.Done? && !ph.Done?
      then && m'.executions.minTime == Some(Min(m.executions.minTime, ph'.time))
           && m'.executions.maxTime == Max(m.executions.maxTime, ph'.time)
      else && m'.executions.minTime == m.executions.minTime && m'.executions.maxTime == m.executions.maxTime
           && (ph.Done? ==> ph' == ph)
  {}

  /** The world after an event that belongs to call `i`. */
  function Moved(w: World, m: Metrics, i: nat, ph: Phase): World
    requires i < |w.calls|
  {
    w.(metrics := m, calls := w.calls[i := ph])
  }

  lemma {:induction false} CountersMove(w: World, m: Metrics, i: nat, ph: Phase, ev: Event)
    requires i < |w.calls| && CountersOk(w) && (m, ph) == Effect(w.metrics, w.calls[i], ev)
    ensures CountersOk(Moved(w, m, i, ph))
  {
    EffectIsAccounted(w.metrics, w.calls[i], ev);
    CensusUpdate(w.calls, i, ph, Executed);
    CensusUpdate(w.calls, i, ph, DidSucceed);
    CensusUpdate(w.calls, i, ph, Time);
    CensusUpdate(w.calls, i, ph, Hits);
    CensusUpdate(w.calls, i, ph, Misses);
    CensusUpdate(w.calls, i, ph, Compilations);
  }

  lemma {:induction false} TalliesMove(w: World, m: Metrics, i: nat, ph: Phase, ev: Event)
    requires i < |w.calls| && TalliesOk(w) && (m, ph) == Effect(w.metrics, w.calls[i], ev)
    ensures TalliesOk(Moved(w, m, i, ph))
  {
    var w' := Moved(w, m, i, ph);
    forall k ensures Explained(m.plugins.increments[k], w', DispatchedAs(k), 0)
                  && Explained(m.errors.increments[k], w', ErredAs(k), 0)
    {
      EffectIsTallied(w.metrics, w.calls[i], ev, k);
      CensusUpdate(w.calls, i, ph, DispatchedAs(k));
      CensusUpdate(w.calls, i, ph, ErredAs(k));
    }
  }

  lemma {:induction false} ExtremesMove(w: World, m: Metrics, i: nat, ph: Phase, ev: Event)
    requires i < |w.calls| && ExtremesOk(w) && (m, ph) == Effect(w.metrics, w.calls[i], ev)
    requires w.base[i].Done? ==> w.calls[i].Done?
    ensures ExtremesOk(Moved(w, m, i, ph))
  {
    var w' := Moved(w, m, i, ph);
    EffectOnExtremes(w.metrics, w.calls[i], ev);
    forall j: nat | Measured(w, j) ensures Measured(w', j) && w'.calls[j].time == w.calls[j].time {}
    if ph.Done? && !w.calls[i].Done? {
      assert Measured(w', i);
    }
    forall j: nat | Measured(w', j) && j != i ensures Measured(w, j) {}
    ExtremesAttained(w, w', i);
  }

  /** The attained part, by cases of who attains the extreme. */
  lemma {:induction false} ExtremesAttained(w: World, w': World, i: nat)
    requires ExtremesOk(w)
    requires forall j: nat :: Measured(w, j) ==> Measured(w', j) && w'.calls[j].time == w.calls[j].time
    requires
      var x, x' := w.metrics.executions, w'.metrics.executions;
      || (x'.minTime == x.minTime && x'.maxTime == x.maxTime)
      || (Measured(w', i) && x'.minTime == Some(Min(x.minTime, w'.calls[i].time))
          && x'.maxTime == Max(x.maxTime, w'.calls[i].time))
    ensures var x' := w'.metrics.executions;
      && (x'.minTime.Some? ==> exists j: nat :: Measured(w', j) && w'.calls[j].time == x'.minTime.value)
      && (x'.maxTime > 0 ==> exists j: nat :: Measured(w', j) && w'.calls[j].time == x'.maxTime)
  {
    var x, x' := w.metrics.executions, w'.metrics.executions;
    if x'.minTime.Some? && x'.minTime == x.minTime {
      var j: nat :| Measured(w, j) && w.calls[j].time == x.minTime.value;
      assert Measured(w', j) && w'.calls[j].time == x'.minTime.value;
    }
    if x'.maxTime > 0 && x'.maxTime == x.maxTime {
      var j: nat :| Measured(w, j) && w.calls[j].time == x.maxTime;
      assert Measured(w', j) && w'.calls[j].time == x'.maxTime;
    }
  }

  /** What was done at the last reset stays done. */
  ghost predicate BaseStays(w: World) {
    |w.base| == |w.calls| && forall i :: 0 <= i < |w.calls| && w.base[i].Done? ==> w.calls[i].Done?
  }

  lemma {:induction false} CallKeepsAccount(w: World, ev: Event)
    requires Accounted(w) && BaseStays(w) && !ev.Reset? && !ev.Precompiled? && ev.i < |w.calls|
    ensures Accounted(Do(w, ev)) && BaseStays(Do(w, ev))
  {
    var (m, ph) := Effect(w.metrics, w.calls[ev.i], ev);
    CountersMove(w, m, ev.i, ph, ev);
    TalliesMove(w, m, ev.i, ph, ev);
    ExtremesMove(w, m, ev.i, ph, ev);
    EffectOnExtremes(w.metrics, w.calls[ev.i], ev);
  }

  /** After a reset all counters are zero and nothing has happened since. */
  lemma {:induction false} ResetKeepsAccount(w: World)
    ensures Accounted(Do(w, Reset)) && BaseStays(Do(w, Reset))
  {}

  lemma {:induction false} PrecompiledKeepsAccount(w: World)
    requires Accounted(w) && BaseStays(w)
    ensures Accounted(Do(w, Precompiled)) && BaseStays(Do(w, Precompiled))
  {
    var w' := Do(w, Precompiled);
    SameExtremes(w, w');
    forall k ensures Explained(w'.metrics.plugins.increments[k], w', DispatchedAs(k), 0)
                  && Explained(w'.metrics.errors.increments[k], w', ErredAs(k), 0)
    {
      assert Explained(w.metrics.plugins.increments[k], w, DispatchedAs(k), 0);
    }
  }

  lemma {:induction false} DoKeepsAccount(w: World, ev: Event)
    requires Accounted(w) && BaseStays(w)
    ensures Accounted(Do(w, ev)) && BaseStays(Do(w, ev))
  {
    if ev.Reset? {
      ResetKeepsAccount(w);
    } else if ev.Precompiled? {
      PrecompiledKeepsAccount(w);
    } else if ev.i < |w.calls| {
      CallKeepsAccount(w, ev);
    }
  }

  lemma {:induction false} SameExtremes(w: World, w': World)
    requires ExtremesOk(w) && w'.calls == w.calls && w'.base == w.base && w'.metrics.executions == w.metrics.executions
    ensures ExtremesOk(w')
  {
    forall i: nat ensures Measured(w, i) <==> Measured(w', i) {}
  }

  lemma {:induction false} RunKeepsAccount(w: World, evs: seq<Event>)
    requires Accounted(w) && BaseStays(w)
    ensures Accounted(Run(w, evs)) && BaseStays(Run(w, evs))
    decreases |evs|
  {
    if evs == [] {
    } else {
      DoKeepsAccount(w, evs[0]);
      RunKeepsAccount(Do(w, evs[0]), evs[1..]);
    }
  }

  /**
   * For any number of `runPlugin` calls, any interleaving, resets at any point and any
   * clock: successes and failures add up to the executions, the total time lies between
   * the shortest and the longest time multiplied by the timed executions, each bounded
   * map stays within its limit, and for each key retained plus evicted counts equal the
   * increments. Executions, successes, total time, cache hits, cache misses, compilations,
   * the dispatches of each plugin and the errors of each code are exactly what the calls went
   * through since the last reset, besides precompilations, and so are the extremes.
   */
  lemma {:induction false} MetricsConservation(n: nat, evs: seq<Event>)
    ensures var w := Run(Start(n), evs); Balanced(w.metrics) && TotalOk(w.metrics.executions) && Accounted(w)
  {
    RunKeepsAccount(Start(n), evs);
    StartsBalanced(Start(n).metrics);
    RunKeepsBalance(Start(n), evs);
    TotalBound(Run(Start(n), evs).metrics.executions);
  }

  lemma StartsBalanced(m: Metrics)
    requires m == Initial()
    ensures Balanced(m)
  {
    assert TallyOk(m.plugins) && TallyOk(m.errors);
    assert ExecutionsOk(m.executions);
  }

  lemma TotalBound(x: Executions)
    requires ExecutionsOk(x)
    ensures TotalOk(x)
  {
    assert x.maxTime * x.total == x.maxTime * (x.total - x.untimed) + x.maxTime * x.untimed;
    assert 0 <= x.maxTime * x.untimed;
  }

  // ------------------------------------------------------------------ where times come from

  /** When call `i` began, if it did. */
  function Began(evs: seq<Event>, i: nat): Option<int> {
    if evs == [] then None
    else
      var front, last := evs[..|evs| - 1], evs[|evs| - 1];
      if Began(front, i).Some? then Began(front, i)
      else if (last.CodeInRequest? || last.CacheHit? || last.CacheMiss?) && last.i == i then Some(last.now)
      else None
  }

  /** Call `i` was measured by event `k`: from its beginning, through compilation and queue, to its end. */
  ghost predicate MeasuredBy(evs: seq<Event>, i: nat, time: int, k: nat) {
    && k < |evs| && evs[k].Finish? && evs[k].i == i
    && Began(evs[..k], i).Some? && time == evs[k].now - Began(evs[..k], i).value
  }

  ghost predicate PhaseOk(evs: seq<Event>, i: nat, ph: Phase) {
    match ph
    case NotStarted => Began(evs, i).None?
    case Compiling(start) => Began(evs, i) == Some(start)
    case InPool(start, _, _) => Began(evs, i) == Some(start)
    case Done(_, _, _, _, time) => exists k: nat :: MeasuredBy(evs, i, time, k)
    case _ => true
  }

  lemma {:induction false} RunLast(w: World, evs: seq<Event>)
    requires evs != []
    ensures Run(w, evs) == Do(Run(w, evs[..|evs| - 1]), evs[|evs| - 1])
    decreases |evs|
  {
    var front := evs[..|evs| - 1];
    if front != [] {
      RunLast(Do(w, evs[0]), evs[1..]);
      assert evs[1..][..|evs[1..]| - 1] == front[1..];
    }
  }

  lemma {:induction false} MeasuredStays(evs: seq<Event>, i: nat, time: int, k: nat)
    requires evs != [] && MeasuredBy(evs[..|evs| - 1], i, time, k)
    ensures MeasuredBy(evs, i, time, k)
  {
    assert evs[..|evs| - 1][..k] == evs[..k];
  }

  /** Whether an event belongs to call `i`. */
  predicate Concerns(ev: Event, i: nat) {
    !ev.Reset? && !ev.Precompiled? && ev.i == i
  }

  lemma {:induction false} PhaseStep(evs: seq<Event>, i: nat, m: Metrics, ph: Phase)
    requires evs != [] && PhaseOk(evs[..|evs| - 1], i, ph)
    ensures var last := evs[|evs| - 1];
      PhaseOk(evs, i, if Concerns(last, i) then Effect(m, ph, last).1 else ph)
  {
    var front, last := evs[..|evs| - 1], evs[|evs| - 1];
    if ph.Done? {
      var k: nat :| MeasuredBy(front, i, ph.time, k);
      MeasuredStays(evs, i, ph.time, k);
    } else if Concerns(last, i) && ph.InPool? && last.Finish? {
      assert MeasuredBy(evs, i, last.now - ph.start, |front|);
    }
  }

  /** Every recorded time is the time from a call's first event to the end of its worker task. */
  lemma {:induction false} TimesAreElapsed(n: nat, evs: seq<Event>, i: nat)
    requires i < n
    ensures |Run(Start(n), evs).calls| == n && PhaseOk(evs, i, Run(Start(n), evs).calls[i])
    decreases |evs|
  {
    if evs == [] {
    } else {
      var front := evs[..|evs| - 1];
      TimesAreElapsed(n, front, i);
      RunLast(Start(n), evs);
      var w := Run(Start(n), front);
      PhaseStep(evs, i, w.metrics, w.calls[i]);
    }
  }
}
