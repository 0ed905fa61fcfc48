/**
 * `withLock` of the plugins' key-value store (`plugins/lib/kv.ts`): any number of calls,
 * from any plugins, against one Redis whose keys also hold plugin data. Every command is
 * one event, and a run is any sequence of events.
 */
module KvLock {
  import opened Options
  import opened KvKeys

  /** One call of `withLock`. Its token is its index: `randomUUID` never repeats. */
  datatype Call = Call(plugin: string, key: string, ttlMs: int)

  /** What a Redis key holds. */
  datatype Value = Token(call: nat) | Payload(text: string)
  datatype Cell = Cell(value: Value, expiry: Option<nat>)

  datatype Phase =
    | NotStarted
    | Inside(expiry: nat)       // running `fn`; the lease ends at `expiry`
    | Leaving(expiry: nat)      // `fn` has settled, the unlock script has not run yet
    | Finished
    | Rejected                  // busy, invalid key, or an expiry time Redis refuses
    | Died(expiry: nat)         // the process died; its lease ends at `expiry`

  datatype World = World(cells: map<string, Cell>, now: nat, phases: seq<Phase>)

  datatype Event =
    | Tick(ms: nat)
    | Enter(i: nat)             // SET lockKey token PX ttl NX
    | Settle(i: nat)            // `fn` resolves or rejects
    | Unlock(i: nat)            // the unlock script
    | Die(i: nat)               // the process running the call dies
    | SetData(plugin: string, key: string, text: string, ttlMs: Option<nat>)
    | DelData(plugin: string, key: string)
    | ClearKey(plugin: string, redisKey: string)   // one UNLINK of that plugin's `clear`

  function Init(calls: seq<Call>): World {
    World(map[], 0, seq(|calls|, _ => NotStarted))
  }

  predicate Present(w: World, k: string) {
    k in w.cells && (w.cells[k].expiry.Some? ==> w.now < w.cells[k].expiry.value)
  }

  function LockKey(c: Call): Option<string> {
    Key(c.plugin, Lock, c.key)
  }

  /** A positive expiry time and a valid key are needed to get as far as the NX test. */
  predicate CanLock(c: Call) {
    ValidKey(c.key) && 0 < c.ttlMs
  }

  function DoEnter(c: Call, i: nat, w: World): World
    requires i < |w.phases|
  {
    if !w.phases[i].NotStarted? then w
    else if !CanLock(c) || Present(w, LockKey(c).value) then w.(phases := w.phases[i := Rejected])
    else
      var expiry := w.now + c.ttlMs;
      w.(cells := w.cells[LockKey(c).value := Cell(Token(i), Some(expiry))], phases := w.phases[i := Inside(expiry)])
  }

  /** GET and compare, then UNLINK. */
  function DoUnlock(c: Call, i: nat, w: World): (w': World)
    requires i < |w.phases|
    ensures forall k :: k in w.cells && w.cells[k].value != Token(i) ==> k in w'.cells && w'.cells[k] == w.cells[k]
  {
    if !w.phases[i].Leaving? || !CanLock(c) then w
    else
      var k := LockKey(c).value;
      var cells := if Present(w, k) && w.cells[k].value == Token(i) then w.cells - {k} else w.cells;
      w.(cells := cells, phases := w.phases[i := Finished])
  }

  function Do(glob: Glob, calls: seq<Call>, w: World, ev: Event): World {
    match ev
    case Tick(ms) => w.(now := w.now + ms)
    case Enter(i) => if i < |w.phases| && i < |calls| then DoEnter(calls[i], i, w) else w
    case Settle(i) =>
      if i < |w.phases| && w.phases[i].Inside?
      then w.(phases := w.phases[i := Leaving(w.phases[i].expiry)]) else w
    case Unlock(i) => if i < |w.phases| && i < |calls| then DoUnlock(calls[i], i, w) else w
    case Die(i) =>
      if i < |w.phases| && (w.phases[i].Inside? || w.phases[i].Leaving?)
      then w.(phases := w.phases[i := Died(w.phases[i].expiry)]) else w
    case SetData(plugin, key, text, ttlMs) =>
      if !ValidKey(key) then w
      else
        var expiry := if ttlMs.Some? && 0 < ttlMs.value then Some(w.now + ttlMs.value) else None;
        w.(cells := w.cells[Key(plugin, Data, key).value := Cell(Payload(text), expiry)])
    case DelData(plugin, key) =>
      if !ValidKey(key) then w else w.(cells := w.cells - {Key(plugin, Data, key).value})
    case ClearKey(plugin, k) =>
      if glob(ClearPattern(plugin), k) then w.(cells := w.cells - {k}) else w
  }

  function Run(glob: Glob, calls: seq<Call>, w: World, evs: seq<Event>): World
    decreases |evs|
  {
    if evs == [] then w else Run(glob, calls, Do(glob, calls, w, evs[0]), evs[1..])
  }

  // ------------------------------------------------------------------ exclusion

  /** Call `i` is inside `fn`, or about to unlock, and its lease has not expired. */
  ghost predicate Live(w: World, i: nat) {
    && i < |w.phases|
    && (w.phases[i].Inside? || w.phases[i].Leaving?)
    && w.now < w.phases[i].expiry
  }

  /** Two different calls that can hold the same lock key. */
  ghost predicate Contend(calls: seq<Call>, i: nat, j: nat) {
    && i < |calls| && j < |calls| && i != j
    && CanLock(calls[i]) && CanLock(calls[j]) && LockKey(calls[i]) == LockKey(calls[j])
  }

  /** At most one of the contending calls has a live lease. */
  ghost predicate Exclusive(calls: seq<Call>, w: World, i: nat) {
    Live(w, i) ==> forall j :: Contend(calls, i, j) ==> !Live(w, j)
  }

  /** A step that removes the lock key of call `i` because its plugin, or a wildcard, is cleared. */
  ghost predicate ClearsLockOf(glob: Glob, c: Call, ev: Event) {
    ev.ClearKey? && CanLock(c) && ev.redisKey == LockKey(c).value && glob(ClearPattern(ev.plugin), ev.redisKey)
  }

  /** Call `i` has entered, has not unlocked, and its lease has not expired; it may have died. */
  ghost predicate Holding(w: World, i: nat) {
    Live(w, i) || (i < |w.phases| && w.phases[i].Died? && w.now < w.phases[i].expiry)
  }

  /** The lock key of a call that holds the lock has its token. */
  ghost predicate Guarded(calls: seq<Call>, w: World, i: nat)
    requires i < |calls|
  {
    Holding(w, i) ==>
      && CanLock(calls[i]) && Present(w, LockKey(calls[i]).value)
      && w.cells[LockKey(calls[i]).value] == Cell(Token(i), Some(w.phases[i].expiry))
  }

  lemma DoKeepsGuarded(glob: Glob, calls: seq<Call>, w: World, ev: Event, i: nat)
    requires i < |calls| == |w.phases| && Guarded(calls, w, i) && !ClearsLockOf(glob, calls[i], ev)
    ensures |Do(glob, calls, w, ev).phases| == |calls| && Guarded(calls, Do(glob, calls, w, ev), i)
  {
    if CanLock(calls[i]) {
      match ev
      case SetData(plugin, key, _, _) =>
        if ValidKey(key) { KeyInjective(plugin, Data, key, calls[i].plugin, Lock, calls[i].key); }
      case DelData(plugin, key) =>
        if ValidKey(key) { KeyInjective(plugin, Data, key, calls[i].plugin, Lock, calls[i].key); }
      case _ =>
    }
  }

  lemma {:induction false} RunKeepsGuarded(glob: Glob, calls: seq<Call>, w: World, evs: seq<Event>, i: nat)
    requires i < |calls| == |w.phases| && Guarded(calls, w, i)
    requires forall n :: 0 <= n < |evs| ==> !ClearsLockOf(glob, calls[i], evs[n])
    ensures |Run(glob, calls, w, evs).phases| == |calls| && Guarded(calls, Run(glob, calls, w, evs), i)
    decreases |evs|
  {
    if evs == [] {
    } else {
      DoKeepsGuarded(glob, calls, w, evs[0], i);
      RunKeepsGuarded(glob, calls, Do(glob, calls, w, evs[0]), evs[1..], i);
    }
  }

  /** A run in which only the plugins in `clearers` call `clear`. */
  ghost predicate ClearedBy(evs: seq<Event>, clearers: set<string>) {
    forall n :: 0 <= n < |evs| && evs[n].ClearKey? ==> evs[n].plugin in clearers
  }

  ghost predicate MutualExclusion(glob: Glob, calls: seq<Call>, clearers: set<string>) {
    forall evs, i | ClearedBy(evs, clearers) :: Exclusive(calls, Run(glob, calls, Init(calls), evs), i)
  }

  /** No plugin that clears has a scan pattern covering a lock key that two calls contend for. */
  ghost predicate ClearSparesLocks(glob: Glob, calls: seq<Call>, clearers: set<string>) {
    forall i: nat, j: nat, q: string ::
      Contend(calls, i, j) && q in clearers ==> !glob(ClearPattern(q), LockKey(calls[i]).value)
  }

  lemma {:induction false} ExclusiveUnlessCleared(glob: Glob, calls: seq<Call>, clearers: set<string>,
                                                  evs: seq<Event>, i: nat)
    requires ClearSparesLocks(glob, calls, clearers) && ClearedBy(evs, clearers)
    ensures Exclusive(calls, Run(glob, calls, Init(calls), evs), i)
  {
    var w := Run(glob, calls, Init(calls), evs);
    forall j | Contend(calls, i, j) ensures !(Live(w, i) && Live(w, j)) {
      assert Contend(calls, j, i);
      RunKeepsGuarded(glob, calls, Init(calls), evs, i);
      RunKeepsGuarded(glob, calls, Init(calls), evs, j);
    }
  }

  /** Two calls with a clear between them. */
  function ClearBetween(calls: seq<Call>, i: nat, j: nat, q: string): seq<Event>
    requires i < |calls| && CanLock(calls[i])
  {
    [Enter(i), ClearKey(q, LockKey(calls[i]).value), Enter(j)]
  }

  /** The second call gets in while the first lease is live. */
  lemma {:induction false} ClearLetsSecondIn(glob: Glob, calls: seq<Call>, i: nat, j: nat, q: string)
    requires Contend(calls, i, j) && glob(ClearPattern(q), LockKey(calls[i]).value)
    ensures ClearedBy(ClearBetween(calls, i, j, q), {q})
    ensures var w := Run(glob, calls, Init(calls), ClearBetween(calls, i, j, q)); Live(w, i) && Live(w, j)
  {
    var k := LockKey(calls[i]).value;
    var evs := ClearBetween(calls, i, j, q);
    var w1 := Do(glob, calls, Init(calls), evs[0]);
    assert w1.phases[i] == Inside(calls[i].ttlMs) && w1.now == 0;
    var w2 := Do(glob, calls, w1, evs[1]);
    assert k !in w2.cells;
    var w3 := Do(glob, calls, w2, evs[2]);
    assert w3.phases[j] == Inside(calls[j].ttlMs) && w3.phases[i] == w1.phases[i];
    assert evs[1..] == [ClearKey(q, k), Enter(j)] && evs[1..][1..] == [Enter(j)] && evs[1..][1..][1..] == [];
    assert Run(glob, calls, w2, [Enter(j)]) == w3;
    assert Run(glob, calls, w1, evs[1..]) == w3;
  }

  /**
   * In every run, whatever expires, dies or is written besides, at most one call per lock
   * key is inside `fn` with a live lease, if and only if no plugin that calls `clear` can
   * match a contended lock key.
   */
  lemma ExclusionIff(glob: Glob, calls: seq<Call>, clearers: set<string>)
    ensures MutualExclusion(glob, calls, clearers) <==> ClearSparesLocks(glob, calls, clearers)
  {
    if ClearSparesLocks(glob, calls, clearers) {
      forall evs, i | ClearedBy(evs, clearers)
        ensures Exclusive(calls, Run(glob, calls, Init(calls), evs), i)
      {
        ExclusiveUnlessCleared(glob, calls, clearers, evs, i);
      }
    } else {
      var i: nat, j: nat, q: string :| Contend(calls, i, j) && q in clearers
        && glob(ClearPattern(q), LockKey(calls[i]).value);
      var evs := ClearBetween(calls, i, j, q);
      ClearLetsSecondIn(glob, calls, i, j, q);
      assert ClearedBy(evs, clearers);
      assert !Exclusive(calls, Run(glob, calls, Init(calls), evs), i);
    }
  }

  /** No plugin with contending calls clears its own namespace. */
  ghost predicate NoSelfClear(calls: seq<Call>, clearers: set<string>) {
    forall i: nat, j: nat, q: string ::
      Contend(calls, i, j) && q in clearers ==> StripBraces(q) != StripBraces(calls[i].plugin)
  }

  /** For ids without glob characters: exclusion holds unless a contending plugin clears itself. */
  lemma ExclusionForLiteralIds(glob: Glob, calls: seq<Call>, clearers: set<string>)
    requires MatchesLiterally(glob) && forall q :: q in clearers ==> Literal(q)
    ensures MutualExclusion(glob, calls, clearers) <==> NoSelfClear(calls, clearers)
  {
    ExclusionIff(glob, calls, clearers);
    if ClearSparesLocks(glob, calls, clearers) {
      forall i: nat, j: nat, q: string | Contend(calls, i, j) && q in clearers
        ensures StripBraces(q) != StripBraces(calls[i].plugin)
      {
        assert !glob(ClearPattern(q), LockKey(calls[i]).value);
        ClearCoversOwnKeys(glob, q, calls[i].plugin, Lock, calls[i].key);
      }
    } else {
      var i: nat, j: nat, q: string :| Contend(calls, i, j) && q in clearers
        && glob(ClearPattern(q), LockKey(calls[i]).value);
      ClearCoversOwnKeys(glob, q, calls[i].plugin, Lock, calls[i].key);
    }
  }

  // ------------------------------------------------------------------ refusal

  /** A lock key that is present has the token of a call that still holds the lock. */
  ghost predicate Owned(calls: seq<Call>, w: World) {
    forall k :: Present(w, k) && w.cells[k].value.Token? ==>
      var i := w.cells[k].value.call;
      && i < |calls| && CanLock(calls[i]) && LockKey(calls[i]).value == k
      && Holding(w, i) && w.cells[k].expiry == Some(w.phases[i].expiry)
  }

  lemma {:induction false} DoKeepsOwned(glob: Glob, calls: seq<Call>, w: World, ev: Event)
    requires |calls| == |w.phases| && Owned(calls, w)
    ensures |Do(glob, calls, w, ev).phases| == |calls| && Owned(calls, Do(glob, calls, w, ev))
  {
    var w' := Do(glob, calls, w, ev);
    forall k | Present(w', k) && w'.cells[k].value.Token?
      ensures var i := w'.cells[k].value.call;
        && i < |calls| && CanLock(calls[i]) && LockKey(calls[i]).value == k
        && Holding(w', i) && w'.cells[k].expiry == Some(w'.phases[i].expiry)
    {
      if k in w.cells && w.cells[k] == w'.cells[k] {
        assert Present(w, k);
      }
    }
  }

  lemma {:induction false} RunKeepsOwned(glob: Glob, calls: seq<Call>, w: World, evs: seq<Event>)
    requires |calls| == |w.phases| && Owned(calls, w)
    ensures |Run(glob, calls, w, evs).phases| == |calls| && Owned(calls, Run(glob, calls, w, evs))
    decreases |evs|
  {
    if evs == [] {
    } else {
      DoKeepsOwned(glob, calls, w, evs[0]);
      RunKeepsOwned(glob, calls, Do(glob, calls, w, evs[0]), evs[1..]);
    }
  }

  /** No data key is ever at the place of a lock key. */
  ghost predicate LocksHoldTokens(calls: seq<Call>, w: World, i: nat)
    requires i < |calls|
  {
    CanLock(calls[i]) && LockKey(calls[i]).value in w.cells ==> w.cells[LockKey(calls[i]).value].value.Token?
  }

  lemma {:induction false} RunKeepsTokens(glob: Glob, calls: seq<Call>, w: World, evs: seq<Event>, i: nat)
    requires i < |calls| && LocksHoldTokens(calls, w, i)
    ensures LocksHoldTokens(calls, Run(glob, calls, w, evs), i)
    decreases |evs|
  {
    if evs == [] {
    } else {
      if CanLock(calls[i]) && evs[0].SetData? && ValidKey(evs[0].key) {
        KeyInjective(evs[0].plugin, Data, evs[0].key, calls[i].plugin, Lock, calls[i].key);
      }
      RunKeepsTokens(glob, calls, Do(glob, calls, w, evs[0]), evs[1..], i);
    }
  }

  /**
   * In every run, a call that tries to enter is refused only if another call has entered the
   * same lock, has neither unlocked it nor let its lease expire; and it is refused then
   * whenever no plugin that clears matches a contended lock key. A call that has unlocked
   * never stands in the way.
   */
  lemma {:induction false} RefusedIff(glob: Glob, calls: seq<Call>, clearers: set<string>, evs: seq<Event>, i: nat)
    requires ClearedBy(evs, clearers) && i < |calls| && CanLock(calls[i])
    requires var w := Run(glob, calls, Init(calls), evs); i < |w.phases| && w.phases[i].NotStarted?
    ensures var w := Run(glob, calls, Init(calls), evs);
      var refused := Do(glob, calls, w, Enter(i)).phases[i] == Rejected;
      && (refused ==> exists j :: Contend(calls, i, j) && Holding(w, j))
      && (ClearSparesLocks(glob, calls, clearers) ==> (refused <==> exists j :: Contend(calls, i, j) && Holding(w, j)))
  {
    var w := Run(glob, calls, Init(calls), evs);
    RunKeepsOwned(glob, calls, Init(calls), evs);
    RunKeepsTokens(glob, calls, Init(calls), evs, i);
    var k := LockKey(calls[i]).value;
    if Present(w, k) {
      var j := w.cells[k].value.call;
      assert Contend(calls, i, j) && Holding(w, j);
    } else if ClearSparesLocks(glob, calls, clearers) {
      forall j | Contend(calls, i, j) ensures !Holding(w, j) {
        assert Contend(calls, j, i);
        RunKeepsGuarded(glob, calls, Init(calls), evs, j);
      }
    }
  }

  // ------------------------------------------------------------------ data

  /** The time after some events. */
  function Clock(evs: seq<Event>): nat {
    if evs == [] then 0
    else Clock(evs[..|evs| - 1]) + if evs[|evs| - 1].Tick? then evs[|evs| - 1].ms else 0
  }

  /** What an event makes of a Redis key that holds data. */
  function Updated(glob: Glob, ev: Event, k: string, now: nat, was: Option<Cell>): Option<Cell> {
    match ev
    case SetData(plugin, key, text, ttlMs) =>
      if Key(plugin, Data, key) != Some(k) then was
      else Some(Cell(Payload(text), if ttlMs.Some? && 0 < ttlMs.value then Some(now + ttlMs.value) else None))
    case DelData(plugin, key) => if Key(plugin, Data, key) == Some(k) then None else was
    case ClearKey(plugin, key) => if key == k && glob(ClearPattern(plugin), k) then None else was
    case _ => was
  }

  /** What it should hold: the last text set there since its last delete or clear. */
  function Written(glob: Glob, evs: seq<Event>, k: string): Option<Cell> {
    if evs == [] then None
    else
      var front, last := evs[..|evs| - 1], evs[|evs| - 1];
      Updated(glob, last, k, Clock(front), Written(glob, front, k))
  }

  function CellAt(w: World, k: string): Option<Cell> {
    if k in w.cells then Some(w.cells[k]) else None
  }

  lemma {:induction false} DataStep(glob: Glob, calls: seq<Call>, w: World, ev: Event, k: string)
    requires forall i :: 0 <= i < |calls| && CanLock(calls[i]) ==> LockKey(calls[i]).value != k
    ensures CellAt(Do(glob, calls, w, ev), k) == Updated(glob, ev, k, w.now, CellAt(w, k))
  {}

  lemma {:induction false} RunLast(glob: Glob, calls: seq<Call>, w: World, evs: seq<Event>)
    requires evs != []
    ensures Run(glob, calls, w, evs) == Do(glob, calls, Run(glob, calls, w, evs[..|evs| - 1]), evs[|evs| - 1])
    decreases |evs|
  {
    var front, last := evs[..|evs| - 1], evs[|evs| - 1];
    if front != [] {
      RunLast(glob, calls, Do(glob, calls, w, evs[0]), evs[1..]);
      assert evs[1..][..|evs[1..]| - 1] == front[1..];
    }
  }

  /** Locks and unlocks never touch a data key: it holds what was last written there. */
  lemma {:induction false} DataIsLastWritten(glob: Glob, calls: seq<Call>, evs: seq<Event>, plugin: string, key: string)
    requires ValidKey(key)
    ensures var w, k := Run(glob, calls, Init(calls), evs), Key(plugin, Data, key).value;
      && w.now == Clock(evs)
      && CellAt(w, k) == Written(glob, evs, k)
    decreases |evs|
  {
    if evs == [] {
    } else {
      var front, last := evs[..|evs| - 1], evs[|evs| - 1];
      RunLast(glob, calls, Init(calls), evs);
      DataIsLastWritten(glob, calls, front, plugin, key);
      forall i | 0 <= i < |calls| && CanLock(calls[i]) ensures LockKey(calls[i]) != Key(plugin, Data, key) {
        KeyInjective(plugin, Data, key, calls[i].plugin, Lock, calls[i].key);
      }
      DataStep(glob, calls, Run(glob, calls, Init(calls), front), last, Key(plugin, Data, key).value);
    }
  }

  // ------------------------------------------------------------------ the life of a call

  /** Event `k` is where call `i` entered, for the time it asked for. */
  ghost predicate EnteredAt(calls: seq<Call>, evs: seq<Event>, i: nat, expiry: nat, k: nat) {
    k < |evs| && evs[k] == Enter(i) && i < |calls| && expiry == Clock(evs[..k]) + calls[i].ttlMs
  }

  ghost predicate LeaseOk(calls: seq<Call>, evs: seq<Event>, i: nat, ph: Phase) {
    ph.Inside? || ph.Leaving? || ph.Died? ==> exists k: nat :: EnteredAt(calls, evs, i, ph.expiry, k)
  }

  lemma {:induction false} LeaseStays(calls: seq<Call>, evs: seq<Event>, i: nat, ph: Phase)
    requires evs != [] && LeaseOk(calls, evs[..|evs| - 1], i, ph)
    ensures LeaseOk(calls, evs, i, ph)
  {
    if ph.Inside? || ph.Leaving? || ph.Died? {
      var k: nat :| EnteredAt(calls, evs[..|evs| - 1], i, ph.expiry, k);
      assert evs[..|evs| - 1][..k] == evs[..k];
      assert EnteredAt(calls, evs, i, ph.expiry, k);
    }
  }

  lemma {:induction false} ClockRuns(glob: Glob, calls: seq<Call>, evs: seq<Event>)
    ensures var w := Run(glob, calls, Init(calls), evs); w.now == Clock(evs) && |w.phases| == |calls|
    decreases |evs|
  {
    if evs == [] {
    } else {
      ClockRuns(glob, calls, evs[..|evs| - 1]);
      RunLast(glob, calls, Init(calls), evs);
    }
  }

  /** How one event moves a call. */
  lemma {:induction false} PhaseStep(glob: Glob, calls: seq<Call>, w: World, ev: Event, i: nat)
    requires i < |calls| == |w.phases|
    ensures var ph, ph' := w.phases[i], Do(glob, calls, w, ev).phases[i];
      || ph' == ph
      || (ev == Enter(i) && ph.NotStarted? && ph'.Rejected?)
      || (ev == Enter(i) && ph.NotStarted? && CanLock(calls[i]) && ph' == Inside(w.now + calls[i].ttlMs))
      || (ev == Settle(i) && ph.Inside? && ph' == Leaving(ph.expiry))
      || (ev == Unlock(i) && ph.Leaving? && ph'.Finished?)
      || (ev == Die(i) && (ph.Inside? || ph.Leaving?) && ph' == Died(ph.expiry))
  {}

  /** A lease ends the requested time after the call entered. */
  lemma {:induction false} LeaseIsTtl(glob: Glob, calls: seq<Call>, evs: seq<Event>, i: nat)
    requires i < |calls|
    ensures |Run(glob, calls, Init(calls), evs).phases| == |calls|
    ensures LeaseOk(calls, evs, i, Run(glob, calls, Init(calls), evs).phases[i])
    decreases |evs|
  {
    ClockRuns(glob, calls, evs);
    if evs == [] {
    } else {
      var front, last := evs[..|evs| - 1], evs[|evs| - 1];
      ClockRuns(glob, calls, front);
      LeaseIsTtl(glob, calls, front, i);
      RunLast(glob, calls, Init(calls), evs);
      var w := Run(glob, calls, Init(calls), front);
      LeaseStays(calls, evs, i, w.phases[i]);
      PhaseStep(glob, calls, w, last, i);
      if last == Enter(i) && Run(glob, calls, Init(calls), evs).phases[i].Inside? && w.phases[i].NotStarted? {
        assert EnteredAt(calls, evs, i, w.now + calls[i].ttlMs, |front|);
      }
    }
  }

  /** Events that leave call `i` where it is while it is inside, or leaving. */
  predicate Bystander(ev: Event, i: nat) {
    ev != Settle(i) && ev != Unlock(i) && ev != Die(i)
  }

  lemma {:induction false} StaysInPhase(glob: Glob, calls: seq<Call>, w: World, evs: seq<Event>, i: nat)
    requires i < |calls| == |w.phases| && (w.phases[i].Inside? || w.phases[i].Leaving?)
    requires forall k :: 0 <= k < |evs| ==> Bystander(evs[k], i)
    ensures var w' := Run(glob, calls, w, evs); |w'.phases| == |calls| && w'.phases[i] == w.phases[i]
    decreases |evs|
  {
    if evs == [] {
    } else {
      assert Bystander(evs[0], i);
      assert forall k :: 0 <= k < |evs[1..]| ==> evs[1..][k] == evs[k + 1];
      PhaseStep(glob, calls, w, evs[0], i);
      StaysInPhase(glob, calls, Do(glob, calls, w, evs[0]), evs[1..], i);
    }
  }

  /**
   * Whatever else happens in between, a call that is inside has finished, and its lock key is
   * not its own any more, once its function has settled and its script has run.
   */
  lemma {:induction false} LeavesWhenDone(glob: Glob, calls: seq<Call>, before: seq<Event>,
                                          a: seq<Event>, b: seq<Event>, i: nat)
    requires i < |calls| && CanLock(calls[i])
    requires var w := Run(glob, calls, Init(calls), before); i < |w.phases| && w.phases[i].Inside?
    requires forall k :: 0 <= k < |a| ==> Bystander(a[k], i)
    requires forall k :: 0 <= k < |b| ==> Bystander(b[k], i)
    ensures var w := Run(glob, calls, Run(glob, calls, Init(calls), before), a + [Settle(i)] + b + [Unlock(i)]);
      && |w.phases| == |calls| && w.phases[i] == Finished
      && (Present(w, LockKey(calls[i]).value) ==> w.cells[LockKey(calls[i]).value].value != Token(i))
  {
    var w0 := Run(glob, calls, Init(calls), before);
    ClockRuns(glob, calls, before);
    RunKeepsOwned(glob, calls, Init(calls), before);
    StaysInPhase(glob, calls, w0, a, i);
    var w1 := Run(glob, calls, w0, a);
    RunSnoc(glob, calls, w0, a, Settle(i));
    var w2 := Run(glob, calls, w0, a + [Settle(i)]);
    StaysInPhase(glob, calls, w2, b, i);
    RunAppend(glob, calls, w0, a + [Settle(i)], b);
    RunSnoc(glob, calls, w0, a + [Settle(i)] + b, Unlock(i));
    RunKeepsOwned(glob, calls, w0, a + [Settle(i)] + b + [Unlock(i)]);
  }

  lemma {:induction false} RunAppend(glob: Glob, calls: seq<Call>, w: World, a: seq<Event>, b: seq<Event>)
    ensures Run(glob, calls, w, a + b) == Run(glob, calls, Run(glob, calls, w, a), b)
    decreases |a|
  {
    if a == [] {
      assert a + b == b;
    } else {
      assert (a + b)[1..] == a[1..] + b;
      RunAppend(glob, calls, Do(glob, calls, w, a[0]), a[1..], b);
    }
  }

  lemma {:induction false} RunSnoc(glob: Glob, calls: seq<Call>, w: World, evs: seq<Event>, ev: Event)
    ensures Run(glob, calls, w, evs + [ev]) == Do(glob, calls, Run(glob, calls, w, evs), ev)
  {
    RunLast(glob, calls, w, evs + [ev]);
    assert (evs + [ev])[..|evs + [ev]| - 1] == evs;
  }
}
