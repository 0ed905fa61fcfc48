/**
 * Bootstrap of the Redis-backed repositories from the config file, by any number of
 * instances starting at once (`src/bootstrap/config_processor.rs`).
 *
 * Every awaited Redis command is one event. An event names the instance it belongs to,
 * and an event that is not possible in the current world changes nothing, so a run is
 * any sequence of events at all.
 */
module ConfigBootstrap {
  import opened Options
  import RedisLock

  datatype Repo = Plugins | Signers | Notifications | Networks | Relayers | ApiKeys

  /** A repository entry. The API key gets a fresh id in every processing run. */
  datatype Entry = Configured(repo: Repo, id: string) | ApiKey(token: nat)

  function RepoOf(e: Entry): Repo {
    match e case Configured(repo, _) => repo case ApiKey(_) => ApiKeys
  }

  /** The entries of the config file; ids are unique per repository there. */
  datatype Config = Config(entries: set<Entry>) {
    ghost predicate Valid() {
      forall e <- entries :: e.Configured? && e.repo != ApiKeys
    }
  }

  const LAST: nat := 5

  /** The six processing stages, in order. */
  function StageRepo(k: nat): Repo
    requires k <= LAST
  {
    if k == 0 then Plugins else if k == 1 then Signers else if k == 2 then Notifications
    else if k == 3 then Networks else if k == 4 then Relayers else ApiKeys
  }

  /** The order in which validation reads the six `has_entries` flags. */
  function FlagRepo(k: nat): Repo
    requires k <= LAST
  {
    if k == 0 then Relayers else if k == 1 then Signers else if k == 2 then Notifications
    else if k == 3 then Networks else if k == 4 then Plugins else ApiKeys
  }

  function StageOf(r: Repo): (k: nat)
    ensures k <= LAST && StageRepo(k) == r
    ensures forall j :: 0 <= j <= LAST && StageRepo(j) == r ==> j == k
  {
    match r
    case Plugins => 0
    case Signers => 1
    case Notifications => 2
    case Networks => 3
    case Relayers => 4
    case ApiKeys => 5
  }

  const LOCK_TTL: nat := 120

  function StageEntries(c: Config, stage: nat, token: nat): set<Entry>
    requires stage <= LAST
  {
    if stage == LAST then {ApiKey(token)}
    else set e | e in c.entries && RepoOf(e) == StageRepo(stage)
  }

  /**
   * Plugins, notifications, relayers and the API key are written with their list in one
   * `MULTI` transaction. Signers use two commands, and the network pipeline is not a
   * transaction, so there the data key exists before the list mentions it.
   */
  predicate Atomic(r: Repo) {
    r != Signers && r != Networks
  }

  // ------------------------------------------------------------------ validation

  datatype Verdict = Empty | Complete | Incomplete(missing: seq<Repo>)

  predicate HasConfig(c: Config, r: Repo) {
    exists e :: e in c.entries && RepoOf(e) == r
  }

  predicate Required(c: Config, r: Repo) {
    r == ApiKeys || HasConfig(c, r)
  }

  function Gap(c: Config, seen: set<Repo>, r: Repo): seq<Repo> {
    if Required(c, r) && r !in seen then [r] else []
  }

  /** The required repositories that are not in `seen`, in stage order. */
  function Missing(c: Config, seen: set<Repo>): seq<Repo> {
    Gap(c, seen, Plugins) + Gap(c, seen, Signers) + Gap(c, seen, Notifications)
    + Gap(c, seen, Networks) + Gap(c, seen, Relayers) + Gap(c, seen, ApiKeys)
  }

  /** The verdict on a set of repositories whose `has_entries` flag was read as true. */
  function Judge(c: Config, seen: set<Repo>): Verdict {
    if seen == {} then Empty
    else if Missing(c, seen) == [] then Complete
    else Incomplete(Missing(c, seen))
  }

  /** What the verdicts mean, and that the missing list names exactly the gaps. */
  lemma JudgeLaws(c: Config, seen: set<Repo>)
    ensures Judge(c, seen).Empty? <==> seen == {}
    ensures Judge(c, seen).Complete? <==> forall r: Repo :: Required(c, r) ==> r in seen
    ensures Judge(c, seen).Incomplete? ==>
      forall r: Repo :: r in Judge(c, seen).missing <==> Required(c, r) && r !in seen
  {
    forall r: Repo ensures r in Missing(c, seen) <==> Required(c, r) && r !in seen {
      GapsAreMissing(c, seen, r);
    }
    assert Required(c, ApiKeys);
    if Missing(c, seen) == [] {
      assert forall r: Repo :: r !in Missing(c, seen);
    } else {
      assert Missing(c, seen)[0] in Missing(c, seen);
    }
  }

  lemma GapsAreMissing(c: Config, seen: set<Repo>, r: Repo)
    ensures r in Missing(c, seen) <==> r in Gap(c, seen, r)
  {
    match r case Plugins => case Signers => case Notifications => case Networks => case Relayers => case ApiKeys =>
  }

  /** The code's order of reads, early return and pushes onto `missing`. */
  method ValidateConfigBootstrapState(c: Config, populated: set<Repo>) returns (v: Verdict)
    ensures v == Judge(c, populated)
  {
    var relayers := Relayers in populated;
    var signers := Signers in populated;
    var notifications := Notifications in populated;
    var networks := Networks in populated;
    var plugins := Plugins in populated;
    var apiKeys := ApiKeys in populated;
    if !(relayers || signers || notifications || networks || plugins || apiKeys) {
      forall r: Repo ensures r !in populated {
        match r case Plugins => case Signers => case Notifications => case Networks => case Relayers => case ApiKeys =>
      }
      return Empty;
    }
    var missing := [];
    missing := PushIfMissing(c, populated, Plugins, plugins, missing);
    assert missing == Gap(c, populated, Plugins);
    missing := PushIfMissing(c, populated, Signers, signers, missing);
    missing := PushIfMissing(c, populated, Notifications, notifications, missing);
    missing := PushIfMissing(c, populated, Networks, networks, missing);
    missing := PushIfMissing(c, populated, Relayers, relayers, missing);
    missing := PushIfMissing(c, populated, ApiKeys, apiKeys, missing);
    v := if missing == [] then Complete else Incomplete(missing);
  }

  /** One of the six tests; the API keys are required whatever the config says. */
  method PushIfMissing(c: Config, ghost populated: set<Repo>, r: Repo, has: bool, missing: seq<Repo>)
    returns (more: seq<Repo>)
    requires has == (r in populated)
    ensures more == missing + Gap(c, populated, r)
  {
    more := if (r == ApiKeys || HasConfig(c, r)) && !has then missing + [r] else missing;
  }

  // ------------------------------------------------------------------ the world

  /** The `config_processing:status` field. */
  datatype Status = NoStatus | InProgress | Completed

  /**
   * Where an instance is. `token` is the value of the lock it acquired. The recovery flag
   * tells the second attempt, made after a timeout, from the first.
   */
  datatype Pc =
    | TryLock(recovery: bool)
    | Waiting(recovery: bool)
    | Recheck
    | ReadCompleted(token: nat)
    | ReadInProgress(token: nat, completed: bool)
    | ReadFlags(token: nat, completed: bool, next: nat, seen: set<Repo>)
    | MarkInProgress(token: nat)
    | Creating(token: nat, stage: nat, checked: set<Entry>, stored: set<Entry>, done: set<Entry>)
    | MarkCompleted(token: nat)
    | Returned(ok: bool)
    | Crashed

  /** Between acquiring the lock and returning. */
  predicate Processing(pc: Pc) {
    pc.ReadCompleted? || pc.ReadInProgress? || pc.ReadFlags? || pc.MarkInProgress?
    || pc.Creating? || pc.MarkCompleted?
  }

  /**
   * Redis and the clock in seconds. `data` holds the entry keys, `listed` the members of
   * the repositories' lists, which is all `has_entries` looks at. `releases` are the
   * guards dropped but not yet released, `writers` the instances that have stored an
   * entry so far.
   */
  datatype Store = Store(
    data: set<Entry>, listed: set<Entry>, status: Status,
    lock: Option<RedisLock.Lease>, now: nat, nextToken: nat, releases: set<nat>, writers: set<nat>)

  datatype World = World(store: Store, procs: seq<Pc>)

  function Init(n: nat): World {
    World(Store({}, {}, NoStatus, None, 0, 0, {}, {}), seq(n, _ => TryLock(false)))
  }

  /** What can happen to one instance. */
  datatype Action =
    | Go                   // its next command succeeds
    | Touch(e: Entry)      // the next command of one of its concurrent creates succeeds
    | Fail                 // its next command fails without effect
    | AckLost              // its next command takes effect but reports an error; for the
                           // command of a create, that is Touch followed by Fail
    | Timeout              // its bounded wait ends
    | Crash                // it dies

  datatype Event =
    | Tick(seconds: nat)          // time passes
    | ReleaseLands(token: nat)    // a dropped guard's release script runs
    | Act(p: nat, a: Action)

  /** The store and the instance's own position after one of its actions. */
  datatype Local = Local(store: Store, pc: Pc)

  /** Return from the locked section; dropping the guard starts the release. */
  function Leave(s: Store, token: nat, ok: bool): Local {
    Local(s.(releases := s.releases + {token}), Returned(ok))
  }

  function Acquire(s: Store, recovery: bool): Local {
    match RedisLock.TryAcquire(s.lock, s.nextToken, LOCK_TTL, s.now)
    case Some(l) => Local(s.(lock := Some(l), nextToken := s.nextToken + 1), ReadCompleted(s.nextToken))
    case None => Local(s, Waiting(recovery))
  }

  predicate HasEntries(listed: set<Entry>, r: Repo) {
    exists e :: e in listed && RepoOf(e) == r
  }

  /** The branch taken once the marker and all flags have been read. */
  function Decide(c: Config, s: Store, token: nat, completed: bool, seen: set<Repo>): Local {
    if completed then Leave(s, token, true)
    else match Judge(c, seen)
      case Empty => Local(s, MarkInProgress(token))
      case Complete => Local(s, MarkCompleted(token))
      case Incomplete(_) => Leave(s, token, false)
  }

  function ReadFlag(c: Config, s: Store, pc: Pc): Local
    requires pc.ReadFlags?
  {
    if pc.next > LAST then Local(s, pc)
    else
      var r := FlagRepo(pc.next);
      var seen' := if HasEntries(s.listed, r) then pc.seen + {r} else pc.seen;
      if pc.next < LAST then Local(s, pc.(next := pc.next + 1, seen := seen'))
      else Decide(c, s, pc.token, pc.completed, seen')
  }

  function Advance(c: Config, s: Store, pc: Pc): Local {
    match pc
    case TryLock(recovery) => Acquire(s, recovery)
    case Waiting(_) => Local(s, if s.status == Completed then Returned(true) else pc)
    case Recheck => Local(s, if s.status == Completed then Returned(true) else TryLock(true))
    case ReadCompleted(token) => Local(s, ReadInProgress(token, s.status == Completed))
    case ReadInProgress(token, completed) => Local(s, ReadFlags(token, completed, 0, {}))
    case ReadFlags(_, _, _, _) => ReadFlag(c, s, pc)
    case MarkInProgress(token) => Local(s.(status := InProgress), Creating(token, 0, {}, {}, {}))
    case Creating(token, stage, _, _, done) =>
      if stage > LAST || done != StageEntries(c, stage, token) then Local(s, pc)
      else if stage < LAST then Local(s, Creating(token, stage + 1, {}, {}, {}))
      else Local(s, MarkCompleted(token))
    case MarkCompleted(token) => Leave(s.(status := Completed), token, true)
    case _ => Local(s, pc)
  }

  /** One create: existence check, then the data key, then the list (with it when atomic). */
  function Create(c: Config, p: nat, s: Store, pc: Pc, e: Entry): Local
    requires pc.Creating?
  {
    if pc.stage > LAST || e !in StageEntries(c, pc.stage, pc.token) - pc.done then Local(s, pc)
    else if e !in pc.checked then
      if e in s.data then Leave(s, pc.token, false)
      else Local(s, pc.(checked := pc.checked + {e}))
    else if e !in pc.stored then
      var s' := s.(data := s.data + {e}, writers := s.writers + {p});
      if Atomic(RepoOf(e))
      then Local(s'.(listed := s.listed + {e}), pc.(stored := pc.stored + {e}, done := pc.done + {e}))
      else Local(s', pc.(stored := pc.stored + {e}))
    else Local(s.(listed := s.listed + {e}), pc.(done := pc.done + {e}))
  }

  /** Poll errors are swallowed, and an error in the single recheck counts as "not completed". */
  function Errored(s: Store, pc: Pc): Local {
    if Processing(pc) then Leave(s, pc.token, false)
    else if pc.TryLock? then Local(s, Returned(false))
    else if pc.Recheck? then Local(s, TryLock(true))
    else Local(s, pc)
  }

  function Step(c: Config, p: nat, s: Store, pc: Pc, a: Action): Local {
    match a
    case Go => Advance(c, s, pc)
    case Touch(e) => if pc.Creating? then Create(c, p, s, pc, e) else Local(s, pc)
    case Fail => Errored(s, pc)
    case AckLost => if Processing(pc) then Leave(Advance(c, s, pc).store, pc.token, false) else Local(s, pc)
    case Timeout =>
      if pc.Waiting? then Local(s, if pc.recovery then Returned(false) else Recheck) else Local(s, pc)
    case Crash => Local(s, if pc.Returned? then pc else Crashed)
  }

  /** The effect of one event. */
  function Do(c: Config, w: World, ev: Event): World {
    match ev
    case Tick(seconds) => w.(store := w.store.(now := w.store.now + seconds))
    case ReleaseLands(token) =>
      if token !in w.store.releases then w
      else w.(store := w.store.(lock := RedisLock.Release(w.store.lock, token),
                                releases := w.store.releases - {token}))
    case Act(p, a) =>
      if p >= |w.procs| then w
      else
        var l := Step(c, p, w.store, w.procs[p], a);
        World(l.store, w.procs[p := l.pc])
  }

  function Run(c: Config, w: World, evs: seq<Event>): World
    decreases |evs|
  {
    if evs == [] then w else Run(c, Do(c, w, evs[0]), evs[1..])
  }

  // ------------------------------------------------------------------ the first stage

  /** The first stage from `k` on that has something to create. */
  function FirstFrom(c: Config, k: nat): (r: nat)
    requires k <= LAST
    ensures k <= r <= LAST
    ensures forall j, t :: k <= j < r ==> StageEntries(c, j, t) == {}
    ensures r < LAST ==> forall t :: StageEntries(c, r, t) == StageEntries(c, r, 0) != {}
    decreases LAST - k
  {
    if k < LAST && StageEntries(c, k, 0) == {} then FirstFrom(c, k + 1) else k
  }

  function First(c: Config): nat {
    FirstFrom(c, 0)
  }

  function FirstEntries(c: Config): set<Entry> {
    if First(c) < LAST then StageEntries(c, First(c), 0) else {}
  }

  /** The position at which validation reads a repository's flag. */
  function FlagOf(r: Repo): (k: nat)
    ensures k <= LAST && FlagRepo(k) == r
    ensures forall j :: 0 <= j <= LAST && FlagRepo(j) == r ==> j == k
  {
    match r
    case Relayers => 0
    case Signers => 1
    case Notifications => 2
    case Networks => 3
    case Plugins => 4
    case ApiKeys => 5
  }
}
