/**
 * The API key is the commit record of the bootstrap: it is written last and always
 * required, so an API-key entry, a `Complete` verdict and the completion marker each
 * stand for a fully populated store. Nothing here relies on the lock.
 */
module CommitRecord {
  import opened ConfigBootstrap

  /** Every configured entry is stored and listed. */
  ghost predicate Full(c: Config, s: Store) {
    c.entries <= s.data && c.entries <= s.listed
  }

  /** The commit record: some run has stored its API key. */
  ghost predicate Committed(s: Store) {
    exists e :: e in s.data && e.ApiKey?
  }

  ghost predicate SoundStore(c: Config, s: Store) {
    && s.listed <= s.data
    && (forall e :: e in s.data ==> e.ApiKey? || e in c.entries)
    && (Committed(s) ==> Full(c, s))
    && (s.status == Completed ==> Committed(s))
  }

  ghost predicate SoundPc(c: Config, s: Store, pc: Pc) {
    match pc
    case ReadInProgress(_, completed) => completed ==> Committed(s)
    case ReadFlags(_, completed, _, seen) => (completed ==> Committed(s)) && ApiKeys !in seen
    case Creating(_, stage, _, stored, done) =>
      && stage <= LAST && stored <= s.data && done <= s.data && done <= s.listed
      && forall e :: e in c.entries && StageOf(RepoOf(e)) < stage ==> e in s.data && e in s.listed
    case MarkCompleted(_) => Committed(s)
    case Returned(ok) => ok ==> Committed(s)
    case _ => true
  }

  ghost predicate Inv(c: Config, w: World) {
    && c.Valid()
    && SoundStore(c, w.store)
    && forall p :: 0 <= p < |w.procs| ==> SoundPc(c, w.store, w.procs[p])
  }

  /** All configured entries belong to the first five stages. */
  lemma LastStageIsFull(c: Config, s: Store, pc: Pc)
    requires c.Valid() && SoundPc(c, s, pc) && pc.Creating? && pc.stage == LAST
    ensures Full(c, s)
  {
    forall e | e in c.entries ensures e in s.data && e in s.listed {
      assert StageOf(RepoOf(e)) < LAST;
    }
  }

  lemma AdvanceIsSound(c: Config, s: Store, pc: Pc)
    requires c.Valid() && SoundStore(c, s) && SoundPc(c, s, pc)
    ensures var l := Advance(c, s, pc);
      SoundStore(c, l.store) && SoundPc(c, l.store, l.pc) && s.data <= l.store.data && s.listed <= l.store.listed
  {
    if pc.ReadFlags? && pc.next == LAST {
      JudgeLaws(c, if HasEntries(s.listed, ApiKeys) then pc.seen + {ApiKeys} else pc.seen);
      assert Required(c, ApiKeys);
    } else if pc.Creating? && pc.done == StageEntries(c, pc.stage, pc.token) {
      if pc.stage == LAST {
        assert ApiKey(pc.token) in pc.done;
      } else {
        forall e | e in c.entries && StageOf(RepoOf(e)) == pc.stage ensures e in s.data && e in s.listed {
          assert e in StageEntries(c, pc.stage, pc.token);
        }
      }
    }
  }

  lemma CreateIsSound(c: Config, p: nat, s: Store, pc: Pc, e: Entry)
    requires c.Valid() && SoundStore(c, s) && SoundPc(c, s, pc) && pc.Creating?
    ensures var l := Create(c, p, s, pc, e);
      SoundStore(c, l.store) && SoundPc(c, l.store, l.pc) && s.data <= l.store.data && s.listed <= l.store.listed
  {
    if pc.stage == LAST {
      LastStageIsFull(c, s, pc);
    }
  }

  lemma StepIsSound(c: Config, p: nat, s: Store, pc: Pc, a: Action)
    requires c.Valid() && SoundStore(c, s) && SoundPc(c, s, pc)
    ensures var l := Step(c, p, s, pc, a);
      SoundStore(c, l.store) && SoundPc(c, l.store, l.pc) && s.data <= l.store.data && s.listed <= l.store.listed
  {
    if a.Touch? && pc.Creating? {
      CreateIsSound(c, p, s, pc, a.e);
    } else {
      AdvanceIsSound(c, s, pc);
    }
  }

  lemma DoKeepsInv(c: Config, w: World, ev: Event)
    requires Inv(c, w)
    ensures Inv(c, Do(c, w, ev))
  {
    var w' := Do(c, w, ev);
    if ev.Act? && ev.p < |w.procs| {
      StepIsSound(c, ev.p, w.store, w.procs[ev.p], ev.a);
    }
    forall q | 0 <= q < |w'.procs| ensures SoundPc(c, w'.store, w'.procs[q]) {
      assert SoundPc(c, w.store, w.procs[q]);
    }
  }

  lemma {:induction false} RunKeepsInv(c: Config, w: World, evs: seq<Event>)
    requires Inv(c, w)
    ensures Inv(c, Run(c, w, evs)) && |Run(c, w, evs).procs| == |w.procs|
    decreases |evs|
  {
    if evs == [] {
    } else {
      DoKeepsInv(c, w, evs[0]);
      RunKeepsInv(c, Do(c, w, evs[0]), evs[1..]);
    }
  }

  /**
   * For any number of instances and every run, with any failures, crashes, lease expiries
   * and overlapping lock holders: a stored API key implies that every configured entry is
   * stored and listed, and the completion marker, a `Complete` verdict and a success
   * returned by any instance each imply a stored API key.
   */
  lemma {:induction false} CommitImpliesFull(c: Config, n: nat, evs: seq<Event>, p: nat)
    requires c.Valid() && p < n
    ensures var w := Run(c, Init(n), evs);
      && |w.procs| == n
      && (Committed(w.store) ==> Full(c, w.store))
      && (w.store.status == Completed ==> Committed(w.store))
      && (w.procs[p].MarkCompleted? ==> Committed(w.store))
      && (w.procs[p] == Returned(true) ==> Committed(w.store))
  {
    RunKeepsInv(c, Init(n), evs);
    assert SoundPc(c, Run(c, Init(n), evs).store, Run(c, Init(n), evs).procs[p]);
  }
}
