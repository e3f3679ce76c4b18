/** `run` from end to end: what holds at every moment, how it ends, and what its exit code says. */
module Pipeline {
  import opened Wrappers
  import opened Order
  import opened Paths
  import opened Retention
  import opened Layout
  import opened Placement
  import opened Recording
  import opened Destinations
  import opened Purger
  import opened Runner

  // ----- Every moment of a run

  /** The generation is stored under `id`, complete and with every file it should have. */
  ghost predicate Holds(e: Entries, id: string, gen: Files) {
    Complete(e, id) && e[id].files == Placed(gen)
  }

  /** The generation exists in full in the work directory or at some destination. */
  ghost predicate Survives(w: World, id: string, gen: Files) {
    || (id in w.work && w.work[id] == gen)
    || exists d :: 0 <= d < |w.disks| && Holds(w.disks[d].dir.entries, id, gen)
  }

  /** From `c0` to `c` one destination gained `id` at most and kept the newest `keep` of it all. */
  ghost predicate Retains(c0: set<string>, c: set<string>, id: string, keep: nat) {
    || (Newest(c0, keep) <= c <= c0)
    || (Newest(c0 + {id}, keep) <= c <= c0 + {id})
  }

  ghost predicate AllRetain(before: seq<Dest>, w: World, cfgs: seq<DestConfig>, id: string) {
    && |w.disks| == |before| == |cfgs|
    && forall d :: 0 <= d < |cfgs| ==>
         Retains(CompleteNames(before[d].entries), CompleteNames(w.disks[d].dir.entries), id, cfgs[d].keep)
  }

  /** From `was` on, every destination keeps what it is due. */
  ghost predicate RetainSince(before: seq<Dest>, was: Past, p: Past, cfgs: seq<DestConfig>, id: string)
    decreases p
  {
    && AllRetain(before, p.now, cfgs, id)
    && (p != was ==> p.Then? && RetainSince(before, was, p.before, cfgs, id))
  }

  /** `id` is newer than every complete generation anywhere. */
  ghost predicate Fresh(dests: seq<Dest>, id: string) {
    forall d, n :: 0 <= d < |dests| && n in CompleteNames(dests[d].entries) ==> Less(n, id)
  }

  /** The new id is newer than everything stored, somewhere will take it, and every `keep` is positive. */
  ghost predicate Guarded(before: seq<Dest>, job: Job) {
    && Fresh(before, job.entry) && |job.cfgs| > 0
    && forall d :: 0 <= d < |job.cfgs| ==> job.cfgs[d].keep >= 1
  }

  /** What holds at every moment from meta.json on. */
  ghost predicate SafeMoment(before: seq<Dest>, w: World, job: Job) {
    && AllRetain(before, w, job.cfgs, job.entry)
    && (Guarded(before, job) ==> Survives(w, job.entry, job.gen))
  }

  /** From `was` on, every moment is safe. */
  ghost predicate SafeSince(before: seq<Dest>, was: Past, p: Past, job: Job)
    decreases p
  {
    && SafeMoment(before, p.now, job)
    && (p != was ==> p.Then? && SafeSince(before, was, p.before, job))
  }

  lemma {:induction false} SafeMore(before: seq<Dest>, was: Past, mid: Past, p: Past, job: Job)
    requires SafeSince(before, was, mid, job) && SafeSince(before, mid, p, job)
    ensures SafeSince(before, was, p, job)
    decreases p
  {
    if p != mid { SafeMore(before, was, mid, p.before, job); }
  }

  /** The two predicates on stretches, read as statements about each of their moments. */
  lemma {:induction false} SafeAt(before: seq<Dest>, was: Past, p: Past, job: Job, m: Past)
    requires SafeSince(before, was, p, job) && Later(was, m) && Later(m, p)
    ensures SafeMoment(before, m.now, job)
    decreases p
  {
    if m != p {
      if p == was { LaterBothWays(was, m); }
      SafeAt(before, was, p.before, job, m);
    }
  }

  lemma {:induction false} RetainAt(before: seq<Dest>, was: Past, p: Past, cfgs: seq<DestConfig>, id: string, m: Past)
    requires RetainSince(before, was, p, cfgs, id) && Later(was, m) && Later(m, p)
    ensures AllRetain(before, m.now, cfgs, id)
    decreases p
  {
    if m != p {
      if p == was { LaterBothWays(was, m); }
      RetainAt(before, was, p.before, cfgs, id, m);
    }
  }

  predicate JobIsSane(job: Job) { PlainId(job.entry) && [META] in job.gen }

  lemma StoreChangeCompletes(e0: Entries, e: Entries, id: string, gen: Files)
    requires StoreChange(e0, e, id, gen) && PlainId(id) && [META] in gen
    ensures CompleteNames(e) == CompleteNames(e0) || CompleteNames(e) == CompleteNames(e0) + {id}
    ensures Same(e0, e, id) ==> CompleteNames(e) == CompleteNames(e0)
    ensures Committed(e, id, gen) ==> Holds(e, id, gen) && CompleteNames(e) == CompleteNames(e0) + {id}
  {
    PlainPartial(id);
    forall n | n != id ensures n in CompleteNames(e) <==> n in CompleteNames(e0) {}
  }

  lemma TrimmedRetains(e0: Entries, e: Entries, keep: nat)
    requires Trimmed(e0, e, keep)
    ensures Newest(CompleteNames(e0), keep) <= CompleteNames(e) <= CompleteNames(e0)
  {
    forall n | n in Newest(CompleteNames(e0), keep) ensures n in CompleteNames(e) {}
  }

  /** Nothing has happened at the destinations yet. */
  lemma {:induction false} IdleRetains(before: seq<Dest>, was: Past, p: Past, cfgs: seq<DestConfig>, id: string)
    requires Shows(was.now, before) && WorkOnlySince(was, p) && |before| == |cfgs|
    ensures RetainSince(before, was, p, cfgs, id)
    decreases p
  {
    if p != was { IdleRetains(before, was, p.before, cfgs, id); }
  }

  /** After idle moments, safe ones. */
  lemma {:induction false} RetainMore(before: seq<Dest>, was: Past, mid: Past, p: Past, job: Job)
    requires RetainSince(before, was, mid, job.cfgs, job.entry) && SafeSince(before, mid, p, job)
    ensures RetainSince(before, was, p, job.cfgs, job.entry)
    decreases p
  {
    if p != mid { RetainMore(before, was, mid, p.before, job); }
  }

  /** A standalone purge keeps the same promise at every moment: it is a run that stores nothing. */
  lemma {:induction false} PurgeRetains(before: seq<Dest>, was: Past, p: Past, cfgs: seq<DestConfig>, chosen: set<nat>,
                                        id: string)
    requires Shows(was.now, before) && AllTrimmedSince(was, p, cfgs, chosen)
    ensures RetainSince(before, was, p, cfgs, id)
    decreases p
  {
    forall d | 0 <= d < |cfgs|
      ensures Retains(CompleteNames(before[d].entries), CompleteNames(p.now.disks[d].dir.entries), id, cfgs[d].keep)
    {
      if d in chosen { TrimmedRetains(before[d].entries, p.now.disks[d].dir.entries, cfgs[d].keep); }
    }
    if p != was { PurgeRetains(before, was, p.before, cfgs, chosen, id); }
  }

  lemma StoringRetains(before: seq<Dest>, w0: World, w: World, job: Job)
    requires Shows(w0, before) && AllStoring(w0, w, job.entry, job.gen) && |before| == |job.cfgs| && JobIsSane(job)
    ensures AllRetain(before, w, job.cfgs, job.entry)
  {
    forall d | 0 <= d < |job.cfgs|
      ensures Retains(CompleteNames(before[d].entries), CompleteNames(w.disks[d].dir.entries), job.entry,
                      job.cfgs[d].keep)
    {
      StoreChangeCompletes(before[d].entries, w.disks[d].dir.entries, job.entry, job.gen);
    }
  }

  /** Every moment of the storing phase: the work copy is still there. */
  lemma {:induction false} StoringIsSafe(before: seq<Dest>, was: Past, p: Past, job: Job)
    requires Shows(was.now, before) && AllStoringSince(was, p, job.entry, job.gen) && |before| == |job.cfgs|
      && JobIsSane(job)
    requires job.entry in was.now.work && was.now.work[job.entry] == job.gen
    ensures SafeSince(before, was, p, job)
    decreases p
  {
    StoringRetains(before, was.now, p.now, job);
    if p != was { StoringIsSafe(before, was, p.before, job); }
  }

  /** A generation newer than all others at its destination outlives the purge there. */
  lemma SurvivesPurge(e0: Entries, e1: Entries, e: Entries, keep: nat, id: string, gen: Files)
    requires StoreChange(e0, e1, id, gen) && Committed(e1, id, gen) && PlainId(id) && [META] in gen
    requires keep >= 1 && forall n :: n in CompleteNames(e0) ==> Less(n, id)
    requires e == e1 || Trimmed(e1, e, keep)
    ensures Holds(e, id, gen)
  {
    StoreChangeCompletes(e0, e1, id, gen);
    NewestHasMaximum(CompleteNames(e0), id, keep);
  }

  /** What storing left behind, as the rest of the run relies on it. */
  ghost predicate AfterStore(before: seq<Dest>, w0: World, w1: World, mid: seq<Dest>, outcomes: seq<Outcome>,
                             job: Job)
  {
    && Shows(w0, before) && Shows(w1, mid) && |before| == |mid| == |job.cfgs|
    && AllStoring(w0, w1, job.entry, job.gen) && AllReported(before, mid, outcomes, job.entry, job.gen)
  }

  /** Each destination after storing. */
  lemma StoredAt(before: seq<Dest>, w0: World, w1: World, mid: seq<Dest>, outcomes: seq<Outcome>, job: Job, d: nat)
    requires AfterStore(before, w0, w1, mid, outcomes, job) && JobIsSane(job) && d < |job.cfgs|
    ensures StoreChange(before[d].entries, mid[d].entries, job.entry, job.gen)
    ensures CompleteNames(mid[d].entries)
            == CompleteNames(before[d].entries) + (if Stored(outcomes, d) then {job.entry} else {})
    ensures Stored(outcomes, d) && (Fresh(before, job.entry) || !Complete(before[d].entries, job.entry)) ==>
      Committed(mid[d].entries, job.entry, job.gen)
  {
    assert Reported(before[d], mid[d], outcomes, d, job.entry, job.gen);
    StoreChangeCompletes(before[d].entries, mid[d].entries, job.entry, job.gen);
    if Fresh(before, job.entry) && Complete(before[d].entries, job.entry) {
      assert job.entry in CompleteNames(before[d].entries);
      LessIrreflexive(job.entry);
    }
  }

  /** A destination as storing left it, or trimmed since. */
  ghost predicate AsStoredOr(mid: Dest, now: Dest, keep: nat) {
    now == mid || Trimmed(mid.entries, now.entries, keep)
  }

  ghost predicate AllAsStoredOr(mid: seq<Dest>, w: World, cfgs: seq<DestConfig>) {
    && |w.disks| == |mid| == |cfgs|
    && forall d {:trigger w.disks[d]} :: 0 <= d < |cfgs| ==> AsStoredOr(mid[d], w.disks[d].dir, cfgs[d].keep)
  }

  lemma RetainsStoring(c0: set<string>, c1: set<string>, e1: Entries, e: Entries, id: string, keep: nat)
    requires CompleteNames(e1) == c1 && (c1 == c0 || c1 == c0 + {id})
    requires e == e1 || Trimmed(e1, e, keep)
    ensures Retains(c0, CompleteNames(e), id, keep)
  {
    if e != e1 { TrimmedRetains(e1, e, keep); }
  }

  lemma TrimmingRetains(before: seq<Dest>, w0: World, w1: World, mid: seq<Dest>, w: World, outcomes: seq<Outcome>,
                        job: Job)
    requires AfterStore(before, w0, w1, mid, outcomes, job) && JobIsSane(job) && AllAsStoredOr(mid, w, job.cfgs)
    ensures AllRetain(before, w, job.cfgs, job.entry)
  {
    forall d | 0 <= d < |job.cfgs|
      ensures Retains(CompleteNames(before[d].entries), CompleteNames(w.disks[d].dir.entries), job.entry,
                      job.cfgs[d].keep)
    {
      StoredAt(before, w0, w1, mid, outcomes, job, d);
      RetainsStoring(CompleteNames(before[d].entries), CompleteNames(mid[d].entries), mid[d].entries,
                     w.disks[d].dir.entries, job.entry, job.cfgs[d].keep);
    }
  }

  /** One moment after storing, with some destinations trimmed since. */
  lemma TrimmingIsSafe(before: seq<Dest>, w0: World, w1: World, mid: seq<Dest>, w: World, outcomes: seq<Outcome>,
                       job: Job)
    requires AfterStore(before, w0, w1, mid, outcomes, job) && JobIsSane(job) && AllAsStoredOr(mid, w, job.cfgs)
    requires |job.cfgs| > 0 ==> SomeStored(outcomes)
    requires |outcomes| <= |job.cfgs|
    ensures SafeMoment(before, w, job)
  {
    TrimmingRetains(before, w0, w1, mid, w, outcomes, job);
    if Guarded(before, job) {
      var d: nat :| Stored(outcomes, d);
      StoredAt(before, w0, w1, mid, outcomes, job, d);
      SurvivesPurge(before[d].entries, mid[d].entries, w.disks[d].dir.entries, job.cfgs[d].keep, job.entry, job.gen);
    }
  }

  /** Dropping the work copy is safe once something was stored. */
  lemma {:induction false} DroppingIsSafe(before: seq<Dest>, w0: World, mid: seq<Dest>, was: Past, p: Past,
                                          outcomes: seq<Outcome>, job: Job)
    requires AfterStore(before, w0, was.now, mid, outcomes, job) && JobIsSane(job) && WorkOnlySince(was, p)
    requires |outcomes| <= |job.cfgs| && (|job.cfgs| > 0 ==> SomeStored(outcomes))
    ensures SafeSince(before, was, p, job)
    decreases p
  {
    TrimmingIsSafe(before, w0, was.now, mid, p.now, outcomes, job);
    if p != was { DroppingIsSafe(before, w0, mid, was, p.before, outcomes, job); }
  }

  /** Purging the destinations that stored is safe, whatever of it happens. */
  lemma {:induction false} PurgingIsSafe(before: seq<Dest>, w0: World, w1: World, mid: seq<Dest>, was: Past, p: Past,
                                         outcomes: seq<Outcome>, job: Job)
    requires AfterStore(before, w0, w1, mid, outcomes, job) && JobIsSane(job) && was.now.disks == w1.disks
    requires AllTrimmedSince(was, p, job.cfgs, StoredSet(outcomes))
    requires |outcomes| <= |job.cfgs| && (|job.cfgs| > 0 ==> SomeStored(outcomes))
    ensures SafeSince(before, was, p, job)
    decreases p
  {
    TrimmingIsSafe(before, w0, w1, mid, p.now, outcomes, job);
    if p != was { PurgingIsSafe(before, w0, w1, mid, was, p.before, outcomes, job); }
  }

  // ----- The exit code

  ghost predicate SomePurgeFault(faults: seq<Fault>, since: nat) {
    exists k :: since <= k < |faults| && !faults[k].StoreFault?
  }

  /** The exit code once the backup itself has succeeded, read off the faults since `since`. */
  ghost predicate ExitIsExact(s: RunSummary, cfgs: seq<DestConfig>, faults: seq<Fault>, since: nat) {
    && (s.code.AllDestinationsFailed? <==> |cfgs| > 0 && !SomeStored(s.outcomes))
    && (s.code.PartialDestinationFailure? <==> SomeStored(s.outcomes) && SomeFailed(s.outcomes))
    && (s.code.PurgeFailed? <==> AllStored(cfgs, s.outcomes) && SomePurgeFault(faults, since))
    && (s.code.Success? <==> AllStored(cfgs, s.outcomes) && |faults| == since)
    && (forall d: nat :: d < |s.outcomes| ==> (Stored(s.outcomes, d) <==> !FaultSince(StoreFault(d), faults, since)))
  }

  lemma WhoStored(cfgs: seq<DestConfig>, policy: OnFailure, outcomes: seq<Outcome>)
    requires Attempted(cfgs, policy, outcomes)
    ensures SomeStored(outcomes) <==> exists o :: o in outcomes && o.stored
    ensures SomeFailed(outcomes) <==> exists o :: o in outcomes && !o.stored
    ensures AllStored(cfgs, outcomes) <==> !SomeFailed(outcomes)
    ensures |cfgs| > 0 ==> SomeStored(outcomes) || SomeFailed(outcomes)
    ensures |cfgs| == 0 ==> !SomeFailed(outcomes)
  {
    if d: nat :| Stored(outcomes, d) { assert outcomes[d] in outcomes; }
    if d: nat :| d < |outcomes| && !Stored(outcomes, d) { assert outcomes[d] in outcomes; }
    if o :| o in outcomes && o.stored {
      var d: nat :| d < |outcomes| && outcomes[d] == o;
      assert Stored(outcomes, d);
    }
    if o :| o in outcomes && !o.stored {
      var d: nat :| d < |outcomes| && outcomes[d] == o;
      assert !Stored(outcomes, d);
    }
    if |outcomes| < |cfgs| { assert !Stored(outcomes, |outcomes| - 1); }
    if |outcomes| > 0 { assert Stored(outcomes, 0) || !Stored(outcomes, 0); }
  }

  lemma StoreFaultsStay(mid: seq<Fault>, faults: seq<Fault>, since: nat, outcomes: seq<Outcome>)
    requires since <= |mid| && Grown(mid, faults) && StoreFaults(mid, since, outcomes)
    requires forall k :: |mid| <= k < |faults| ==> !faults[k].StoreFault?
    ensures forall d: nat :: d < |outcomes| ==> (outcomes[d].stored <==> !FaultSince(StoreFault(d), faults, since))
    ensures SomePurgeFault(faults, since) <==> |faults| > |mid|
    ensures !SomeFailed(outcomes) ==> |mid| == since
  {
    assert forall k :: 0 <= k < |mid| ==> faults[..|mid|][k] == faults[k];
    forall d: nat | d < |outcomes|
      ensures FaultSince(StoreFault(d), mid, since) <==> FaultSince(StoreFault(d), faults, since)
    {
      if k :| since <= k < |mid| && mid[k] == StoreFault(d) { assert faults[k] == StoreFault(d); }
      if k :| since <= k < |faults| && faults[k] == StoreFault(d) { assert k < |mid| && mid[k] == faults[k]; }
    }
    if |faults| > |mid| { assert !faults[|mid|].StoreFault?; }
    if |mid| > since {
      var d := mid[since].dest;
      assert mid[since] == StoreFault(d) && FaultSince(StoreFault(d), mid, since);
      assert !Stored(outcomes, d);
    }
  }

  function DecideExit(anyStored: bool, anyFailed: bool, purgeHadError: bool): ExitCode {
    if anyFailed && !anyStored then AllDestinationsFailed
    else if anyFailed then PartialDestinationFailure
    else if purgeHadError then PurgeFailed
    else ExitCode.Success
  }

  lemma ExitDecided(cfgs: seq<DestConfig>, policy: OnFailure, outcomes: seq<Outcome>, mid: seq<Fault>,
                    faults: seq<Fault>, since: nat)
    requires Attempted(cfgs, policy, outcomes)
    requires since <= |mid| && Grown(mid, faults) && StoreFaults(mid, since, outcomes)
    requires forall k :: |mid| <= k < |faults| ==> !faults[k].StoreFault?
    ensures var code := DecideExit(SomeStored(outcomes), SomeFailed(outcomes), faults != mid);
            ExitIsExact(RunSummary(code, outcomes), cfgs, faults, since)
  {
    WhoStored(cfgs, policy, outcomes);
    StoreFaultsStay(mid, faults, since, outcomes);
  }

  // ----- How a run ends

  /** The complete generations a destination ends with, given how storing and purging went there. */
  ghost predicate FinalCompletes(c0: set<string>, c: set<string>, id: string, keep: nat, stored: bool, clean: bool) {
    && (!stored ==> c == c0)
    && (stored && clean ==> c == Newest(c0 + {id}, keep))
  }

  /** From `before` by storing to `mid`, then by purging the destinations that stored to `after`. */
  ghost predicate AllFinal(before: seq<Dest>, mid: seq<Dest>, after: seq<Dest>, outcomes: seq<Outcome>,
                           faults: seq<Fault>, since: nat, job: Job, terms: Terms)
  {
    && |before| == |mid| == |after| == |job.cfgs|
    && forall d: nat :: d < |job.cfgs| ==>
         && StoreChange(before[d].entries, mid[d].entries, job.entry, job.gen)
         && (Stored(outcomes, d) && !Complete(before[d].entries, job.entry) ==>
               Committed(mid[d].entries, job.entry, job.gen))
         && (if Stored(outcomes, d)
             then PurgedAs(mid[d].entries, after[d].entries, job.cfgs[d], terms, CleanPurge(faults, since, d))
             else after[d] == mid[d])
         && FinalCompletes(CompleteNames(before[d].entries), CompleteNames(after[d].entries), job.entry,
                           job.cfgs[d].keep, Stored(outcomes, d), CleanPurge(faults, since, d))
  }

  lemma AfterPurging(before: seq<Dest>, w0: World, w1: World, mid: seq<Dest>, after: seq<Dest>, outcomes: seq<Outcome>,
                     midFaults: seq<Fault>, faults: seq<Fault>, since: nat, job: Job, terms: Terms)
    requires AfterStore(before, w0, w1, mid, outcomes, job) && JobIsSane(job)
    requires since <= |midFaults| && Grown(midFaults, faults) && StoreFaults(midFaults, since, outcomes)
    requires AllPurged(mid, after, job.cfgs, StoredSet(outcomes), faults, |midFaults|, terms)
    requires forall d: nat :: d < |job.cfgs| && !Stored(outcomes, d) ==> after[d] == mid[d]
    ensures AllFinal(before, mid, after, outcomes, faults, since, job, terms)
  {
    assert forall k :: 0 <= k < |midFaults| ==> faults[..|midFaults|][k] == faults[k];
    forall d: nat | d < |job.cfgs|
      ensures StoreChange(before[d].entries, mid[d].entries, job.entry, job.gen)
      ensures if Stored(outcomes, d)
              then PurgedAs(mid[d].entries, after[d].entries, job.cfgs[d], terms, CleanPurge(faults, since, d))
              else after[d] == mid[d]
      ensures FinalCompletes(CompleteNames(before[d].entries), CompleteNames(after[d].entries), job.entry,
                             job.cfgs[d].keep, Stored(outcomes, d), CleanPurge(faults, since, d))
    {
      StoredAt(before, w0, w1, mid, outcomes, job, d);
      if Stored(outcomes, d) {
        assert d in StoredSet(outcomes);
        assert CleanPurge(faults, since, d) <==> CleanPurge(faults, |midFaults|, d);
      }
    }
  }

  /** Every destination holds exactly the newest `keep` of what it held and `id`. */
  ghost predicate AllExact(before: seq<Dest>, after: seq<Dest>, cfgs: seq<DestConfig>, id: string) {
    && |before| == |after| == |cfgs|
    && forall d :: 0 <= d < |cfgs| ==>
         CompleteNames(after[d].entries) == Newest(CompleteNames(before[d].entries) + {id}, cfgs[d].keep)
  }

  /** Exit code 0 leaves exactly the newest `keep` at every destination. */
  lemma SuccessIsFinal(before: seq<Dest>, mid: seq<Dest>, after: seq<Dest>, s: RunSummary, faults: seq<Fault>,
                       since: nat, job: Job, terms: Terms)
    requires ExitIsExact(s, job.cfgs, faults, since)
      && AllFinal(before, mid, after, s.outcomes, faults, since, job, terms)
    ensures s.code.Success? ==> AllExact(before, after, job.cfgs, job.entry)
  {
    forall d: nat | s.code.Success? && d < |job.cfgs|
      ensures CompleteNames(after[d].entries)
              == Newest(CompleteNames(before[d].entries) + {job.entry}, job.cfgs[d].keep)
    {
      assert Stored(s.outcomes, d) && CleanPurge(faults, since, d);
    }
  }

  /** How a run ends once the backup itself has succeeded. */
  ghost predicate Ended(s: RunSummary, before: seq<Dest>, mid: seq<Dest>, after: seq<Dest>, policy: OnFailure,
                        faults: seq<Fault>, since: nat, job: Job, terms: Terms)
  {
    && Attempted(job.cfgs, policy, s.outcomes)
    && ExitIsExact(s, job.cfgs, faults, since)
    && AllFinal(before, mid, after, s.outcomes, faults, since, job, terms)
    && (s.code.Success? ==> AllExact(before, after, job.cfgs, job.entry))
  }

  // ----- Whether the new generation outlives a run that goes well

  /** No destination has a complete generation of that name. */
  ghost predicate Unheard(dests: seq<Dest>, entry: string) {
    forall d :: 0 <= d < |dests| ==> !Complete(dests[d].entries, entry)
  }

  /** Some destination that stored the generation has it among the newest `keep`. */
  ghost predicate Wanted(before: seq<Dest>, outcomes: seq<Outcome>, job: Job)
    requires |before| == |job.cfgs|
  {
    exists d: nat :: d < |job.cfgs| && WantedAt(before[d], outcomes, job, d)
  }

  ghost predicate WantedAt(before: Dest, outcomes: seq<Outcome>, job: Job, d: nat)
    requires d < |job.cfgs|
  {
    Stored(outcomes, d) && job.entry in Newest(CompleteNames(before.entries) + {job.entry}, job.cfgs[d].keep)
  }

  lemma HeldWhereWanted(e0: Entries, e1: Entries, e: Entries, cfg: DestConfig, terms: Terms, job: Job)
    requires StoreChange(e0, e1, job.entry, job.gen) && PurgedAs(e1, e, cfg, terms, true) && !Complete(e0, job.entry)
    requires job.entry in CompleteNames(e)
    ensures Holds(e, job.entry, job.gen)
  {
    assert Fate(e1, e, cfg.keep, terms, true, job.entry);
  }

  /**
   Once the work copy is gone and all purges went well, the generation is still somewhere exactly when it is among
   the newest `keep` at a destination that stored it: an id older than what is there already is lost.
   */
  lemma SurvivesIff(before: seq<Dest>, mid: seq<Dest>, after: seq<Dest>, outcomes: seq<Outcome>, faults: seq<Fault>,
                    since: nat, job: Job, terms: Terms, w: World)
    requires AllFinal(before, mid, after, outcomes, faults, since, job, terms) && Shows(w, after)
    requires Unheard(before, job.entry) && job.entry !in w.work
    requires forall d: nat :: d < |job.cfgs| && Stored(outcomes, d) ==> CleanPurge(faults, since, d)
    ensures Survives(w, job.entry, job.gen) <==> Wanted(before, outcomes, job)
  {
    if Survives(w, job.entry, job.gen) {
      var d :| 0 <= d < |w.disks| && Holds(w.disks[d].dir.entries, job.entry, job.gen);
      assert job.entry in CompleteNames(after[d].entries) && job.entry !in CompleteNames(before[d].entries);
      assert WantedAt(before[d], outcomes, job, d);
    }
    if d: nat :| d < |job.cfgs| && WantedAt(before[d], outcomes, job, d) {
      HeldWhereWanted(before[d].entries, mid[d].entries, after[d].entries, job.cfgs[d], terms, job);
      assert Holds(w.disks[d].dir.entries, job.entry, job.gen);
    }
  }

  /**
   A destination that stored, had nothing complete of that name and has it among the newest `keep` ends with every file
   of the tool, byte for byte, with meta.json, and nothing else under that name, whatever its purge met.
   */
  ghost predicate AllDelivered(before: seq<Dest>, after: seq<Dest>, outcomes: seq<Outcome>, job: Job, files: Files,
                               meta: string)
    requires |before| == |after| == |job.cfgs|
  {
    forall d: nat :: d < |job.cfgs| && WantedAt(before[d], outcomes, job, d)
                     && !Complete(before[d].entries, job.entry) ==>
      && job.entry in after[d].entries && after[d].entries[job.entry].Dir?
      && Delivered(after[d].entries[job.entry].files, files, meta)
  }

  lemma StillWhole(e0: Entries, e1: Entries, e: Entries, cfg: DestConfig, terms: Terms, job: Job, clean: bool)
    requires StoreChange(e0, e1, job.entry, job.gen) && Committed(e1, job.entry, job.gen) && JobIsSane(job)
    requires PurgedAs(e1, e, cfg, terms, clean)
    requires job.entry in Newest(CompleteNames(e0) + {job.entry}, cfg.keep)
    ensures Holds(e, job.entry, job.gen)
  {
    StoreChangeCompletes(e0, e1, job.entry, job.gen);
  }

  lemma WantedIsDelivered(before: seq<Dest>, mid: seq<Dest>, after: seq<Dest>, outcomes: seq<Outcome>,
                          faults: seq<Fault>, since: nat, job: Job, terms: Terms, files: Files, meta: string)
    requires AllFinal(before, mid, after, outcomes, faults, since, job, terms) && JobIsSane(job)
    requires job.gen == WithMeta(files, meta)
    ensures AllDelivered(before, after, outcomes, job, files, meta)
  {
    PlacedIsDelivered(files, meta);
    forall d: nat | d < |job.cfgs| && WantedAt(before[d], outcomes, job, d) && !Complete(before[d].entries, job.entry)
      ensures Holds(after[d].entries, job.entry, job.gen)
    {
      StillWhole(before[d].entries, mid[d].entries, after[d].entries, job.cfgs[d], terms, job,
                 CleanPurge(faults, since, d));
    }
  }

  lemma SuccessSurvivesIff(before: seq<Dest>, mid: seq<Dest>, after: seq<Dest>, s: RunSummary, policy: OnFailure,
                           faults: seq<Fault>, since: nat, job: Job, terms: Terms, w: World)
    requires Ended(s, before, mid, after, policy, faults, since, job, terms) && Shows(w, after)
    ensures s.code.Success? && Unheard(before, job.entry) && job.entry !in w.work ==>
      (Survives(w, job.entry, job.gen) <==> Wanted(before, s.outcomes, job))
  {
    if s.code.Success? && Unheard(before, job.entry) && job.entry !in w.work {
      SurvivesIff(before, mid, after, s.outcomes, faults, since, job, terms, w);
    }
  }

  // ----- When nothing fails

  /** Only directories at the destinations, and none of them in the way of `id`. */
  ghost predicate AllStorable(dests: seq<Dest>, id: string) {
    forall d :: 0 <= d < |dests| ==> AllDirs(dests[d].entries) && !Blocked(dests[d].entries, id)
  }

  lemma StoredIsPurgeable(before: seq<Dest>, w0: World, p: Past, mid: seq<Dest>, outcomes: seq<Outcome>, job: Job)
    requires AfterStore(before, w0, p.now, mid, outcomes, job) && Linked(p)
    ensures AllStorable(before, job.entry) ==> !SomeBlocked(before, job.entry) && AllPurgeable(mid, StoredSet(outcomes))
  {
    forall d: nat | AllStorable(before, job.entry) && d < |mid| && Stored(outcomes, d) ensures Purgeable(mid[d]) {
      assert Reported(before[d], mid[d], outcomes, d, job.entry, job.gen);
      assert StoreChange(before[d].entries, mid[d].entries, job.entry, job.gen);
      assert job.entry in mid[d].entries;
      CrashLeavesSound(p, p, d);
    }
  }

  // ----- The pipeline itself

  /** Once some destination has the generation: drop the work copy, then purge. */
  method RemoveAndPurge(h: Host, config: Settings, outcomes: seq<Outcome>, now: int, id: string, ghost job: Job,
                        ghost start: Past, ghost before: seq<Dest>)
    returns (hadError: bool)
    requires h.Resting() && |config.destinations| == |h.dests| && UniqueNames(config.destinations)
    requires job.cfgs == config.destinations && EntryId(id) && job.entry == Tail(id) && JobIsSane(job)
      && NamedAlike(job.cfgs, outcomes)
    requires AfterStore(before, start.now, h.past.now, h.dests, outcomes, job)
    requires |job.cfgs| > 0 ==> SomeStored(outcomes)
    modifies h`work, h`dests, h`past, h`faults, h`hitches
    ensures h.Resting() && |h.dests| == |old(h.dests)| && Grown(old(h.faults), h.faults)
    ensures hadError <==> h.faults != old(h.faults)
    ensures forall k :: |old(h.faults)| <= k < |h.faults| ==> !h.faults[k].StoreFault?
    ensures SafeSince(before, old(h.past), h.past, job)
    ensures AllPurged(old(h.dests), h.dests, job.cfgs, StoredSet(outcomes), h.faults, |old(h.faults)|,
                      Terms(config.graceHours, now, Some(id)))
    ensures forall d: nat :: d < |job.cfgs| && !Stored(outcomes, d) ==> h.dests[d] == old(h.dests)[d]
    ensures h.work.Keys <= old(h.work).Keys && old(h.hitches) <= h.hitches
    ensures h.hitches == old(h.hitches) ==>
      Tail(id) !in h.work && (hadError ==> !AllPurgeable(old(h.dests), StoredSet(outcomes)))
  {
    ghost var p1, mid := h.past, h.dests;
    RemoveWorkTree(h, Tail(id));
    ghost var p2 := h.past;
    hadError := PurgeStoredDestinations(h, config, outcomes, id, now);
    DroppingIsSafe(before, start.now, mid, p1, p2, outcomes, job);
    PurgingIsSafe(before, start.now, p1.now, mid, p2, h.past, outcomes, job);
    SafeMore(before, p1, p2, h.past, job);
    OnlyStoredPurged(p2, h.past, mid, h.dests, job.cfgs, outcomes);
  }

  lemma OnlyStoredPurged(was: Past, p: Past, mid: seq<Dest>, after: seq<Dest>, cfgs: seq<DestConfig>,
                         outcomes: seq<Outcome>)
    requires AllTrimmedSince(was, p, cfgs, StoredSet(outcomes)) && Shows(was.now, mid) && Shows(p.now, after)
    ensures |mid| == |after| == |cfgs|
    ensures forall d: nat :: d < |cfgs| && !Stored(outcomes, d) ==> after[d] == mid[d]
  {}

  /** From the loop over the destinations to the exit code. */
  method Conclude(h: Host, config: Settings, outcomes: seq<Outcome>, now: int, id: string, ghost job: Job,
                  ghost start: Past, ghost before: seq<Dest>, ghost since: nat)
    returns (code: ExitCode)
    requires h.Resting() && |config.destinations| == |h.dests| && UniqueNames(config.destinations)
    requires job.cfgs == config.destinations && EntryId(id) && job.entry == Tail(id) && JobIsSane(job)
    requires Attempted(job.cfgs, config.onFailure, outcomes) && since <= |h.faults|
      && StoreFaults(h.faults, since, outcomes)
    requires AfterStore(before, start.now, h.past.now, h.dests, outcomes, job)
    requires SafeSince(before, start, h.past, job)
    modifies h`work, h`dests, h`past, h`faults, h`hitches
    ensures h.Resting() && |h.dests| == |old(h.dests)| && Grown(old(h.faults), h.faults)
    ensures ExitIsExact(RunSummary(code, outcomes), job.cfgs, h.faults, since)
    ensures AllFinal(before, old(h.dests), h.dests, outcomes, h.faults, since, job,
                     Terms(config.graceHours, now, Some(id)))
    ensures SafeSince(before, start, h.past, job)
    ensures code.AllDestinationsFailed? ==> h.work == old(h.work)
    ensures h.work.Keys <= old(h.work).Keys && old(h.hitches) <= h.hitches
    ensures h.hitches == old(h.hitches) && !SomeFailed(outcomes) ==>
      Tail(id) !in h.work && (AllPurgeable(old(h.dests), StoredSet(outcomes)) ==> code.Success?)
  {
    ghost var p1, mid, midFaults, terms := h.past, h.dests, h.faults, Terms(config.graceHours, now, Some(id));
    WhoStored(job.cfgs, config.onFailure, outcomes);
    var anyStored := exists o :: o in outcomes && o.stored;
    var anyFailed := exists o :: o in outcomes && !o.stored;
    var purgeHadError := false;
    if anyFailed && !anyStored {
      NothingStored(mid, job.cfgs, outcomes, h.faults, |midFaults|, terms);
    } else {
      purgeHadError := RemoveAndPurge(h, config, outcomes, now, id, job, start, before);
      SafeMore(before, start, p1, h.past, job);
    }
    ExitDecided(job.cfgs, config.onFailure, outcomes, midFaults, h.faults, since);
    AfterPurging(before, start.now, p1.now, mid, h.dests, outcomes, midFaults, h.faults, since, job, terms);
    code := DecideExit(anyStored, anyFailed, purgeHadError);
  }

  lemma NothingStored(mid: seq<Dest>, cfgs: seq<DestConfig>, outcomes: seq<Outcome>, faults: seq<Fault>, since: nat,
                      terms: Terms)
    requires !SomeStored(outcomes) && |mid| == |cfgs|
    ensures AllPurged(mid, mid, cfgs, StoredSet(outcomes), faults, since, terms)
  {
    forall d | d in StoredSet(outcomes) ensures false { assert Stored(outcomes, d); }
  }

  /** From the first destination to the exit code. */
  method StoreAndPurge(h: Host, config: Settings, gen: Files, id: string, now: int)
    returns (s: RunSummary, ghost mid: seq<Dest>)
    requires h.Resting() && |config.destinations| == |h.dests| && UniqueNames(config.destinations)
    requires EntryId(id) && [META] in gen && Tail(id) in h.work && h.work[Tail(id)] == gen
    modifies h`work, h`dests, h`past, h`faults, h`hitches
    ensures h.Resting() && |h.dests| == |old(h.dests)| && Grown(old(h.faults), h.faults)
    ensures Ended(s, old(h.dests), mid, h.dests, config.onFailure, h.faults, |old(h.faults)|,
                  Job(config.destinations, Tail(id), gen), Terms(config.graceHours, now, Some(id)))
    ensures s.code.AllDestinationsFailed? ==> h.work == old(h.work)
    ensures SafeSince(old(h.dests), old(h.past), h.past, Job(config.destinations, Tail(id), gen))
    ensures h.work.Keys <= old(h.work).Keys && old(h.hitches) <= h.hitches
    ensures h.hitches == old(h.hitches) && AllStorable(old(h.dests), Tail(id)) ==>
      s.code.Success? && Tail(id) !in h.work
  {
    ghost var job, start, before, since := Job(config.destinations, Tail(id), gen), h.past, h.dests, |h.faults|;
    var outcomes := StoreToDestinations(h, config, gen, id);
    StoringIsSafe(before, start, h.past, job);
    mid := h.dests;
    StoredIsPurgeable(before, start.now, h.past, mid, outcomes, job);
    var code := Conclude(h, config, outcomes, now, id, job, start, before, since);
    s := RunSummary(code, outcomes);
    SuccessIsFinal(before, mid, h.dests, s, h.faults, since, job, Terms(config.graceHours, now, Some(id)));
  }

  /**
   `mbkeeper run` once the lock is held. `ready` is the outcome of the precondition check and the pre-backup
   hook, `backup` what the external tool did; `meta` is the text of meta.json. `born` is the moment at which
   meta.json has just been written, or the tool has failed; `mid` is what the destinations hold once storing is over.
   */
  method Run(h: Host, config: Settings, id: string, now: int, ready: bool, backup: Backup, meta: string)
    returns (s: RunSummary, ghost born: Past, ghost mid: seq<Dest>)
    requires h.Resting() && |config.destinations| == |h.dests| && UniqueNames(config.destinations) && EntryId(id)
    modifies h`work, h`dests, h`past, h`faults, h`hitches
    ensures h.Resting() && |h.dests| == |old(h.dests)| && Grown(old(h.faults), h.faults) && old(h.hitches) <= h.hitches
    ensures WorkOnlySince(old(h.past), born)
    ensures !ready ==> s.code.PreconditionFailed? && h.past == born == old(h.past)
    ensures ready && backup.Broken? ==> s.code.BackupFailed? && h.past == born && h.faults == old(h.faults)
    ensures ready && backup.Finished? ==>
      var gen := WithMeta(backup.files, meta); var job := Job(config.destinations, Tail(id), gen);
      && Tail(id) in born.now.work && born.now.work[Tail(id)] == gen
      && SafeSince(old(h.dests), born, h.past, job)
      && Ended(s, old(h.dests), mid, h.dests, config.onFailure, h.faults, |old(h.faults)|, job,
               Terms(config.graceHours, now, Some(id)))
      && (s.code.AllDestinationsFailed? ==> Tail(id) in h.work && h.work[Tail(id)] == gen)
      && Described(gen, backup.files, meta)
      && AllDelivered(old(h.dests), h.dests, s.outcomes, job, backup.files, meta)
      && (s.code.Success? && Unheard(old(h.dests), Tail(id)) && Tail(id) !in h.work ==>
            (Survives(h.past.now, Tail(id), gen) <==> Wanted(old(h.dests), s.outcomes, job)))
    ensures RetainSince(old(h.dests), old(h.past), h.past, config.destinations, Tail(id))
    ensures h.hitches == old(h.hitches) && ready && backup.Finished? && AllStorable(old(h.dests), Tail(id)) ==>
      s.code.Success? && h.work.Keys == {}
  {
    ghost var start, before, faults := h.past, h.dests, |h.faults|;
    born, mid := h.past, h.dests;
    IdleRetains(before, start, h.past, config.destinations, Tail(id));
    if !ready { return RunSummary(PreconditionFailed, []), born, mid; }
    TakeBackup(h, id, backup, meta);
    born := h.past;
    IdleRetains(before, start, born, config.destinations, Tail(id));
    if backup.Broken? { return RunSummary(BackupFailed, []), born, mid; }
    s, mid := StoreAndPurge(h, config, WithMeta(backup.files, meta), id, now);
    ghost var job := Job(config.destinations, Tail(id), WithMeta(backup.files, meta));
    RetainMore(before, start, born, h.past, job);
    WantedIsDelivered(before, mid, h.dests, s.outcomes, h.faults, faults, job,
                      Terms(config.graceHours, now, Some(id)), backup.files, meta);
    SuccessSurvivesIff(before, mid, h.dests, s, config.onFailure, h.faults, faults, job,
                       Terms(config.graceHours, now, Some(id)), h.past.now);
  }
}
