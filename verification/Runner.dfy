/** `run`: the backup, the loop over the destinations, the purge of those that stored, and the exit code. */
module Runner {
  import opened Wrappers
  import opened Paths
  import opened Retention
  import opened Layout
  import opened Placement
  import opened Recording
  import opened Destinations
  import opened Purger

  datatype Outcome = Outcome(name: string, stored: bool)

  /** What the external tool did: a finished generation, or a failure and whatever it left behind. */
  datatype Backup = Finished(files: Files) | Broken(leftovers: Files)

  datatype RunSummary = RunSummary(code: ExitCode, outcomes: seq<Outcome>)

  /** What one run stores, under which entry, and where. */
  datatype Job = Job(cfgs: seq<DestConfig>, entry: string, gen: Files)

  /** The generation once write_meta has added meta.json. */
  function WithMeta(files: Files, meta: string): (gen: Files)
    ensures [META] in gen
  {
    files[[META] := meta]
  }

  /** `gen` is what the tool produced and meta.json with this text, which replaces a file of that name. */
  ghost predicate Described(gen: Files, files: Files, meta: string) {
    && (forall p :: p in gen <==> p in files || p == ["meta.json"])
    && (forall p :: p in files && p != ["meta.json"] ==> gen[p] == files[p])
    && gen[["meta.json"]] == meta
  }

  /** The whole of it as a destination keeps it: without what is named meta.json below the top. */
  ghost predicate Delivered(stored: Files, files: Files, meta: string) {
    && (forall p :: p in stored <==>
          p == ["meta.json"] || (p in files && forall i :: 0 <= i < |p| ==> p[i] != "meta.json"))
    && (forall p :: p in stored && p != ["meta.json"] ==> stored[p] == files[p])
    && stored[["meta.json"]] == meta
  }

  lemma WithMetaIsDescribed(files: Files, meta: string)
    ensures Described(WithMeta(files, meta), files, meta)
  {}

  lemma PlacedIsDelivered(files: Files, meta: string)
    ensures Delivered(Placed(WithMeta(files, meta)), files, meta)
  {
    var gen := WithMeta(files, meta);
    PlacedIsCopied(gen, Placed(gen));
  }

  // ----- Storing

  ghost predicate AllStoring(w0: World, w: World, id: string, gen: Files) {
    && w.work == w0.work && |w.disks| == |w0.disks|
    && forall d :: 0 <= d < |w0.disks| ==> StoreChange(w0.disks[d].dir.entries, w.disks[d].dir.entries, id, gen)
  }

  /** Every moment from `was` to `p` belongs to the loop over the destinations. */
  ghost predicate AllStoringSince(was: Past, p: Past, id: string, gen: Files)
    decreases p
  {
    && AllStoring(was.now, p.now, id, gen)
    && (p != was ==> p.Then? && AllStoringSince(was, p.before, id, gen))
  }

  /** Storing to a destination that has not been touched yet. */
  lemma {:induction false} StoringMore(was: Past, mid: Past, p: Past, d: nat, id: string, gen: Files)
    requires AllStoringSince(was, mid, id, gen) && StoringSince(mid, p, d, id, gen)
    requires d < |was.now.disks| && mid.now.disks[d] == was.now.disks[d]
    ensures AllStoringSince(was, p, id, gen)
    ensures OnlyAt(mid.now, p.now, d)
    decreases p
  {
    if p != mid { StoringMore(was, mid, p.before, d, id, gen); }
  }

  ghost predicate Stored(outcomes: seq<Outcome>, d: nat) {
    d < |outcomes| && outcomes[d].stored
  }

  ghost predicate SomeStored(outcomes: seq<Outcome>) { exists d: nat :: Stored(outcomes, d) }

  ghost predicate SomeFailed(outcomes: seq<Outcome>) { exists d: nat :: d < |outcomes| && !Stored(outcomes, d) }

  ghost predicate AllStored(cfgs: seq<DestConfig>, outcomes: seq<Outcome>) {
    forall d: nat :: d < |cfgs| ==> Stored(outcomes, d)
  }

  ghost predicate SomeBlocked(dests: seq<Dest>, id: string) {
    exists d :: 0 <= d < |dests| && Blocked(dests[d].entries, id)
  }

  /** What the loop over the destinations reports, and what it did to destination `d`. */
  ghost predicate Reported(before: Dest, after: Dest, outcomes: seq<Outcome>, d: nat, id: string, gen: Files) {
    && (Stored(outcomes, d) ==>
          if Complete(before.entries, id) then after == before else Committed(after.entries, id, gen))
    && (!Stored(outcomes, d) ==> Same(before.entries, after.entries, id))
    && (d >= |outcomes| ==> after == before)
  }

  ghost predicate AllReported(before: seq<Dest>, after: seq<Dest>, outcomes: seq<Outcome>, id: string, gen: Files) {
    |before| == |after| && forall d: nat :: d < |before| ==> Reported(before[d], after[d], outcomes, d, id, gen)
  }

  ghost predicate FaultSince(f: Fault, faults: seq<Fault>, since: nat) {
    exists k :: since <= k < |faults| && faults[k] == f
  }

  ghost predicate StoreFaults(faults: seq<Fault>, since: nat, outcomes: seq<Outcome>) {
    && (forall k :: since <= k < |faults| ==> faults[k].StoreFault? && faults[k].dest < |outcomes|)
    && (forall d: nat :: d < |outcomes| ==> (outcomes[d].stored <==> !FaultSince(StoreFault(d), faults, since)))
  }

  /** Which destinations were attempted, in order, and when the loop stopped early. */
  ghost predicate Attempted(cfgs: seq<DestConfig>, policy: OnFailure, outcomes: seq<Outcome>) {
    && |outcomes| <= |cfgs|
    && (forall d :: 0 <= d < |outcomes| ==> outcomes[d].name == cfgs[d].name)
    && (|outcomes| < |cfgs| ==> policy.Abort? && |outcomes| > 0 && !outcomes[|outcomes| - 1].stored)
    && (policy.Abort? ==> forall d :: 0 <= d < |outcomes| - 1 ==> outcomes[d].stored)
  }

  lemma AllReportedNext(before: seq<Dest>, was: seq<Dest>, now: seq<Dest>, outcomes: seq<Outcome>, o: Outcome,
                        id: string, gen: Files)
    requires AllReported(before, was, outcomes, id, gen) && OnlyDest(was, now, |outcomes|)
    requires Reported(before[|outcomes|], now[|outcomes|], outcomes + [o], |outcomes|, id, gen)
    ensures AllReported(before, now, outcomes + [o], id, gen)
  {
    forall d: nat | d < |before| ensures Reported(before[d], now[d], outcomes + [o], d, id, gen) {
      assert Reported(before[d], was[d], outcomes, d, id, gen);
    }
  }

  lemma StoreFaultsNext(faults: seq<Fault>, since: nat, outcomes: seq<Outcome>, o: Outcome)
    requires since <= |faults| && StoreFaults(faults, since, outcomes)
    ensures StoreFaults(if o.stored then faults else faults + [StoreFault(|outcomes|)], since, outcomes + [o])
  {
    var n := |outcomes|;
    assert !FaultSince(StoreFault(n), faults, since);
    var more := faults + [StoreFault(n)];
    assert more[|faults|] == StoreFault(n);
    forall f ensures FaultSince(f, more, since) <==> FaultSince(f, faults, since) || f == StoreFault(n) {
      if k :| since <= k < |faults| && faults[k] == f { assert more[k] == f; }
    }
  }

  lemma FailedSoFar(outcomes: seq<Outcome>, o: Outcome)
    ensures SomeFailed(outcomes + [o]) ==> SomeFailed(outcomes) || !o.stored
  {
    if d: nat :| d < |outcomes + [o]| && !Stored(outcomes + [o], d) {
      if d < |outcomes| { assert !Stored(outcomes, d); }
    }
  }

  /** How far the loop over the destinations has come since `w0`: one outcome per attempted destination. */
  ghost predicate StoreProgress(w0: World, w: World, before: seq<Dest>, dests: seq<Dest>, faults: seq<Fault>,
                                since: nat, outcomes: seq<Outcome>, id: string, gen: Files)
  {
    && |before| == |dests| == |w0.disks| == |w.disks| && since <= |faults|
    && (forall d: nat :: |outcomes| <= d < |w0.disks| ==> w.disks[d] == w0.disks[d])
    && StoreFaults(faults, since, outcomes)
    && AllReported(before, dests, outcomes, id, gen)
  }

  lemma StoreProgressNext(w0: World, was: World, w: World, before: seq<Dest>, wasDests: seq<Dest>, dests: seq<Dest>,
                          faults: seq<Fault>, since: nat, outcomes: seq<Outcome>, o: Outcome, id: string, gen: Files)
    requires StoreProgress(w0, was, before, wasDests, faults, since, outcomes, id, gen)
    requires |outcomes| < |before| && OnlyAt(was, w, |outcomes|) && Shows(was, wasDests) && Shows(w, dests)
    requires var d := |outcomes|; var e0, e := wasDests[d].entries, dests[d].entries;
             && (Complete(e0, id) ==> o.stored && dests[d] == wasDests[d])
             && (o.stored && !Complete(e0, id) ==> Committed(e, id, gen))
             && (!o.stored ==> Same(e0, e, id))
    ensures StoreProgress(w0, w, before, dests, if o.stored then faults else faults + [StoreFault(|outcomes|)], since,
                          outcomes + [o], id, gen)
  {
    var d := |outcomes|;
    assert Reported(before[d], wasDests[d], outcomes, d, id, gen);
    StoreFaultsNext(faults, since, outcomes, o);
    AllReportedNext(before, wasDests, dests, outcomes, o, id, gen);
  }

  /** One destination, in the middle of the loop that began at `start`. */
  method StoreNext(h: Host, name: string, gen: Files, id: string, d: nat, ghost start: Past, ghost before: seq<Dest>,
                   ghost outcomes: seq<Outcome>, ghost since: nat, ghost entry: string)
    returns (o: Outcome)
    requires h.Resting() && |outcomes| == d < |h.dests| && EntryId(id) && entry == Tail(id)
    requires AllStoringSince(start, h.past, entry, gen)
    requires StoreProgress(start.now, h.past.now, before, h.dests, h.faults, since, outcomes, entry, gen)
    modifies h`dests, h`past, h`faults, h`hitches
    ensures h.Resting() && |h.dests| == |old(h.dests)| && Grown(old(h.faults), h.faults) && o.name == name
    ensures AllStoringSince(start, h.past, entry, gen)
    ensures StoreProgress(start.now, h.past.now, before, h.dests, h.faults, since, outcomes + [o], entry, gen)
    ensures old(h.hitches) <= h.hitches && (!o.stored ==> h.hitches > old(h.hitches) || SomeBlocked(before, entry))
  {
    ghost var mid, was, faults := h.past, h.dests, h.faults;
    assert Reported(before[d], h.dests[d], outcomes, d, entry, gen);
    var stored := h.Store(d, gen, id);
    o := Outcome(name, stored);
    StoringMore(start, mid, h.past, d, entry, gen);
    StoreProgressNext(start.now, mid.now, h.past.now, before, was, h.dests, faults, since, outcomes, o, entry, gen);
  }

  method StoreToDestinations(h: Host, config: Settings, gen: Files, id: string) returns (outcomes: seq<Outcome>)
    requires h.Resting() && |config.destinations| == |h.dests| && EntryId(id)
    modifies h`dests, h`past, h`faults, h`hitches
    ensures h.Resting() && |h.dests| == |old(h.dests)| && Grown(old(h.faults), h.faults)
    ensures Attempted(config.destinations, config.onFailure, outcomes)
    ensures StoreFaults(h.faults, |old(h.faults)|, outcomes)
    ensures AllStoringSince(old(h.past), h.past, Tail(id), gen)
    ensures AllReported(old(h.dests), h.dests, outcomes, Tail(id), gen)
    ensures old(h.hitches) <= h.hitches
    ensures SomeFailed(outcomes) ==> h.hitches > old(h.hitches) || SomeBlocked(old(h.dests), Tail(id))
  {
    var cfgs := config.destinations;
    ghost var start, before, since, entry := h.past, h.dests, |h.faults|, Tail(id);
    outcomes := [];
    var i := 0;
    while i < |cfgs|
      invariant h.Resting() && |h.dests| == |cfgs| && Grown(old(h.faults), h.faults)
      invariant |outcomes| == i <= |cfgs|
      invariant forall d :: 0 <= d < i ==> outcomes[d].name == cfgs[d].name
      invariant config.onFailure.Abort? ==> forall d :: 0 <= d < i ==> outcomes[d].stored
      invariant AllStoringSince(start, h.past, entry, gen)
      invariant StoreProgress(start.now, h.past.now, before, h.dests, h.faults, since, outcomes, entry, gen)
      invariant old(h.hitches) <= h.hitches
      invariant SomeFailed(outcomes) ==> h.hitches > old(h.hitches) || SomeBlocked(before, entry)
    {
      var outcome := StoreNext(h, cfgs[i].name, gen, id, i, start, before, outcomes, since, entry);
      FailedSoFar(outcomes, outcome);
      outcomes := outcomes + [outcome];
      i := i + 1;
      if !outcome.stored && config.onFailure.Abort? { break; }
    }
  }

  // ----- Purging the destinations that stored

  ghost function StoredSet(outcomes: seq<Outcome>): set<nat> {
    set d: nat | d < |outcomes| && outcomes[d].stored
  }

  method IndexByName(cfgs: seq<DestConfig>) returns (byName: map<string, nat>)
    requires UniqueNames(cfgs)
    ensures forall d :: 0 <= d < |cfgs| ==> cfgs[d].name in byName && byName[cfgs[d].name] == d
  {
    byName := map[];
    for i := 0 to |cfgs|
      invariant forall d :: 0 <= d < i ==> cfgs[d].name in byName && byName[cfgs[d].name] == d
    {
      byName := byName[cfgs[i].name := i];
    }
  }

  /** The names of the attempted destinations are those of the configuration, in order. */
  ghost predicate NamedAlike(cfgs: seq<DestConfig>, outcomes: seq<Outcome>) {
    |outcomes| <= |cfgs| && forall d :: 0 <= d < |outcomes| ==> outcomes[d].name == cfgs[d].name
  }

  /** How far the purges after storing have come: the chosen destinations below `i` are purged, the rest untouched. */
  ghost predicate PurgesDone(before: seq<Dest>, dests: seq<Dest>, cfgs: seq<DestConfig>, chosen: set<nat>, i: nat,
                             faults: seq<Fault>, since: nat, terms: Terms)
  {
    && |dests| == |before| == |cfgs| && since <= |faults|
    && (forall k :: since <= k < |faults| ==> !faults[k].StoreFault?)
    && (forall d :: i <= d < |cfgs| ==> dests[d] == before[d])
    && AllPurged(before, dests, cfgs, Below(chosen, i), faults, since, terms)
  }

  lemma OneMoreDone(before: seq<Dest>, was: seq<Dest>, now: seq<Dest>, cfgs: seq<DestConfig>, chosen: set<nat>, i: nat,
                    wasFaults: seq<Fault>, faults: seq<Fault>, since: nat, terms: Terms)
    requires PurgesDone(before, was, cfgs, chosen, i, wasFaults, since, terms) && i < |cfgs| && i in chosen
    requires PurgedOne(was, now, cfgs, i, wasFaults, faults, terms)
    requires forall k :: |wasFaults| <= k < |faults| ==> PurgeFaultAt(faults[k], i)
    ensures PurgesDone(before, now, cfgs, chosen, i + 1, faults, since, terms)
  {
    OneMorePurged(before, was, now, cfgs, Below(chosen, i), i, wasFaults, faults, since, terms);
    BelowNext(chosen, i);
    forall k | since <= k < |faults| ensures !faults[k].StoreFault? {
      if k < |wasFaults| { assert faults[..|wasFaults|][k] == wasFaults[k]; }
    }
  }

  /** After storing: the destinations that stored are purged, each found by its name; the others are left alone. */
  method PurgeStoredDestinations(h: Host, config: Settings, outcomes: seq<Outcome>, id: string, now: int)
    returns (hadError: bool)
    requires h.Resting() && |config.destinations| == |h.dests| && UniqueNames(config.destinations)
    requires NamedAlike(config.destinations, outcomes)
    modifies h`dests, h`past, h`faults, h`hitches
    ensures h.Resting() && |h.dests| == |old(h.dests)| && Grown(old(h.faults), h.faults)
    ensures hadError <==> h.faults != old(h.faults)
    ensures forall k :: |old(h.faults)| <= k < |h.faults| ==> !h.faults[k].StoreFault?
    ensures AllTrimmedSince(old(h.past), h.past, config.destinations, StoredSet(outcomes))
    ensures AllPurged(old(h.dests), h.dests, config.destinations, StoredSet(outcomes), h.faults, |old(h.faults)|,
                      Terms(config.graceHours, now, Some(id)))
    ensures old(h.hitches) <= h.hitches
    ensures hadError ==> h.hitches > old(h.hitches) || !AllPurgeable(old(h.dests), StoredSet(outcomes))
  {
    var cfgs, terms := config.destinations, Terms(config.graceHours, now, Some(id));
    ghost var chosen, start, before, since := StoredSet(outcomes), h.past, h.dests, |h.faults|;
    var byName := IndexByName(cfgs);
    hadError := false;
    for i := 0 to |outcomes|
      invariant h.Resting() && |h.dests| == |cfgs| && Grown(old(h.faults), h.faults)
      invariant hadError <==> h.faults != old(h.faults)
      invariant AllTrimmedSince(start, h.past, cfgs, chosen)
      invariant PurgesDone(before, h.dests, cfgs, chosen, i, h.faults, since, terms)
      invariant old(h.hitches) <= h.hitches
        && (hadError ==> h.hitches > old(h.hitches) || !AllPurgeable(before, chosen))
    {
      if outcomes[i].stored {
        var d := byName[outcomes[i].name];
        ghost var was, wasFaults := h.dests, h.faults;
        var _, error, _ := PurgeNext(h, cfgs, d, terms, false, chosen, start);
        OneMoreDone(before, was, h.dests, cfgs, chosen, d, wasFaults, h.faults, since, terms);
        hadError := hadError || error;
      } else {
        BelowNext(chosen, i);
      }
    }
    BelowAll(chosen, |outcomes|);
  }

  // ----- The work directory

  ghost predicate WorkOnly(w0: World, w: World) {
    w.disks == w0.disks
  }

  /** From `was` on, no destination changes. */
  ghost predicate WorkOnlySince(was: Past, p: Past)
    decreases p
  {
    && WorkOnly(was.now, p.now)
    && (p != was ==> p.Then? && WorkOnlySince(was, p.before))
  }

  lemma {:induction false} WorkOnlyMore(was: Past, mid: Past, p: Past)
    requires WorkOnlySince(was, mid) && WorkOnlySince(mid, p)
    ensures WorkOnlySince(was, p)
    decreases p
  {
    if p != mid { WorkOnlyMore(was, mid, p.before); }
  }

  /** rmtree with errors ignored: a file or directory whose removal fails stays behind. */
  method RemoveWorkTree(h: Host, n: string)
    requires h.Resting()
    modifies h`work, h`past, h`hitches
    ensures h.Resting() && h.work.Keys <= old(h.work).Keys
    ensures forall m :: m != n && m in old(h.work) ==> m in h.work && h.work[m] == old(h.work)[m]
    ensures WorkOnlySince(old(h.past), h.past)
    ensures old(h.hitches) <= h.hitches && (h.hitches == old(h.hitches) ==> n !in h.work)
    ensures n in old(h.work) && h.hitches > old(h.hitches) ==> n in h.work
  {
    if n !in h.work { return; }
    ghost var start := h.past;
    var left := h.work[n].Keys;
    while left != {}
      invariant h.Resting() && h.work.Keys == old(h.work).Keys
      invariant forall m :: m != n && m in old(h.work) ==> h.work[m] == old(h.work)[m]
      invariant WorkOnlySince(start, h.past)
      invariant left <= h.work[n].Keys
      invariant old(h.hitches) <= h.hitches && (h.hitches == old(h.hitches) <==> h.work[n].Keys <= left)
      decreases left
    {
      var p :| p in left;
      left := left - {p};
      var fails := h.Fails();
      if !fails { h.SetWork(h.work[n := h.work[n] - {p}]); }
    }
    var fails := h.Fails();
    if h.work[n] == map[] && !fails { h.SetWork(h.work - {n}); }
  }

  /** Removes what earlier runs left in the work directory. */
  method CleanupStaleWorkDir(h: Host, keepId: string)
    requires h.Resting()
    modifies h`work, h`past, h`hitches
    ensures h.Resting() && WorkOnlySince(old(h.past), h.past)
    ensures keepId in old(h.work) ==> keepId in h.work && h.work[keepId] == old(h.work)[keepId]
    ensures old(h.hitches) <= h.hitches && (h.hitches == old(h.hitches) ==> h.work.Keys <= {keepId})
  {
    ghost var start := h.past;
    var left := h.work.Keys - {keepId};
    while left != {}
      invariant h.Resting() && WorkOnlySince(start, h.past) && keepId !in left
      invariant keepId in old(h.work) ==> keepId in h.work && h.work[keepId] == old(h.work)[keepId]
      invariant old(h.hitches) <= h.hitches && (h.hitches == old(h.hitches) ==> h.work.Keys <= left + {keepId})
      decreases left
    {
      var n :| n in left;
      left := left - {n};
      ghost var mid := h.past;
      RemoveWorkTree(h, n);
      WorkOnlyMore(start, mid, h.past);
    }
  }

  /** Clears the work directory of earlier runs and takes the backup into a directory of its own. */
  method TakeBackup(h: Host, id: string, backup: Backup, meta: string)
    requires h.Resting() && EntryId(id)
    modifies h`work, h`past, h`hitches
    ensures h.Resting() && WorkOnlySince(old(h.past), h.past)
    ensures backup.Finished? ==> Tail(id) in h.work && h.work[Tail(id)] == WithMeta(backup.files, meta)
    ensures backup.Finished? ==> Described(h.work[Tail(id)], backup.files, meta)
    ensures backup.Broken? ==> Tail(id) in h.work && h.work[Tail(id)] == backup.leftovers
    ensures old(h.hitches) <= h.hitches && (h.hitches == old(h.hitches) ==> h.work.Keys <= {Tail(id)})
  {
    TailHasNoSlash(id);
    CleanupStaleWorkDir(h, id);
    var entry := Tail(id);
    if entry !in h.work { h.SetWork(h.work[entry := map[]]); }
    match backup {
      case Broken(leftovers) =>
        h.SetWork(h.work[entry := leftovers]);
      case Finished(files) =>
        h.SetWork(h.work[entry := files]);
        h.SetWork(h.work[entry := WithMeta(files, meta)]);
        WithMetaIsDescribed(files, meta);
    }
  }
}
