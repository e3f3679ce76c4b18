/** `purge`: retention plans carried out at one destination and at all chosen ones. */
module Purger {
  import opened Wrappers
  import opened Order
  import opened Retention
  import opened Layout
  import opened Purging
  import opened Placement
  import opened Recording
  import opened Destinations

  datatype DestConfig = DestConfig(name: string, keep: nat)

  datatype OnFailure = Continue | Abort

  /** The configuration as far as the pipelines read it. */
  datatype Settings = Settings(destinations: seq<DestConfig>, onFailure: OnFailure, graceHours: int)

  datatype ExitCode =
    | Success
    | PreconditionFailed
    | BackupFailed
    | AllDestinationsFailed
    | PartialDestinationFailure
    | PurgeFailed

  datatype PurgeResult = PurgeResult(name: string, deleted: seq<string>, kept: seq<string>, listed: bool)

  // ----- What a purge may do to one destination

  /** Complete generations only disappear, and none of the newest `keep` is touched. */
  ghost predicate Trimmed(e0: Entries, e: Entries, keep: nat) {
    && CompleteNames(e) <= CompleteNames(e0)
    && forall n :: n in Newest(CompleteNames(e0), keep) ==> n in e && e[n] == e0[n]
  }

  lemma TrimmedCompose(e0: Entries, e1: Entries, e2: Entries, keep: nat)
    requires Trimmed(e0, e1, keep) && Trimmed(e1, e2, keep)
    ensures Trimmed(e0, e2, keep)
  {
    forall n | n in Newest(CompleteNames(e0), keep) ensures n in CompleteNames(e1) {}
    NewestOfBetween(CompleteNames(e0), CompleteNames(e1), keep);
  }

  lemma DeleteChangeTrims(e0: Entries, e: Entries, keep: nat, plan: PurgePlan)
    requires SparesKept(e0, keep, plan) && DeleteChange(e0, e, Reach(plan.delete))
    ensures Trimmed(e0, e, keep)
  {
    forall n | n in CompleteNames(e) ensures n in CompleteNames(e0) {
      assert HasDir(e, n) && [META] in e[n].files;
    }
    forall n | n in Newest(CompleteNames(e0), keep) ensures n in e && e[n] == e0[n] {
      assert n !in Reach(plan.delete);
    }
  }

  ghost predicate Trimming(w0: World, w: World, d: nat, keep: nat) {
    OnlyAt(w0, w, d) && Trimmed(w0.disks[d].dir.entries, w.disks[d].dir.entries, keep)
  }

  ghost predicate PurgeFaultAt(f: Fault, d: nat) {
    (f.ListFault? || f.DeleteFault?) && f.dest == d
  }

  ghost predicate IsSubsequence(a: seq<string>, b: seq<string>) {
    if b == [] then a == []
    else
      var n := |b| - 1;
      || IsSubsequence(a, b[..n])
      || (a != [] && a[|a| - 1] == b[n] && IsSubsequence(a[..|a| - 1], b[..n]))
  }

  /** The destination holds no plain files of its own. */
  predicate AllDirs(e: Entries) { forall n :: n in e ==> e[n].Dir? }

  /** Nothing is left under the names that deleting `ids` removes. */
  ghost predicate Gone(e: Entries, ids: seq<string>) {
    forall n :: n in e ==> !CoveredByAny(ids, n)
  }

  lemma OneMoreGone(e0: Entries, e: Entries, ids: seq<string>, id: string)
    requires Gone(e0, ids) && e == Survivors(e0, [id])
    ensures Gone(e, ids + [id])
  {
    forall n | n in e ensures !CoveredByAny(ids + [id], n) { CoveredByMore(ids, id, n); }
  }

  /** The ids whose deletion has failed since the log had `since` entries, in order. */
  function FailedSince(faults: seq<Fault>, since: nat): seq<string> {
    if |faults| <= since then []
    else
      var n := |faults| - 1;
      FailedSince(faults[..n], since) + (if faults[n].DeleteFault? then [faults[n].id] else [])
  }

  /** `all` is `a` and `b` merged, each in its own order. */
  ghost predicate Interleaves(all: seq<string>, a: seq<string>, b: seq<string>) {
    if all == [] then a == [] && b == []
    else
      var n := |all| - 1;
      || (a != [] && a[|a| - 1] == all[n] && Interleaves(all[..n], a[..|a| - 1], b))
      || (b != [] && b[|b| - 1] == all[n] && Interleaves(all[..n], a, b[..|b| - 1]))
  }

  /** Every planned deletion was attempted once, in order: it is either reported as done or logged as failed. */
  ghost predicate Accounted(ids: seq<string>, deleted: seq<string>, faults: seq<Fault>, since: nat) {
    since <= |faults| && Interleaves(ids, deleted, FailedSince(faults, since))
  }

  lemma {:induction false} InterleavedIsSubsequence(all: seq<string>, a: seq<string>, b: seq<string>)
    requires Interleaves(all, a, b)
    ensures IsSubsequence(a, all)
  {
    if all != [] {
      var n := |all| - 1;
      if a != [] && a[|a| - 1] == all[n] && Interleaves(all[..n], a[..|a| - 1], b) {
        InterleavedIsSubsequence(all[..n], a[..|a| - 1], b);
      } else {
        InterleavedIsSubsequence(all[..n], a, b[..|b| - 1]);
      }
    }
  }

  lemma InterleavesMore(all: seq<string>, a: seq<string>, b: seq<string>, x: string)
    requires Interleaves(all, a, b)
    ensures Interleaves(all + [x], a + [x], b) && Interleaves(all + [x], a, b + [x])
  {
    assert (all + [x])[..|all|] == all && (a + [x])[..|a|] == a && (b + [x])[..|b|] == b;
  }

  lemma OneMoreAccounted(ids: seq<string>, id: string, deleted: seq<string>, faults: seq<Fault>, since: nat, d: nat)
    requires Accounted(ids, deleted, faults, since)
    ensures Accounted(ids + [id], deleted + [id], faults, since)
    ensures Accounted(ids + [id], deleted, faults + [DeleteFault(d, id)], since)
  {
    InterleavesMore(ids, deleted, FailedSince(faults, since), id);
    assert (faults + [DeleteFault(d, id)])[..|faults|] == faults;
  }

  /** Deletions of a part of the plan, after deletions within the plan. */
  lemma {:induction false} RemovingMore(was: Past, mid: Past, p: Past, d: nat, ids: seq<string>, i: nat)
    requires i < |ids| && RemovingSince(was, mid, d, Reach(ids)) && RemovingSince(mid, p, d, Reach([ids[i]]))
    ensures RemovingSince(was, p, d, Reach(ids))
    decreases p
  {
    if p != mid {
      RemovingMore(was, mid, p.before, d, ids, i);
      ReachOfPart(ids, i);
      DeleteChangeCompose(was.now.disks[d].dir.entries, mid.now.disks[d].dir.entries, p.now.disks[d].dir.entries,
                          Reach(ids), Reach([ids[i]]), Reach(ids));
    }
  }

  lemma RemovingShrinks(was: Past, p: Past, d: nat, reach: iset<string>)
    requires RemovingSince(was, p, d, reach)
    ensures d < |p.now.disks| == |was.now.disks|
    ensures DeleteChange(was.now.disks[d].dir.entries, p.now.disks[d].dir.entries, reach)
    ensures p.now.disks[d].dir.entries.Keys <= was.now.disks[d].dir.entries.Keys
  {}

  /** One deletion in the middle of a plan whose execution began at `start`, on the entries `e0`. */
  method DeleteNext(h: Host, d: nat, ids: seq<string>, i: nat, ghost start: Past, ghost e0: Entries) returns (ok: bool)
    requires h.Resting() && d < |h.dests| && i < |ids| && RemovingSince(start, h.past, d, Reach(ids))
    requires AllDirs(e0) ==> AllDirs(h.dests[d].entries)
    modifies h`dests, h`past, h`faults, h`hitches
    ensures h.Resting() && |h.dests| == |old(h.dests)|
    ensures h.faults == if ok then old(h.faults) else old(h.faults) + [DeleteFault(d, ids[i])]
    ensures RemovingSince(start, h.past, d, Reach(ids))
    ensures h.dests[d].entries.Keys <= old(h.dests)[d].entries.Keys && (AllDirs(e0) ==> AllDirs(h.dests[d].entries))
    ensures ok ==> h.dests[d].entries == Survivors(old(h.dests)[d].entries, [ids[i]])
    ensures old(h.hitches) <= h.hitches
    ensures !ok ==> h.hitches > old(h.hitches) || !AllDirs(e0) || ".." in ids
  {
    ghost var mid := h.past;
    ok := h.Delete(d, ids[i]);
    RemovingMore(start, mid, h.past, d, ids, i);
    RemovingShrinks(mid, h.past, d, Reach([ids[i]]));
  }

  /** What is known after the deletions `done` of a plan, whatever failed. */
  ghost predicate DeleteProgress(e0: Entries, e: Entries, done: seq<string>, deleted: seq<string>, hadError: bool,
                                 faults: seq<Fault>, since: nat, d: nat)
  {
    && Accounted(done, deleted, faults, since) && Gone(e, deleted)
    && (forall k :: since <= k < |faults| ==> PurgeFaultAt(faults[k], d))
    && (hadError <==> |faults| > since)
    && (!hadError ==> deleted == done && e == Survivors(e0, done))
  }

  lemma DeleteProgressNext(e0: Entries, was: Entries, e: Entries, done: seq<string>, id: string, deleted: seq<string>,
                           hadError: bool, faults: seq<Fault>, since: nat, d: nat, ok: bool)
    requires DeleteProgress(e0, was, done, deleted, hadError, faults, since, d)
    requires e.Keys <= was.Keys && (ok ==> e == Survivors(was, [id]))
    ensures ok ==> DeleteProgress(e0, e, done + [id], deleted + [id], hadError, faults, since, d)
    ensures !ok ==> DeleteProgress(e0, e, done + [id], deleted, true, faults + [DeleteFault(d, id)], since, d)
  {
    OneMoreAccounted(done, id, deleted, faults, since, d);
    SurvivorsOfMore(e0, done, id);
    if ok { OneMoreGone(was, e, deleted, id); }
  }

  /** Carries out the deletions of a plan, going on after each failure. */
  method DeletePlanned(h: Host, d: nat, ids: seq<string>) returns (deleted: seq<string>, hadError: bool)
    requires h.Resting() && d < |h.dests|
    modifies h`dests, h`past, h`faults, h`hitches
    ensures h.Resting() && |h.dests| == |old(h.dests)| && Grown(old(h.faults), h.faults)
    ensures RemovingSince(old(h.past), h.past, d, Reach(ids))
    ensures forall k :: |old(h.faults)| <= k < |h.faults| ==> PurgeFaultAt(h.faults[k], d)
    ensures hadError <==> h.faults != old(h.faults)
    ensures IsSubsequence(deleted, ids)
    ensures !hadError ==> deleted == ids && h.dests[d].entries == Survivors(old(h.dests)[d].entries, ids)
    ensures Accounted(ids, deleted, h.faults, |old(h.faults)|)
    ensures Gone(h.dests[d].entries, deleted)
    ensures old(h.hitches) <= h.hitches
    ensures hadError ==> h.hitches > old(h.hitches) || !AllDirs(old(h.dests)[d].entries) || ".." in ids
  {
    ghost var e0, since, start := h.dests[d].entries, |h.faults|, h.past;
    ghost var done: seq<string> := [];
    deleted := [];
    hadError := false;
    for i := 0 to |ids|
      invariant done == ids[..i]
      invariant h.Resting() && |h.dests| == |old(h.dests)| && Grown(old(h.faults), h.faults)
      invariant RemovingSince(start, h.past, d, Reach(ids)) && (AllDirs(e0) ==> AllDirs(h.dests[d].entries))
      invariant DeleteProgress(e0, h.dests[d].entries, done, deleted, hadError, h.faults, since, d)
      invariant old(h.hitches) <= h.hitches
      invariant hadError ==> h.hitches > old(h.hitches) || !AllDirs(e0) || ".." in ids
    {
      ghost var was, wasFaults := h.dests[d].entries, h.faults;
      var ok := DeleteNext(h, d, ids, i, start, e0);
      DeleteProgressNext(e0, was, h.dests[d].entries, done, ids[i], deleted, hadError, wasFaults, since, d, ok);
      done := done + [ids[i]];
      if ok {
        deleted := deleted + [ids[i]];
      } else {
        hadError := true;
      }
    }
    assert done == ids;
    InterleavedIsSubsequence(ids, deleted, FailedSince(h.faults, since));
  }

  /**
   The result for one destination: its listing failed, or it followed the plan for the entries `e0` listed in
   this order, and what it reports deleted is gone.
   */
  ghost predicate Reports(r: PurgeResult, order: seq<string>, cfg: DestConfig, e0: Entries, e: Entries, terms: Terms,
                          dryRun: bool)
  {
    && r.name == cfg.name
    && (!r.listed ==> r.deleted == [] && e == e0)
    && (r.listed ==>
          && Enumerates(order, e0.Keys)
          && var plan := PlanFor(order, e0, cfg.keep, terms);
          && r.kept == plan.keep && IsSubsequence(r.deleted, plan.delete) && (dryRun ==> r.deleted == plan.delete))
    && (if dryRun then e == e0 else Gone(e, r.deleted))
  }

  /**
   What became of the entry `n` of a destination that went from `e0` to `e`: an entry that no planned id covers
   stays as it is, a doomed one may only lose files or vanish, and is gone if all went well.
   */
  ghost predicate Fate(e0: Entries, e: Entries, keep: nat, terms: Terms, clean: bool, n: string) {
    && (n in e ==>
          && n in e0 && (e[n].Dir? <==> e0[n].Dir?)
          && (e[n].Dir? ==> forall p :: p in e[n].files ==> p in e0[n].files && e[n].files[p] == e0[n].files[p]))
    && (n in e0 && !UnderPlanned(e0, keep, terms, n) ==> n in e && e[n] == e0[n])
    && (clean && UnderPlanned(e0, keep, terms, n) ==> n !in e)
  }

  /**
   A purge that followed its plan and spared the newest `keep` generations; if all went well, exactly those are
   complete.
   */
  ghost predicate PurgedAs(e0: Entries, e: Entries, cfg: DestConfig, terms: Terms, clean: bool) {
    && Trimmed(e0, e, cfg.keep)
    && (forall n :: Fate(e0, e, cfg.keep, terms, clean, n))
    && (clean ==> CompleteNames(e) == Newest(CompleteNames(e0), cfg.keep))
  }

  /**
   The partial directories that nothing else goes by the name of: one in progress or touched within the grace period, in
   hours of 3600 seconds, stays as it is; if all went well the others are gone.
   */
  ghost predicate GraceKept(e0: Entries, e: Entries, graceHours: int, now: int, inProgress: Option<string>, clean: bool)
  {
    forall x: string :: LonePartial(e0, x) ==>
      var n := x + ".partial";
      if inProgress == Some(x) || now - e0[n].mtime < graceHours * 3_600_000_000 then n in e && e[n] == e0[n]
      else clean ==> n !in e
  }

  ghost predicate LonePartial(e: Entries, x: string) {
    var n := x + ".partial";
    n in e && e[n].Dir? && x !in e && n + ".partial" !in e
  }

  lemma PurgedKeepsGrace(e0: Entries, e: Entries, cfg: DestConfig, terms: Terms, clean: bool)
    requires PurgedAs(e0, e, cfg, terms, clean) && NoDotPartial(e0) && WellNamed(e0)
    ensures GraceKept(e0, e, terms.graceHours, terms.now, terms.inProgress, clean)
  {
    forall x: string | LonePartial(e0, x)
      ensures var n := x + ".partial";
              if terms.inProgress == Some(x) || terms.now - e0[n].mtime < terms.graceHours * 3_600_000_000
              then n in e && e[n] == e0[n] else clean ==> n !in e
    {
      LonePartialIsPlanned(e0, cfg.keep, terms, x);
      assert Fate(e0, e, cfg.keep, terms, clean, x + PARTIAL);
    }
  }

  lemma LonePartialIsPlanned(e: Entries, keep: nat, terms: Terms, x: string)
    requires LonePartial(e, x) && NoDotPartial(e) && WellNamed(e)
    ensures var n := x + PARTIAL;
            UnderPlanned(e, keep, terms, n)
            <==> terms.inProgress != Some(x) && terms.now - e[n].mtime >= terms.graceHours * 3_600_000_000
  {
    var n := x + PARTIAL;
    SuffixRoundTrip(x);
    assert Row(n, e[n]) == StoredBackup(x, false, e[n].mtime);
    assert Expired(e, n, terms) <==> !Spared(Row(n, e[n]), terms);
    if Expired(e, n, terms) {
      assert Planned(e, keep, terms, x) && Covers(x, n);
    }
    if id :| Planned(e, keep, terms, id) && Covers(id, n) { OnlyItsOwn(e, keep, terms, x, id); }
  }

  /** What is planned and reaches a lone partial directory is planned because of it. */
  lemma OnlyItsOwn(e: Entries, keep: nat, terms: Terms, x: string, id: string)
    requires LonePartial(e, x) && NoDotPartial(e) && WellNamed(e)
    requires Planned(e, keep, terms, id) && Covers(id, x + PARTIAL)
    ensures Expired(e, x + PARTIAL, terms)
  {
    SuffixRoundTrip(x);
    SuffixRoundTrip(id);
    if id !in CompleteNames(e) {
      var m :| Expired(e, m, terms) && Row(m, e[m]).id == id;
      if Suffixed(m) { StripRoundTrip(m); }
    }
    assert id + PARTIAL == x + PARTIAL ==> id == x;
  }

  lemma PurgedLessSurely(e0: Entries, e: Entries, cfg: DestConfig, terms: Terms, clean: bool, clean': bool)
    requires PurgedAs(e0, e, cfg, terms, clean) && (clean' ==> clean)
    ensures PurgedAs(e0, e, cfg, terms, clean')
  {
    forall n ensures Fate(e0, e, cfg.keep, terms, clean', n) {
      assert Fate(e0, e, cfg.keep, terms, clean, n);
    }
  }

  /** What carrying out deletions comes to, in part or in whole: the destination is trimmed and purged as planned. */
  ghost predicate SafePlan(ids: seq<string>, e0: Entries, cfg: DestConfig, terms: Terms) {
    && ".." !in ids
    && (forall e {:trigger Trimmed(e0, e, cfg.keep)} :: DeleteChange(e0, e, Reach(ids)) ==> Trimmed(e0, e, cfg.keep))
    && (forall e, clean {:trigger PurgedAs(e0, e, cfg, terms, clean)} ::
          DeleteChange(e0, e, Reach(ids)) && (clean ==> e == Survivors(e0, ids)) ==> PurgedAs(e0, e, cfg, terms, clean))
  }

  lemma PlanEffects(order: seq<string>, e0: Entries, e: Entries, cfg: DestConfig, terms: Terms, plan: PurgePlan,
                    clean: bool)
    requires Enumerates(order, e0.Keys) && plan == PlanFor(order, e0, cfg.keep, terms) && SparesKept(e0, cfg.keep, plan)
    requires DeleteChange(e0, e, Reach(plan.delete)) && (clean ==> e == Survivors(e0, plan.delete))
    ensures PurgedAs(e0, e, cfg, terms, clean)
  {
    AfterPurge(order, e0, cfg.keep, terms);
    DeleteChangeTrims(e0, e, cfg.keep, plan);
    forall n ensures Fate(e0, e, cfg.keep, terms, clean, n) {
      ReachOfPlan(order, e0, cfg.keep, terms, n);
      if n in e && e[n].Dir? { assert HasDir(e, n); }
    }
  }

  lemma NeverGoesUp(order: seq<string>, dest: Dest, keep: nat, terms: Terms)
    requires Sound(dest) && Enumerates(order, dest.entries.Keys)
    ensures ".." !in PlanFor(order, dest.entries, keep, terms).delete
  {
    DeletedIds(order, dest.entries, keep, terms, "..");
    assert Degenerate("..") && ".." + PARTIAL !in dest.entries;
    if n :| Expired(dest.entries, n, terms) && Row(n, dest.entries[n]).id == ".." {
      if Suffixed(n) { StripRoundTrip(n); }
    }
  }

  lemma PlansAreSafe(order: seq<string>, dest: Dest, cfg: DestConfig, terms: Terms)
    requires Sound(dest) && Enumerates(order, dest.entries.Keys)
    ensures SafePlan(PlanFor(order, dest.entries, cfg.keep, terms).delete, dest.entries, cfg, terms)
  {
    var e0, plan := dest.entries, PlanFor(order, dest.entries, cfg.keep, terms);
    PlanIsSafe(order, e0, cfg.keep, terms);
    NeverGoesUp(order, dest, cfg.keep, terms);
    forall e | DeleteChange(e0, e, Reach(plan.delete)) ensures Trimmed(e0, e, cfg.keep) {
      DeleteChangeTrims(e0, e, cfg.keep, plan);
    }
    forall e, clean | DeleteChange(e0, e, Reach(plan.delete)) && (clean ==> e == Survivors(e0, plan.delete))
      ensures PurgedAs(e0, e, cfg, terms, clean)
    {
      PlanEffects(order, e0, e, cfg, terms, plan, clean);
    }
  }

  /** From `was` on, destination `d` is only trimmed. */
  ghost predicate TrimmingSince(was: Past, p: Past, d: nat, keep: nat)
    decreases p
  {
    && Trimming(was.now, p.now, d, keep)
    && (p != was ==> p.Then? && TrimmingSince(was, p.before, d, keep))
  }

  lemma {:induction false} RemovingTrims(was: Past, p: Past, d: nat, ids: seq<string>, e0: Entries, cfg: DestConfig,
                                         terms: Terms)
    requires RemovingSince(was, p, d, Reach(ids)) && SafePlan(ids, e0, cfg, terms)
    requires d < |was.now.disks| && was.now.disks[d].dir.entries == e0
    ensures TrimmingSince(was, p, d, cfg.keep)
    decreases p
  {
    assert Trimmed(e0, p.now.disks[d].dir.entries, cfg.keep);
    if p != was { RemovingTrims(was, p.before, d, ids, e0, cfg, terms); }
  }

  lemma IdleTrims(p: Past, d: nat, keep: nat)
    requires d < |p.now.disks|
    ensures TrimmingSince(p, p, d, keep)
  {}

  /** The second half of purging a destination: the deletions of the plan, or the dry run. */
  method CarryOut(h: Host, cfg: DestConfig, d: nat, terms: Terms, dryRun: bool, ids: seq<string>)
    returns (deleted: seq<string>, hadError: bool)
    requires h.Resting() && d < |h.dests| && SafePlan(ids, h.dests[d].entries, cfg, terms)
    modifies h`dests, h`past, h`faults, h`hitches
    ensures h.Resting() && |h.dests| == |old(h.dests)| && Grown(old(h.faults), h.faults)
    ensures forall k :: |old(h.faults)| <= k < |h.faults| ==> PurgeFaultAt(h.faults[k], d)
    ensures hadError <==> h.faults != old(h.faults)
    ensures old(h.hitches) <= h.hitches
    ensures hadError ==> h.hitches > old(h.hitches) || !AllDirs(old(h.dests)[d].entries)
    ensures IsSubsequence(deleted, ids) && (!hadError ==> deleted == ids)
    ensures TrimmingSince(old(h.past), h.past, d, cfg.keep)
    ensures dryRun ==> h.past == old(h.past) && h.dests == old(h.dests) && !hadError
    ensures !dryRun ==>
      && Accounted(ids, deleted, h.faults, |old(h.faults)|)
      && Gone(h.dests[d].entries, deleted)
      && PurgedAs(old(h.dests)[d].entries, h.dests[d].entries, cfg, terms, !hadError)
  {
    if dryRun {
      IdleTrims(h.past, d, cfg.keep);
      WholeIsSubsequence(ids);
      return ids, false;
    }
    ghost var e0, start := h.dests[d].entries, h.past;
    deleted, hadError := DeletePlanned(h, d, ids);
    RemovingTrims(start, h.past, d, ids, e0, cfg, terms);
    RemovingShrinks(start, h.past, d, Reach(ids));
  }

  method PurgeOneDestination(h: Host, cfg: DestConfig, d: nat, terms: Terms, dryRun: bool)
    returns (result: PurgeResult, hadError: bool, ghost order: seq<string>)
    requires h.Resting() && d < |h.dests|
    modifies h`dests, h`past, h`faults, h`hitches
    ensures h.Resting() && |h.dests| == |old(h.dests)| && Grown(old(h.faults), h.faults)
    ensures forall k :: |old(h.faults)| <= k < |h.faults| ==> PurgeFaultAt(h.faults[k], d)
    ensures hadError <==> h.faults != old(h.faults)
    ensures old(h.hitches) <= h.hitches
    ensures hadError ==> h.hitches > old(h.hitches) || !Purgeable(old(h.dests)[d])
    ensures Reports(result, order, cfg, old(h.dests)[d].entries, h.dests[d].entries, terms, dryRun)
    ensures !old(h.dests)[d].present ==> !result.listed
    ensures !result.listed ==> hadError && h.past == old(h.past)
    ensures result.listed ==>
      var plan := PlanFor(order, old(h.dests)[d].entries, cfg.keep, terms);
      && (!dryRun ==> Accounted(plan.delete, result.deleted, h.faults, |old(h.faults)|))
      && (!hadError ==> result.deleted == plan.delete)
    ensures dryRun ==> h.past == old(h.past) && (result.listed ==> !hadError)
    ensures TrimmingSince(old(h.past), h.past, d, cfg.keep)
    ensures !dryRun ==> PurgedAs(old(h.dests)[d].entries, h.dests[d].entries, cfg, terms, !hadError)
  {
    var listing;
    listing, order := h.ListBackups(d);
    if listing.None? {
      IdleTrims(h.past, d, cfg.keep);
      NothingPurged(h.dests[d].entries, cfg, terms);
      return PurgeResult(cfg.name, [], [], false), true, order;
    }
    var plan := SelectPurge(listing.value, cfg.keep, terms.graceHours, terms.now, terms.inProgress);
    CrashLeavesSound(h.past, h.past, d);
    PlansAreSafe(order, h.dests[d], cfg, terms);
    var deleted;
    deleted, hadError := CarryOut(h, cfg, d, terms, dryRun, plan.delete);
    result := PurgeResult(cfg.name, deleted, plan.keep, true);
  }

  lemma NothingPurged(e: Entries, cfg: DestConfig, terms: Terms)
    ensures PurgedAs(e, e, cfg, terms, false)
  {}

  lemma {:induction false} WholeIsSubsequence(s: seq<string>)
    ensures IsSubsequence(s, s)
  {
    if s != [] { WholeIsSubsequence(s[..|s| - 1]); }
  }

  /** Purging meets no error here unless some file-system call fails. */
  predicate Purgeable(dest: Dest) { dest.present && AllDirs(dest.entries) }

  // ----- Several destinations

  ghost predicate UniqueNames(cfgs: seq<DestConfig>) {
    forall i, j :: 0 <= i < j < |cfgs| ==> cfgs[i].name != cfgs[j].name
  }

  /** Since `w0`, purging has trimmed the destinations in `chosen` and nothing else. */
  ghost predicate AllTrimmed(w0: World, w: World, cfgs: seq<DestConfig>, chosen: set<nat>) {
    && w.work == w0.work && |w.disks| == |w0.disks| == |cfgs|
    && forall d :: 0 <= d < |cfgs| ==>
         if d in chosen then Trimmed(w0.disks[d].dir.entries, w.disks[d].dir.entries, cfgs[d].keep)
         else w.disks[d] == w0.disks[d]
  }

  lemma AllTrimmedCompose(w0: World, w1: World, w: World, cfgs: seq<DestConfig>, chosen: set<nat>, d: nat)
    requires AllTrimmed(w0, w1, cfgs, chosen) && d < |cfgs| && d in chosen && Trimming(w1, w, d, cfgs[d].keep)
    ensures AllTrimmed(w0, w, cfgs, chosen)
  {
    TrimmedCompose(w0.disks[d].dir.entries, w1.disks[d].dir.entries, w.disks[d].dir.entries, cfgs[d].keep);
  }

  ghost predicate CleanPurge(faults: seq<Fault>, since: nat, d: nat) {
    forall k :: since <= k < |faults| ==> !PurgeFaultAt(faults[k], d)
  }

  /** The destinations a purge visits. */
  ghost function Chosen(cfgs: seq<DestConfig>, names: Option<set<string>>): set<nat> {
    set d: nat | d < |cfgs| && (names.None? || cfgs[d].name in names.value)
  }

  ghost function Below(chosen: set<nat>, i: nat): set<nat> { set d | d in chosen && d < i }

  lemma BelowNext(chosen: set<nat>, i: nat)
    ensures Below(chosen, i + 1) == if i in chosen then Below(chosen, i) + {i} else Below(chosen, i)
  {}

  lemma BelowAll(chosen: set<nat>, n: nat)
    requires forall d :: d in chosen ==> d < n
    ensures Below(chosen, n) == chosen
  {}

  /** Every chosen destination followed its plan; those whose purge met no fault hold exactly the newest `keep`. */
  ghost predicate AllPurged(before: seq<Dest>, after: seq<Dest>, cfgs: seq<DestConfig>, chosen: set<nat>,
                            faults: seq<Fault>, since: nat, terms: Terms)
  {
    && |before| == |after| == |cfgs|
    && forall d :: d in chosen && d < |cfgs| ==>
         PurgedAs(before[d].entries, after[d].entries, cfgs[d], terms, CleanPurge(faults, since, d))
  }

  /** Destination `i` was purged, and faults were logged for it unless all went well. */
  ghost predicate PurgedOne(was: seq<Dest>, now: seq<Dest>, cfgs: seq<DestConfig>, i: nat, wasFaults: seq<Fault>,
                            faults: seq<Fault>, terms: Terms)
  {
    && |was| == |cfgs| && OnlyDest(was, now, i) && Grown(wasFaults, faults)
    && PurgedAs(was[i].entries, now[i].entries, cfgs[i], terms, faults == wasFaults)
    && (faults != wasFaults ==> PurgeFaultAt(faults[|wasFaults|], i))
  }

  lemma OneMorePurged(before: seq<Dest>, was: seq<Dest>, now: seq<Dest>, cfgs: seq<DestConfig>, chosen: set<nat>,
                      i: nat, wasFaults: seq<Fault>, faults: seq<Fault>, since: nat, terms: Terms)
    requires AllPurged(before, was, cfgs, chosen, wasFaults, since, terms)
    requires PurgedOne(was, now, cfgs, i, wasFaults, faults, terms)
    requires i !in chosen && was[i] == before[i] && since <= |wasFaults|
    ensures AllPurged(before, now, cfgs, chosen + {i}, faults, since, terms)
  {
    forall d | d in chosen && d < |cfgs| && CleanPurge(faults, since, d) ensures CleanPurge(wasFaults, since, d) {
      forall k | since <= k < |wasFaults| ensures !PurgeFaultAt(wasFaults[k], d) {
        assert wasFaults[k] == faults[k];
      }
    }
    forall d | d in chosen && d < |cfgs|
      ensures PurgedAs(before[d].entries, now[d].entries, cfgs[d], terms, CleanPurge(faults, since, d))
    {
      PurgedLessSurely(before[d].entries, was[d].entries, cfgs[d], terms, CleanPurge(wasFaults, since, d),
                       CleanPurge(faults, since, d));
    }
    PurgedLessSurely(was[i].entries, now[i].entries, cfgs[i], terms, faults == wasFaults, CleanPurge(faults, since, i));
  }

  ghost predicate AllPurgeable(dests: seq<Dest>, chosen: set<nat>) {
    forall d :: d in chosen && d < |dests| ==> Purgeable(dests[d])
  }

  /** From `was` on, only the chosen destinations are trimmed. */
  ghost predicate AllTrimmedSince(was: Past, p: Past, cfgs: seq<DestConfig>, chosen: set<nat>)
    decreases p
  {
    && AllTrimmed(was.now, p.now, cfgs, chosen)
    && (p != was ==> p.Then? && AllTrimmedSince(was, p.before, cfgs, chosen))
  }

  /** Trimming one chosen destination, after trimming chosen ones. */
  lemma {:induction false} TrimmingMore(was: Past, mid: Past, p: Past, cfgs: seq<DestConfig>, chosen: set<nat>, d: nat)
    requires d < |cfgs| && d in chosen
    requires AllTrimmedSince(was, mid, cfgs, chosen) && TrimmingSince(mid, p, d, cfgs[d].keep)
    ensures AllTrimmedSince(was, p, cfgs, chosen)
    decreases p
  {
    if p != mid {
      TrimmingMore(was, mid, p.before, cfgs, chosen, d);
      AllTrimmedCompose(was.now, mid.now, p.now, cfgs, chosen, d);
    }
  }

  lemma OthersUntouched(was: Past, p: Past, d: nat, keep: nat, before: seq<Dest>, after: seq<Dest>)
    requires TrimmingSince(was, p, d, keep) && Shows(was.now, before) && Shows(p.now, after)
    ensures OnlyDest(before, after, d)
  {}

  /** Purging one more destination, in the middle of a purge that began at `start`. */
  method PurgeNext(h: Host, cfgs: seq<DestConfig>, i: nat, terms: Terms, dryRun: bool, ghost chosen: set<nat>,
                   ghost start: Past)
    returns (result: PurgeResult, error: bool, ghost order: seq<string>)
    requires h.Resting() && |cfgs| == |h.dests| && i < |cfgs| && i in chosen
    requires AllTrimmedSince(start, h.past, cfgs, chosen)
    modifies h`dests, h`past, h`faults, h`hitches
    ensures h.Resting() && |h.dests| == |cfgs| && Grown(old(h.faults), h.faults)
    ensures error <==> h.faults != old(h.faults)
    ensures forall k :: |old(h.faults)| <= k < |h.faults| ==> PurgeFaultAt(h.faults[k], i)
    ensures dryRun ==> h.past == old(h.past)
    ensures AllTrimmedSince(start, h.past, cfgs, chosen)
    ensures OnlyDest(old(h.dests), h.dests, i)
    ensures !dryRun ==> PurgedOne(old(h.dests), h.dests, cfgs, i, old(h.faults), h.faults, terms)
    ensures Reports(result, order, cfgs[i], old(h.dests)[i].entries, h.dests[i].entries, terms, dryRun)
    ensures old(h.hitches) <= h.hitches && (error ==> h.hitches > old(h.hitches) || !Purgeable(old(h.dests)[i]))
  {
    ghost var mid, before := h.past, h.dests;
    result, error, order := PurgeOneDestination(h, cfgs[i], i, terms, dryRun);
    TrimmingMore(start, mid, h.past, cfgs, chosen, i);
    OthersUntouched(mid, h.past, i, cfgs[i].keep, before, h.dests);
  }

  /** The chosen destinations among the first `i`, in configuration order. */
  ghost function Visited(cfgs: seq<DestConfig>, names: Option<set<string>>, i: nat): (v: seq<nat>)
    requires i <= |cfgs|
    ensures forall k :: 0 <= k < |v| ==> v[k] < i
  {
    if i == 0 then []
    else
      var v := Visited(cfgs, names, i - 1);
      if i - 1 in Chosen(cfgs, names) then v + [i - 1] else v
  }

  /** The names of the destinations that were asked for, in configuration order; all of them if none were. */
  ghost function AskedFor(cfgs: seq<DestConfig>, names: Option<set<string>>): seq<string> {
    if cfgs == [] then []
    else
      var name := cfgs[|cfgs| - 1].name;
      AskedFor(cfgs[..|cfgs| - 1], names) + (if names.Some? && name !in names.value then [] else [name])
  }

  lemma {:induction false} VisitedAreAskedFor(cfgs: seq<DestConfig>, names: Option<set<string>>, i: nat)
    requires i <= |cfgs|
    ensures |Visited(cfgs, names, i)| == |AskedFor(cfgs[..i], names)|
    ensures forall k :: 0 <= k < |Visited(cfgs, names, i)| ==>
      cfgs[Visited(cfgs, names, i)[k]].name == AskedFor(cfgs[..i], names)[k]
  {
    if i > 0 {
      VisitedAreAskedFor(cfgs, names, i - 1);
      assert cfgs[..i][..i - 1] == cfgs[..i - 1];
    }
  }

  /** What has been reported so far: one result per visited destination, with the order of its listing. */
  datatype Report = Report(results: seq<PurgeResult>, orders: seq<seq<string>>)

  ghost predicate AllReports(r: Report, v: seq<nat>, cfgs: seq<DestConfig>, before: seq<Dest>, after: seq<Dest>,
                             terms: Terms, dryRun: bool)
  {
    && |r.results| == |r.orders| == |v| && |before| == |after| == |cfgs|
    && (forall k :: 0 <= k < |v| ==> v[k] < |cfgs|)
    && forall k :: 0 <= k < |v| ==>
         Reports(r.results[k], r.orders[k], cfgs[v[k]], before[v[k]].entries, after[v[k]].entries, terms, dryRun)
  }

  function WithResult(r: Report, result: PurgeResult, order: seq<string>): Report {
    Report(r.results + [result], r.orders + [order])
  }

  lemma OneMoreReport(r: Report, result: PurgeResult, order: seq<string>, v: seq<nat>, i: nat, cfgs: seq<DestConfig>,
                      before: seq<Dest>, was: seq<Dest>, after: seq<Dest>, terms: Terms, dryRun: bool)
    requires AllReports(r, v, cfgs, before, was, terms, dryRun) && OnlyDest(was, after, i)
    requires i < |cfgs| && (forall k :: 0 <= k < |v| ==> v[k] < i)
    requires Reports(result, order, cfgs[i], before[i].entries, after[i].entries, terms, dryRun)
    ensures AllReports(WithResult(r, result, order), v + [i], cfgs, before, after, terms, dryRun)
  {
    forall k | 0 <= k < |v|
      ensures Reports(r.results[k], r.orders[k], cfgs[v[k]], before[v[k]].entries, after[v[k]].entries, terms, dryRun)
    {
      assert after[v[k]] == was[v[k]];
    }
  }

  /** What is known once the first `i` destinations have been considered. */
  ghost predicate PurgeProgress(before: seq<Dest>, dests: seq<Dest>, cfgs: seq<DestConfig>, names: Option<set<string>>,
                                i: nat, faults: seq<Fault>, since: nat, r: Report, terms: Terms, dryRun: bool)
  {
    && |before| == |dests| == |cfgs| && i <= |cfgs|
    && (forall d :: i <= d < |cfgs| ==> dests[d] == before[d])
    && (!dryRun ==> AllPurged(before, dests, cfgs, Below(Chosen(cfgs, names), i), faults, since, terms))
    && AllReports(r, Visited(cfgs, names, i), cfgs, before, dests, terms, dryRun)
  }

  lemma OneMoreVisited(before: seq<Dest>, was: seq<Dest>, dests: seq<Dest>, cfgs: seq<DestConfig>,
                       names: Option<set<string>>, i: nat, wasFaults: seq<Fault>, faults: seq<Fault>, since: nat,
                       r: Report, result: PurgeResult, order: seq<string>, terms: Terms, dryRun: bool)
    requires i in Chosen(cfgs, names) && OnlyDest(was, dests, i) && since <= |wasFaults|
    requires PurgeProgress(before, was, cfgs, names, i, wasFaults, since, r, terms, dryRun)
    requires !dryRun ==> PurgedOne(was, dests, cfgs, i, wasFaults, faults, terms)
    requires Reports(result, order, cfgs[i], was[i].entries, dests[i].entries, terms, dryRun)
    ensures PurgeProgress(before, dests, cfgs, names, i + 1, faults, since, WithResult(r, result, order), terms, dryRun)
  {
    BelowNext(Chosen(cfgs, names), i);
    if !dryRun {
      OneMorePurged(before, was, dests, cfgs, Below(Chosen(cfgs, names), i), i, wasFaults, faults, since, terms);
    }
    OneMoreReport(r, result, order, Visited(cfgs, names, i), i, cfgs, before, was, dests, terms, dryRun);
  }

  lemma OneMoreSkipped(before: seq<Dest>, dests: seq<Dest>, cfgs: seq<DestConfig>, names: Option<set<string>>, i: nat,
                       faults: seq<Fault>, since: nat, r: Report, terms: Terms, dryRun: bool)
    requires i < |cfgs| && i !in Chosen(cfgs, names)
    requires PurgeProgress(before, dests, cfgs, names, i, faults, since, r, terms, dryRun)
    ensures PurgeProgress(before, dests, cfgs, names, i + 1, faults, since, r, terms, dryRun)
  {
    BelowNext(Chosen(cfgs, names), i);
  }

  /** Considers destination `i`, in the middle of a purge that began at `start`. */
  method PurgeIfChosen(h: Host, cfgs: seq<DestConfig>, names: Option<set<string>>, i: nat, terms: Terms, dryRun: bool,
                       results: seq<PurgeResult>, ghost orders: seq<seq<string>>, ghost start: Past,
                       ghost before: seq<Dest>, ghost since: nat)
    returns (results': seq<PurgeResult>, error: bool, ghost orders': seq<seq<string>>)
    requires h.Resting() && |cfgs| == |h.dests| && i < |cfgs| && since <= |h.faults|
    requires AllTrimmedSince(start, h.past, cfgs, Chosen(cfgs, names))
    requires PurgeProgress(before, h.dests, cfgs, names, i, h.faults, since, Report(results, orders), terms, dryRun)
    modifies h`dests, h`past, h`faults, h`hitches
    ensures h.Resting() && |h.dests| == |cfgs| && Grown(old(h.faults), h.faults)
    ensures error <==> h.faults != old(h.faults)
    ensures dryRun ==> h.past == old(h.past)
    ensures AllTrimmedSince(start, h.past, cfgs, Chosen(cfgs, names))
    ensures PurgeProgress(before, h.dests, cfgs, names, i + 1, h.faults, since, Report(results', orders'), terms,
                          dryRun)
    ensures old(h.hitches) <= h.hitches
    ensures error ==> h.hitches > old(h.hitches) || !AllPurgeable(before, Chosen(cfgs, names))
  {
    if names.None? || cfgs[i].name in names.value {
      ghost var was, wasFaults := h.dests, h.faults;
      var result;
      ghost var order;
      result, error, order := PurgeNext(h, cfgs, i, terms, dryRun, Chosen(cfgs, names), start);
      OneMoreVisited(before, was, h.dests, cfgs, names, i, wasFaults, h.faults, since, Report(results, orders),
                     result, order, terms, dryRun);
      results', orders' := results + [result], orders + [order];
    } else {
      OneMoreSkipped(before, h.dests, cfgs, names, i, h.faults, since, Report(results, orders), terms, dryRun);
      results', orders', error := results, orders, false;
    }
  }

  lemma PurgeResultsAsked(cfgs: seq<DestConfig>, names: Option<set<string>>, r: Report, before: seq<Dest>,
                          after: seq<Dest>, terms: Terms, dryRun: bool)
    requires AllReports(r, Visited(cfgs, names, |cfgs|), cfgs, before, after, terms, dryRun)
    ensures |r.results| == |AskedFor(cfgs, names)|
    ensures forall k :: 0 <= k < |r.results| ==> r.results[k].name == AskedFor(cfgs, names)[k]
  {
    VisitedAreAskedFor(cfgs, names, |cfgs|);
    assert cfgs[..|cfgs|] == cfgs;
  }

  lemma AllKeepGrace(start: Past, before: seq<Dest>, after: seq<Dest>, cfgs: seq<DestConfig>,
                     names: Option<set<string>>, faults: seq<Fault>, since: nat, terms: Terms)
    requires Linked(start) && Shows(start.now, before) && since <= |faults|
    requires AllPurged(before, after, cfgs, Chosen(cfgs, names), faults, since, terms)
    ensures forall d: nat :: d < |after| && (names.Some? ==> cfgs[d].name in names.value) ==>
      GraceKept(before[d].entries, after[d].entries, terms.graceHours, terms.now, terms.inProgress, |faults| == since)
  {
    forall d: nat | d < |after| && (names.Some? ==> cfgs[d].name in names.value)
      ensures GraceKept(before[d].entries, after[d].entries, terms.graceHours, terms.now, terms.inProgress,
                        |faults| == since)
    {
      CrashLeavesSound(start, start, d);
      assert |faults| == since ==> CleanPurge(faults, since, d);
      PurgedLessSurely(before[d].entries, after[d].entries, cfgs[d], terms, CleanPurge(faults, since, d),
                       |faults| == since);
      PurgedKeepsGrace(before[d].entries, after[d].entries, cfgs[d], terms, |faults| == since);
    }
  }

  /** `mbkeeper purge`: every chosen destination in turn, whatever fails. */
  method Purge(h: Host, config: Settings, names: Option<set<string>>, dryRun: bool, now: int)
    returns (code: ExitCode, results: seq<PurgeResult>, ghost orders: seq<seq<string>>)
    requires h.Resting() && |config.destinations| == |h.dests|
    modifies h`dests, h`past, h`faults, h`hitches
    ensures h.Resting() && |h.dests| == |old(h.dests)| && Grown(old(h.faults), h.faults)
    ensures code == if h.faults == old(h.faults) then ExitCode.Success else PurgeFailed
    ensures dryRun ==> h.past == old(h.past)
    ensures var cfgs := config.destinations; var chosen := Chosen(cfgs, names);
            var terms := Terms(config.graceHours, now, None);
            && AllTrimmedSince(old(h.past), h.past, cfgs, chosen)
            && (!dryRun ==> AllPurged(old(h.dests), h.dests, cfgs, chosen, h.faults, |old(h.faults)|, terms))
            && AllReports(Report(results, orders), Visited(cfgs, names, |cfgs|), cfgs, old(h.dests), h.dests, terms,
                          dryRun)
            && (h.hitches == old(h.hitches) && AllPurgeable(old(h.dests), chosen) ==> code.Success?)
    ensures |results| == |AskedFor(config.destinations, names)|
    ensures forall k :: 0 <= k < |results| ==> results[k].name == AskedFor(config.destinations, names)[k]
    ensures forall d: nat :: d < |h.dests| && names.Some? && config.destinations[d].name !in names.value ==>
      h.dests[d] == old(h.dests)[d]
    ensures !dryRun ==>
      forall d: nat :: d < |h.dests| && (names.Some? ==> config.destinations[d].name in names.value) ==>
        GraceKept(old(h.dests)[d].entries, h.dests[d].entries, config.graceHours, now, None, code.Success?)
  {
    var cfgs, terms := config.destinations, Terms(config.graceHours, now, None);
    ghost var chosen, before, start, since := Chosen(cfgs, names), h.dests, h.past, |h.faults|;
    results, orders := [], [];
    var hadError := false;
    for i := 0 to |cfgs|
      invariant h.Resting() && |h.dests| == |cfgs| && Grown(old(h.faults), h.faults)
      invariant hadError <==> h.faults != old(h.faults)
      invariant dryRun ==> h.past == old(h.past)
      invariant AllTrimmedSince(start, h.past, cfgs, chosen)
      invariant PurgeProgress(before, h.dests, cfgs, names, i, h.faults, since, Report(results, orders), terms, dryRun)
      invariant old(h.hitches) <= h.hitches
        && (hadError ==> h.hitches > old(h.hitches) || !AllPurgeable(before, chosen))
    {
      var error;
      results, error, orders := PurgeIfChosen(h, cfgs, names, i, terms, dryRun, results, orders, start, before, since);
      hadError := hadError || error;
    }
    BelowAll(chosen, |cfgs|);
    code := if hadError then PurgeFailed else ExitCode.Success;
    PurgeResultsAsked(cfgs, names, Report(results, orders), before, h.dests, terms, dryRun);
    if !dryRun { AllKeepGrace(start, before, h.dests, cfgs, names, h.faults, since, terms); }
  }
}
