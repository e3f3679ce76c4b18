/** Retention plans carried out on a directory: what is spared, what remains, when it stops. */
module Purging {
  import opened Wrappers
  import opened Order
  import opened Retention
  import opened Layout

  function PlanFor(order: seq<string>, e: Entries, keep: nat, terms: Terms): PurgePlan
    requires forall n :: n in order ==> n in e
  {
    Plan(Rows(order, e), keep, terms)
  }

  /** The directory `n` is listed as incomplete and is neither in progress nor in its grace period. */
  ghost predicate Expired(e: Entries, n: string, terms: Terms) {
    n in e && e[n].Dir? && !Complete(e, n) && !Spared(Row(n, e[n]), terms)
  }

  /** What the directory itself calls for: complete ids beyond the newest `keep`, and expired ones. */
  ghost predicate Planned(e: Entries, keep: nat, terms: Terms, id: string) {
    || id in CompleteNames(e) - Newest(CompleteNames(e), keep)
    || exists n :: Expired(e, n, terms) && Row(n, e[n]).id == id
  }

  /** The entry `n` is under the names of one of those ids. */
  ghost predicate UnderPlanned(e: Entries, keep: nat, terms: Terms, n: string) {
    exists id :: Planned(e, keep, terms, id) && Covers(id, n)
  }

  /** Deleted ids, read off the directory: the listing order does not matter. */
  lemma DeletedIds(order: seq<string>, e: Entries, keep: nat, terms: Terms, id: string)
    requires Enumerates(order, e.Keys)
    ensures id in PlanFor(order, e, keep, terms).delete <==> Planned(e, keep, terms, id)
  {
    assert forall n :: n in Members(order) <==> n in e;
    RowsComplete(order, e);
    var rows := Rows(order, e);
    assert CompleteIds(rows) == CompleteNames(e);
    PlanDeletes(rows, keep, terms, id);
    if b :| b in rows && !b.complete && b.id == id && !Spared(b, terms) {
      RowsMember(order, e, b);
      var n :| n in order && e[n].Dir? && Row(n, e[n]) == b;
      assert Expired(e, n, terms);
    }
    if n :| Expired(e, n, terms) && Row(n, e[n]).id == id {
      assert n in Members(order);
      RowsMember(order, e, Row(n, e[n]));
      assert Row(n, e[n]) in rows;
    }
  }

  /** What a plan reaches depends on the directory alone. */
  lemma ReachOfPlan(order: seq<string>, e: Entries, keep: nat, terms: Terms, n: string)
    requires Enumerates(order, e.Keys)
    ensures n in Reach(PlanFor(order, e, keep, terms).delete) <==> UnderPlanned(e, keep, terms, n)
  {
    var ids := PlanFor(order, e, keep, terms).delete;
    if CoveredByAny(ids, n) {
      var id :| id in ids && Covers(id, n);
      DeletedIds(order, e, keep, terms, id);
    }
    if UnderPlanned(e, keep, terms, n) {
      var id :| Planned(e, keep, terms, id) && Covers(id, n);
      DeletedIds(order, e, keep, terms, id);
    }
  }

  /** No id of the plan reaches a complete generation that the plan keeps. */
  ghost predicate SparesKept(e: Entries, keep: nat, plan: PurgePlan) {
    forall n, id :: n in Newest(CompleteNames(e), keep) && id in plan.delete ==> !Covers(id, n)
  }

  /** An expired directory whose deletion would reach a kept complete generation. */
  ghost predicate Hazard(e: Entries, keep: nat, terms: Terms, n: string) {
    && Expired(e, n, terms)
    && Suffixed(n)
    && (|| Strip(n) in Newest(CompleteNames(e), keep)
        || (Degenerate(Strip(n)) && Newest(CompleteNames(e), keep) != {}))
  }

  /** Exactly when carrying out the plan leaves every kept complete generation alone. */
  lemma SparesKeptIff(order: seq<string>, e: Entries, keep: nat, terms: Terms)
    requires Enumerates(order, e.Keys) && WellNamed(e)
    ensures SparesKept(e, keep, PlanFor(order, e, keep, terms))
            <==> !exists n :: Hazard(e, keep, terms, n)
  {
    var plan := PlanFor(order, e, keep, terms);
    var kept := Newest(CompleteNames(e), keep);
    if n :| Hazard(e, keep, terms, n) {
      var id := Strip(n);
      DeletedIds(order, e, keep, terms, id);
      assert id in plan.delete;
      if id in kept { assert Covers(id, id); } else { var m :| m in kept; assert Covers(id, m); }
    }
    if n, id :| n in kept && id in plan.delete && Covers(id, n) {
      DeletedIds(order, e, keep, terms, id);
      if id in CompleteNames(e) - kept {
        SuffixRoundTrip(id);
      } else {
        var m :| Expired(e, m, terms) && Row(m, e[m]).id == id;
        SuffixRoundTrip(id);
        assert Hazard(e, keep, terms, m);
      }
    }
  }

  /** The store's own invariants rule the hazard out. */
  lemma PlanIsSafe(order: seq<string>, e: Entries, keep: nat, terms: Terms)
    requires Enumerates(order, e.Keys) && WellNamed(e) && NoCoexistence(e) && NoDotPartial(e)
    ensures SparesKept(e, keep, PlanFor(order, e, keep, terms))
  {
    SparesKeptIff(order, e, keep, terms);
    if n :| Hazard(e, keep, terms, n) {
      StripRoundTrip(n);
      assert false;
    }
  }

  /** What a hazard costs: its generation, or with a degenerate id everything at the destination. */
  lemma HazardDestroys(order: seq<string>, e: Entries, keep: nat, terms: Terms, n: string)
    requires Enumerates(order, e.Keys) && Hazard(e, keep, terms, n)
    ensures var left := Survivors(e, PlanFor(order, e, keep, terms).delete);
            && Strip(n) !in left
            && (Degenerate(Strip(n)) ==> left == map[])
  {
    DeletedIds(order, e, keep, terms, Strip(n));
    assert Covers(Strip(n), Strip(n));
  }

  /** The hazard is real: a stray `.partial` directory one day old beside the only generation. */
  lemma DotPartialIsHazard()
    ensures var e: Entries := map["full-1" := Dir(map[[META] := "{}"], 0), ".partial" := Dir(map[], 0)];
            && CompleteNames(e) == {"full-1"} && NoCoexistence(e) && WellNamed(e)
            && Hazard(e, 1, Terms(24, 24 * HOUR, None), ".partial") && Degenerate(Strip(".partial"))
  {
    var e: Entries := map["full-1" := Dir(map[[META] := "{}"], 0), ".partial" := Dir(map[], 0)];
    assert !Suffixed("full-1") && Suffixed(".partial") && Strip(".partial") == "";
    assert CompleteNames(e) == {"full-1"};
    NewestHasMaximum({}, "full-1", 1);
    assert {} + {"full-1"} == {"full-1"};
  }

  /** After every planned deletion: the newest `keep` complete generations, and nothing expired. */
  lemma AfterPurge(order: seq<string>, e: Entries, keep: nat, terms: Terms)
    requires Enumerates(order, e.Keys)
    ensures var plan := PlanFor(order, e, keep, terms);
            var left := Survivors(e, plan.delete);
            && CompleteNames(left) <= Newest(CompleteNames(e), keep)
            && (SparesKept(e, keep, plan) ==> CompleteNames(left) == Newest(CompleteNames(e), keep))
            && forall n :: !Expired(left, n, terms)
  {
    var plan := PlanFor(order, e, keep, terms);
    var left := Survivors(e, plan.delete);
    forall n | n in CompleteNames(left) ensures n in Newest(CompleteNames(e), keep) {
      DeletedIds(order, e, keep, terms, n);
      if n in plan.delete { assert Covers(n, n); }
    }
    forall n | Expired(e, n, terms) ensures n !in left {
      var id := Row(n, e[n]).id;
      DeletedIds(order, e, keep, terms, id);
      if Suffixed(n) { StripRoundTrip(n); }
      assert Covers(id, n);
    }
    if SparesKept(e, keep, plan) {
      forall n | n in Newest(CompleteNames(e), keep) ensures n in CompleteNames(left) {
        assert n in left;
      }
    }
  }

  /** Purge converges: planning again after a failure-free purge deletes nothing. */
  lemma PurgeConverges(order: seq<string>, e: Entries, keep: nat, terms: Terms, order': seq<string>)
    requires Enumerates(order, e.Keys)
    requires Enumerates(order', Survivors(e, PlanFor(order, e, keep, terms).delete).Keys)
    ensures var left := Survivors(e, PlanFor(order, e, keep, terms).delete);
            PlanFor(order', left, keep, terms).delete == []
  {
    var left := Survivors(e, PlanFor(order, e, keep, terms).delete);
    var again := PlanFor(order', left, keep, terms).delete;
    AfterPurge(order, e, keep, terms);
    NewestIsStable(CompleteNames(e), CompleteNames(left), keep);
    if again != [] {
      DeletedIds(order', left, keep, terms, again[0]);
      assert false;
    }
  }
}
