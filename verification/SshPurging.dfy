/** Retention over ssh: what a purge deletes when it goes by the remote listing. */
module SshPurging {
  import opened Wrappers
  import opened Order
  import opened Retention
  import opened Layout
  import opened Placement
  import opened Recording
  import opened Paths
  import opened SshOutput
  import opened SshListing
  import opened SshStore

  /** What the remote listing counts as complete: directories with meta.json, renamed or not, that it shows. */
  ghost function ShownMeta(e: Entries): set<string> {
    set n | n in e && HasMeta(e[n]) && Shown(n)
  }

  lemma SshCompleteIds(order: seq<string>, e: Entries, n: string)
    requires Enumerates(order, e.Keys)
    ensures n in CompleteIds(PlainRows(order, e)) <==> n in ShownMeta(e)
  {
    var rows := PlainRows(order, e);
    assert forall m :: m in Members(order) <==> m in e;
    if n in CompleteIds(rows) {
      var i :| 0 <= i < |Completes(rows)| && Ids(Completes(rows))[i] == n;
      CompletesMembers(rows, Completes(rows)[i]);
      PlainRowsMember(order, e, Completes(rows)[i]);
    }
    if n in ShownMeta(e) {
      PlainRowsMember(order, e, SshRow(n, e[n]));
      assert SshRow(n, e[n]) in rows;
      CompletesMembers(rows, SshRow(n, e[n]));
      var i :| 0 <= i < |Completes(rows)| && Completes(rows)[i] == SshRow(n, e[n]);
      assert Ids(Completes(rows))[i] == n;
    }
  }

  /**
   The ids ssh reports as complete are the complete generations exactly when, of the directories with meta.json,
   the unsuffixed ones have names that get through and the suffixed ones do not.
   */
  lemma SshCompleteIff(order: seq<string>, e: Entries)
    requires Enumerates(order, e.Keys) && Unbroken(e)
    ensures SshRows(order, e).Some?
    ensures CompleteIds(SshRows(order, e).value) == CompleteNames(e)
            <==> forall n :: n in e && HasMeta(e[n]) ==> (Suffixed(n) <==> !Shown(n))
  {
    SshRowsArePlain(order, e);
    forall n ensures n in CompleteIds(PlainRows(order, e)) <==> n in ShownMeta(e) { SshCompleteIds(order, e, n); }
    assert CompleteIds(PlainRows(order, e)) == ShownMeta(e);
    if ShownMeta(e) == CompleteNames(e) {
      forall n | n in e && HasMeta(e[n]) ensures Suffixed(n) <==> !Shown(n) {
        assert n in ShownMeta(e) <==> n in CompleteNames(e);
      }
    }
  }

  lemma {:induction false} SshCompletesDistinct(order: seq<string>, e: Entries)
    requires Distinct(order) && forall n :: n in order ==> n in e
    ensures Distinct(Ids(Completes(PlainRows(order, e))))
    ensures forall n :: n in Ids(Completes(PlainRows(order, e))) ==> n in order
  {
    if order != [] {
      var k := |order| - 1;
      assert order == order[..k] + [order[k]] && order[k] !in order[..k];
      PlainRowsStep(order, e);
      SshCompletesDistinct(order[..k], e);
      var front := PlainRows(order[..k], e);
      if Listed(order[k], e[order[k]]) {
        CompleteIdsOfMore(front, SshRow(order[k], e[order[k]]));
      } else {
        assert front + [] == front;
      }
    }
  }

  /** The plan of a purge over ssh; None when the listing could not be read. */
  function SshPlan(order: seq<string>, e: Entries, keep: nat, terms: Terms): Option<PurgePlan>
    requires forall n :: n in order ==> n in e
  {
    match SshRows(order, e)
    case None => None
    case Some(rows) => Some(Plan(rows, keep, terms))
  }

  /** The directory `n` is shown as a partial one and is neither in progress nor in its grace period. */
  ghost predicate SshExpired(e: Entries, n: string, terms: Terms) {
    n in e && Listed(n, e[n]) && !HasMeta(e[n]) && !Spared(SshRow(n, e[n]), terms)
  }

  /** What the remote directory calls for. */
  ghost predicate SshPlanned(e: Entries, keep: nat, terms: Terms, id: string) {
    || id in ShownMeta(e) - Newest(ShownMeta(e), keep)
    || SshExpired(e, id + PARTIAL, terms)
  }

  /** The ids a purge over ssh deletes, read off the directory. */
  lemma SshDeletedIds(order: seq<string>, e: Entries, keep: nat, terms: Terms, id: string)
    requires Enumerates(order, e.Keys) && Unbroken(e)
    ensures SshPlan(order, e, keep, terms).Some?
    ensures id in SshPlan(order, e, keep, terms).value.delete <==> SshPlanned(e, keep, terms, id)
  {
    SshRowsArePlain(order, e);
    var rows := PlainRows(order, e);
    SshCompletesDistinct(order, e);
    forall n ensures n in CompleteIds(rows) <==> n in ShownMeta(e) { SshCompleteIds(order, e, n); }
    assert CompleteIds(rows) == ShownMeta(e);
    PlanDeletes(rows, keep, terms, id);
    if b :| b in rows && !b.complete && b.id == id && !Spared(b, terms) {
      PlainRowsMember(order, e, b);
      var n :| n in order && Listed(n, e[n]) && SshRow(n, e[n]) == b;
      StripRoundTrip(n);
      assert n == id + PARTIAL;
    }
    if SshExpired(e, id + PARTIAL, terms) {
      var n := id + PARTIAL;
      SuffixRoundTrip(id);
      assert n in Members(order);
      PlainRowsMember(order, e, SshRow(n, e[n]));
      assert SshRow(n, e[n]) in rows;
    }
  }

  /**
   A purge over ssh takes away a complete generation exactly when it is not among the newest `keep` of all that
   carry meta.json, renamed or not, or when an expired directory without meta.json bears its name and the suffix.
   */
  lemma SshLosesIff(order: seq<string>, e: Entries, keep: nat, terms: Terms, c: string)
    requires Enumerates(order, e.Keys) && Unbroken(e) && Complete(e, c)
    ensures SshPlan(order, e, keep, terms).Some?
    ensures CoveredByAny(SshPlan(order, e, keep, terms).value.delete, c)
            <==> (Shown(c) && c !in Newest(ShownMeta(e), keep)) || SshExpired(e, c + PARTIAL, terms)
  {
    SshDeletedIds(order, e, keep, terms, c);
    var ids := SshPlan(order, e, keep, terms).value.delete;
    if CoveredByAny(ids, c) {
      var id :| id in ids && Covers(id, c);
      SshDeletedIds(order, e, keep, terms, id);
      SuffixRoundTrip(id);
    }
    if c in ids { assert Covers(c, c); }
  }

  /** Without coexisting siblings a purge over ssh only takes what it counts as too old. */
  lemma SshPlanIsSafe(order: seq<string>, e: Entries, keep: nat, terms: Terms, c: string)
    requires Enumerates(order, e.Keys) && Unbroken(e) && Complete(e, c)
    requires NoCoexistence(e)
    ensures SshPlan(order, e, keep, terms).Some?
    ensures CoveredByAny(SshPlan(order, e, keep, terms).value.delete, c)
            <==> Shown(c) && c !in Newest(ShownMeta(e), keep)
  {
    SshLosesIff(order, e, keep, terms, c);
  }

  /**
   Stores that stopped between meta.json and the rename leave partial directories that the ssh listing
   counts as complete generations: `keep` of them push every older real generation out of the plan.
   */
  lemma UnrenamedPartialsDisplace(order: seq<string>, e: Entries, keep: nat, terms: Terms, unrenamed: set<string>,
                                  c: string)
    requires Enumerates(order, e.Keys) && Unbroken(e) && Complete(e, c)
    requires Shown(c) && |unrenamed| >= keep && unrenamed <= ShownMeta(e)
    requires forall n :: n in unrenamed ==> Suffixed(n) && Less(c, n)
    ensures SshPlan(order, e, keep, terms).Some?
    ensures c in SshPlan(order, e, keep, terms).value.delete
  {
    SshDeletedIds(order, e, keep, terms, c);
    SubsetCard(unrenamed, Newer(ShownMeta(e), c));
  }

  // ----- Carrying a plan out

  /**
   One destination of `purge`, over ssh; some listings and removals fail. A line that int() refuses ends the
   purge by an exception before anything is deleted.
   */
  method PurgeOverSsh(r: Remote, keep: nat, terms: Terms) returns (clean: bool, ghost order: seq<string>)
    requires r.Valid()
    modifies r
    ensures r.Valid() && old(r.trace) <= r.trace && Enumerates(order, old(r.entries).Keys)
    ensures SshPlan(order, old(r.entries), keep, terms).None? ==> !clean && r.trace == old(r.trace)
    ensures SshPlan(order, old(r.entries), keep, terms).Some? ==>
      var ids := SshPlan(order, old(r.entries), keep, terms).value.delete;
      && (clean ==> r.entries == Survivors(old(r.entries), ids))
      && (!clean ==> r.hitches > old(r.hitches) || exists id :: id in ids && Dots(id))
      && forall i :: |old(r.trace)| <= i < |r.trace| ==> DeleteChange(old(r.entries), r.trace[i], Reach(ids))
  {
    var names := Names(r.entries);
    order := names;
    var fails := r.Fails();
    if fails { return false, order; }
    var plan := SshPlan(names, r.entries, keep, terms);
    if plan.None? { return false, order; }
    clean := DeleteAll(r, plan.value.delete);
  }

  method Names(e: Entries) returns (names: seq<string>)
    ensures Enumerates(names, e.Keys)
  {
    names := [];
    var left := e.Keys;
    while left != {}
      invariant left <= e.Keys && Enumerates(names, e.Keys - left)
      decreases left
    {
      var n :| n in left;
      left := left - {n};
      OneMoreName(names, n);
      names := names + [n];
    }
  }

  method DeleteAll(r: Remote, ids: seq<string>) returns (clean: bool)
    requires r.Valid()
    modifies r
    ensures r.Valid() && old(r.trace) <= r.trace && old(r.hitches) <= r.hitches
    ensures clean ==> r.entries == Survivors(old(r.entries), ids)
    ensures !clean ==> r.hitches > old(r.hitches) || exists id :: id in ids && Dots(id)
    ensures forall i :: |old(r.trace)| <= i < |r.trace| ==> DeleteChange(old(r.entries), r.trace[i], Reach(ids))
  {
    ghost var e0, from := r.entries, |r.trace|;
    clean := true;
    assert Survivors(e0, ids[..0]) == e0;
    for i := 0 to |ids|
      invariant r.Valid() && old(r.trace) <= r.trace && old(r.hitches) <= r.hitches
      invariant clean ==> r.entries == Survivors(e0, ids[..i])
      invariant !clean ==> r.hitches > old(r.hitches) || exists id :: id in ids && Dots(id)
      invariant DeleteChange(e0, r.entries, Reach(ids))
      invariant forall k :: from <= k < |r.trace| ==> DeleteChange(e0, r.trace[k], Reach(ids))
    {
      ghost var e1, n := r.entries, |r.trace|;
      ReachOfPart(ids, i);
      var ok := r.Delete(ids[i]);
      forall k | n <= k < |r.trace| ensures DeleteChange(e0, r.trace[k], Reach(ids)) {
        DeleteChangeCompose(e0, e1, r.trace[k], Reach(ids), Reach([ids[i]]), Reach(ids));
      }
      assert n < |r.trace| || r.entries == e1;
      SurvivorsOfMore(e0, ids[..i], ids[i]);
      assert ids[..i + 1] == ids[..i] + [ids[i]];
      clean := clean && ok;
    }
    assert ids[..|ids|] == ids;
  }

  ghost predicate SshLost(e: Entries, keep: nat, terms: Terms, c: string) {
    (Shown(c) && c !in Newest(ShownMeta(e), keep)) || SshExpired(e, c + PARTIAL, terms)
  }

  /** What a purge over ssh in which nothing fails leaves complete. */
  lemma SshAfterPurge(order: seq<string>, e: Entries, keep: nat, terms: Terms)
    requires Enumerates(order, e.Keys) && Unbroken(e)
    ensures SshPlan(order, e, keep, terms).Some?
    ensures CompleteNames(Survivors(e, SshPlan(order, e, keep, terms).value.delete))
            == set c | c in CompleteNames(e) && !SshLost(e, keep, terms, c)
  {
    SshRowsArePlain(order, e);
    var ids := SshPlan(order, e, keep, terms).value.delete;
    forall c | c in CompleteNames(e) ensures CoveredByAny(ids, c) <==> SshLost(e, keep, terms, c) {
      SshLosesIff(order, e, keep, terms, c);
    }
  }

  /** At every moment of any purge over ssh, whatever fails in it, the other generations are as they were. */
  lemma SshPurgeKeeps(order: seq<string>, e0: Entries, e: Entries, keep: nat, terms: Terms, c: string)
    requires Enumerates(order, e0.Keys) && Unbroken(e0) && Complete(e0, c) && !SshLost(e0, keep, terms, c)
    requires SshPlan(order, e0, keep, terms).Some?
    requires DeleteChange(e0, e, Reach(SshPlan(order, e0, keep, terms).value.delete))
    ensures Complete(e, c) && e[c] == e0[c]
  {
    SshLosesIff(order, e0, keep, terms, c);
  }

  // ----- How the guarantees of the local backend fail over ssh

  /** A name that gets through the listing. */
  predicate Legible(n: string) { Shown(n) && OneLine(n) }

  /** In whatever order the directory is listed, a purge over ssh takes `c` away. */
  ghost predicate SshPurgeTakes(e: Entries, keep: nat, terms: Terms, c: string) {
    forall order :: Enumerates(order, e.Keys) ==>
      SshPlan(order, e, keep, terms).Some? && CoveredByAny(SshPlan(order, e, keep, terms).value.delete, c)
  }

  lemma UnrenamedTakes(e: Entries, terms: Terms, id: string, c: string)
    requires PlainId(id) && Legible(id) && Legible(c) && (c == id || Less(c, id)) && Complete(e, c)
    requires e.Keys == {c, Partial(id)} && HasMeta(e[Partial(id)])
    ensures SshPurgeTakes(e, 1, terms, c)
  {
    LessThanPartial(id);
    if c != id { LessTransitive(c, id, Partial(id)); }
    LegiblePartial(id);
    assert Unbroken(e) && Partial(id) in ShownMeta(e);
    forall order | Enumerates(order, e.Keys)
      ensures SshPlan(order, e, 1, terms).Some? && CoveredByAny(SshPlan(order, e, 1, terms).value.delete, c)
    {
      UnrenamedPartialsDisplace(order, e, 1, terms, {Partial(id)}, c);
      assert Covers(c, c);
    }
  }

  lemma LegiblePartial(id: string)
    requires Legible(id)
    ensures Legible(Partial(id)) && Suffixed(Partial(id))
  {
    var p := Partial(id);
    assert forall i :: 0 <= i < |p| ==> p[i] == if i < |id| then id[i] else PARTIAL[i - |id|];
    SuffixRoundTrip(id);
    assert ' ' !in PARTIAL && OneLine(PARTIAL);
  }

  lemma LessThanPartial(id: string)
    ensures Less(id, Partial(id))
  {
    LessCommonPrefix(id, "", PARTIAL);
    assert id + "" == id;
  }

  /** The first attempt of every transfer succeeds. */
  function GoodTransfers(answers: bool, moves: bool): Session {
    Session(true, answers, true, (k: nat) => true, (k: nat) => true, moves)
  }

  lemma TransfersArrive(e: Entries, src: Files, id: string, answers: bool, moves: bool)
    requires Partial(id) !in e
    ensures Arrives(e, src, id, 0, GoodTransfers(answers, moves))
  {
    assert GoodTransfers(answers, moves).data(0) && GoodTransfers(answers, moves).meta(0);
  }

  /**
   The `mv` of the generation `id` fails, and the next purge that keeps one generation deletes the only complete
   one, `c`, in favour of a partial directory.
   */
  method FailedMove(c: string, id: string, gen: Files, terms: Terms) returns (ok: bool, e: Entries)
    requires PlainId(c) && PlainId(id) && Legible(c) && Legible(id) && Less(c, id) && [META] in gen
    ensures !ok && CompleteNames(e) == {c} && SshPurgeTakes(e, 1, terms, c)
  {
    LessIrreflexive(c);
    TailHasNoSlash(id);
    PlainPartial(id);
    var r := new Remote(map[c := Dir(Placed(gen), 0)]);
    TransfersArrive(r.entries, gen, id, true, false);
    ok := r.Store(gen, id, 0, GoodTransfers(true, false));
    e := r.entries;
    UnrenamedTakes(e, terms, id, c);
  }

  /**
   The probe for a generation that is complete already goes unanswered and the `mv` fails: its partial sibling comes
   to stand beside it, and the next purge that keeps one generation deletes the complete one.
   */
  method UnansweredProbe(id: string, gen: Files, terms: Terms) returns (ok: bool, e: Entries)
    requires PlainId(id) && Legible(id) && [META] in gen
    ensures !ok && CompleteNames(e) == {id} && !NoCoexistence(e) && SshPurgeTakes(e, 1, terms, id)
  {
    TailHasNoSlash(id);
    PlainPartial(id);
    var r := new Remote(map[id := Dir(Placed(gen), 0)]);
    TransfersArrive(r.entries, gen, id, false, false);
    ok := r.Store(gen, id, 0, GoodTransfers(false, false));
    e := r.entries;
    UnrenamedTakes(e, terms, id, id);
  }

  /** A directory without meta.json bears the generation's name: the store returns normally and nothing is complete. */
  method MoveIntoDirectory(id: string, gen: Files) returns (ok: bool, e: Entries)
    requires PlainId(id) && [META] in gen
    ensures ok && CompleteNames(e) == {} && HasDir(e, id) && Partial(id) !in e
    ensures e[id].files == Nested([Partial(id)], Placed(gen))
  {
    TailHasNoSlash(id);
    PlainPartial(id);
    var r := new Remote(map[id := Dir(map[], 0)]);
    ghost var e0 := r.entries;
    TransfersArrive(r.entries, gen, id, true, true);
    ok := r.Store(gen, id, 0, GoodTransfers(true, true));
    e := r.entries;
    SentIsPlacedIff(gen, map[]);
    StoredIsCompleteIff(e0, e, id, gen, map[]);
  }

  // ----- Names with a line break

  lemma OneEntry(n: string, node: Node)
    requires Printed(n, node)
    ensures SshRows([n], map[n := node]) == ParseLines(SplitLines(Output([EntryOf(n, node)])))
  {
    var order, e, x := [n], map[n := node], EntryOf(n, node);
    assert order[..0] == [] && order[|order| - 1] == n;
    assert Script(order[..0], e) == [];
    assert Script(order, e) == Script(order[..0], e) + [x] == [x];
  }

  /** A complete generation whose name holds a line break between two words is not listed at all. */
  lemma BrokenNameIsLost(a: string, b: string, files: Files, t: int)
    requires Plain(a) && Plain(b) && Visible(a) && [META] in files
    ensures var n := a + "\n" + b; SshRows([n], map[n := Dir(files, t)]) == Some([])
  {
    var n, node := a + "\n" + b, Dir(files, t);
    OneEntry(n, node);
    BrokenIsIgnored(EntryOf(n, node), a, b);
  }

  /** The name of a generation that no store makes: its second line reads as a partial directory with an empty id. */
  function ForgingName(a: string): string { a + "\n" + "PARTIAL " }

  /**
   A complete generation under such a name, though the newest, is listed as an empty id; once that has expired, the
   purge reaches everything at the destination.
   */
  lemma BrokenNameIsHazard(a: string, files: Files, t: int, keep: nat, terms: Terms)
    requires Plain(a) && Visible(a) && [META] in files && keep >= 1
    requires !Spared(StoredBackup("", false, Seconds(ForgingName(a), Dir(files, t)) * SECOND), terms)
    ensures var n := ForgingName(a); var e := map[n := Dir(files, t)];
            && n in Newest(CompleteNames(e), keep)
            && SshPlan([n], e, keep, terms).Some?
            && "" in SshPlan([n], e, keep, terms).value.delete && Covers("", n)
  {
    var n, node := ForgingName(a), Dir(files, t);
    var x, e := EntryOf(n, node), map[n := node];
    OneEntry(n, node);
    BrokenIsForged(x, a);
    var rows := [StoredBackup("", false, x.mtime * SECOND)];
    assert SshRows([n], e) == Some(rows);
    assert rows[..0] == [] && Completes(rows) == [];
    assert rows[0] in rows;
    PlanDeletes(rows, keep, terms, "");
    assert n[|n| - 1] == ' ' && PARTIAL[|PARTIAL| - 1] == 'l';
    assert CompleteNames(e) == {n};
    LessIrreflexive(n);
    assert Newer({n}, n) == {};
  }
}
