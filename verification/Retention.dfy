/** The purge decision: which listed generations to keep and which to delete. */
module Retention {
  import opened Wrappers
  import opened Order

  /** One row of a destination's listing; `storedAt` is in microseconds. */
  datatype StoredBackup = StoredBackup(id: string, complete: bool, storedAt: int)

  datatype PurgePlan = PurgePlan(keep: seq<string>, delete: seq<string>)

  const SECOND := 1_000_000
  const HOUR := 3600 * SECOND

  /** What a purge decides with, besides the listing and `keep`; `now` is in microseconds. */
  datatype Terms = Terms(graceHours: int, now: int, inProgress: Option<string>)

  function Ids(rows: seq<StoredBackup>): (ids: seq<string>)
    ensures |ids| == |rows| && forall i :: 0 <= i < |rows| ==> ids[i] == rows[i].id
  {
    seq(|rows|, i requires 0 <= i < |rows| => rows[i].id)
  }

  function Completes(rows: seq<StoredBackup>): seq<StoredBackup> {
    if rows == [] then []
    else Completes(rows[..|rows| - 1]) + (if rows[|rows| - 1].complete then [rows[|rows| - 1]] else [])
  }

  // ----- Python's stable sorted(key=backup_id, reverse=True)

  function Insert(b: StoredBackup, rows: seq<StoredBackup>): seq<StoredBackup> {
    if rows == [] then [b]
    else if Less(b.id, rows[0].id) then [rows[0]] + Insert(b, rows[1..])
    else [b] + rows
  }

  function NewestFirst(rows: seq<StoredBackup>): seq<StoredBackup> {
    if rows == [] then [] else Insert(rows[0], NewestFirst(rows[1..]))
  }

  ghost predicate Descending(rows: seq<StoredBackup>) {
    forall i, j :: 0 <= i < j < |rows| ==> !Less(rows[i].id, rows[j].id)
  }

  lemma {:induction false} InsertKeepsRows(b: StoredBackup, rows: seq<StoredBackup>)
    ensures multiset(Insert(b, rows)) == multiset{b} + multiset(rows)
  {
    if rows != [] && Less(b.id, rows[0].id) {
      InsertKeepsRows(b, rows[1..]);
      HeadAndTail(rows);
    }
  }

  lemma HeadAndTail<T>(s: seq<T>)
    requires s != []
    ensures multiset(s) == multiset{s[0]} + multiset(s[1..])
  {
    assert s == [s[0]] + s[1..];
  }

  lemma InsertedBelowHead(b: StoredBackup, rows: seq<StoredBackup>, j: nat)
    requires Descending(rows) && rows != [] && Less(b.id, rows[0].id) && j < |Insert(b, rows[1..])|
    ensures !Less(rows[0].id, Insert(b, rows[1..])[j].id)
  {
    var x := Insert(b, rows[1..])[j];
    InsertKeepsRows(b, rows[1..]);
    assert x in multiset(Insert(b, rows[1..]));
    if x == b {
      LessAsymmetric(b.id, rows[0].id);
    } else {
      var k :| 1 <= k < |rows| && rows[k] == x;
    }
  }

  lemma {:induction false} InsertDescending(b: StoredBackup, rows: seq<StoredBackup>)
    requires Descending(rows)
    ensures Descending(Insert(b, rows))
  {
    if rows != [] {
      if Less(b.id, rows[0].id) {
        InsertDescending(b, rows[1..]);
        forall j | 0 <= j < |Insert(b, rows[1..])| ensures !Less(rows[0].id, Insert(b, rows[1..])[j].id) {
          InsertedBelowHead(b, rows, j);
        }
      } else {
        forall j | 0 <= j < |rows| ensures !Less(b.id, rows[j].id) {
          if Less(b.id, rows[j].id) { NotLessTransitive(b.id, rows[0].id, rows[j].id); }
        }
      }
    }
  }

  lemma LessAsymmetric(a: string, b: string)
    requires Less(a, b)
    ensures !Less(b, a)
  {
    if Less(b, a) { LessTransitive(a, b, a); LessIrreflexive(a); }
  }

  lemma NotLessTransitive(a: string, b: string, c: string)
    requires !Less(a, b) && !Less(b, c)
    ensures !Less(a, c)
  {
    if Less(a, c) {
      if a != b { LessTotal(a, b); if b != c { LessTransitive(b, a, c); } }
    }
  }

  lemma {:induction false} NewestFirstSorts(rows: seq<StoredBackup>)
    ensures Descending(NewestFirst(rows))
    ensures multiset(NewestFirst(rows)) == multiset(rows)
  {
    if rows != [] {
      NewestFirstSorts(rows[1..]);
      InsertDescending(rows[0], NewestFirst(rows[1..]));
      InsertKeepsRows(rows[0], NewestFirst(rows[1..]));
      HeadAndTail(rows);
    }
  }

  // ----- The plan

  /** An incomplete generation that the plan leaves alone. */
  predicate Spared(b: StoredBackup, terms: Terms) {
    terms.inProgress == Some(b.id) || terms.now - b.storedAt < terms.graceHours * HOUR
  }

  /** Incomplete rows, those spared (`spared`) or those expired (`!spared`), in listing order. */
  function Incompletes(rows: seq<StoredBackup>, terms: Terms, spared: bool): seq<StoredBackup>
  {
    if rows == [] then []
    else
      var b := rows[|rows| - 1];
      Incompletes(rows[..|rows| - 1], terms, spared)
      + (if !b.complete && Spared(b, terms) == spared then [b] else [])
  }

  /** Complete rows, newest first: the part that is kept and the part that is not. */
  function KeptCompletes(rows: seq<StoredBackup>, keep: nat): seq<StoredBackup> {
    var c := NewestFirst(Completes(rows));
    c[..Min(keep, |c|)]
  }

  function DroppedCompletes(rows: seq<StoredBackup>, keep: nat): seq<StoredBackup> {
    var c := NewestFirst(Completes(rows));
    c[Min(keep, |c|)..]
  }

  function Plan(rows: seq<StoredBackup>, keep: nat, terms: Terms): PurgePlan
  {
    PurgePlan(
      Ids(KeptCompletes(rows, keep)) + Ids(Incompletes(rows, terms, true)),
      Ids(DroppedCompletes(rows, keep)) + Ids(Incompletes(rows, terms, false)))
  }

  lemma IdsOfSum(a: seq<StoredBackup>, b: seq<StoredBackup>)
    ensures Ids(a + b) == Ids(a) + Ids(b)
  {}

  lemma IncompletesNext(rows: seq<StoredBackup>, i: nat, terms: Terms, spared: bool)
    requires i < |rows|
    ensures Ids(Incompletes(rows[..i + 1], terms, spared))
            == Ids(Incompletes(rows[..i], terms, spared))
               + (if !rows[i].complete && Spared(rows[i], terms) == spared then [rows[i].id] else [])
  {
    assert rows[..i + 1][..i] == rows[..i];
    IdsOfSum(Incompletes(rows[..i], terms, spared), [rows[i]]);
  }

  method SelectPurge(stored: seq<StoredBackup>, keep: nat, graceHours: int, now: int,
                     inProgress: Option<string>)
    returns (plan: PurgePlan)
    ensures plan == Plan(stored, keep, Terms(graceHours, now, inProgress))
    ensures ByGrace(stored, graceHours, now, inProgress, plan)
    ensures Distinct(Ids(Completes(stored))) ==> ByRank(stored, keep, plan)
  {
    ghost var terms := Terms(graceHours, now, inProgress);
    var completes := Completes(stored);
    var complete := NewestFirst(completes);
    var k := Min(keep, |complete|);
    var keepIds := Ids(complete[..k]);
    var deleteIds := Ids(complete[k..]);
    for i := 0 to |stored|
      invariant keepIds == Ids(complete[..k]) + Ids(Incompletes(stored[..i], terms, true))
      invariant deleteIds == Ids(complete[k..]) + Ids(Incompletes(stored[..i], terms, false))
    {
      var backup := stored[i];
      IncompletesNext(stored, i, terms, true);
      IncompletesNext(stored, i, terms, false);
      if !backup.complete {
        if inProgress == Some(backup.id) || now - backup.storedAt < graceHours * HOUR {
          keepIds := keepIds + [backup.id];
        } else {
          deleteIds := deleteIds + [backup.id];
        }
      }
    }
    assert stored[..|stored|] == stored;
    PlanIsByGrace(stored, keep, terms);
    if Distinct(Ids(Completes(stored))) { PlanIsByRank(stored, keep, terms); }
    return PurgePlan(keepIds, deleteIds);
  }

  // ----- What the plan promises

  lemma IdsWithout(b: seq<StoredBackup>, i: nat)
    requires i < |b|
    ensures multiset(b) == multiset{b[i]} + multiset(b[..i] + b[i + 1..])
    ensures multiset(Ids(b)) == multiset{b[i].id} + multiset(Ids(b[..i] + b[i + 1..]))
  {
    assert b == b[..i] + [b[i]] + b[i + 1..];
    IdsOfSum(b[..i], b[i + 1..]);
    assert Ids(b) == Ids(b[..i]) + [b[i].id] + Ids(b[i + 1..]);
  }

  lemma Cancel<T>(a: multiset<T>, b: multiset<T>, x: T)
    requires multiset{x} + a == multiset{x} + b
    ensures a == b
  {
    assert a == (multiset{x} + a) - multiset{x};
    assert b == (multiset{x} + b) - multiset{x};
  }

  lemma {:induction false} IdsOfSameRows(a: seq<StoredBackup>, b: seq<StoredBackup>)
    requires multiset(a) == multiset(b)
    ensures multiset(Ids(a)) == multiset(Ids(b))
    decreases |a|
  {
    assert |a| == |multiset(a)| == |multiset(b)| == |b|;
    if a != [] {
      assert a[0] in multiset(b);
      var i :| 0 <= i < |b| && b[i] == a[0];
      WithoutSame(a, b, i);
      IdsOfSameRows(a[..0] + a[1..], b[..i] + b[i + 1..]);
      IdsWithout(a, 0);
      IdsWithout(b, i);
    }
  }

  lemma WithoutSame(a: seq<StoredBackup>, b: seq<StoredBackup>, i: nat)
    requires multiset(a) == multiset(b) && a != [] && i < |b| && b[i] == a[0]
    ensures multiset(a[..0] + a[1..]) == multiset(b[..i] + b[i + 1..])
  {
    IdsWithout(a, 0);
    IdsWithout(b, i);
    Cancel(multiset(a[..0] + a[1..]), multiset(b[..i] + b[i + 1..]), a[0]);
  }

  lemma {:induction false} RowsSplit(rows: seq<StoredBackup>, terms: Terms)
    ensures multiset(rows) == multiset(Completes(rows))
                            + multiset(Incompletes(rows, terms, true))
                            + multiset(Incompletes(rows, terms, false))
  {
    if rows != [] {
      var n := |rows| - 1;
      assert rows == rows[..n] + [rows[n]];
      RowsSplit(rows[..n], terms);
    }
  }

  lemma PlanRows(rows: seq<StoredBackup>, keep: nat, terms: Terms)
    ensures multiset(KeptCompletes(rows, keep) + DroppedCompletes(rows, keep)
                     + Incompletes(rows, terms, true)
                     + Incompletes(rows, terms, false)) == multiset(rows)
  {
    NewestFirstSorts(Completes(rows));
    RowsSplit(rows, terms);
    Reassemble(rows, Completes(rows), NewestFirst(Completes(rows)), Min(keep, |NewestFirst(Completes(rows))|),
               Incompletes(rows, terms, true), Incompletes(rows, terms, false));
  }

  lemma Reassemble<T>(all: seq<T>, c: seq<T>, sorted: seq<T>, k: nat, s: seq<T>, e: seq<T>)
    requires multiset(all) == multiset(c) + multiset(s) + multiset(e)
    requires multiset(sorted) == multiset(c) && k <= |sorted|
    ensures multiset(sorted[..k] + sorted[k..] + s + e) == multiset(all)
  {
    assert sorted[..k] + sorted[k..] == sorted;
  }

  /** Every listed id is either kept or deleted, exactly as often as it is listed. */
  lemma PlanPartitions(rows: seq<StoredBackup>, keep: nat, terms: Terms)
    ensures var plan := Plan(rows, keep, terms);
            multiset(plan.keep) + multiset(plan.delete) == multiset(Ids(rows))
  {
    var k, d := KeptCompletes(rows, keep), DroppedCompletes(rows, keep);
    var s := Incompletes(rows, terms, true);
    var e := Incompletes(rows, terms, false);
    PlanRows(rows, keep, terms);
    IdsOfSameRows(k + d + s + e, rows);
    IdsOfSum(k, d);
    IdsOfSum(k + d, s);
    IdsOfSum(k + d + s, e);
    FourParts(Ids(k), Ids(d), Ids(s), Ids(e));
  }

  lemma FourParts<T>(k: seq<T>, d: seq<T>, s: seq<T>, e: seq<T>)
    ensures multiset(k + d + s + e) == multiset(k + s) + multiset(d + e)
  {}

  /** The kept complete rows are as many as allowed, and none is older than a dropped one. */
  lemma PlanKeepsNewest(rows: seq<StoredBackup>, keep: nat)
    ensures |KeptCompletes(rows, keep)| == Min(keep, |Completes(rows)|)
    ensures forall x, y :: x in KeptCompletes(rows, keep) && y in DroppedCompletes(rows, keep) ==> !Less(x.id, y.id)
  {
    NewestFirstSorts(Completes(rows));
    assert |NewestFirst(Completes(rows))| == |multiset(NewestFirst(Completes(rows)))| == |Completes(rows)|;
  }

  ghost predicate Distinct(ids: seq<string>) {
    forall i, j :: 0 <= i < j < |ids| ==> ids[i] != ids[j]
  }

  ghost function Members<T>(s: seq<T>): set<T> { set x | x in s }

  ghost function CompleteIds(rows: seq<StoredBackup>): set<string> {
    Members(Ids(Completes(rows)))
  }

  lemma {:induction false} DistinctIffMultiset(ids: seq<string>)
    ensures Distinct(ids) <==> forall x :: multiset(ids)[x] <= 1
  {
    if ids != [] {
      var n := |ids| - 1;
      assert ids == ids[..n] + [ids[n]];
      DistinctIffMultiset(ids[..n]);
      assert forall x :: multiset(ids)[x] == multiset(ids[..n])[x] + (if x == ids[n] then 1 else 0);
      assert ids[n] in ids[..n] <==> multiset(ids[..n])[ids[n]] > 0;
      assert Distinct(ids) <==> Distinct(ids[..n]) && ids[n] !in ids[..n] by {
        if ids[n] in ids[..n] { var i :| 0 <= i < n && ids[i] == ids[n]; }
      }
    }
  }

  lemma DistinctOfSameRows(a: seq<StoredBackup>, b: seq<StoredBackup>)
    requires multiset(a) == multiset(b) && Distinct(Ids(a))
    ensures Distinct(Ids(b)) && Members(Ids(a)) == Members(Ids(b))
  {
    IdsOfSameRows(a, b);
    DistinctIffMultiset(Ids(a));
    DistinctIffMultiset(Ids(b));
    forall x ensures x in Ids(a) <==> x in Ids(b) {
      assert x in Ids(a) <==> x in multiset(Ids(a));
      assert x in Ids(b) <==> x in multiset(Ids(b));
    }
  }

  lemma {:induction false} MembersCard(ids: seq<string>)
    requires Distinct(ids)
    ensures |Members(ids)| == |ids|
  {
    if ids != [] {
      var n := |ids| - 1;
      MembersCard(ids[..n]);
      assert Members(ids) == Members(ids[..n]) + {ids[n]};
      assert ids[n] !in ids[..n];
    }
  }

  /** In a sorted listing with distinct ids, row `i` has exactly `i` newer ids. */
  lemma RankInSorted(c: seq<StoredBackup>, i: nat)
    requires Descending(c) && Distinct(Ids(c)) && i < |c|
    ensures |Newer(Members(Ids(c)), c[i].id)| == i
  {
    var ids := Ids(c);
    forall j | 0 <= j < |c| ensures Less(ids[i], ids[j]) <==> j < i {
      if j < i { LessTotal(ids[j], ids[i]); }
      if j == i { LessIrreflexive(ids[i]); }
    }
    forall x ensures x in Newer(Members(ids), ids[i]) <==> x in Members(ids[..i]) {
      if x in Newer(Members(ids), ids[i]) {
        var j :| 0 <= j < |ids| && ids[j] == x;
        assert j < i && ids[..i][j] == x;
      }
      if x in Members(ids[..i]) {
        var j :| 0 <= j < i && ids[j] == x;
      }
    }
    assert Newer(Members(ids), ids[i]) == Members(ids[..i]);
    MembersCard(ids[..i]);
  }

  /** Cutting a sorted listing with distinct ids after `k` rows separates the newest `k` from the rest. */
  lemma SortedPrefixIsNewest(c: seq<StoredBackup>, keep: nat)
    requires Descending(c) && Distinct(Ids(c))
    ensures var k := Min(keep, |c|); var all := Members(Ids(c));
            && Members(Ids(c[..k])) == Newest(all, keep)
            && Members(Ids(c[k..])) == all - Newest(all, keep)
  {
    var k := Min(keep, |c|);
    var ids := Ids(c);
    var all := Members(ids);
    forall i | 0 <= i < |c| ensures ids[i] in Newest(all, keep) <==> i < k {
      RankInSorted(c, i);
    }
    assert Ids(c[..k]) == ids[..k] && Ids(c[k..]) == ids[k..];
    SplitMembers(ids, k, Newest(all, keep));
  }

  lemma SplitMembers<T>(s: seq<T>, k: nat, front: set<T>)
    requires k <= |s| && front <= Members(s)
    requires forall i :: 0 <= i < |s| ==> (s[i] in front <==> i < k)
    ensures Members(s[..k]) == front && Members(s[k..]) == Members(s) - front
  {
    forall x | x in Members(s) ensures x in front <==> x in s[..k] {
      var i :| 0 <= i < |s| && s[i] == x;
      if i < k { assert s[..k][i] == x; }
    }
    forall x | x in Members(s) - front ensures x in s[k..] {
      var i :| 0 <= i < |s| && s[i] == x;
      assert s[k..][i - k] == x;
    }
    forall x | x in s[k..] ensures x in Members(s) && x !in front {
      var i :| 0 <= i < |s| - k && s[k..][i] == x;
      assert s[k + i] == x;
    }
  }

  /** With distinct complete ids the plan keeps exactly the newest `keep` of them. */
  lemma KeptAreNewest(rows: seq<StoredBackup>, keep: nat)
    requires Distinct(Ids(Completes(rows)))
    ensures Members(Ids(KeptCompletes(rows, keep))) == Newest(CompleteIds(rows), keep)
    ensures Members(Ids(DroppedCompletes(rows, keep))) == CompleteIds(rows) - Newest(CompleteIds(rows), keep)
  {
    var c := NewestFirst(Completes(rows));
    NewestFirstSorts(Completes(rows));
    DistinctOfSameRows(Completes(rows), c);
    SortedPrefixIsNewest(c, keep);
  }

  lemma CompleteIdsOfMore(rows: seq<StoredBackup>, b: StoredBackup)
    ensures Ids(Completes(rows + [b])) == if b.complete then Ids(Completes(rows)) + [b.id] else Ids(Completes(rows))
  {
    assert (rows + [b])[..|rows|] == rows;
    IdsOfSum(Completes(rows), [b]);
  }

  lemma DistinctOfMore(rows: seq<StoredBackup>, b: StoredBackup)
    requires Distinct(Ids(Completes(rows))) && (b.complete ==> b.id !in CompleteIds(rows))
    ensures Distinct(Ids(Completes(rows + [b])))
    ensures CompleteIds(rows + [b]) == if b.complete then CompleteIds(rows) + {b.id} else CompleteIds(rows)
  {
    CompleteIdsOfMore(rows, b);
  }

  lemma {:induction false} CompletesMembers(rows: seq<StoredBackup>, b: StoredBackup)
    ensures b in Completes(rows) <==> b in rows && b.complete
  {
    if rows != [] {
      CompletesMembers(rows[..|rows| - 1], b);
      assert rows == rows[..|rows| - 1] + [rows[|rows| - 1]];
    }
  }

  lemma {:induction false} IncompletesMembers(rows: seq<StoredBackup>, terms: Terms, spared: bool, b: StoredBackup)
    ensures b in Incompletes(rows, terms, spared)
            <==> b in rows && !b.complete && Spared(b, terms) == spared
  {
    if rows != [] {
      IncompletesMembers(rows[..|rows| - 1], terms, spared, b);
      assert rows == rows[..|rows| - 1] + [rows[|rows| - 1]];
    }
  }

  /** Exactly which ids are deleted, in terms of the listing alone. */
  lemma PlanDeletes(rows: seq<StoredBackup>, keep: nat, terms: Terms, id: string)
    requires Distinct(Ids(Completes(rows)))
    ensures id in Plan(rows, keep, terms).delete <==>
            || id in CompleteIds(rows) - Newest(CompleteIds(rows), keep)
            || exists b :: b in rows && !b.complete && b.id == id && !Spared(b, terms)
  {
    KeptAreNewest(rows, keep);
    var e := Incompletes(rows, terms, false);
    var d := DroppedCompletes(rows, keep);
    assert id in Ids(d) + Ids(e) <==> id in Members(Ids(d)) || id in Ids(e);
    if id in Ids(e) {
      var i :| 0 <= i < |e| && Ids(e)[i] == id;
      IncompletesMembers(rows, terms, false, e[i]);
    }
    if b :| b in rows && !b.complete && b.id == id && !Spared(b, terms) {
      IncompletesMembers(rows, terms, false, b);
      var i :| 0 <= i < |e| && e[i] == b;
      assert Ids(e)[i] == id;
    }
  }

  // ----- Independence of listing order

  lemma {:induction false} CompletesCount(rows: seq<StoredBackup>, b: StoredBackup)
    ensures multiset(Completes(rows))[b] == if b.complete then multiset(rows)[b] else 0
  {
    if rows != [] {
      var n := |rows| - 1;
      assert rows == rows[..n] + [rows[n]];
      CompletesCount(rows[..n], b);
    }
  }

  lemma {:induction false} IncompletesCount(rows: seq<StoredBackup>, terms: Terms, spared: bool, b: StoredBackup)
    ensures multiset(Incompletes(rows, terms, spared))[b]
            == if !b.complete && Spared(b, terms) == spared then multiset(rows)[b] else 0
  {
    if rows != [] {
      var n := |rows| - 1;
      assert rows == rows[..n] + [rows[n]];
      IncompletesCount(rows[..n], terms, spared, b);
    }
  }

  lemma SortedHeadsAgree(a: seq<StoredBackup>, b: seq<StoredBackup>)
    requires Descending(a) && Descending(b) && multiset(a) == multiset(b) && Distinct(Ids(a)) && a != [] && b != []
    ensures a[0] == b[0]
  {
    assert a[0] in multiset(b) && b[0] in multiset(a);
    var i :| 0 <= i < |b| && b[i] == a[0];
    var j :| 0 <= j < |a| && a[j] == b[0];
    if j != 0 {
      assert Ids(a)[0] != Ids(a)[j];
      LessTotal(a[0].id, b[0].id);
      LessIrreflexive(a[0].id);
    }
  }

  lemma TailsAgree(a: seq<StoredBackup>, b: seq<StoredBackup>)
    requires a != [] && b != [] && a[0] == b[0] && multiset(a) == multiset(b)
    ensures multiset(a[1..]) == multiset(b[1..])
  {
    HeadAndTail(a);
    HeadAndTail(b);
    Cancel(multiset(a[1..]), multiset(b[1..]), a[0]);
  }

  lemma SortedTail(a: seq<StoredBackup>)
    requires a != [] && Distinct(Ids(a))
    ensures Distinct(Ids(a[1..]))
  {
    assert Ids(a[1..]) == Ids(a)[1..];
  }

  lemma {:induction false} SortedUnique(a: seq<StoredBackup>, b: seq<StoredBackup>)
    requires Descending(a) && Descending(b) && multiset(a) == multiset(b) && Distinct(Ids(a))
    ensures a == b
    decreases |a|
  {
    assert |a| == |multiset(a)| == |multiset(b)| == |b|;
    if a != [] {
      SortedHeadsAgree(a, b);
      TailsAgree(a, b);
      SortedTail(a);
      SortedUnique(a[1..], b[1..]);
      assert a == [a[0]] + a[1..] && b == [b[0]] + b[1..];
    }
  }

  /** Listing order does not matter: the same rows in any order give the same keep and delete sets. */
  lemma PlanIgnoresListingOrder(a: seq<StoredBackup>, b: seq<StoredBackup>, keep: nat, terms: Terms)
    requires multiset(a) == multiset(b) && Distinct(Ids(Completes(a)))
    ensures multiset(Plan(a, keep, terms).keep) == multiset(Plan(b, keep, terms).keep)
    ensures multiset(Plan(a, keep, terms).delete) == multiset(Plan(b, keep, terms).delete)
  {
    forall r ensures multiset(Completes(a))[r] == multiset(Completes(b))[r] {
      CompletesCount(a, r);
      CompletesCount(b, r);
    }
    assert multiset(Completes(a)) == multiset(Completes(b));
    NewestFirstSorts(Completes(a));
    NewestFirstSorts(Completes(b));
    DistinctOfSameRows(Completes(a), NewestFirst(Completes(a)));
    SortedUnique(NewestFirst(Completes(a)), NewestFirst(Completes(b)));
    SameIncompletes(a, b, terms, true);
    SameIncompletes(a, b, terms, false);
  }

  lemma SameIncompletes(a: seq<StoredBackup>, b: seq<StoredBackup>, terms: Terms, spared: bool)
    requires multiset(a) == multiset(b)
    ensures multiset(Ids(Incompletes(a, terms, spared)))
            == multiset(Ids(Incompletes(b, terms, spared)))
  {
    var x := Incompletes(a, terms, spared);
    var y := Incompletes(b, terms, spared);
    forall r ensures multiset(x)[r] == multiset(y)[r] {
      IncompletesCount(a, terms, spared, r);
      IncompletesCount(b, terms, spared, r);
    }
    assert multiset(x) == multiset(y);
    IdsOfSameRows(x, y);
  }

  // ----- Monotonicity

  /** At least as long a grace period and no later a clock. */
  ghost predicate MorePatient(a: Terms, b: Terms) {
    a.graceHours >= b.graceHours && a.now <= b.now && a.inProgress == b.inProgress
  }

  lemma {:induction false} FewerExpire(rows: seq<StoredBackup>, terms': Terms, terms: Terms)
    requires MorePatient(terms', terms)
    ensures multiset(Ids(Incompletes(rows, terms', false))) <= multiset(Ids(Incompletes(rows, terms, false)))
  {
    if rows != [] {
      var n := |rows| - 1;
      var a := Incompletes(rows[..n], terms', false);
      var b := Incompletes(rows[..n], terms, false);
      FewerExpire(rows[..n], terms', terms);
      IdsOfSum(a, [rows[n]]);
      IdsOfSum(b, [rows[n]]);
      assert a + [] == a && b + [] == b;
      if !rows[n].complete && !Spared(rows[n], terms') {
        assert !Spared(rows[n], terms);
      }
    }
  }

  /** A larger `keep`, a longer grace period or an earlier clock never deletes more. */
  lemma PlanMonotone(rows: seq<StoredBackup>, keep: nat, keep': nat, terms: Terms, terms': Terms)
    requires keep' >= keep && MorePatient(terms', terms)
    ensures multiset(Plan(rows, keep', terms').delete) <= multiset(Plan(rows, keep, terms).delete)
  {
    FewerExpire(rows, terms', terms);
    var c := NewestFirst(Completes(rows));
    var k, k' := Min(keep, |c|), Min(keep', |c|);
    assert c[k..] == c[k..k'] + c[k'..];
    IdsOfSum(c[k..k'], c[k'..]);
  }

  // ----- The plan in plain numbers

  /** The only row with its id. */
  ghost predicate Alone(rows: seq<StoredBackup>, b: StoredBackup) {
    b in rows && forall c :: c in rows && c.id == b.id ==> c == b
  }

  /**
   An incomplete generation is deleted exactly when it is not the one in progress and was last touched at least the
   grace period ago, in hours of 3600 seconds; otherwise it is kept.
   */
  ghost predicate ByGrace(rows: seq<StoredBackup>, graceHours: int, now: int, inProgress: Option<string>,
                          plan: PurgePlan)
  {
    forall b :: Alone(rows, b) && !b.complete ==>
      var expired := inProgress != Some(b.id) && now - b.storedAt >= graceHours * 3_600_000_000;
      (b.id in plan.delete <==> expired) && (b.id in plan.keep <==> !expired)
  }

  /** A complete generation is deleted exactly when at least `keep` complete ones have greater ids. */
  ghost predicate ByRank(rows: seq<StoredBackup>, keep: nat, plan: PurgePlan) {
    forall b :: Alone(rows, b) && b.complete ==>
      var newer := set c | c in rows && c.complete && Less(b.id, c.id) :: c.id;
      (b.id in plan.delete <==> |newer| >= keep) && (b.id in plan.keep <==> |newer| < keep)
  }

  lemma IdInSum(a: seq<StoredBackup>, c: seq<StoredBackup>, id: string)
    ensures id in Ids(a) + Ids(c) <==> (exists b :: b in a && b.id == id) || (exists b :: b in c && b.id == id)
  {
    if b :| b in a && b.id == id { var i :| 0 <= i < |a| && a[i] == b; assert Ids(a)[i] == id; }
    if b :| b in c && b.id == id { var i :| 0 <= i < |c| && c[i] == b; assert Ids(c)[i] == id; }
    if id in Ids(a) { var i :| 0 <= i < |a| && Ids(a)[i] == id; assert a[i] in a; }
    if id in Ids(c) { var i :| 0 <= i < |c| && Ids(c)[i] == id; assert c[i] in c; }
  }

  lemma CutCompletes(rows: seq<StoredBackup>, keep: nat, b: StoredBackup)
    ensures b in KeptCompletes(rows, keep) || b in DroppedCompletes(rows, keep) ==> b in rows && b.complete
  {
    var c := NewestFirst(Completes(rows));
    NewestFirstSorts(Completes(rows));
    CompletesMembers(rows, b);
    assert b in c <==> b in multiset(c);
    assert b in Completes(rows) <==> b in multiset(Completes(rows));
  }

  lemma PlanIsByGrace(rows: seq<StoredBackup>, keep: nat, terms: Terms)
    ensures ByGrace(rows, terms.graceHours, terms.now, terms.inProgress, Plan(rows, keep, terms))
  {
    forall b | Alone(rows, b) && !b.complete
      ensures var expired := terms.inProgress != Some(b.id)
                && terms.now - b.storedAt >= terms.graceHours * 3_600_000_000;
              var plan := Plan(rows, keep, terms);
              (b.id in plan.delete <==> expired) && (b.id in plan.keep <==> !expired)
    {
      OneIncomplete(rows, keep, terms, b);
    }
  }

  lemma OneIncomplete(rows: seq<StoredBackup>, keep: nat, terms: Terms, b: StoredBackup)
    requires Alone(rows, b) && !b.complete
    ensures b.id in Plan(rows, keep, terms).delete <==> !Spared(b, terms)
    ensures b.id in Plan(rows, keep, terms).keep <==> Spared(b, terms)
  {
    IdInSum(KeptCompletes(rows, keep), Incompletes(rows, terms, true), b.id);
    IdInSum(DroppedCompletes(rows, keep), Incompletes(rows, terms, false), b.id);
    forall c: StoredBackup | c.id == b.id
      ensures c !in KeptCompletes(rows, keep) && c !in DroppedCompletes(rows, keep)
      ensures c in Incompletes(rows, terms, true) <==> c == b && Spared(b, terms)
      ensures c in Incompletes(rows, terms, false) <==> c == b && !Spared(b, terms)
    {
      CutCompletes(rows, keep, c);
      IncompletesMembers(rows, terms, true, c);
      IncompletesMembers(rows, terms, false, c);
    }
  }

  lemma PlanIsByRank(rows: seq<StoredBackup>, keep: nat, terms: Terms)
    requires Distinct(Ids(Completes(rows)))
    ensures ByRank(rows, keep, Plan(rows, keep, terms))
  {
    forall b | Alone(rows, b) && b.complete
      ensures var newer := set c | c in rows && c.complete && Less(b.id, c.id) :: c.id;
              var plan := Plan(rows, keep, terms);
              (b.id in plan.delete <==> |newer| >= keep) && (b.id in plan.keep <==> |newer| < keep)
    {
      OneComplete(rows, keep, terms, b);
      NewerIds(rows, b.id);
    }
  }

  lemma NewerIds(rows: seq<StoredBackup>, id: string)
    ensures Newer(CompleteIds(rows), id) == set c | c in rows && c.complete && Less(id, c.id) :: c.id
  {
    forall x ensures x in CompleteIds(rows) <==> exists c :: c in rows && c.complete && c.id == x {
      if x in CompleteIds(rows) {
        var i :| 0 <= i < |Completes(rows)| && Ids(Completes(rows))[i] == x;
        CompletesMembers(rows, Completes(rows)[i]);
      }
      if c :| c in rows && c.complete && c.id == x {
        CompletesMembers(rows, c);
        var i :| 0 <= i < |Completes(rows)| && Completes(rows)[i] == c;
        assert Ids(Completes(rows))[i] == x;
      }
    }
  }

  lemma OneComplete(rows: seq<StoredBackup>, keep: nat, terms: Terms, b: StoredBackup)
    requires Distinct(Ids(Completes(rows))) && Alone(rows, b) && b.complete
    ensures b.id in Plan(rows, keep, terms).delete <==> |Newer(CompleteIds(rows), b.id)| >= keep
    ensures b.id in Plan(rows, keep, terms).keep <==> |Newer(CompleteIds(rows), b.id)| < keep
  {
    KeptAreNewest(rows, keep);
    var spared, expired := Incompletes(rows, terms, true), Incompletes(rows, terms, false);
    forall c: StoredBackup | c.id == b.id ensures c !in spared && c !in expired {
      IncompletesMembers(rows, terms, true, c);
      IncompletesMembers(rows, terms, false, c);
    }
    IdInSum([], spared, b.id);
    IdInSum([], expired, b.id);
    CompletesMembers(rows, b);
    var i :| 0 <= i < |Completes(rows)| && Completes(rows)[i] == b;
    assert Ids(Completes(rows))[i] == b.id;
    assert b.id in Ids(KeptCompletes(rows, keep)) <==> b.id in Members(Ids(KeptCompletes(rows, keep)));
    assert b.id in Ids(DroppedCompletes(rows, keep)) <==> b.id in Members(Ids(DroppedCompletes(rows, keep)));
  }
}
