/** Where the generations of every possible id end up on the node, and which of them a destination then lists. */
module Addresses {
  import opened Wrappers
  import opened Retention
  import opened Layout
  import opened Purging
  import opened Placement
  import opened Recording
  import opened Paths
  import opened FileTree
  import opened TreeStore
  import opened Manifest

  // ----- The run's own directory in place of a copy

  lemma {:induction false} NothingToStore(t: Files, dir: Path, dirs: seq<Path>, name: string)
    requires dir + [name] + [META] in t
    requires forall i :: 0 <= i < |dirs| ==> dirs[i] == dir
    ensures StoreAll(t, dir + [name], dirs, name) == Some(t)
    decreases |dirs|
  {
    if dirs != [] {
      NothingToStore(t, dir, dirs[1..], name);
    }
  }

  /**
   When an id leads from every destination to where it leads from the work directory, no store raises, no store
   copies anything, and dropping the work copy leaves no file of the generation anywhere.
   */
  lemma SamePlaceLosesAll(t: Files, work: Path, id: string, gen: Files, bases: seq<Path>)
    requires [META] in gen && forall base :: base in bases ==> DirOf(base, id) == DirOf(work, id)
    ensures RunOn(t, work, id, gen, bases) == Some(Without(Cleaned(t, work, id), DirOf(work, id) + [Tail(id)]))
  {
    var from := DirOf(work, id) + [Tail(id)];
    var t1 := BackedUp(t, work, id, gen);
    NestedAt(from, gen, from + [META]);
    assert from + [META] in t1;
    forall i | 0 <= i < |bases| ensures DirsOf(bases, id)[i] == DirOf(work, id) { assert bases[i] in bases; }
    NothingToStore(t1, DirOf(work, id), DirsOf(bases, id), Tail(id));
    forall q | q in Nested(from, gen) ensures IsBelow(q, from) { NestedAt(from, gen, q); }
    assert Without(t1, from) == Without(Cleaned(t, work, id), from);
  }

  /** Every id with a leading slash: the run ends without an error and the generation is nowhere. */
  lemma AbsoluteIdsAreLost(t: Files, work: Path, id: string, gen: Files, bases: seq<Path>)
    requires Root(id) != "" && [META] in gen
    ensures RunOn(t, work, id, gen, bases) == Some(Without(Cleaned(t, work, id), DirOf(work, id) + [Tail(id)]))
  {
    SamePlaceLosesAll(t, work, id, gen, bases);
  }

  /** Components of places never hold a slash. */
  ghost predicate WellSpelled(t: Files) {
    forall q, i :: q in t && 0 <= i < |q| ==> '/' !in q[i]
  }

  /** Only directories that bear the id as it is written survive the cleaning. */
  lemma CleanedAt(t: Files, work: Path, id: string, n: string, p: Path)
    requires p != [] && work + [n] + p in Cleaned(t, work, id) && WellSpelled(t)
    ensures n == id == Tail(id)
  {
    var q := work + [n] + p;
    assert q[..|work|] == work && q[|work|] == n;
    TailHasNoSlash(id);
  }

  /** The only destination is the work directory: the run ends without an error and no generation is left at all. */
  lemma WorkDirLosesAll(t: Files, work: Path, id: string, gen: Files, times: string -> int)
    requires [META] in gen && EntryId(id) && WellSpelled(t)
    ensures RunOn(t, work, id, gen, [work]).Some?
    ensures CompleteNames(EntriesAt(RunOn(t, work, id, gen, [work]).value, work, times)) == {}
  {
    SamePlaceLosesAll(t, work, id, gen, [work]);
    var left := RunOn(t, work, id, gen, [work]).value;
    forall n | n in CompleteNames(EntriesAt(left, work, times)) ensures false {
      assert IsBelow(work + [n] + [META], work + [n]);
      UnderAt(left, work + [n], [META]);
      CleanedAt(t, work, id, n, [META]);
    }
  }

  // ----- A whole run with one destination

  lemma BackedUpHolds(t: Files, work: Path, id: string, gen: Files)
    requires [META] in gen && [] !in gen
    ensures var t1, from := BackedUp(t, work, id, gen), DirOf(work, id) + [Tail(id)];
            from !in t1 && from + [META] in t1 && Under(t1, from) == gen
  {
    var t1, from := BackedUp(t, work, id, gen), DirOf(work, id) + [Tail(id)];
    NestedAt(from, gen, from);
    NestedAt(from, gen, from + [META]);
    forall p ensures (p in Under(t1, from) <==> p in gen) && (p in gen ==> Under(t1, from)[p] == gen[p]) {
      UnderAt(t1, from, p);
      NestedAt(from, gen, from + p);
    }
    SameFiles(Under(t1, from), gen);
  }

  /** A run leaves alone what is neither in its own directory nor in the work directory. */
  lemma ElsewhereStays(t: Files, work: Path, id: string, gen: Files, q: Path)
    requires !IsBelow(q, DirOf(work, id) + [Tail(id)])
    ensures q in BackedUp(t, work, id, gen) ==> q in t && BackedUp(t, work, id, gen)[q] == t[q]
    ensures q in t && !IsBelow(q, work) ==> q in BackedUp(t, work, id, gen)
  {
    NestedAt(DirOf(work, id) + [Tail(id)], gen, q);
  }

  lemma DroppingKeeps(t: Files, from: Path, base: Path, times: string -> int, name: string, gen: Files)
    requires Apart(from, base) && Committed(EntriesAt(t, base, times), name, gen)
    ensures Committed(EntriesAt(Without(t, from), base, times), name, gen)
  {
    forall n ensures Same(EntriesAt(t, base, times), EntriesAt(Without(t, from), base, times), n) {
      ApartFromEntries(from, base, n);
      forall q | IsBelow(q, base + [n]) ensures !IsBelow(q, from) {
        if IsBelow(q, from) { BelowTwice(q, base + [n], from); }
      }
      EntryStays(t, Without(t, from), base, times, n);
    }
    assert Same(EntriesAt(t, base, times), EntriesAt(Without(t, from), base, times), name);
    assert Same(EntriesAt(t, base, times), EntriesAt(Without(t, from), base, times), Partial(name));
  }

  /** `name` is not there as a complete generation. */
  lemma NotListed(t: Files, base: Path, times: string -> int, name: string)
    requires base + [name] + [META] !in t
    ensures name !in CompleteNames(EntriesAt(t, base, times))
  {
    CompleteAt(t, base, times, name);
  }

  lemma NotListedAtSamePlace(t: Files, work: Path, id: string, gen: Files, base: Path, times: string -> int,
                             left: Files)
    requires RunOn(t, work, id, gen, [base]) == Some(left) && [META] in gen
    requires DirOf(base, id) == DirOf(work, id) && base + [Tail(id)] + [META] !in t
    ensures Tail(id) !in CompleteNames(EntriesAt(left, base, times))
  {
    SamePlaceLosesAll(t, work, id, gen, [base]);
    NotListed(left, base, times, Tail(id));
  }

  /** The one store of a run with one destination. */
  lemma OnlyStore(t: Files, work: Path, id: string, gen: Files, base: Path, left: Files) returns (t2: Files)
    requires RunOn(t, work, id, gen, [base]) == Some(left)
    ensures var from := DirOf(work, id) + [Tail(id)];
            && LocalStore(BackedUp(t, work, id, gen), from, DirOf(base, id), Tail(id)) == Some(t2)
            && left == Without(t2, from)
  {
    assert DirsOf([base], id) == [DirOf(base, id)];
    t2 := StoredOnce(BackedUp(t, work, id, gen), DirOf(work, id) + [Tail(id)], DirOf(base, id), Tail(id));
  }

  lemma NotListedWhenAstray(t: Files, work: Path, id: string, gen: Files, base: Path, times: string -> int, left: Files)
    requires RunOn(t, work, id, gen, [base]) == Some(left) && [META] in gen && [] !in gen
    requires DirOf(base, id) != base && base + [Tail(id)] + [META] !in t && Apart(DirOf(work, id) + [Tail(id)], base)
    requires !IsBelow(base, DirOf(base, id) + [Tail(id)]) && !IsBelow(base, DirOf(base, id) + [Partial(Tail(id))])
    ensures Tail(id) !in CompleteNames(EntriesAt(left, base, times))
  {
    var name, from := Tail(id), DirOf(work, id) + [Tail(id)];
    BackedUpHolds(t, work, id, gen);
    var t2 := OnlyStore(t, work, id, gen, base, left);
    EntryApart(from, base, name, META);
    ElsewhereStays(t, work, id, gen, base + [name] + [META]);
    NotListed(BackedUp(t, work, id, gen), base, times, name);
    StoreStrays(BackedUp(t, work, id, gen), from, base, DirOf(base, id), name, times, t2);
    DroppingAddsNothing(t2, from, base, times, name);
  }

  lemma DroppingAddsNothing(t: Files, from: Path, base: Path, times: string -> int, name: string)
    requires Apart(from, base) && name !in CompleteNames(EntriesAt(t, base, times))
    ensures name !in CompleteNames(EntriesAt(Without(t, from), base, times))
  {
    EntryApart(from, base, name, META);
    CompleteAt(t, base, times, name);
    CompleteAt(Without(t, from), base, times, name);
  }

  lemma ListedAtBase(t: Files, work: Path, id: string, gen: Files, base: Path, times: string -> int, left: Files)
    requires RunOn(t, work, id, gen, [base]) == Some(left) && [META] in gen && [] !in gen && PlainId(Tail(id))
    requires DirOf(base, id) == base && base + [Tail(id)] + [META] !in t && Apart(DirOf(work, id) + [Tail(id)], base)
    ensures Committed(EntriesAt(left, base, times), Tail(id), gen)
  {
    var name, from := Tail(id), DirOf(work, id) + [Tail(id)];
    BackedUpHolds(t, work, id, gen);
    var t2 := OnlyStore(t, work, id, gen, base, left);
    EntryApart(from, base, name, META);
    ElsewhereStays(t, work, id, gen, base + [name] + [META]);
    StoreAtBase(BackedUp(t, work, id, gen), from, base, name, times, t2);
    DroppingKeeps(t2, from, base, times, name, gen);
  }

  /**
   A run that raised nothing leaves the generation listed as complete exactly when its id leads to an entry of the
   destination and the run's own directory is not that entry.
   */
  lemma ListedIff(t: Files, work: Path, id: string, gen: Files, base: Path, times: string -> int, left: Files)
    requires RunOn(t, work, id, gen, [base]) == Some(left) && [META] in gen && [] !in gen && PlainId(Tail(id))
    requires base + [Tail(id)] + [META] !in t
    requires DirOf(work, id) != DirOf(base, id) ==>
      && Apart(DirOf(work, id) + [Tail(id)], base)
      && !IsBelow(base, DirOf(base, id) + [Tail(id)]) && !IsBelow(base, DirOf(base, id) + [Partial(Tail(id))])
    ensures var e := EntriesAt(left, base, times);
            && (Tail(id) in CompleteNames(e) <==> DirOf(base, id) == base != DirOf(work, id))
            && (Tail(id) in CompleteNames(e) ==> Committed(e, Tail(id), gen))
  {
    if DirOf(work, id) == DirOf(base, id) {
      NotListedAtSamePlace(t, work, id, gen, base, times, left);
    } else if DirOf(base, id) == base {
      ListedAtBase(t, work, id, gen, base, times, left);
      CommittedIsComplete(EntriesAt(left, base, times), Tail(id), gen);
    } else {
      NotListedWhenAstray(t, work, id, gen, base, times, left);
    }
  }

  lemma CommittedIsComplete(e: Entries, name: string, gen: Files)
    requires Committed(e, name, gen) && [META] in gen && PlainId(name)
    ensures name in CompleteNames(e)
  {}

  lemma StoredOnce(t: Files, from: Path, dir: Path, name: string) returns (t': Files)
    requires StoreAll(t, from, [dir], name).Some?
    ensures LocalStore(t, from, dir, name) == StoreAll(t, from, [dir], name) == Some(t')
  {
    t' := LocalStore(t, from, dir, name).value;
    assert [dir][1..] == [];
  }

  lemma EntryApart(from: Path, base: Path, n: string, m: string)
    requires Apart(from, base)
    ensures !IsBelow(base + [n] + [m], from) && !IsBelow(base + [n], from)
  {
    ApartFromEntries(from, base, n);
    ApartFromEntries(from, base + [n], m);
  }

  // ----- Ids by the look of their text

  lemma ApartBelow(a: Path, b: Path, a': Path, b': Path)
    requires Apart(a, b) && IsBelow(a', a) && IsBelow(b', b)
    ensures Apart(a', b')
  {
    if IsBelow(a', b') {
      BelowTransitive(a', b', b);
      BelowTwice(a', a, b);
    }
    if IsBelow(b', a') {
      BelowTransitive(b', a', a);
      BelowTwice(b', a, b);
    }
  }

  /** A relative id without `..` leads below whatever it is joined to. */
  lemma StraightIdGoesDown(base: Path, id: string, x: string)
    requires Root(id) == "" && ".." !in Front(id)
    ensures DirOf(base, id) == base + Front(id)
    ensures IsBelow(DirOf(base, id) + [x], base) && !IsBelow(base, DirOf(base, id) + [x])
  {
    StraightWalk(base, Front(id));
    assert (base + Front(id) + [x])[..|base|] == base;
  }

  /**
   Ids that never go up, with a destination apart from the work directory: a run that raised nothing leaves the
   generation listed as complete exactly when the id is relative and has nothing but dots before its last slash.
   */
  lemma StraightIdListedIff(t: Files, work: Path, id: string, gen: Files, base: Path, times: string -> int, left: Files)
    requires RunOn(t, work, id, gen, [base]) == Some(left) && [META] in gen && [] !in gen && PlainId(Tail(id))
    requires ".." !in Front(id) && Apart(work, base) && base + [Tail(id)] + [META] !in t
    ensures var e := EntriesAt(left, base, times);
            && (Tail(id) in CompleteNames(e) <==> EntryId(id))
            && (Tail(id) in CompleteNames(e) ==> Committed(e, Tail(id), gen))
  {
    if Root(id) != "" {
      NotListedAtSamePlace(t, work, id, gen, base, times, left);
    } else {
      StraightIdGoesDown(base, id, Tail(id));
      StraightIdGoesDown(base, id, Partial(Tail(id)));
      StraightIdIsApart(work, base, id);
      StraightWalk(work, Front(id));
      assert IsBelow(work + Front(id), work);
      ListedIff(t, work, id, gen, base, times, left);
    }
  }

  lemma SameCompleteNames(t: Files, t': Files, base: Path, times: string -> int)
    requires forall q :: IsBelow(q, base) ==> (q in t <==> q in t')
    ensures CompleteNames(EntriesAt(t, base, times)) == CompleteNames(EntriesAt(t', base, times))
  {
    forall n ensures n in CompleteNames(EntriesAt(t, base, times)) <==> n in CompleteNames(EntriesAt(t', base, times)) {
      assert IsBelow(base + [n], base) && IsBelow(base + [n] + [META], base);
      CompleteAt(t, base, times, n);
      CompleteAt(t', base, times, n);
    }
  }

  lemma BackingUpKeeps(t: Files, work: Path, id: string, gen: Files, base: Path, times: string -> int)
    requires Apart(work, base) && Apart(DirOf(work, id) + [Tail(id)], base)
    ensures CompleteNames(EntriesAt(BackedUp(t, work, id, gen), base, times))
            == CompleteNames(EntriesAt(t, base, times))
  {
    forall q | IsBelow(q, base) ensures q in t <==> q in BackedUp(t, work, id, gen) {
      if IsBelow(q, work) { BelowTwice(q, work, base); }
      if IsBelow(q, DirOf(work, id) + [Tail(id)]) { BelowTwice(q, DirOf(work, id) + [Tail(id)], base); }
      ElsewhereStays(t, work, id, gen, q);
    }
    SameCompleteNames(t, BackedUp(t, work, id, gen), base, times);
  }

  lemma DroppingKeepsCompletes(t: Files, from: Path, base: Path, times: string -> int)
    requires Apart(from, base)
    ensures CompleteNames(EntriesAt(Without(t, from), base, times)) == CompleteNames(EntriesAt(t, base, times))
  {
    forall q | IsBelow(q, base) ensures q in t <==> q in Without(t, from) {
      if IsBelow(q, from) { BelowTwice(q, from, base); }
    }
    SameCompleteNames(t, Without(t, from), base, times);
  }

  /** A relative id with a directory part: no complete generation appears at the destination. */
  lemma SlashedIdAddsNothing(t: Files, work: Path, id: string, gen: Files, base: Path, times: string -> int,
                             left: Files)
    requires RunOn(t, work, id, gen, [base]) == Some(left) && [META] in gen && [] !in gen
    requires Root(id) == "" && Front(id) != [] && ".." !in Front(id) && Apart(work, base)
    ensures CompleteNames(EntriesAt(left, base, times)) == CompleteNames(EntriesAt(t, base, times))
  {
    var from := DirOf(work, id) + [Tail(id)];
    StraightIdGoesDown(base, id, Tail(id));
    StraightIdGoesDown(base, id, Partial(Tail(id)));
    StraightIdIsApart(work, base, id);
    BackedUpHolds(t, work, id, gen);
    var t2 := OnlyStore(t, work, id, gen, base, left);
    StoreStrays(BackedUp(t, work, id, gen), from, base, DirOf(base, id), Tail(id), times, t2);
    BackingUpKeeps(t, work, id, gen, base, times);
    DroppingKeepsCompletes(t2, from, base, times);
  }

  /** The way from the destination to such a generation: its first component is an entry of the destination. */
  function Below(id: string): Path
    requires Front(id) != []
  {
    Front(id)[1..] + [Tail(id)]
  }

  /** A store that really copied: the new files are there, and the way to them is free of plain files. */
  lemma StoredFiles(t: Files, from: Path, dir: Path, name: string, t': Files, p: Path, k: nat)
    requires LocalStore(t, from, dir, name) == Some(t') && dir + [name] + [META] !in t
    requires Apart(from, dir + [Partial(name)]) && p in Placed(Under(t, from)) && k <= |dir|
    ensures dir + [name] + p in t' && t'[dir + [name] + p] == Placed(Under(t, from))[p]
    ensures dir[..k] !in t'
  {
    var at, partial, src := dir + [name], dir + [Partial(name)], Under(t, from);
    StoreIsMove(t, from, dir, name);
    UnderApart(t, from, partial);
    MovedAt(t, partial, src, at, at + p);
    assert (at + p)[..|at|] == at && (at + p)[|at|..] == p;
    MovedAt(t, partial, src, at, dir[..k]);
    assert partial[..k] == dir[..k];
  }

  /** The stretch of `dir` below `base`, entered by its first component. */
  lemma FileOfEntry(t: Files, base: Path, way: Path, name: string, p: Path, times: string -> int)
    requires way != [] && base + way + [name] + p in t && base + [way[0]] !in t
    ensures var e := EntriesAt(t, base, times); var q := way[1..] + [name] + p;
            HasDir(e, way[0]) && q in e[way[0]].files && e[way[0]].files[q] == t[base + way + [name] + p]
  {
    var q := way[1..] + [name] + p;
    assert base + way + [name] + p == base + [way[0]] + q;
    EntryAt(t, base, times, way[0], q);
    UnderAt(t, base + [way[0]], q);
  }

  lemma MetaStaysAway(t: Files, work: Path, id: string, gen: Files, at: Path)
    requires Apart(DirOf(work, id) + [Tail(id)], at) && at + [META] !in t
    ensures at + [META] !in BackedUp(t, work, id, gen)
  {
    assert IsBelow(at, at) && IsBelow(at + [META], at);
    if IsBelow(at + [META], DirOf(work, id) + [Tail(id)]) {
      BelowTwice(at + [META], at, DirOf(work, id) + [Tail(id)]);
    }
    ElsewhereStays(t, work, id, gen, at + [META]);
  }

  /** All of the generation is below the first component of its id. */
  lemma SlashedIdIsBelow(t: Files, work: Path, id: string, gen: Files, base: Path, times: string -> int, left: Files,
                         p: Path)
    requires RunOn(t, work, id, gen, [base]) == Some(left) && [META] in gen && [] !in gen && p in Placed(gen)
    requires Root(id) == "" && Front(id) != [] && ".." !in Front(id) && Apart(work, base)
    requires base + Front(id) + [Tail(id)] + [META] !in t
    ensures var e, head := EntriesAt(left, base, times), Front(id)[0];
            && HasDir(e, head)
            && Below(id) + p in e[head].files && e[head].files[Below(id) + p] == Placed(gen)[p]
  {
    var from, dir := DirOf(work, id) + [Tail(id)], base + Front(id);
    StraightIdGoesDown(base, id, Tail(id));
    StraightIdIsApart(work, base, id);
    var t2 := CopiedBy(t, work, id, gen, base, left, p, |base| + 1);
    assert dir[..|base| + 1] == base + [Front(id)[0]];
    AwayFromRun(from, dir + [Tail(id)], p);
    FileOfEntry(left, base, Front(id), Tail(id), p, times);
  }

  lemma StraightIdIsApart(work: Path, base: Path, id: string)
    requires Root(id) == "" && ".." !in Front(id) && Apart(work, base)
    ensures var from := DirOf(work, id) + [Tail(id)];
            && Apart(from, base) && Apart(from, DirOf(base, id) + [Tail(id)])
            && Apart(from, DirOf(base, id) + [Partial(Tail(id))])
  {
    StraightIdGoesDown(base, id, Tail(id));
    StraightIdGoesDown(base, id, Partial(Tail(id)));
    StraightIdGoesDown(work, id, Tail(id));
    assert IsBelow(base, base);
    ApartBelow(work, base, DirOf(work, id) + [Tail(id)], base);
    ApartBelow(work, base, DirOf(work, id) + [Tail(id)], DirOf(base, id) + [Tail(id)]);
    ApartBelow(work, base, DirOf(work, id) + [Tail(id)], DirOf(base, id) + [Partial(Tail(id))]);
  }

  /** The store of a run with one destination really copied. */
  lemma CopiedBy(t: Files, work: Path, id: string, gen: Files, base: Path, left: Files, p: Path, k: nat)
    returns (t2: Files)
    requires RunOn(t, work, id, gen, [base]) == Some(left) && [META] in gen && [] !in gen && p in Placed(gen)
    requires Apart(DirOf(work, id) + [Tail(id)], DirOf(base, id) + [Tail(id)])
    requires Apart(DirOf(work, id) + [Tail(id)], DirOf(base, id) + [Partial(Tail(id))])
    requires DirOf(base, id) + [Tail(id)] + [META] !in t && k <= |DirOf(base, id)|
    ensures left == Without(t2, DirOf(work, id) + [Tail(id)]) && DirOf(base, id)[..k] !in t2
    ensures var q := DirOf(base, id) + [Tail(id)] + p; q in t2 && t2[q] == Placed(gen)[p]
  {
    BackedUpHolds(t, work, id, gen);
    MetaStaysAway(t, work, id, gen, DirOf(base, id) + [Tail(id)]);
    t2 := OnlyStore(t, work, id, gen, base, left);
    StoredFiles(BackedUp(t, work, id, gen), DirOf(work, id) + [Tail(id)], DirOf(base, id), Tail(id), t2, p, k);
  }

  lemma AwayFromRun(from: Path, at: Path, p: Path)
    requires Apart(from, at)
    ensures !IsBelow(at + p, from)
  {
    assert IsBelow(at + p, at);
    if IsBelow(at + p, from) { BelowTwice(at + p, at, from); }
  }

  /**
   So the run ends without an error, no newest `keep` that counts the generation is met, and once the first
   component of its id has expired as an incomplete generation a purge removes it.
   */
  lemma SlashedIdIsLost(t: Files, work: Path, id: string, gen: Files, base: Path, times: string -> int, left: Files,
                        keep: nat, order: seq<string>, terms: Terms)
    requires RunOn(t, work, id, gen, [base]) == Some(left) && [META] in gen && [] !in gen
    requires Root(id) == "" && Front(id) != [] && ".." !in Front(id) && Apart(work, base)
    requires base + Front(id) + [Tail(id)] + [META] !in t && Enumerates(order, EntriesAt(left, base, times).Keys)
    ensures var e, head := EntriesAt(left, base, times), Front(id)[0];
            && HasDir(e, head)
            && (!Complete(e, head) && !Spared(Row(head, e[head]), terms) ==>
                  head !in Survivors(e, PlanFor(order, e, keep, terms).delete))
  {
    var e, head := EntriesAt(left, base, times), Front(id)[0];
    assert [META] in Placed(gen);
    SlashedIdIsBelow(t, work, id, gen, base, times, left, [META]);
    if !Complete(e, head) && !Spared(Row(head, e[head]), terms) {
      var planned := Row(head, e[head]).id;
      assert Expired(e, head, terms);
      DeletedIds(order, e, keep, terms, planned);
      if Suffixed(head) { StripRoundTrip(head); }
      assert Covers(planned, head);
    }
  }

  /** Nothing is below `base`, and no plain file is on the way to it. */
  ghost predicate Empty(t: Files, base: Path) {
    forall q :: IsBelow(q, base) || IsBelow(base, q) ==> q !in t
  }

  /** Storing at an empty destination raises nothing. */
  lemma EmptyTakesAll(t: Files, from: Path, base: Path, dir: Path, name: string)
    requires Empty(t, base) && IsBelow(dir + [name], base) && IsBelow(dir + [Partial(name)], base)
    requires Apart(from, dir + [Partial(name)]) && Under(t, from) != map[]
    ensures LocalStore(t, from, dir, name).Some?
  {
    ClearWay(t, base, dir + [Partial(name)]);
    UnderApart(t, from, dir + [Partial(name)]);
    ClearTarget(t, Under(t, from), base, dir, name);
  }

  lemma BackingUpElsewhere(t: Files, work: Path, id: string, gen: Files, base: Path)
    requires Empty(t, base) && Apart(DirOf(work, id) + [Tail(id)], base)
    ensures Empty(BackedUp(t, work, id, gen), base)
  {
    var from := DirOf(work, id) + [Tail(id)];
    forall q | IsBelow(q, base) || IsBelow(base, q) ensures q !in BackedUp(t, work, id, gen) {
      if IsBelow(q, from) {
        if IsBelow(base, q) { BelowTransitive(base, q, from); } else { BelowTwice(q, base, from); }
      }
      ElsewhereStays(t, work, id, gen, q);
    }
  }

  /** A run over one empty destination raises nothing, wherever its id leads below it. */
  lemma StraightRunSucceeds(t: Files, work: Path, id: string, gen: Files, base: Path)
    requires [META] in gen && [] !in gen && Root(id) == "" && ".." !in Front(id) && Apart(work, base)
    requires Empty(t, base)
    ensures RunOn(t, work, id, gen, [base]).Some?
  {
    BackedUpHolds(t, work, id, gen);
    StraightIdIsApart(work, base, id);
    BackingUpElsewhere(t, work, id, gen, base);
    StraightIdGoesDown(base, id, Tail(id));
    StraightIdGoesDown(base, id, Partial(Tail(id)));
    assert Under(BackedUp(t, work, id, gen), DirOf(work, id) + [Tail(id)]) == gen != map[];
    EmptyTakesAll(BackedUp(t, work, id, gen), DirOf(work, id) + [Tail(id)], base, DirOf(base, id), Tail(id));
    RunOfOne(t, work, id, gen, base);
  }

  lemma RunOfOne(t: Files, work: Path, id: string, gen: Files, base: Path)
    requires LocalStore(BackedUp(t, work, id, gen), DirOf(work, id) + [Tail(id)], DirOf(base, id), Tail(id)).Some?
    ensures RunOn(t, work, id, gen, [base]).Some?
  {
    assert DirsOf([base], id) == [DirOf(base, id)];
    OneStore(BackedUp(t, work, id, gen), DirOf(work, id) + [Tail(id)], DirOf(base, id), Tail(id));
  }

  lemma OneStore(t: Files, from: Path, dir: Path, name: string)
    requires LocalStore(t, from, dir, name).Some?
    ensures StoreAll(t, from, [dir], name).Some?
  {
    var t' := LocalStore(t, from, dir, name).value;
    assert StoreAll(t', from, [], name) == Some(t');
    assert [dir][1..] == [];
  }

  lemma ClearWay(t: Files, base: Path, at: Path)
    requires IsBelow(at, base) && Empty(t, base)
    ensures !Obstructed(t, at)
  {
    forall k | 0 <= k <= |at| ensures at[..k] !in t {
      if k <= |base| { assert at[..k] == base[..k]; } else { assert at[..k][..|base|] == at[..|base|]; }
    }
  }

  lemma ClearTarget(t: Files, src: Files, base: Path, dir: Path, name: string)
    requires IsBelow(dir + [name], base) && Empty(t, base)
    ensures Under(Filled(t, dir + [Partial(name)], src), dir + [name]) == map[]
  {
    var at, partial := dir + [name], dir + [Partial(name)];
    forall p ensures p !in Under(Filled(t, partial, src), at) {
      UnderAt(Filled(t, partial, src), at, p);
      NestedAt(partial, Placed(src), at + p);
      assert IsBelow(at + p, at);
      BelowTransitive(at + p, at, base);
      TwoEntries(dir, name, Partial(name), at + p);
    }
  }

  /**
   The prefix decides. For one that never goes up, and a destination apart from the work directory, a run that raised
   nothing leaves its generation listed as complete exactly when the prefix is relative and has nothing but dots before
   its last slash.
   */
  lemma PrefixDecides(prefix: string, now: DateTime, t: Files, work: Path, gen: Files, base: Path,
                      times: string -> int, left: Files)
    requires InRange(now) && ".." !in Front(prefix) && Apart(work, base) && [META] in gen && [] !in gen
    requires var id := GenerateBackupId(prefix, now).value;
             RunOn(t, work, id, gen, [base]) == Some(left) && base + [Tail(id)] + [META] !in t
    ensures var entry, e := Tail(GenerateBackupId(prefix, now).value), EntriesAt(left, base, times);
            && (entry in CompleteNames(e) <==> Root(prefix) == "" && Front(prefix) == [])
            && (entry in CompleteNames(e) ==> Committed(e, entry, gen))
  {
    IdsLeadBelowPrefix(prefix, now);
    StraightIdListedIff(t, work, GenerateBackupId(prefix, now).value, gen, base, times, left);
  }

  /** A prefix with a leading slash: whatever the destinations, the run raises nothing and keeps nothing. */
  lemma AbsolutePrefixLosesAll(prefix: string, now: DateTime, t: Files, work: Path, gen: Files, bases: seq<Path>)
    requires InRange(now) && Root(prefix) != "" && [META] in gen
    ensures var id := GenerateBackupId(prefix, now).value; var from := DirOf(work, id) + [Tail(id)];
            && RunOn(t, work, id, gen, bases).Some?
            && forall q :: q in RunOn(t, work, id, gen, bases).value ==> q in t && !IsBelow(q, from)
  {
    IdsLeadBelowPrefix(prefix, now);
    AbsoluteIdsAreLost(t, work, GenerateBackupId(prefix, now).value, gen, bases);
  }
}
