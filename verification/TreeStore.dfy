/** One store on the file tree: the store of an entry in the placement protocol, or files somewhere else. */
module TreeStore {
  import opened Wrappers
  import opened Layout
  import opened Placement
  import opened Recording
  import opened FileTree

  lemma MovedAt(t: Files, partial: Path, src: Files, at: Path, q: Path)
    ensures q in Moved(t, partial, src, at)
            <==> (q in t && !IsBelow(q, partial)) || (IsBelow(q, at) && q[|at|..] in Placed(src))
    ensures !IsBelow(q, at) && q in t && !IsBelow(q, partial) ==> Moved(t, partial, src, at)[q] == t[q]
    ensures IsBelow(q, at) && q[|at|..] in Placed(src) ==> Moved(t, partial, src, at)[q] == Placed(src)[q[|at|..]]
  {
    NestedAt(at, Placed(src), q);
  }

  predicate Apart(a: Path, b: Path) { !IsBelow(a, b) && !IsBelow(b, a) }

  lemma UnderApart(t: Files, from: Path, other: Path)
    requires Apart(from, other)
    ensures Under(Without(t, other), from) == Under(t, from)
  {
    forall p ensures p in Under(Without(t, other), from) <==> p in Under(t, from) {
      UnderAt(t, from, p);
      UnderAt(Without(t, other), from, p);
      assert IsBelow(from + p, from);
      if IsBelow(from + p, other) { BelowTwice(from + p, from, other); }
    }
    forall p | p in Under(t, from) ensures Under(Without(t, other), from)[p] == Under(t, from)[p] {
      UnderAt(t, from, p);
      UnderAt(Without(t, other), from, p);
    }
  }

  /** Both trees hold the same below `at`. */
  ghost predicate SameBelow(t: Files, t': Files, at: Path) {
    forall q :: IsBelow(q, at) ==> (q in t <==> q in t') && (q in t ==> t'[q] == t[q])
  }

  lemma EntryStays(t: Files, t': Files, base: Path, times: string -> int, n: string)
    requires SameBelow(t, t', base + [n])
    ensures Same(EntriesAt(t, base, times), EntriesAt(t', base, times), n)
  {
    var at := base + [n];
    NamesOf(t, base, n);
    NamesOf(t', base, n);
    assert IsBelow(at, at);
    forall p ensures IsBelow(at + p, at) {}
    forall p ensures p in Under(t, at) <==> p in Under(t', at) {
      UnderAt(t, at, p);
      UnderAt(t', at, p);
      assert IsBelow(at + p, at);
    }
    forall p | p in Under(t, at) ensures Under(t, at)[p] == Under(t', at)[p] {
      UnderAt(t, at, p);
      UnderAt(t', at, p);
      assert IsBelow(at + p, at);
    }
    assert Under(t, at) == Under(t', at);
  }

  lemma NamesOf(t: Files, base: Path, n: string)
    ensures n in Names(t, base) <==> exists q :: q in t && IsBelow(q, base + [n])
  {
    if q :| q in t && IsBelow(q, base + [n]) {
      assert q[..|base|] == base + [n][..0] && q[|base|] == n;
    }
    if n in Names(t, base) {
      var q :| q in t && IsBelow(q, base) && |q| > |base| && q[|base|] == n;
      assert q[..|base| + 1] == base + [n];
    }
  }

  lemma ApartFromEntries(from: Path, base: Path, n: string)
    requires Apart(from, base)
    ensures Apart(from, base + [n])
  {
    assert IsBelow(base + [n], base);
    if IsBelow(from, base + [n]) { BelowTransitive(from, base + [n], base); }
    if IsBelow(base + [n], from) { BelowTwice(base + [n], base, from); }
  }

  lemma TwoEntries(base: Path, n: string, m: string, q: Path)
    requires n != m && IsBelow(q, base + [n])
    ensures !IsBelow(q, base + [m])
  {
    assert (base + [n])[|base|] == n && (base + [m])[|base|] == m;
    if IsBelow(q, base + [m]) { BelowTwice(q, base + [n], base + [m]); }
  }

  lemma OtherEntryStays(t: Files, base: Path, name: string, partial: string, src: Files, times: string -> int,
                        n: string)
    requires n != name && n != partial
    ensures Same(EntriesAt(t, base, times),
                 EntriesAt(Moved(t, base + [partial], src, base + [name]), base, times), n)
  {
    var t' := Moved(t, base + [partial], src, base + [name]);
    forall q | IsBelow(q, base + [n])
      ensures (q in t <==> q in t') && (q in t ==> t'[q] == t[q])
    {
      TwoEntries(base, n, name, q);
      TwoEntries(base, n, partial, q);
      MovedAt(t, base + [partial], src, base + [name], q);
    }
    EntryStays(t, t', base, times, n);
  }

  lemma PartialEntryGoes(t: Files, base: Path, name: string, partial: string, src: Files, times: string -> int)
    requires name != partial
    ensures partial !in EntriesAt(Moved(t, base + [partial], src, base + [name]), base, times)
  {
    var t' := Moved(t, base + [partial], src, base + [name]);
    NamesOf(t', base, partial);
    forall q | q in t' && IsBelow(q, base + [partial]) ensures false {
      MovedAt(t, base + [partial], src, base + [name], q);
      TwoEntries(base, partial, name, q);
    }
  }

  lemma NewEntryIsPlaced(t: Files, base: Path, name: string, partial: string, src: Files, times: string -> int, p: Path)
    requires p in Placed(src) && [] !in Placed(src)
    requires Under(Filled(t, base + [partial], src), base + [name]) == map[]
    ensures var e := EntriesAt(Moved(t, base + [partial], src, base + [name]), base, times);
            HasDir(e, name) && e[name].files == Placed(src)
  {
    var at := base + [name];
    var t' := Moved(t, base + [partial], src, at);
    UnderNew(t, base, name, partial, src);
    NamesOf(t', base, name);
    UnderAt(t', at, p);
    assert IsBelow(at + p, at);
    UnderAt(t', at, []);
    assert at + [] == at;
  }

  lemma SameFiles(a: Files, b: Files)
    requires forall p :: (p in a <==> p in b) && (p in b ==> a[p] == b[p])
    ensures a == b
  {}

  lemma UnderNew(t: Files, base: Path, name: string, partial: string, src: Files)
    requires Under(Filled(t, base + [partial], src), base + [name]) == map[]
    ensures Under(Moved(t, base + [partial], src, base + [name]), base + [name]) == Placed(src)
  {
    var got, want := Under(Moved(t, base + [partial], src, base + [name]), base + [name]), Placed(src);
    forall p ensures (p in got <==> p in want) && (p in want ==> got[p] == want[p]) {
      CommittedFile(t, partial, src, base, name, p);
    }
    SameFiles(got, want);
  }

  /**
   Where the id leads to an entry of the destination, the store that the tree sees is the store of that entry in
   the placement protocol.
   */
  lemma StoreAtBase(t: Files, from: Path, base: Path, name: string, times: string -> int, t': Files)
    requires LocalStore(t, from, base, name) == Some(t') && base + [name] + [META] !in t
    requires Apart(from, base) && PlainId(name) && from !in t && from + [META] in t
    ensures var e0, e := EntriesAt(t, base, times), EntriesAt(t', base, times);
            StoreChange(e0, e, name, Under(t, from)) && Committed(e, name, Under(t, from))
  {
    ApartFromEntries(from, base, Partial(name));
    UnderApart(t, from, base + [Partial(name)]);
    StoreIsMove(t, from, base, name);
    PlacedHasMeta(t, from);
    PlainPartial(name);
    CompleteAt(t, base, times, name);
    MoveCommits(t, base, name, Partial(name), Under(t, from), times);
  }

  lemma MoveCommits(t: Files, base: Path, name: string, partial: string, src: Files, times: string -> int)
    requires partial == Partial(name) && [META] in Placed(src) && [] !in Placed(src)
    requires Under(Filled(t, base + [partial], src), base + [name]) == map[]
    ensures var e := EntriesAt(Moved(t, base + [partial], src, base + [name]), base, times);
            Committed(e, name, src) && SameBut(EntriesAt(t, base, times), e, {name, partial})
  {
    assert |name| < |partial|;
    NewEntryIsPlaced(t, base, name, partial, src, times, [META]);
    PartialEntryGoes(t, base, name, partial, src, times);
    OthersStay(t, base, name, partial, src, times);
  }

  lemma OthersStay(t: Files, base: Path, name: string, partial: string, src: Files, times: string -> int)
    ensures SameBut(EntriesAt(t, base, times),
                    EntriesAt(Moved(t, base + [partial], src, base + [name]), base, times), {name, partial})
  {
    var e0, e := EntriesAt(t, base, times), EntriesAt(Moved(t, base + [partial], src, base + [name]), base, times);
    forall n | n != name && n != partial ensures Same(e0, e, n) {
      OtherEntryStays(t, base, name, partial, src, times, n);
    }
    AllSame(e0, e, name, partial);
  }

  lemma AllSame(e0: Entries, e: Entries, a: string, b: string)
    requires forall n :: n != a && n != b ==> Same(e0, e, n)
    ensures SameBut(e0, e, {a, b})
  {
    forall n | n !in {a, b} ensures (n in e0 <==> n in e) && (n in e ==> e[n] == e0[n]) { assert Same(e0, e, n); }
  }

  lemma StoreIsMove(t: Files, from: Path, dir: Path, name: string)
    requires LocalStore(t, from, dir, name).Some?
    requires LocalStore(t, from, dir, name).value != t || dir + [name] + [META] !in t
    ensures var src := Under(Without(t, dir + [Partial(name)]), from);
            && LocalStore(t, from, dir, name) == Some(Moved(t, dir + [Partial(name)], src, dir + [name]))
            && Under(Filled(t, dir + [Partial(name)], src), dir + [name]) == map[]
  {}

  lemma PlacedHasMeta(t: Files, from: Path)
    requires from !in t && from + [META] in t
    ensures [META] in Under(t, from) && [] !in Under(t, from)
    ensures [META] in Placed(Under(t, from)) && [] !in Placed(Under(t, from))
  {
    UnderAt(t, from, []);
    UnderAt(t, from, [META]);
    assert from + [] == from;
  }

  lemma CommittedFile(t: Files, partial: string, src: Files, base: Path, name: string, p: Path)
    requires Under(Filled(t, base + [partial], src), base + [name]) == map[]
    ensures var t' := Moved(t, base + [partial], src, base + [name]);
            && (p in Under(t', base + [name]) <==> p in Placed(src))
            && (p in Placed(src) ==> Under(t', base + [name])[p] == Placed(src)[p])
  {
    var at := base + [name];
    UnderAt(Moved(t, base + [partial], src, at), at, p);
    MovedAt(t, base + [partial], src, at, at + p);
    assert (at + p)[..|at|] == at && (at + p)[|at|..] == p;
    UnderAt(Filled(t, base + [partial], src), at, p);
  }

  /** Where it leads elsewhere, the destination lists the complete generations it listed before. */
  lemma StoreStrays(t: Files, from: Path, base: Path, dir: Path, name: string, times: string -> int, t': Files)
    requires LocalStore(t, from, dir, name) == Some(t') && dir != base && from !in t
    requires !IsBelow(base, dir + [name]) && !IsBelow(base, dir + [Partial(name)])
    ensures CompleteNames(EntriesAt(t', base, times)) == CompleteNames(EntriesAt(t, base, times))
  {
    if t' != t {
      var src := Under(Without(t, dir + [Partial(name)]), from);
      StoreIsMove(t, from, dir, name);
      UnderAt(Without(t, dir + [Partial(name)]), from, []);
      assert from + [] == from && [] !in src;
      MetaIsNoPartial(name);
      forall n ensures n in CompleteNames(EntriesAt(t', base, times)) <==> n in CompleteNames(EntriesAt(t, base, times))
      {
        CompleteAt(t, base, times, n);
        CompleteAt(t', base, times, n);
        NoLongerPath(t, Partial(name), src, dir, name, base, n, META);
      }
    }
  }

  lemma CompleteAt(t: Files, base: Path, times: string -> int, n: string)
    ensures n in CompleteNames(EntriesAt(t, base, times))
            <==> !Suffixed(n) && base + [n] !in t && base + [n] + [META] in t
  {
    UnderAt(t, base + [n], [META]);
    if base + [n] + [META] in t { EntryAt(t, base, times, n, [META]); }
  }

  lemma NoLongerPath(t: Files, partial: string, src: Files, dir: Path, name: string, base: Path, n: string, m: string)
    requires dir != base && !IsBelow(base, dir + [name]) && !IsBelow(base, dir + [partial]) && m != partial
    requires [] !in src
    ensures var t' := Moved(t, dir + [partial], src, dir + [name]);
            && (base + [n] in t' <==> base + [n] in t)
            && (base + [n] + [m] in t' <==> base + [n] + [m] in t)
  {
    if IsBelow(base + [n], dir + [name]) { OneDown(base, n, dir, name); }
    if IsBelow(base + [n], dir + [partial]) { OneDown(base, n, dir, partial); }
    if IsBelow(base + [n] + [m], dir + [name]) { TwoDown(base, n, m, dir, name); }
    if IsBelow(base + [n] + [m], dir + [partial]) { TwoDown(base, n, m, dir, partial); }
    Untouched(t, dir + [partial], src, dir + [name], base + [n]);
    Untouched(t, dir + [partial], src, dir + [name], base + [n] + [m]);
  }

  lemma MetaIsNoPartial(name: string)
    ensures META != Partial(name)
  {
    var p := Partial(name);
    assert p[|p| - 1] == PARTIAL[|PARTIAL| - 1] == 'l' && META[|META| - 1] == 'n';
  }

  lemma Untouched(t: Files, partial: Path, src: Files, at: Path, q: Path)
    requires !IsBelow(q, partial) && (IsBelow(q, at) ==> q == at) && [] !in src
    ensures q in Moved(t, partial, src, at) <==> q in t
  {
    MovedAt(t, partial, src, at, q);
    if q == at { assert q[|at|..] == []; }
  }

  lemma OneDown(base: Path, n: string, dir: Path, x: string)
    requires IsBelow(base + [n], dir + [x])
    ensures IsBelow(base, dir + [x]) || dir == base
  {
    var at, q := dir + [x], base + [n];
    if |at| <= |base| {
      assert base[..|at|] == q[..|at|];
    } else {
      assert q == at && q[..|base|] == base && at[..|dir|] == dir;
    }
  }

  lemma TwoDown(base: Path, n: string, m: string, dir: Path, x: string)
    requires IsBelow(base + [n] + [m], dir + [x])
    ensures IsBelow(base, dir + [x]) || dir == base || (base + [n] + [m] == dir + [x] && m == x)
  {
    var at, q := dir + [x], base + [n] + [m];
    if |at| == |q| {
      assert q == at && q[|q| - 1] == m && at[|at| - 1] == x;
    } else {
      assert q[..|at|] == (base + [n])[..|at|];
      OneDown(base, n, dir, x);
    }
  }
}
