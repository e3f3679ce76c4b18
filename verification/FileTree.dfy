/** The node's files by absolute place, and what `run` does to them when no call fails on its own. */
module FileTree {
  import opened Wrappers
  import opened Layout
  import opened Placement
  import opened Paths

  /** `q` is `at` or something below it. */
  predicate IsBelow(q: Path, at: Path) { |at| <= |q| && q[..|at|] == at }

  lemma BelowTwice(q: Path, a: Path, b: Path)
    requires IsBelow(q, a) && IsBelow(q, b)
    ensures IsBelow(a, b) || IsBelow(b, a)
  {
    if |a| <= |b| { assert b[..|a|] == q[..|a|]; } else { assert a[..|b|] == q[..|b|]; }
  }

  lemma BelowTransitive(q: Path, a: Path, b: Path)
    requires IsBelow(q, a) && IsBelow(a, b)
    ensures IsBelow(q, b)
  {
    assert q[..|b|] == a[..|b|];
  }

  function Without(t: Files, at: Path): Files {
    map q | q in t && !IsBelow(q, at) :: t[q]
  }

  function Rest(q: Path, at: Path): (p: Path)
    requires IsBelow(q, at)
    ensures at + p == q
  {
    q[|at|..]
  }

  /** The files below a directory, as seen from it. */
  function Under(t: Files, at: Path): Files {
    map p | p in (set q | q in t && IsBelow(q, at) :: Rest(q, at)) :: t[at + p]
  }

  lemma UnderAt(t: Files, at: Path, p: Path)
    ensures p in Under(t, at) <==> at + p in t
    ensures p in Under(t, at) ==> Under(t, at)[p] == t[at + p]
  {
    if at + p in t { assert IsBelow(at + p, at) && Rest(at + p, at) == p; }
    if p in Under(t, at) {
      var q :| q in t && IsBelow(q, at) && Rest(q, at) == p;
      assert q == at + p;
    }
  }

  lemma NestedAt(at: Path, files: Files, q: Path)
    ensures q in Nested(at, files) <==> IsBelow(q, at) && q[|at|..] in files
    ensures q in Nested(at, files) ==> Nested(at, files)[q] == files[q[|at|..]]
  {
    if IsBelow(q, at) && q[|at|..] in files { assert q == at + q[|at|..]; }
    if q in Nested(at, files) {
      var p :| p in files && at + p == q;
      assert q[|at|..] == p;
    }
  }

  function Names(t: Files, base: Path): set<string> {
    set q | q in t && IsBelow(q, base) && |q| > |base| :: q[|base|]
  }

  /** A directory as `list_backups` walks it; `times` are the modification times of its entries. */
  function EntriesAt(t: Files, base: Path, times: string -> int): Entries {
    map n | n in Names(t, base) :: if base + [n] in t then File else Dir(Under(t, base + [n]), times(n))
  }

  lemma EntryAt(t: Files, base: Path, times: string -> int, n: string, p: Path)
    requires p != [] && base + [n] + p in t
    ensures n in EntriesAt(t, base, times)
    ensures base + [n] !in t ==> HasDir(EntriesAt(t, base, times), n) && p in EntriesAt(t, base, times)[n].files
  {
    var q := base + [n] + p;
    assert IsBelow(q, base) && q[|base|] == n;
    UnderAt(t, base + [n], p);
  }

  // ----- store and run

  /** Some component of the way to `at` is a plain file. */
  predicate Obstructed(t: Files, at: Path) { exists k :: 0 <= k <= |at| && at[..k] in t }

  /** LocalDestination.store where the id leads to `name` in `dir`; None when it raises. */
  function LocalStore(t: Files, from: Path, dir: Path, name: string): Option<Files> {
    var at, partial := dir + [name], dir + [Partial(name)];
    if at + [META] in t then Some(t)
    else
      var src := Under(Without(t, partial), from);
      if Obstructed(t, partial) || src == map[] || Under(Filled(t, partial, src), at) != map[] then None
      else Some(Moved(t, partial, src, at))
  }

  /** Once the partial directory is finished. */
  function Filled(t: Files, partial: Path, src: Files): Files {
    Without(t, partial) + Nested(partial, Placed(src))
  }

  /** Once it has been renamed. */
  function Moved(t: Files, partial: Path, src: Files, at: Path): Files {
    Without(t, partial) + Nested(at, Placed(src))
  }

  function StoreAll(t: Files, from: Path, dirs: seq<Path>, name: string): Option<Files>
    decreases |dirs|
  {
    if dirs == [] then Some(t)
    else
      match LocalStore(t, from, dirs[0], name)
      case None => None
      case Some(t') => StoreAll(t', from, dirs[1..], name)
  }

  /** The directory that holds what `base / id` leads to. */
  function DirOf(base: Path, id: string): Path {
    Walk(if Root(id) == "" then base else [], Front(id))
  }

  /** `base / id` leads to the last component in that directory. */
  lemma DirOfLeads(base: Path, id: string)
    requires IsName(Tail(id)) && Tail(id) != ".."
    ensures Place(base, id) == DirOf(base, id) + [Tail(id)]
    ensures Place(base, id + PARTIAL) == DirOf(base, id) + [Partial(Tail(id))]
  {
    NameIsLast(id);
    AppendedWord(id, PARTIAL);
    AppendedRoot(id, PARTIAL);
    NameIsLast(id + PARTIAL);
    var start := if Root(id) == "" then base else [];
    WalkOfSum(start, Front(id), [Tail(id)]);
    WalkOfSum(start, Front(id), [Partial(Tail(id))]);
    StraightWalk(DirOf(base, id), [Tail(id)]);
    StraightWalk(DirOf(base, id), [Partial(Tail(id))]);
  }

  /** The work directory without the directories of other runs; names are compared with the id as it is. */
  function Cleaned(t: Files, work: Path, id: string): Files {
    map q | q in t && !(IsBelow(q, work) && |q| > |work| + 1 && q[|work|] != id) :: t[q]
  }

  /** The run's directory filled by the backup tool and meta.json. */
  function BackedUp(t: Files, work: Path, id: string, gen: Files): Files {
    var from := DirOf(work, id) + [Tail(id)];
    Without(Cleaned(t, work, id), from) + Nested(from, gen)
  }

  /** `run` up to the purge, over local destinations at `bases`; None when some store raises. */
  function RunOn(t: Files, work: Path, id: string, gen: Files, bases: seq<Path>): Option<Files> {
    var from := DirOf(work, id) + [Tail(id)];
    match StoreAll(BackedUp(t, work, id, gen), from, DirsOf(bases, id), Tail(id))
    case None => None
    case Some(t') => Some(Without(t', from))
  }

  function DirsOf(bases: seq<Path>, id: string): (dirs: seq<Path>)
    ensures |dirs| == |bases|
  {
    seq(|bases|, i requires 0 <= i < |bases| => DirOf(bases[i], id))
  }

  // ----- What the functions mean, file by file

  /** The cleaning removes the files below the work directory's entries of other names, and no other file. */
  lemma CleanedMeans(t: Files, work: Path, id: string, n: string, p: Path, q: Path)
    ensures p != [] ==> (work + [n] + p in Cleaned(t, work, id) <==> work + [n] + p in t && n == id)
    ensures work + [n] in Cleaned(t, work, id) <==> work + [n] in t
    ensures !IsBelow(q, work) ==> (q in Cleaned(t, work, id) <==> q in t)
    ensures q in Cleaned(t, work, id) ==> Cleaned(t, work, id)[q] == t[q]
  {
    assert (work + [n] + p)[..|work|] == work && (work + [n] + p)[|work|] == n && (work + [n])[..|work|] == work;
  }

  /** A store raises exactly when a plain file is on its way, there is nothing to copy, or the final name is taken. */
  lemma StoreRaisesIff(t: Files, from: Path, dir: Path, name: string)
    ensures var at, partial := dir + [name], dir + [name + ".partial"];
            LocalStore(t, from, dir, name).None? <==>
              && at + ["meta.json"] !in t
              && (|| (exists q :: q in t && IsBelow(partial, q))
                  || (forall q :: q in t && IsBelow(q, from) ==> IsBelow(q, partial))
                  || (exists q :: q in t && IsBelow(q, at)))
  {
    var at, partial := dir + [name], dir + [Partial(name)];
    var src := Under(Without(t, partial), from);
    ObstructedMeans(t, partial);
    NothingUnder(Without(t, partial), from);
    NothingUnder(Filled(t, partial, src), at);
    assert at[|dir|] == name && partial[|dir|] == Partial(name);
    forall q | IsBelow(q, at) ensures !IsBelow(q, partial) {
      if IsBelow(q, partial) { BelowTwice(q, at, partial); }
    }
    forall q | IsBelow(q, at) ensures q in Filled(t, partial, src) <==> q in t { NestedAt(partial, Placed(src), q); }
  }

  lemma ObstructedMeans(t: Files, at: Path)
    ensures Obstructed(t, at) <==> exists q :: q in t && IsBelow(at, q)
  {
    if q :| q in t && IsBelow(at, q) { assert at[..|q|] == q; }
    if k :| 0 <= k <= |at| && at[..k] in t { assert IsBelow(at, at[..k]); }
  }

  lemma NothingUnder(t: Files, at: Path)
    ensures Under(t, at) == map[] <==> forall q :: q in t ==> !IsBelow(q, at)
  {
    if q :| q in t && IsBelow(q, at) {
      assert at + Rest(q, at) == q;
      UnderAt(t, at, Rest(q, at));
    }
    if Under(t, at) != map[] {
      var p :| p in Under(t, at);
      UnderAt(t, at, p);
      assert IsBelow(at + p, at);
    }
  }
}
