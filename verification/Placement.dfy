/**
 The placement protocol on one local destination, as a labelled transition system. A step is one
 file-system effect of `store` or `delete`; `Stop` is an error return or a crash between two effects.
 */
module Placement {
  import opened Paths
  import opened Layout

  datatype Dest = Dest(present: bool, entries: Entries)

  /**
   A destination with its bookkeeping: `promised` records what each complete generation must hold,
   `tainted` the entries whose deletion has begun since they were last committed.
   */
  datatype Disk = Disk(dir: Dest, promised: map<string, Files>, tainted: set<string>)

  /** Where the single writer stands. */
  datatype Op =
    | Idle
    | Clearing(id: string, src: Files)                   // final not complete; stale partial being removed
    | Copying(id: string, src: Files, todo: set<Path>)   // `todo` still missing from the partial directory
    | Sealed(id: string, src: Files)                     // the partial directory is finished
    | Spoiled(id: string)                                // a copy failed; the store will be reported failed
    | Deleting(id: string)

  datatype Act =
    | BeginStore(id: string, src: Files)
    | MakeRoot
    | UnlinkStale(path: Path, time: int)
    | DropStale
    | MakePartial(time: int)
    | CopyFile(path: Path, time: int)
    | Spoil(path: Path, garbage: string, time: int)
    | Seal(time: int)
    | Commit
    | BeginDelete(id: string)
    | Unlink(name: string, path: Path, time: int)
    | RemoveEntry(name: string)
    | RemoveRoot
    | Stop

  datatype Cfg = Cfg(op: Op, disk: Disk)

  /** Generation ids that are one path component and cannot be taken for a partial directory. */
  predicate PlainId(id: string) { !Suffixed(id) && !Degenerate(id) && '/' !in id }

  /** Ids that lead from a directory to one entry of it, the one named by the tail of the id. */
  predicate EntryId(id: string) { Root(id) == "" && Front(id) == [] && PlainId(Tail(id)) }

  function Partial(id: string): string { id + PARTIAL }

  predicate HasDir(e: Entries, n: string) { n in e && e[n].Dir? }

  predicate Vacant(e: Entries, n: string) {
    n in e ==> e[n].Dir? && e[n].files == map[]
  }

  predicate Enabled(c: Cfg, a: Act) {
    var e := c.disk.dir.entries;
    match a
    case BeginStore(id, src) => c.op.Idle? && PlainId(id) && !(id in e && HasMeta(e[id]))
    case MakeRoot => c.op.Clearing?
    case UnlinkStale(p, _) => c.op.Clearing? && HasDir(e, Partial(c.op.id)) && p in e[Partial(c.op.id)].files
    case DropStale => c.op.Clearing? && HasDir(e, Partial(c.op.id)) && e[Partial(c.op.id)].files == map[]
    case MakePartial(_) => c.op.Clearing? && c.disk.dir.present && Partial(c.op.id) !in e
    case CopyFile(p, _) => c.op.Copying? && p in c.op.todo && p in c.op.src && HasDir(e, Partial(c.op.id))
    case Spoil(_, _, _) => (c.op.Copying? || c.op.Spoiled?) && HasDir(e, Partial(c.op.id))
    case Seal(_) => c.op.Copying? && c.op.todo == {} && HasDir(e, Partial(c.op.id))
    case Commit => c.op.Sealed? && HasDir(e, Partial(c.op.id)) && Vacant(e, c.op.id)
    case BeginDelete(_) => c.op.Idle?
    case Unlink(n, p, _) => c.op.Deleting? && Covers(c.op.id, n) && HasDir(e, n) && p in e[n].files
    case RemoveEntry(n) => c.op.Deleting? && Covers(c.op.id, n) && n in e
      && (Vacant(e, n) || (Degenerate(c.op.id) && e[n].File?))
    case RemoveRoot => c.op.Deleting? && Degenerate(c.op.id) && e == map[]
    case Stop => true
  }

  function WithEntries(k: Disk, e: Entries): Disk { k.(dir := k.dir.(entries := e)) }

  function Apply(c: Cfg, a: Act): Cfg
    requires Enabled(c, a)
  {
    var k := c.disk;
    var e := k.dir.entries;
    match a
    case BeginStore(id, src) => Cfg(Clearing(id, src), k)
    case MakeRoot => Cfg(c.op, k.(dir := k.dir.(present := true)))
    case UnlinkStale(p, t) =>
      var n := Partial(c.op.id);
      Cfg(c.op, WithEntries(k, e[n := Dir(e[n].files - {p}, t)]))
    case DropStale => Cfg(c.op, WithEntries(k, e - {Partial(c.op.id)}))
    case MakePartial(t) =>
      Cfg(Copying(c.op.id, c.op.src, Data(c.op.src).Keys), WithEntries(k, e[Partial(c.op.id) := Dir(map[], t)]))
    case CopyFile(p, t) =>
      var n := Partial(c.op.id);
      Cfg(c.op.(todo := c.op.todo - {p}), WithEntries(k, e[n := Dir(e[n].files[p := c.op.src[p]], t)]))
    case Spoil(p, g, t) =>
      var n := Partial(c.op.id);
      Cfg(Spoiled(c.op.id), WithEntries(k, e[n := Dir(e[n].files[p := g], t)]))
    case Seal(t) =>
      var n := Partial(c.op.id);
      var files := if [META] in c.op.src then e[n].files[[META] := c.op.src[[META]]] else e[n].files;
      Cfg(Sealed(c.op.id, c.op.src), WithEntries(k, e[n := Dir(files, t)]))
    case Commit =>
      var id := c.op.id;
      Cfg(Idle, Disk(k.dir.(entries := (e - {Partial(id)})[id := e[Partial(id)]]),
                     k.promised[id := Placed(c.op.src)], k.tainted - {id}))
    case BeginDelete(id) =>
      Cfg(Deleting(id), k.(tainted := k.tainted + set n | n in e && Covers(id, n)))
    case Unlink(n, p, t) => Cfg(c.op, WithEntries(k, e[n := Dir(e[n].files - {p}, t)]))
    case RemoveEntry(n) => Cfg(c.op, WithEntries(k, e - {n}))
    case RemoveRoot => Cfg(c.op, k.(dir := k.dir.(present := false)))
    case Stop => Cfg(Idle, k)
  }

  ghost predicate Step(c: Cfg, c': Cfg) {
    exists a :: Enabled(c, a) && c' == Apply(c, a)
  }

  // ----- The invariant

  /** A complete generation nobody started to delete holds exactly what was stored. */
  ghost predicate Faithful(k: Disk) {
    forall n :: Complete(k.dir.entries, n) && n !in k.tainted ==>
      n in k.promised && k.dir.entries[n].files == k.promised[n]
  }

  ghost predicate PartialHolds(e: Entries, id: string, files: Files) {
    HasDir(e, Partial(id)) && e[Partial(id)].files == files
  }

  ghost predicate OpInv(op: Op, k: Disk) {
    var e := k.dir.entries;
    match op
    case Idle => true
    case Clearing(id, _) => PlainId(id) && !Complete(e, id)
    case Copying(id, src, todo) =>
      PlainId(id) && !Complete(e, id) && todo <= Data(src).Keys && PartialHolds(e, id, Data(src) - todo)
    case Sealed(id, src) => PlainId(id) && !Complete(e, id) && PartialHolds(e, id, Placed(src))
    case Spoiled(id) => PlainId(id) && !Complete(e, id)
    case Deleting(id) => forall n :: n in e && Covers(id, n) ==> n in k.tainted
  }

  ghost predicate DiskInv(k: Disk) {
    && NoCoexistence(k.dir.entries)
    && NoDotPartial(k.dir.entries)
    && WellNamed(k.dir.entries)
    && Faithful(k)
    && (!k.dir.present ==> k.dir.entries == map[])
  }

  ghost predicate Inv(c: Cfg) {
    DiskInv(c.disk) && OpInv(c.op, c.disk)
  }

  lemma PlainPartial(id: string)
    requires PlainId(id)
    ensures Suffixed(Partial(id)) && Strip(Partial(id)) == id && !Degenerate(Partial(id)) && '/' !in Partial(id)
    ensures forall other :: Degenerate(other) ==> Partial(id) != other + PARTIAL
    ensures forall n :: n + PARTIAL == Partial(id) ==> n == id
  {
    SuffixRoundTrip(id);
    forall n | n + PARTIAL == Partial(id) ensures n == id {
      assert (n + PARTIAL)[..|n|] == n && Partial(id)[..|id|] == id;
    }
  }

  /** Changing a partial directory touches nothing the disk invariant speaks about. */
  lemma PartialChange(k: Disk, id: string, node: Node)
    requires DiskInv(k) && PlainId(id) && !Complete(k.dir.entries, id) && k.dir.present
    ensures DiskInv(WithEntries(k, k.dir.entries[Partial(id) := node]))
    ensures !Complete(k.dir.entries[Partial(id) := node], id)
  {
    PlainPartial(id);
    var e := k.dir.entries;
    var e' := e[Partial(id) := node];
    forall n | Complete(e', n) ensures Complete(e, n) && e'[n] == e[n] && n + PARTIAL !in e' {
      SuffixRoundTrip(n);
    }
  }

  lemma Shrinking(k: Disk, e': Entries)
    requires DiskInv(k) && e'.Keys <= k.dir.entries.Keys
    requires forall n :: Complete(e', n) ==>
      Complete(k.dir.entries, n) && (n in k.tainted || e'[n].files == k.dir.entries[n].files)
    ensures DiskInv(WithEntries(k, e'))
  {}

  lemma StoreStepKeepsInv(c: Cfg, a: Act)
    requires Inv(c) && Enabled(c, a)
    requires a.BeginStore? || a.MakeRoot? || a.UnlinkStale? || a.DropStale? || a.MakePartial?
    ensures Inv(Apply(c, a))
  {
    var k := c.disk;
    var e := k.dir.entries;
    match a {
      case BeginStore(id, src) =>
      case MakeRoot =>
      case UnlinkStale(p, t) =>
        PartialChange(k, c.op.id, Dir(e[Partial(c.op.id)].files - {p}, t));
      case DropStale =>
        Shrinking(k, e - {Partial(c.op.id)});
      case MakePartial(t) =>
        PartialChange(k, c.op.id, Dir(map[], t));
        assert Data(c.op.src) - Data(c.op.src).Keys == map[];
    }
  }

  lemma CopyStepKeepsInv(c: Cfg, a: Act)
    requires Inv(c) && Enabled(c, a)
    requires a.CopyFile? || a.Spoil? || a.Seal?
    ensures Inv(Apply(c, a))
  {
    var k := c.disk;
    var e := k.dir.entries;
    var n := Partial(c.op.id);
    match a {
      case CopyFile(p, t) =>
        PartialChange(k, c.op.id, Dir(e[n].files[p := c.op.src[p]], t));
        assert (Data(c.op.src) - c.op.todo)[p := c.op.src[p]] == Data(c.op.src) - (c.op.todo - {p});
      case Spoil(p, g, t) =>
        PartialChange(k, c.op.id, Dir(e[n].files[p := g], t));
      case Seal(t) =>
        assert Data(c.op.src) - {} == Data(c.op.src);
        PartialChange(k, c.op.id, Dir(Placed(c.op.src), t));
    }
  }

  lemma CommitKeepsInv(c: Cfg)
    requires Inv(c) && Enabled(c, Commit)
    ensures Inv(Apply(c, Commit))
  {
    var id := c.op.id;
    var k, k' := c.disk, Apply(c, Commit).disk;
    var e, e' := k.dir.entries, k'.dir.entries;
    PlainPartial(id);
    forall n | Complete(e', n)
      ensures n + PARTIAL !in e'
      ensures n !in k'.tainted ==> n in k'.promised && e'[n].files == k'.promised[n]
    {
      if n != id {
        assert Complete(e, n);
        if n + PARTIAL == id { SuffixRoundTrip(n); }
      }
    }
  }

  lemma DeleteStepKeepsInv(c: Cfg, a: Act)
    requires Inv(c) && Enabled(c, a)
    requires a.BeginDelete? || a.Unlink? || a.RemoveEntry? || a.RemoveRoot?
    ensures Inv(Apply(c, a))
  {
    var k := c.disk;
    var e := k.dir.entries;
    match a {
      case BeginDelete(id) =>
      case Unlink(n, p, t) => Shrinking(k, e[n := Dir(e[n].files - {p}, t)]);
      case RemoveEntry(n) => Shrinking(k, e - {n});
      case RemoveRoot =>
    }
  }

  /** Every step of the protocol, failing or not, keeps the invariant. */
  lemma StepKeepsInv(c: Cfg, c': Cfg)
    requires Inv(c) && Step(c, c')
    ensures Inv(c')
  {
    var a :| Enabled(c, a) && c' == Apply(c, a);
    match a
    case Stop =>
    case Commit => CommitKeepsInv(c);
    case CopyFile(_, _) => CopyStepKeepsInv(c, a);
    case Spoil(_, _, _) => CopyStepKeepsInv(c, a);
    case Seal(_) => CopyStepKeepsInv(c, a);
    case BeginDelete(_) => DeleteStepKeepsInv(c, a);
    case Unlink(_, _, _) => DeleteStepKeepsInv(c, a);
    case RemoveEntry(_) => DeleteStepKeepsInv(c, a);
    case RemoveRoot => DeleteStepKeepsInv(c, a);
    case _ => StoreStepKeepsInv(c, a);
  }

  ghost predicate Behaviour(cs: seq<Cfg>) {
    && |cs| > 0
    && forall i :: 0 <= i < |cs| - 1 ==> cs[i] == cs[i + 1] || Step(cs[i], cs[i + 1])
  }

  /** Safety over whole runs: from a sound start every reachable state is sound. */
  lemma {:induction false} BehaviourKeepsInv(cs: seq<Cfg>)
    requires Behaviour(cs) && Inv(cs[0])
    ensures forall i :: 0 <= i < |cs| ==> Inv(cs[i])
  {
    if |cs| > 1 {
      var n := |cs| - 1;
      var front := cs[..n];
      BehaviourKeepsInv(front);
      assert Inv(front[n - 1]) && front[n - 1] == cs[n - 1];
      if cs[n - 1] != cs[n] { StepKeepsInv(cs[n - 1], cs[n]); }
      forall i | 0 <= i < |cs| ensures Inv(cs[i]) {
        if i < n { assert front[i] == cs[i]; }
      }
    }
  }

  /** The promise about `n` is the initial one, or a copy of what some store of `n` along the way was given. */
  ghost predicate Given(cs: seq<Cfg>, i: nat, n: string, files: Files)
    requires i < |cs|
  {
    || (n in cs[0].disk.promised && cs[0].disk.promised[n] == files)
    || exists j :: 0 <= j < i && AboutToPlace(cs[j], n, files)
  }

  /** A store of `n` is about to put a copy of its source in place, and `files` is one. */
  ghost predicate AboutToPlace(c: Cfg, n: string, files: Files) {
    c.op.Sealed? && c.op.id == n && Copied(files, c.op.src)
  }

  /** A step either leaves the promise about `n` or makes one, of what is being stored. */
  lemma PromiseSteps(c: Cfg, c': Cfg, n: string)
    requires Step(c, c') && n in c'.disk.promised
    ensures || (n in c.disk.promised && c.disk.promised[n] == c'.disk.promised[n])
            || AboutToPlace(c, n, c'.disk.promised[n])
  {
    var a :| Enabled(c, a) && c' == Apply(c, a);
    if a.Commit? { PlacedIsCopied(c.op.src, Placed(c.op.src)); }
  }

  lemma GivenLater(cs: seq<Cfg>, i: nat, n: string, files: Files)
    requires i + 1 < |cs| && Given(cs, i, n, files)
    ensures Given(cs, i + 1, n, files)
  {}

  lemma GivenNow(cs: seq<Cfg>, i: nat, n: string, files: Files)
    requires 0 < i < |cs| && AboutToPlace(cs[i - 1], n, files)
    ensures Given(cs, i, n, files)
  {}

  lemma PromiseOrigin(cs: seq<Cfg>, i: nat, n: string)
    requires Behaviour(cs) && 0 < i < |cs| && n in cs[i].disk.promised
    ensures || (n in cs[i - 1].disk.promised && cs[i - 1].disk.promised[n] == cs[i].disk.promised[n])
            || AboutToPlace(cs[i - 1], n, cs[i].disk.promised[n])
  {
    assert cs[i - 1] == cs[i - 1 + 1] || Step(cs[i - 1], cs[i - 1 + 1]);
    if cs[i - 1] != cs[i] { PromiseSteps(cs[i - 1], cs[i], n); }
  }

  lemma {:induction false} PromisesAreGiven(cs: seq<Cfg>, i: nat, n: string)
    requires Behaviour(cs) && i < |cs| && n in cs[i].disk.promised
    ensures Given(cs, i, n, cs[i].disk.promised[n])
  {
    if i > 0 {
      var files := cs[i].disk.promised[n];
      PromiseOrigin(cs, i, n);
      if AboutToPlace(cs[i - 1], n, files) {
        GivenNow(cs, i, n, files);
      } else {
        PromisesAreGiven(cs, i - 1, n);
        GivenLater(cs, i - 1, n, files);
      }
    }
  }

  /** The partial directory of `n` was renamed in this step. */
  ghost predicate JustPlaced(c: Cfg, c': Cfg, n: string) {
    c.op.Sealed? && c.op.id == n && n + ".partial" in c.disk.dir.entries && n + ".partial" !in c'.disk.dir.entries
  }

  /** Some deletion that reaches `n` began, or had begun before the first state, and `n` was not placed again since. */
  ghost predicate DeletionBegan(cs: seq<Cfg>, i: nat, n: string)
    requires i < |cs|
    decreases i
  {
    || (cs[i].op.Deleting? && Covers(cs[i].op.id, n))
    || (i == 0 && n in cs[0].disk.tainted)
    || (i > 0 && !JustPlaced(cs[i - 1], cs[i], n) && DeletionBegan(cs, i - 1, n))
  }

  lemma TaintSteps(c: Cfg, c': Cfg, n: string)
    requires Step(c, c') && n in c'.disk.tainted
    ensures (c'.op.Deleting? && Covers(c'.op.id, n)) || (n in c.disk.tainted && !JustPlaced(c, c', n))
  {
    var a :| Enabled(c, a) && c' == Apply(c, a);
  }

  lemma {:induction false} TaintedIsDeleted(cs: seq<Cfg>, i: nat, n: string)
    requires Behaviour(cs) && i < |cs| && n in cs[i].disk.tainted
    ensures DeletionBegan(cs, i, n)
  {
    if i > 0 {
      if cs[i - 1] != cs[i] { TaintSteps(cs[i - 1], cs[i], n); }
      if n in cs[i - 1].disk.tainted { TaintedIsDeleted(cs, i - 1, n); }
    }
  }

  /**
   What an unlocked `list` may see at any moment of any interleaving of store and delete steps: whatever it takes for
   complete has no partial sibling, and all its files unless somebody has begun to delete it since it was placed.
   */
  lemma EveryObservation(cs: seq<Cfg>, i: nat, n: string)
    requires Behaviour(cs) && Inv(cs[0]) && i < |cs| && Complete(cs[i].disk.dir.entries, n)
    ensures n + PARTIAL !in cs[i].disk.dir.entries
    ensures !DeletionBegan(cs, i, n) ==> Given(cs, i, n, cs[i].disk.dir.entries[n].files)
  {
    BehaviourKeepsInv(cs);
    assert Inv(cs[i]);
    if n in cs[i].disk.tainted { TaintedIsDeleted(cs, i, n); } else { PromisesAreGiven(cs, i, n); }
  }
}
