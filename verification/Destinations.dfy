/**
 The node that runs the pipeline: its work directory and its destination directories. Every effect goes through
 `Do` or `SetWork`, which record it in the ghost `past`; `faults` logs the errors that operations report and
 `hitches` counts the file-system calls that failed.
 */
module Destinations {
  import opened Wrappers
  import opened Retention
  import opened Layout
  import opened Placement
  import opened Paths
  import opened Recording

  datatype Fault = StoreFault(dest: nat) | ListFault(dest: nat) | DeleteFault(dest: nat, id: string)

  /**
   The entry `name` was absent or an empty directory, and is now a copy of `src`; no partial directory is left, and
   no other entry has changed.
   */
  ghost predicate StoredWhole(e0: Entries, e: Entries, name: string, src: Files) {
    && (name in e0 ==> e0[name].Dir? && e0[name].files == map[])
    && name in e && e[name].Dir? && Copied(e[name].files, src)
    && name + ".partial" !in e
    && forall n :: n != name && n != name + ".partial" ==> (n in e <==> n in e0) && (n in e ==> e[n] == e0[n])
  }

  lemma CommittedIsWhole(e0: Entries, e: Entries, name: string, src: Files)
    requires Committed(e, name, src) && StoreChange(e0, e, name, src) && Vacant(e0, name)
    ensures StoredWhole(e0, e, name, src)
  {
    PlacedIsCopied(src, e[name].files);
  }

  /** rmtree of the destination's parent takes the destination with it and then fails. */
  predicate GoesUp(dest: Dest, id: string) { id == ".." && dest.present }

  /** Names of directory entries hold no slash. */
  ghost predicate PlainNames(work: map<string, Files>) {
    forall n :: n in work ==> '/' !in n
  }

  class Host {
    var work: map<string, Files>   // directories below work_dir
    var dests: seq<Dest>           // one directory per configured destination
    ghost var past: Past
    ghost var faults: seq<Fault>
    ghost var hitches: nat         // file-system calls that have failed so far

    ghost predicate Valid()
      reads `work, `dests, `past
    {
      && Linked(past) && past.now.work == work && Shows(past.now, dests) && PlainNames(work)
    }

    ghost predicate Resting()
      reads `work, `dests, `past
    {
      Valid() && past.now.op.Idle?
    }

    /** Any directories without coexisting siblings will do; what they hold is what they promise. */
    constructor (work: map<string, Files>, dests: seq<Dest>)
      requires PlainNames(work) && forall d :: 0 <= d < |dests| ==> Sound(dests[d])
      ensures Resting() && this.work == work && this.dests == dests && faults == [] && hitches == 0 && past.First?
    {
      this.work := work;
      this.dests := dests;
      this.faults, this.hitches := [], 0;
      var disks := seq(|dests|, d requires 0 <= d < |dests| =>
        Disk(dests[d], map n | n in dests[d].entries && dests[d].entries[n].Dir? :: dests[d].entries[n].files, {}));
      this.past := First(World(work, disks, 0, Idle));
    }

    // ----- Single effects

    /** Whether the next file-system call fails. */
    method Fails() returns (fails: bool)
      modifies this`hitches
      ensures hitches == if fails then old(hitches) + 1 else old(hitches)
    {
      fails := *;
      if fails { hitches := hitches + 1; }
    }

    /** One effect on destination `d`, justified by the protocol action `a`. */
    method Do(d: nat, dir: Dest, ghost a: Act)
      requires Valid() && d < |dests| && (past.now.op.Idle? || past.now.at == d)
      requires Enabled(Cfg(past.now.op, past.now.disks[d]), a)
      requires Apply(Cfg(past.now.op, past.now.disks[d]), a).disk.dir == dir
      modifies this`dests, this`past
      ensures Valid()
      ensures dests == old(dests)[d := dir]
      ensures past == Then(old(past), NextWorld(old(past).now, d, a))
    {
      ghost var w := past.now;
      ghost var w' := NextWorld(w, d, a);
      NextWorldFollows(w, d, a);
      LinkedExtends(past, w');
      dests := dests[d := dir];
      past := Then(past, w');
    }

    /** One effect on the work directory. */
    method SetWork(work': map<string, Files>)
      requires Resting() && PlainNames(work')
      modifies this`work, this`past
      ensures Resting() && work == work'
      ensures past == Then(old(past), old(past).now.(work := work'))
    {
      LinkedExtends(past, past.now.(work := work'));
      work := work';
      past := Then(past, past.now.(work := work'));
    }

    // ----- store

    /** The store of `id` at `d`, begun at the moment `mark`, is under way. */
    ghost predicate Storing(mark: Past, d: nat, id: string)
      reads `work, `dests, `past
    {
      && Valid() && d < |dests| && mark.now.op.Idle? && d < |mark.now.disks|
      && StoringOn(mark, past, d, id)
    }

    /** An effect of `store` before the rename. */
    method DoStore(d: nat, dir: Dest, ghost a: Act, ghost op': Op, ghost id: string, ghost mark: Past)
      requires Storing(mark, d, id) && StoreOp(op', id)
      requires Leads(Cfg(past.now.op, past.now.disks[d]), a, op', dir)
      modifies this`dests, this`past
      ensures Storing(mark, d, id)
      ensures past.now.op == op' && dests[d] == dir
    {
      Do(d, dir, a);
    }

    method StartStore(d: nat, src: Files, id: string)
      requires Resting() && d < |dests| && PlainId(id) && !(id in dests[d].entries && HasMeta(dests[d].entries[id]))
      modifies this`dests, this`past
      ensures Storing(old(past), d, id)
      ensures past.now.op == Clearing(id, src) && dests == old(dests)
    {
      Do(d, dests[d], BeginStore(id, src));
    }

    /**
     LocalDestination.store: partial directory, data, meta.json last, rename. The tail of the id names the entry that
     the id leads to.
     */
    method Store(d: nat, src: Files, id: string) returns (ok: bool)
      requires Resting() && d < |dests| && EntryId(id)
      modifies this`dests, this`past, this`faults, this`hitches
      ensures Resting() && |dests| == |old(dests)|
      ensures faults == if ok then old(faults) else old(faults) + [StoreFault(d)]
      ensures StoringSince(old(past), past, d, Tail(id), src)
      ensures Complete(old(dests)[d].entries, Tail(id)) ==> ok && past == old(past)
      ensures ok && !Complete(old(dests)[d].entries, Tail(id)) ==>
        && Committed(dests[d].entries, Tail(id), src)
        && StoredWhole(old(dests)[d].entries, dests[d].entries, Tail(id), src)
      ensures !ok ==> Same(old(dests)[d].entries, dests[d].entries, Tail(id))
      ensures Blocked(old(dests)[d].entries, Tail(id)) ==> !ok
      ensures old(hitches) <= hitches && (!ok ==> hitches > old(hitches) || Blocked(old(dests)[d].entries, Tail(id)))
    {
      var e0, name := dests[d].entries, Tail(id);
      if name in e0 && HasMeta(e0[name]) {
        return true;
      }
      ghost var mark := past;
      StartStore(d, src, name);
      ok := FillPartial(d, src, name, mark);
      ok := Rename(d, src, name, ok, e0, mark);
      if ok { CommittedIsWhole(e0, dests[d].entries, name, src); }
    }

    /** The last effect of `store`, or its error return. */
    method Rename(d: nat, src: Files, id: string, filled: bool, ghost e0: Entries, ghost mark: Past) returns (ok: bool)
      requires Storing(mark, d, id) && mark.now.disks[d].dir.entries == e0
      requires filled ==> past.now.op == Sealed(id, src)
      modifies this`dests, this`past, this`faults, this`hitches
      ensures Resting()
      ensures faults == if ok then old(faults) else old(faults) + [StoreFault(d)]
      ensures StoringSince(mark, past, d, id, src)
      ensures if ok then Committed(dests[d].entries, id, src) else Same(e0, dests[d].entries, id)
      ensures ok ==> filled && Vacant(e0, id)
      ensures old(hitches) <= hitches && (!ok ==> !filled || hitches > old(hitches) || !Vacant(e0, id))
    {
      var fails := Fails();
      ok := filled && !fails && Vacant(dests[d].entries, id);
      if ok {
        CommitPartial(d, src, id, mark);
      } else {
        AbandonPartial(d, src, id, mark);
        faults := faults + [StoreFault(d)];
      }
    }

    method CommitPartial(d: nat, src: Files, id: string, ghost mark: Past)
      requires Storing(mark, d, id) && past.now.op == Sealed(id, src) && Vacant(dests[d].entries, id)
      modifies this`dests, this`past
      ensures Resting()
      ensures StoringSince(mark, past, d, id, src)
      ensures Committed(dests[d].entries, id, src) && Vacant(mark.now.disks[d].dir.entries, id)
    {
      StoreSegments(mark, past, d, id, src);
      SoundThroughout(past, past);
      var e := dests[d].entries;
      assert PartialHolds(past.now.disks[d].dir.entries, id, Placed(src));
      var dir := dests[d].(entries := (e - {Partial(id)})[id := e[Partial(id)]]);
      CommitFollows(mark.now, past.now, d, id, src, dir);
      Do(d, dir, Commit);
    }

    method AbandonPartial(d: nat, src: Files, id: string, ghost mark: Past)
      requires Storing(mark, d, id)
      modifies this`dests, this`past
      ensures Resting()
      ensures StoringSince(mark, past, d, id, src)
      ensures Same(mark.now.disks[d].dir.entries, dests[d].entries, id) && dests == old(dests)
    {
      StoreSegments(mark, past, d, id, src);
      FillingIsStoring(mark.now, past.now, d, id, src);
      Do(d, dests[d], Stop);
    }

    /** Everything `store` does before the rename; returns whether the partial directory is finished. */
    method FillPartial(d: nat, src: Files, id: string, ghost mark: Past) returns (ok: bool)
      requires Storing(mark, d, id) && past.now.op == Clearing(id, src)
      modifies this`dests, this`past, this`hitches
      ensures Storing(mark, d, id)
      ensures ok ==> past.now.op == Sealed(id, src)
      ensures old(hitches) <= hitches && (!ok ==> hitches > old(hitches) || PartialIsFile(old(dests)[d].entries, id))
      ensures PartialIsFile(old(dests)[d].entries, id) ==> !ok
    {
      var fails := Fails();
      if fails { return false; }                            // mkdir of the destination fails
      DoStore(d, dests[d].(present := true), MakeRoot, Clearing(id, src), id, mark);
      ok := RemoveStale(d, src, id, mark);
      fails := Fails();
      if !ok || fails { return false; }
      ok := CopyGeneration(d, src, id, mark);
    }

    /** Makes the partial directory and fills it: the data first, meta.json last. */
    method CopyGeneration(d: nat, src: Files, id: string, ghost mark: Past) returns (ok: bool)
      requires Storing(mark, d, id) && past.now.op == Clearing(id, src)
      requires dests[d].present && Partial(id) !in dests[d].entries
      modifies this`dests, this`past, this`hitches
      ensures Storing(mark, d, id)
      ensures ok ==> past.now.op == Sealed(id, src)
      ensures old(hitches) <= hitches && (!ok ==> hitches > old(hitches))
    {
      var t: int := *;
      DoStore(d, dests[d].(entries := dests[d].entries[Partial(id) := Dir(map[], t)]), MakePartial(t),
              Copying(id, src, Data(src).Keys), id, mark);
      ok := CopyTree(d, src, id, mark);
      if !ok { return; }
      ok := AddMeta(d, src, id, mark);
    }

    /** Copies meta.json, if there is one, once the data is in place; a failed copy may leave a torn file. */
    method AddMeta(d: nat, src: Files, id: string, ghost mark: Past) returns (ok: bool)
      requires Storing(mark, d, id) && past.now.op == Copying(id, src, {}) && HasDir(dests[d].entries, Partial(id))
      modifies this`dests, this`past, this`hitches
      ensures Storing(mark, d, id) && (ok ==> past.now.op == Sealed(id, src))
      ensures old(hitches) <= hitches && (!ok ==> hitches > old(hitches))
    {
      ok := true;
      var fails := Fails();
      if fails {
        var torn: bool := *;
        if torn { TearMeta(d, id, mark); }
        return false;
      }
      var n := Partial(id);
      var e := dests[d].entries;
      var t: int := *;
      var files := if [META] in src then e[n].files[[META] := src[[META]]] else e[n].files;
      DoStore(d, dests[d].(entries := e[n := Dir(files, t)]), Seal(t), Sealed(id, src), id, mark);
    }

    method TearMeta(d: nat, id: string, ghost mark: Past)
      requires Storing(mark, d, id) && past.now.op.Copying? && HasDir(dests[d].entries, Partial(id))
      modifies this`dests, this`past
      ensures Storing(mark, d, id)
    {
      var n := Partial(id);
      var e := dests[d].entries;
      var t: int := *;
      var bytes: string := *;
      DoStore(d, dests[d].(entries := e[n := Dir(e[n].files[[META] := bytes], t)]), Spoil([META], bytes, t),
              Spoiled(id), id, mark);
    }

    /** rmtree of a partial directory left by an earlier attempt; a plain file in its place is an error. */
    method RemoveStale(d: nat, src: Files, id: string, ghost mark: Past) returns (ok: bool)
      requires Storing(mark, d, id) && past.now.op == Clearing(id, src) && dests[d].present
      modifies this`dests, this`past, this`hitches
      ensures Storing(mark, d, id) && past.now.op == Clearing(id, src)
      ensures dests[d].present && (ok ==> Partial(id) !in dests[d].entries)
      ensures old(hitches) <= hitches && (!ok ==> hitches > old(hitches) || PartialIsFile(old(dests)[d].entries, id))
      ensures PartialIsFile(old(dests)[d].entries, id) ==> !ok
    {
      var n := Partial(id);
      if n !in dests[d].entries { return true; }
      if dests[d].entries[n].File? { return false; }
      while dests[d].entries[n].files != map[]
        invariant Storing(mark, d, id) && past.now.op == Clearing(id, src)
        invariant dests[d].present && HasDir(dests[d].entries, n) && old(hitches) <= hitches
        decreases dests[d].entries[n].files.Keys
      {
        var fails := Fails();
        if fails { return false; }
        var e := dests[d].entries;
        var p :| p in e[n].files;
        var t: int := *;
        DoStore(d, dests[d].(entries := e[n := Dir(e[n].files - {p}, t)]), UnlinkStale(p, t), Clearing(id, src), id,
                mark);
      }
      var fails := Fails();
      if fails { return false; }
      DoStore(d, dests[d].(entries := dests[d].entries - {n}), DropStale, Clearing(id, src), id, mark);
      return true;
    }

    /** shutil.copytree: copies in any order, goes on after a failed file and reports failure at the end. */
    method CopyTree(d: nat, src: Files, id: string, ghost mark: Past) returns (ok: bool)
      requires Storing(mark, d, id) && past.now.op == Copying(id, src, Data(src).Keys)
      requires HasDir(dests[d].entries, Partial(id))
      modifies this`dests, this`past, this`hitches
      ensures Storing(mark, d, id)
      ensures HasDir(dests[d].entries, Partial(id))
      ensures ok ==> past.now.op == Copying(id, src, {})
      ensures old(hitches) <= hitches && (!ok ==> hitches > old(hitches))
    {
      var n := Partial(id);
      var todo := Data(src).Keys;
      ok := true;
      while todo != {}
        invariant Storing(mark, d, id)
        invariant todo <= Data(src).Keys
        invariant past.now.op == if ok then Copying(id, src, todo) else Spoiled(id)
        invariant HasDir(dests[d].entries, n)
        invariant old(hitches) <= hitches && (!ok ==> hitches > old(hitches))
        decreases todo
      {
        var p :| p in todo;
        var e := dests[d].entries;
        var t: int := *;
        var bytes := src[p];
        var fails := Fails();
        if fails {
          bytes := *;
          ok := false;
        }
        todo := todo - {p};
        var dir := dests[d].(entries := e[n := Dir(e[n].files[p := bytes], t)]);
        if ok {
          DoStore(d, dir, CopyFile(p, t), Copying(id, src, todo), id, mark);
        } else {
          DoStore(d, dir, Spoil(p, bytes, t), Spoiled(id), id, mark);
        }
      }
    }

    // ----- delete

    ghost predicate DeletingSince(mark: Past, d: nat, id: string)
      reads `work, `dests, `past
    {
      && Valid() && d < |dests| && mark.now.op.Idle? && d < |mark.now.disks|
      && DeletingOn(mark, past, d, id)
    }

    /** An effect of `delete`. */
    method DoDelete(d: nat, dir: Dest, ghost a: Act, ghost id: string, ghost mark: Past)
      requires DeletingSince(mark, d, id)
      requires Leads(Cfg(past.now.op, past.now.disks[d]), a, Deleting(id), dir)
      modifies this`dests, this`past
      ensures DeletingSince(mark, d, id) && dests[d] == dir
    {
      Do(d, dir, a);
    }

    /** rmtree of one entry, file by file in any order; a plain file only goes with the whole destination. */
    method RemoveTree(d: nat, n: string, id: string, ghost mark: Past) returns (ok: bool)
      requires DeletingSince(mark, d, id) && Covers(id, n) && n in dests[d].entries
      modifies this`dests, this`past, this`hitches
      ensures DeletingSince(mark, d, id)
      ensures ok ==> dests[d] == old(dests)[d].(entries := old(dests)[d].entries - {n})
      ensures old(hitches) <= hitches
        && (!ok ==> hitches > old(hitches) || (old(dests)[d].entries[n].File? && !Degenerate(id)))
      ensures ok ==> old(dests)[d].entries[n].Dir? || Degenerate(id)
    {
      if dests[d].entries[n].File? {
        if !Degenerate(id) { return false; }
      } else {
        ok := UnlinkAll(d, n, id, mark);
        if !ok { return; }
      }
      var fails := Fails();
      if fails { return false; }
      assert dests[d].entries - {n} == old(dests)[d].entries - {n};
      DoDelete(d, dests[d].(entries := dests[d].entries - {n}), RemoveEntry(n), id, mark);
      return true;
    }

    method UnlinkAll(d: nat, n: string, id: string, ghost mark: Past) returns (ok: bool)
      requires DeletingSince(mark, d, id) && Covers(id, n) && HasDir(dests[d].entries, n)
      modifies this`dests, this`past, this`hitches
      ensures DeletingSince(mark, d, id) && HasDir(dests[d].entries, n)
      ensures dests[d] == old(dests)[d].(entries := old(dests)[d].entries[n := dests[d].entries[n]])
      ensures ok ==> dests[d].entries[n].files == map[]
      ensures old(hitches) <= hitches && (!ok ==> hitches > old(hitches))
    {
      while dests[d].entries[n].files != map[]
        invariant DeletingSince(mark, d, id) && old(hitches) <= hitches
        invariant HasDir(dests[d].entries, n)
        invariant dests[d] == old(dests)[d].(entries := old(dests)[d].entries[n := dests[d].entries[n]])
        decreases dests[d].entries[n].files.Keys
      {
        var fails := Fails();
        if fails { return false; }
        var e := dests[d].entries;
        var p :| p in e[n].files;
        var t: int := *;
        DoDelete(d, dests[d].(entries := e[n := Dir(e[n].files - {p}, t)]), Unlink(n, p, t), id, mark);
      }
      return true;
    }

    /** rmtree of the destination itself, which is what a degenerate id names. */
    method RemoveEverything(d: nat, id: string, ghost mark: Past) returns (ok: bool)
      requires DeletingSince(mark, d, id) && Degenerate(id)
      modifies this`dests, this`past, this`hitches
      ensures DeletingSince(mark, d, id)
      ensures ok ==> dests[d] == Dest(false, map[])
      ensures old(hitches) <= hitches && (!ok ==> hitches > old(hitches))
    {
      while dests[d].entries != map[]
        invariant DeletingSince(mark, d, id) && old(hitches) <= hitches
        decreases dests[d].entries.Keys
      {
        var n :| n in dests[d].entries;
        ok := RemoveTree(d, n, id, mark);
        if !ok { return false; }
      }
      DoDelete(d, dests[d].(present := false), RemoveRoot, id, mark);
      return true;
    }

    method StartDelete(d: nat, id: string)
      requires Resting() && d < |dests|
      modifies this`dests, this`past
      ensures DeletingSince(old(past), d, id) && dests == old(dests)
    {
      Do(d, dests[d], BeginDelete(id));
    }

    /** LocalDestination.delete: the complete name, then the partial name; stops at the first error. */
    method Delete(d: nat, id: string) returns (ok: bool)
      requires Resting() && d < |dests|
      modifies this`dests, this`past, this`faults, this`hitches
      ensures Resting() && |dests| == |old(dests)|
      ensures faults == if ok then old(faults) else old(faults) + [DeleteFault(d, id)]
      ensures RemovingSince(old(past), past, d, Reach([id]))
      ensures ok ==> dests[d].entries == Survivors(old(dests)[d].entries, [id])
      ensures ok ==> dests[d].entries
                     == if id in {"", ".", ".."} then map[] else old(dests)[d].entries - {id, id + ".partial"}
      ensures FileInTheWay(old(dests)[d].entries, id) || GoesUp(old(dests)[d], id) ==> !ok
      ensures old(hitches) <= hitches
      ensures !ok ==> hitches > old(hitches) || FileInTheWay(old(dests)[d].entries, id) || GoesUp(old(dests)[d], id)
    {
      ghost var e0 := dests[d].entries;
      ghost var mark := past;
      StartDelete(d, id);
      if Degenerate(id) {
        ok := RemoveRootTree(d, id, mark);
      } else {
        ok := RemoveNames(d, id, mark);
      }
      DeletedNames(e0, id);
      FinishDelete(d, id, ok, mark);
    }

    /** Return from `delete`. */
    method FinishDelete(d: nat, id: string, ok: bool, ghost mark: Past)
      requires DeletingSince(mark, d, id)
      modifies this`dests, this`past, this`faults
      ensures Resting() && dests == old(dests)
      ensures RemovingSince(mark, past, d, Reach([id]))
      ensures faults == if ok then old(faults) else old(faults) + [DeleteFault(d, id)]
    {
      DeleteSegments(mark, past, d, id);
      Do(d, dests[d], Stop);
      if !ok { faults := faults + [DeleteFault(d, id)]; }
    }

    method RemoveRootTree(d: nat, id: string, ghost mark: Past) returns (ok: bool)
      requires DeletingSince(mark, d, id) && Degenerate(id)
      modifies this`dests, this`past, this`hitches
      ensures DeletingSince(mark, d, id)
      ensures ok ==> dests[d].entries == map[]
      ensures GoesUp(old(dests)[d], id) ==> !ok
      ensures old(hitches) <= hitches && (!ok ==> hitches > old(hitches) || GoesUp(old(dests)[d], id))
    {
      if dests[d].present {
        ok := RemoveEverything(d, id, mark);
        ok := ok && id != "..";                             // the last rmdir no longer finds its path
      } else {
        SoundThroughout(past, past);
        ok := true;
      }
    }

    method RemoveNames(d: nat, id: string, ghost mark: Past) returns (ok: bool)
      requires DeletingSince(mark, d, id) && !Degenerate(id)
      modifies this`dests, this`past, this`hitches
      ensures DeletingSince(mark, d, id)
      ensures ok ==> dests[d].entries == old(dests)[d].entries - {id, id + PARTIAL}
      ensures old(hitches) <= hitches && (!ok ==> hitches > old(hitches) || FileInTheWay(old(dests)[d].entries, id))
      ensures FileInTheWay(old(dests)[d].entries, id) ==> !ok
    {
      ok := true;
      if id in dests[d].entries {
        ok := RemoveTree(d, id, id, mark);
        if !ok { return; }
      }
      if id + PARTIAL in dests[d].entries {
        ok := RemoveTree(d, id + PARTIAL, id, mark);
      }
    }

    // ----- list_backups

    /** Fails when the destination is missing, or for reasons outside the model. */
    method ListBackups(d: nat) returns (listing: Option<seq<StoredBackup>>, ghost order: seq<string>)
      requires d < |dests|
      modifies this`faults, this`hitches
      ensures !dests[d].present ==> listing.None?
      ensures faults == if listing.Some? then old(faults) else old(faults) + [ListFault(d)]
      ensures listing.Some? ==>
        && Enumerates(order, dests[d].entries.Keys)
        && listing.value == Rows(order, dests[d].entries)
        && ListsDirs(listing.value, dests[d].entries)
      ensures old(hitches) <= hitches && (listing.None? ==> hitches > old(hitches) || !dests[d].present)
    {
      order := [];
      var fails := Fails();
      if !dests[d].present || fails {
        faults := faults + [ListFault(d)];
        return None, order;
      }
      var e := dests[d].entries;
      var left := e.Keys;
      var rows: seq<StoredBackup> := [];
      while left != {}
        invariant faults == old(faults) && old(hitches) <= hitches && left <= e.Keys && Distinct(order)
          && Members(order) == e.Keys - left
        invariant forall n :: n in order ==> n in e
        invariant rows == Rows(order, e)
        decreases left
      {
        var n :| n in left;
        left := left - {n};
        if e[n].Dir? {
          if Suffixed(n) {
            rows := rows + [StoredBackup(Strip(n), false, e[n].mtime)];
          } else {
            rows := rows + [StoredBackup(n, HasMeta(e[n]), e[n].mtime)];
          }
        }
        OneMoreName(order, n);
        order := order + [n];
      }
      RowsListDirs(order, e);
      return Some(rows), order;
    }
  }
}
