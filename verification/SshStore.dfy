/** The rsync-over-ssh backend: transfers with retries into a partial directory, then a remote mv. */
module SshStore {
  import opened Layout
  import opened Placement
  import opened Recording
  import opened Paths

  /** Receiver files that the exclusion pattern keeps from `rsync --delete`. */
  function Excluded(left: Files): Files {
    map p | p in left && META in p :: left[p]
  }

  /** The receiver after a successful `rsync -a --delete --exclude=meta.json`. */
  function Mirrored(src: Files, left: Files): Files { Data(src) + Excluded(left) }

  lemma ExcludedStays(files: Files, left: Files)
    ensures Excluded(Mirrored(files, left)) == Excluded(left)
  {}

  /** The receiver once meta.json, if any, has followed. */
  function Sent(src: Files, left: Files): Files {
    if [META] in src then Mirrored(src, left)[[META] := src[[META]]] else Mirrored(src, left)
  }

  /** The receiver holds exactly what the local backend would place iff no protected file was left over. */
  lemma SentIsPlacedIff(src: Files, left: Files)
    ensures Sent(src, left) == Placed(src)
            <==> forall p :: p in left && META in p ==> p == [META] && [META] in src
  {
    if p :| p in left && META in p && !(p == [META] && [META] in src) {
      assert p in Sent(src, left) && p !in Placed(src);
    } else {
      forall p | p in Excluded(left) ensures p in Placed(src) && Sent(src, left)[p] == Placed(src)[p] {}
      assert Sent(src, left) == Placed(src);
    }
  }

  /** Nothing that the exclusion protects is left over at the receiver, but a meta.json that the source replaces. */
  ghost predicate NoLeftovers(e: Entries, name: string, src: Files) {
    name + ".partial" in e && e[name + ".partial"].Dir? ==>
      forall p :: p in e[name + ".partial"].files && "meta.json" in p ==> p == ["meta.json"] && p in src
  }

  /** File by file: what the source has outside nested meta.json, and besides what was left over and protected. */
  lemma SentMeans(src: Files, left: Files, p: Path)
    ensures var copied := p in src && (p == ["meta.json"] || forall i :: 0 <= i < |p| ==> p[i] != "meta.json");
            && (p in Sent(src, left) <==> copied || (p in left && exists i :: 0 <= i < |p| && p[i] == "meta.json"))
            && (copied ==> Sent(src, left)[p] == src[p])
            && (p in Sent(src, left) && !copied ==> Sent(src, left)[p] == left[p])
  {
    if META in p { var i :| 0 <= i < |p| && p[i] == META; }
  }

  lemma SentIsCopied(e: Entries, name: string, src: Files)
    requires NoLeftovers(e, name, src)
    ensures Copied(Sent(src, LeftAt(e, Partial(name))), src)
  {
    var sent := Sent(src, LeftAt(e, Partial(name)));
    SentIsPlacedIff(src, LeftAt(e, Partial(name)));
    PlacedIsCopied(src, sent);
  }

  /** `retries + 1` attempts, the first of which to succeed ends the loop. */
  ghost predicate AttemptsAreExact(succeeds: nat -> bool, retries: nat, ok: bool, attempts: nat) {
    && 1 <= attempts <= retries + 1
    && (forall i: nat :: i < attempts - 1 ==> !succeeds(i))
    && ok == succeeds(attempts - 1)
    && (!ok ==> attempts == retries + 1)
  }

  lemma RetriesSucceedIff(succeeds: nat -> bool, retries: nat, ok: bool, attempts: nat)
    requires AttemptsAreExact(succeeds, retries, ok, attempts)
    ensures ok <==> SomeAttempt(succeeds, retries)
  {
    if ok { assert succeeds(attempts - 1); }
  }

  /** What the network and the remote commands will do: which step answers, and which rsync attempts succeed. */
  datatype Session = Session(connects: bool, answers: bool, mkdirs: bool, data: nat -> bool, meta: nat -> bool,
                             moves: bool)

  ghost predicate SomeAttempt(succeeds: nat -> bool, retries: nat) {
    exists i: nat :: i <= retries && succeeds(i)
  }

  /** Attempts none of which can succeed when something is in the way. */
  function Unless(blocked: bool, succeeds: nat -> bool): nat -> bool {
    (k: nat) => succeeds(k) && !blocked
  }

  lemma BlockedAttempts(blocked: bool, succeeds: nat -> bool, retries: nat)
    ensures SomeAttempt(Unless(blocked, succeeds), retries) <==> SomeAttempt(succeeds, retries) && !blocked
  {
    if i: nat :| i <= retries && succeeds(i) && !blocked { assert Unless(blocked, succeeds)(i); }
    if i: nat :| i <= retries && Unless(blocked, succeeds)(i) { assert succeeds(i); }
  }

  /** Each transfer succeeds within `retries + 1` attempts. */
  ghost predicate Transfers(src: Files, retries: nat, s: Session) {
    SomeAttempt(s.data, retries) && ([META] in src ==> SomeAttempt(s.meta, retries))
  }

  /** `mv` replaces no file and no non-empty directory of the same name inside the target. */
  predicate Movable(e: Entries, id: string) {
    id in e ==> e[id].Dir? && forall q :: q in e[id].files ==> q == [] || q[0] != Partial(id)
  }

  /** The generation is seen to be complete already. */
  predicate Skips(e: Entries, id: string, s: Session) {
    s.connects && s.answers && id in e && HasMeta(e[id])
  }

  /** Everything but the final `mv` goes well. */
  ghost predicate Arrives(e: Entries, src: Files, id: string, retries: nat, s: Session) {
    s.connects && s.mkdirs && Transfers(src, retries, s) && !PartialIsFile(e, id)
  }

  ghost predicate Succeeds(e: Entries, src: Files, id: string, retries: nat, s: Session) {
    Arrives(e, src, id, retries, s) && s.moves && Movable(e, id)
  }

  /** The first component of the id is no directory of the destination. */
  ghost predicate LeadsNowhere(e: Entries, id: string)
    requires Front(id) != []
  {
    Front(id)[0] != ".." && !HasDir(e, Front(id)[0])
  }

  /** What a store that copied and returned normally leaves: under an absent name, or inside a directory of it. */
  ghost predicate StoredAs(e0: Entries, e: Entries, src: Files, name: string) {
    var sent := Sent(src, LeftAt(e0, Partial(name)));
    && SameBut(e0, e, {name, Partial(name)}) && Partial(name) !in e && HasDir(e, name)
    && (name !in e0 ==> e[name].files == sent)
    && (name in e0 ==> e0[name].Dir? && e[name].files == e0[name].files + Nested([Partial(name)], sent))
  }

  ghost predicate OnlyMoveFails(e: Entries, src: Files, id: string, retries: nat, s: Session) {
    Arrives(e, src, id, retries, s) && !(s.moves && Movable(e, id))
  }

  lemma LosingFile(e: Entries, n: string, p: Path, t: int, id: string)
    requires HasDir(e, n) && Covers(id, n)
    ensures DeleteChange(e, e[n := Dir(e[n].files - {p}, t)], Reach([id]))
  {
    assert id in [id];
  }

  lemma LosingEntry(e: Entries, n: string, id: string)
    requires Covers(id, n)
    ensures DeleteChange(e, e - {n}, Reach([id]))
  {
    assert id in [id];
  }

  /** Names whose last component `rm` refuses to remove. */
  predicate Dots(id: string) { id == "." || id == ".." }

  lemma EmptyIdReachesAll(e: Entries)
    ensures Survivors(e, [""]) == map[]
  {
    assert "" in [""];
  }

  class Remote {
    var entries: Entries
    ghost var trace: seq<Entries>   // every state some other reader could have seen
    ghost var hitches: nat          // removals that have failed so far

    ghost predicate Valid()
      reads `entries, `trace
    {
      |trace| > 0 && trace[|trace| - 1] == entries
    }

    constructor (entries: Entries)
      ensures Valid() && this.entries == entries && trace == [entries]
    {
      this.entries := entries;
      this.trace, this.hitches := [entries], 0;
    }

    method Put(e: Entries)
      requires Valid()
      modifies this`entries, this`trace
      ensures Valid() && entries == e && trace == old(trace) + [e]
    {
      entries := e;
      trace := trace + [e];
    }

    /** `test -f`; any other exit status than 0, such as that of a lost connection, reads as "no". */
    method RemoteFileExists(id: string, answered: bool) returns (r: bool)
      ensures r <==> answered && id in entries && HasMeta(entries[id])
    {
      r := answered && id in entries && HasMeta(entries[id]);
    }

    /** Only the partial directory of `id` has differed since index `from`. */
    ghost predicate OnlyPartialSince(e0: Entries, from: nat, id: string)
      reads `entries, `trace
    {
      && (forall i :: from <= i < |trace| ==> SameBut(e0, trace[i], {Partial(id)}))
      && SameBut(e0, entries, {Partial(id)})
    }

    /** One rsync of the data; a failed one leaves any unprotected files behind, or changes nothing. */
    method RsyncOnce(src: Files, id: string, succeeds: bool, ghost e0: Entries, ghost from: nat)
      requires Valid() && OnlyPartialSince(e0, from, id) && (succeeds ==> !PartialIsFile(entries, id))
      modifies this
      ensures Valid() && old(trace) <= trace && OnlyPartialSince(e0, from, id)
      ensures PartialIsFile(entries, id) == PartialIsFile(old(entries), id)
      ensures Excluded(LeftAt(entries, Partial(id))) == Excluded(LeftAt(old(entries), Partial(id)))
      ensures succeeds ==> PartialHolds(entries, id, Mirrored(src, LeftAt(old(entries), Partial(id))))
    {
      var n := Partial(id);
      var left := LeftAt(entries, n);
      var t: int := *;
      if succeeds {
        ExcludedStays(src, left);
        Put(entries[n := Dir(Mirrored(src, left), t)]);
      } else {
        var debris: Files := *;
        ExcludedStays(debris, left);
        var touched: bool := *;
        if touched && !PartialIsFile(entries, id) { Put(entries[n := Dir(Mirrored(debris, left), t)]); }
      }
    }

    /** rsync of the data with retries. */
    method RsyncDirectory(src: Files, id: string, retries: nat, succeeds: nat -> bool, ghost e0: Entries,
                          ghost from: nat)
      returns (ok: bool, attempts: nat)
      requires Valid() && OnlyPartialSince(e0, from, id)
      modifies this
      ensures Valid() && old(trace) <= trace && OnlyPartialSince(e0, from, id)
      ensures AttemptsAreExact(Unless(PartialIsFile(old(entries), id), succeeds), retries, ok, attempts)
      ensures ok ==> PartialHolds(entries, id, Mirrored(src, LeftAt(old(entries), Partial(id))))
    {
      ghost var kept := Excluded(LeftAt(entries, Partial(id)));
      var blocked := PartialIsFile(entries, id);           // rsync does not replace a plain file
      for i := 0 to retries + 1
        invariant Valid() && old(trace) <= trace && OnlyPartialSince(e0, from, id)
        invariant Excluded(LeftAt(entries, Partial(id))) == kept && PartialIsFile(entries, id) == blocked
        invariant forall k: nat :: k < i ==> !(succeeds(k) && !blocked)
      {
        RsyncOnce(src, id, succeeds(i) && !blocked, e0, from);
        if succeeds(i) && !blocked { return true, i + 1; }
      }
      return false, retries + 1;
    }

    /** rsync of meta.json with retries; a failed attempt may leave anything under that name. */
    method RsyncMetaFile(src: Files, id: string, retries: nat, succeeds: nat -> bool, ghost e0: Entries,
                         ghost from: nat)
      returns (ok: bool, attempts: nat)
      requires Valid() && OnlyPartialSince(e0, from, id) && HasDir(entries, Partial(id)) && [META] in src
      modifies this
      ensures Valid() && old(trace) <= trace && OnlyPartialSince(e0, from, id)
      ensures AttemptsAreExact(succeeds, retries, ok, attempts)
      ensures ok ==> PartialHolds(entries, id, old(entries)[Partial(id)].files[[META] := src[[META]]])
    {
      var n := Partial(id);
      ghost var files := entries[n].files;
      for i := 0 to retries + 1
        invariant Valid() && old(trace) <= trace && OnlyPartialSince(e0, from, id) && HasDir(entries, n)
        invariant entries[n].files[[META] := src[[META]]] == files[[META] := src[[META]]]
        invariant forall k: nat :: k < i ==> !succeeds(k)
      {
        var t: int := *;
        if succeeds(i) {
          Put(entries[n := Dir(entries[n].files[[META] := src[[META]]], t)]);
          return true, i + 1;
        }
        var touched: bool := *;
        if touched {
          var garbage: string := *;
          Put(entries[n := Dir(entries[n].files[[META] := garbage], t)]);
        }
      }
      return false, retries + 1;
    }

    /**
     SSHDestination.store: returns normally exactly when `Succeeds` says so. rsync makes the last directory of its
     target and no other, so an id with components that are not there fails and changes nothing.
     */
    method Store(src: Files, id: string, retries: nat, s: Session) returns (ok: bool)
      requires Valid() && PlainId(Tail(id)) && (Front(id) != [] ==> LeadsNowhere(entries, id))
      modifies this
      ensures Valid() && old(trace) <= trace
      ensures Front(id) != [] ==> !ok && trace == old(trace)
      ensures Front(id) == [] ==>
        (ok <==> Skips(old(entries), Tail(id), s) || Succeeds(old(entries), src, Tail(id), retries, s))
      ensures Skips(old(entries), Tail(id), s) ==> trace == old(trace)
      ensures forall i :: |old(trace)| <= i < |trace| - 1 ==> SameBut(old(entries), trace[i], {Partial(Tail(id))})
      ensures !ok ==> SameBut(old(entries), entries, {Partial(Tail(id))})
      ensures Front(id) == [] && !Skips(old(entries), Tail(id), s)
              && OnlyMoveFails(old(entries), src, Tail(id), retries, s) ==>
        PartialHolds(entries, Tail(id), Sent(src, LeftAt(old(entries), Partial(Tail(id)))))
      ensures ok && !Skips(old(entries), Tail(id), s) ==> StoredAs(old(entries), entries, src, Tail(id))
      ensures ok && !Skips(old(entries), Tail(id), s) && Tail(id) !in old(entries)
              && NoLeftovers(old(entries), Tail(id), src) ==>
        && Tail(id) in entries && entries[Tail(id)].Dir? && Copied(entries[Tail(id)].files, src)
        && entries.Keys == old(entries).Keys + {Tail(id)} - {Tail(id) + ".partial"}
      ensures Front(id) == [] ==>
        (ok <==> || Skips(old(entries), Tail(id), s)
                 || (&& Arrives(old(entries), src, Tail(id), retries, s) && s.moves
                     && (Tail(id) in old(entries) ==>
                           && old(entries)[Tail(id)].Dir?
                           && forall q :: q in old(entries)[Tail(id)].files && q != [] ==>
                                q[0] != Tail(id) + ".partial")))
    {
      var name := Tail(id);
      if NoLeftovers(entries, name, src) { SentIsCopied(entries, name, src); }
      if !s.connects { return false; }                     // ssh cannot be started or times out
      if Front(id) != [] { return false; }                 // the probe finds nothing and no rsync succeeds
      var there := RemoteFileExists(name, s.answers);
      if there { return true; }
      if !s.mkdirs { return false; }                       // mkdir -p
      ok := Transfer(src, name, retries, s, entries, |trace|);
      if !ok || !s.moves || !Movable(entries, name) { return false; }
      Move(name);
    }

    /** Both transfers: the data, then meta.json if there is one. */
    method Transfer(src: Files, id: string, retries: nat, s: Session, ghost e0: Entries, ghost from: nat)
      returns (ok: bool)
      requires Valid() && OnlyPartialSince(e0, from, id) && e0 == entries && from == |trace|
      modifies this
      ensures Valid() && old(trace) <= trace && OnlyPartialSince(e0, from, id)
      ensures ok <==> Transfers(src, retries, s) && !PartialIsFile(e0, id)
      ensures ok ==> PartialHolds(entries, id, Sent(src, LeftAt(e0, Partial(id))))
    {
      var count;
      ok, count := RsyncDirectory(src, id, retries, s.data, e0, from);
      RetriesSucceedIff(Unless(PartialIsFile(e0, id), s.data), retries, ok, count);
      BlockedAttempts(PartialIsFile(e0, id), s.data, retries);
      if ok && [META] in src {
        ok, count := RsyncMetaFile(src, id, retries, s.meta, e0, from);
        RetriesSucceedIff(s.meta, retries, ok, count);
      }
    }

    /** `mv partial final`: a rename when the target is absent, a move into it when it is a directory. */
    method Move(id: string)
      requires Valid() && HasDir(entries, Partial(id)) && PlainId(id) && Movable(entries, id)
      modifies this
      ensures Valid() && trace == old(trace) + [entries]
      ensures SameBut(old(entries), entries, {id, Partial(id)}) && Partial(id) !in entries && HasDir(entries, id)
      ensures entries[id].files == if id in old(entries)
        then old(entries)[id].files + Nested([Partial(id)], old(entries)[Partial(id)].files)
        else old(entries)[Partial(id)].files
    {
      var n := Partial(id);
      var t: int := *;
      var node := if id in entries then Dir(entries[id].files + Nested([n], entries[n].files), t) else entries[n];
      Put((entries - {n})[id := node]);
    }

    ghost predicate ShrinkingSince(e0: Entries, from: nat, id: string)
      reads `entries, `trace
    {
      && (forall i :: from <= i < |trace| ==> DeleteChange(e0, trace[i], Reach([id])))
      && DeleteChange(e0, entries, Reach([id]))
    }

    method PutShrunk(e: Entries, ghost e0: Entries, ghost from: nat, ghost id: string)
      requires Valid() && ShrinkingSince(e0, from, id) && DeleteChange(entries, e, Reach([id]))
      modifies this`entries, this`trace
      ensures Valid() && entries == e && old(trace) <= trace && ShrinkingSince(e0, from, id)
    {
      DeleteChangeCompose(e0, entries, e, Reach([id]), Reach([id]), Reach([id]));
      Put(e);
    }

    /** Whether the next removal fails. */
    method Fails() returns (fails: bool)
      modifies this`hitches
      ensures hitches == if fails then old(hitches) + 1 else old(hitches)
    {
      fails := *;
      if fails { hitches := hitches + 1; }
    }

    /**
     `rm -rf` of both names: a failure does not stop the rest, and leaves what could not be removed. Of `.` and `..`
     rm removes nothing and reports an error; the empty id makes the destination itself the first operand.
     */
    method Delete(id: string) returns (ok: bool)
      requires Valid()
      modifies this
      ensures Valid() && old(trace) <= trace
      ensures ok ==> entries == Survivors(old(entries), [id])
      ensures ok ==> entries == if id == "" then map[] else old(entries) - {id, id + ".partial"}
      ensures id in {".", ".."} ==> !ok && (hitches == old(hitches) ==> entries == old(entries) - {id + ".partial"})
      ensures Dots(id) ==> !ok
      ensures old(hitches) <= hitches && (!ok ==> Dots(id) || hitches > old(hitches))
      ensures hitches == old(hitches) ==>
        entries == if Dots(id) then old(entries) - {id + PARTIAL} else Survivors(old(entries), [id])
      ensures forall i :: |old(trace)| <= i < |trace| ==> DeleteChange(old(entries), trace[i], Reach([id]))
    {
      ghost var e0, from := entries, |trace|;
      if Dots(id) {
        var _ := RemoveTree(id + PARTIAL, e0, from, id);
        return false;
      }
      if id == "" {
        EmptyIdReachesAll(e0);
        ok := RemoveAll(e0, from, id);
        return;
      }
      DeletedNames(e0, id);
      var first := RemoveTree(id, e0, from, id);
      var second := RemoveTree(id + PARTIAL, e0, from, id);
      ok := first && second;
    }

    method RemoveAll(ghost e0: Entries, ghost from: nat, ghost id: string) returns (ok: bool)
      requires Valid() && ShrinkingSince(e0, from, id) && Degenerate(id)
      modifies this
      ensures Valid() && old(trace) <= trace && ShrinkingSince(e0, from, id)
      ensures ok ==> entries == map[]
      ensures old(hitches) <= hitches && (!ok ==> hitches > old(hitches))
    {
      ok := true;
      var left := entries.Keys;
      while left != {}
        invariant Valid() && old(trace) <= trace && ShrinkingSince(e0, from, id)
        invariant ok ==> entries.Keys <= left
        invariant old(hitches) <= hitches && (!ok ==> hitches > old(hitches))
        decreases left
      {
        var n :| n in left;
        left := left - {n};
        var removed := RemoveTree(n, e0, from, id);
        ok := ok && removed;
      }
    }

    method RemoveTree(n: string, ghost e0: Entries, ghost from: nat, ghost id: string) returns (ok: bool)
      requires Valid() && ShrinkingSince(e0, from, id) && Covers(id, n)
      modifies this
      ensures Valid() && old(trace) <= trace && ShrinkingSince(e0, from, id)
      ensures ok ==> entries == old(entries) - {n}
      ensures !ok ==> n in entries
      ensures entries.Keys <= old(entries).Keys && forall m :: m != n && m in old(entries) ==> m in entries
      ensures old(hitches) <= hitches && (!ok ==> hitches > old(hitches))
    {
      if n !in entries { return true; }
      ok := true;
      if entries[n].Dir? {
        ok := UnlinkAll(n, e0, from, id);
      }
      var fails := Fails();
      if fails || !ok { return false; }
      assert entries - {n} == old(entries) - {n};
      LosingEntry(entries, n, id);
      PutShrunk(entries - {n}, e0, from, id);
    }

    method UnlinkAll(n: string, ghost e0: Entries, ghost from: nat, ghost id: string) returns (ok: bool)
      requires Valid() && ShrinkingSince(e0, from, id) && Covers(id, n) && HasDir(entries, n)
      modifies this
      ensures Valid() && old(trace) <= trace && ShrinkingSince(e0, from, id) && HasDir(entries, n)
      ensures entries == old(entries)[n := entries[n]] && (ok ==> entries[n].files == map[])
      ensures old(hitches) <= hitches && (!ok ==> hitches > old(hitches))
    {
      ok := true;
      var left := entries[n].files.Keys;
      while left != {}
        invariant Valid() && old(trace) <= trace && ShrinkingSince(e0, from, id) && HasDir(entries, n)
        invariant entries == old(entries)[n := entries[n]] && (ok ==> entries[n].files.Keys <= left)
        invariant old(hitches) <= hitches && (!ok ==> hitches > old(hitches))
        decreases left
      {
        var p :| p in left;
        left := left - {p};
        var fails := Fails();
        if fails {
          ok := false;
        } else {
          var t: int := *;
          LosingFile(entries, n, p, t, id);
          PutShrunk(entries[n := Dir(entries[n].files - {p}, t)], e0, from, id);
        }
      }
    }
  }

  /** After a store that returned normally the generation is complete iff nothing bore its name before. */
  lemma StoredIsCompleteIff(e0: Entries, e: Entries, id: string, src: Files, left: Files)
    requires PlainId(id) && [META] in src && HasDir(e, id) && (id in e0 ==> e0[id].Dir?)
    requires id !in e0 ==> e[id].files == Sent(src, left)
    requires id in e0 ==> e[id].files == e0[id].files + Nested([Partial(id)], Sent(src, left))
    ensures Complete(e, id) <==> id !in e0 || Complete(e0, id)
    ensures id !in e0 ==> (e[id].files == Placed(src) <==> forall p :: p in left && META in p ==> p == [META])
  {
    SentIsPlacedIff(src, left);
    PlainPartial(id);
    var nested := Nested([Partial(id)], Sent(src, left));
    assert Partial(id)[|Partial(id)| - 1] == PARTIAL[|PARTIAL| - 1] == 'l' && META[|META| - 1] == 'n';
    forall q | q in nested ensures q != [META] {
      NestedIsBelow([Partial(id)], Sent(src, left), q);
      assert q[..1][0] == Partial(id);
    }
  }

  /**
   While a store is under way over ssh, a complete generation has a partial sibling iff the store was begun for
   a generation that is complete already, which takes a probe that was not answered (`Skips` is false).
   */
  lemma SshStoreCoexistsIff(e0: Entries, e: Entries, id: string)
    requires PlainId(id) && NoCoexistence(e0) && SameBut(e0, e, {Partial(id)}) && Partial(id) in e
    ensures !NoCoexistence(e) <==> Complete(e0, id)
  {
    PlainPartial(id);
    assert Complete(e, id) <==> Complete(e0, id);
    forall n | Complete(e, n) && n != id ensures n + PARTIAL !in e { SuffixRoundTrip(n); }
  }

  /** A store that returned normally leaves no sibling behind, whatever came before. */
  lemma SshStoreKeepsNoCoexistence(e0: Entries, e: Entries, id: string)
    requires PlainId(id) && NoCoexistence(e0) && SameBut(e0, e, {id, Partial(id)}) && Partial(id) !in e
    ensures NoCoexistence(e)
  {
    PlainPartial(id);
    forall n | Complete(e, n) && n != id ensures n + PARTIAL !in e {
      SuffixRoundTrip(n);
    }
  }
}
