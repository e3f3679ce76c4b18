/**
 What happens on the node, one file-system effect at a time. A `Past` holds every state so far, so a crash
 point is one of its moments; the predicates below say how the states of a stretch may differ.
 */
module Recording {
  import opened Layout
  import opened Placement

  /** The work directory, the destinations, and where in which operation the single writer stands. */
  datatype World = World(work: map<string, Files>, disks: seq<Disk>, at: nat, op: Op)

  /** The present state and all that came before it. */
  datatype Past = First(now: World) | Then(before: Past, now: World)

  /** `p` is the moment `was` or a later one. */
  ghost predicate Later(was: Past, p: Past)
    decreases p
  {
    p == was || (p.Then? && Later(was, p.before))
  }

  lemma {:induction false} LaterTransitive(a: Past, b: Past, c: Past)
    requires Later(a, b) && Later(b, c)
    ensures Later(a, c)
    decreases c
  {
    if c != b { LaterTransitive(a, b, c.before); }
  }

  lemma {:induction false} LaterIsSmaller(a: Past, b: Past)
    requires Later(a, b)
    ensures a == b || a < b
    decreases b
  {
    if a != b { LaterIsSmaller(a, b.before); }
  }

  lemma LaterBothWays(a: Past, b: Past)
    requires Later(a, b) && Later(b, a)
    ensures a == b
  {
    LaterIsSmaller(a, b);
    LaterIsSmaller(b, a);
  }

  /** The destination directories are those of `w`. */
  ghost predicate Shows(w: World, dests: seq<Dest>) {
    |w.disks| == |dests| && forall d :: 0 <= d < |dests| ==> w.disks[d].dir == dests[d]
  }

  ghost predicate WorldInv(w: World) {
    && (forall d :: 0 <= d < |w.disks| ==> DiskInv(w.disks[d]))
    && (!w.op.Idle? ==> w.at < |w.disks| && OpInv(w.op, w.disks[w.at]))
  }

  /** One effect: either the work directory changes, or one destination takes a protocol step. */
  ghost predicate WorldStep(w: World, w': World) {
    && |w'.disks| == |w.disks|
    && (|| (w.op.Idle? && w'.op.Idle? && w'.disks == w.disks)
        || (&& w'.at < |w.disks| && w'.work == w.work
            && (w.op.Idle? || w.at == w'.at)
            && (forall j :: 0 <= j < |w.disks| && j != w'.at ==> w'.disks[j] == w.disks[j])
            && Step(Cfg(w.op, w.disks[w'.at]), Cfg(w'.op, w'.disks[w'.at]))))
  }

  /** The moment `m` is a sound first one, or the result of a single effect. */
  ghost predicate LinkAt(m: Past) {
    match m
    case First(w) => WorldInv(w)
    case Then(before, w) => WorldStep(before.now, w)
  }

  /** A sound first world followed by single effects. */
  ghost predicate Linked(p: Past) {
    forall m {:trigger LinkAt(m)} :: Later(m, p) ==> LinkAt(m)
  }

  lemma LinkedBefore(m: Past, p: Past)
    requires Linked(p) && Later(m, p)
    ensures Linked(m) && LinkAt(m)
  {
    forall k | Later(k, m) ensures LinkAt(k) { LaterTransitive(k, m, p); }
    assert Later(m, m);
  }

  lemma LinkedExtends(p: Past, w: World)
    requires Linked(p) && WorldStep(p.now, w)
    ensures Linked(Then(p, w))
  {
    forall m | Later(m, Then(p, w)) ensures LinkAt(m) {
      if m != Then(p, w) { assert Later(m, p); }
    }
  }

  lemma {:induction false} SoundThroughout(m: Past, p: Past)
    requires Linked(p) && Later(m, p)
    ensures WorldInv(m.now)
    decreases m
  {
    LinkedBefore(m, p);
    if m.Then? {
      LaterTransitive(m.before, m, p);
      SoundThroughout(m.before, p);
      WorldStepKeepsInv(m.before.now, m.now);
    }
  }

  lemma WorldStepKeepsInv(w: World, w': World)
    requires WorldInv(w) && WorldStep(w, w')
    ensures WorldInv(w')
  {
    if !(w.op.Idle? && w'.op.Idle? && w'.disks == w.disks) {
      var c, c' := Cfg(w.op, w.disks[w'.at]), Cfg(w'.op, w'.disks[w'.at]);
      assert Inv(c);
      StepKeepsInv(c, c');
    }
  }

  /** A directory on which the protocol can start, or start again. */
  ghost predicate Sound(dest: Dest) {
    && NoCoexistence(dest.entries) && NoDotPartial(dest.entries) && WellNamed(dest.entries)
    && (!dest.present ==> dest.entries == map[])
  }

  /** Wherever a crash falls, the next run finds directories on which the protocol can start again. */
  lemma CrashLeavesSound(m: Past, p: Past, d: nat)
    requires Linked(p) && Later(m, p) && d < |m.now.disks|
    ensures Sound(m.now.disks[d].dir)
  {
    SoundThroughout(m, p);
  }

  ghost predicate Wide(p: Past, d: nat) {
    d < |p.now.disks| && (p.Then? ==> Wide(p.before, d))
  }

  ghost function CfgAt(w: World, d: nat): Cfg
    requires d < |w.disks|
  {
    Cfg(if w.at == d then w.op else Idle, w.disks[d])
  }

  /** All moments as one destination sees them. */
  ghost function View(p: Past, d: nat): (cs: seq<Cfg>)
    requires Wide(p, d)
    ensures |cs| > 0 && cs[|cs| - 1] == CfgAt(p.now, d)
  {
    match p
    case First(w) => [CfgAt(w, d)]
    case Then(before, w) => View(before, d) + [CfgAt(w, d)]
  }

  /** The imperative code refines the protocol: each destination's view is one of its behaviours. */
  lemma {:induction false} PastRefinesPlacement(p: Past, d: nat)
    requires Linked(p) && d < |p.now.disks|
    ensures Wide(p, d) && Behaviour(View(p, d))
  {
    LinkedBefore(p, p);
    if p.Then? {
      LinkedBefore(p.before, p);
      PastRefinesPlacement(p.before, d);
      var front, cs := View(p.before, d), View(p, d);
      var c, c' := CfgAt(p.before.now, d), CfgAt(p.now, d);
      assert c == c' || Step(c, c');
      forall i | 0 <= i < |cs| - 1 ensures cs[i] == cs[i + 1] || Step(cs[i], cs[i + 1]) {
        if i < |front| - 1 { assert cs[i] == front[i] && cs[i + 1] == front[i + 1]; }
      }
    }
  }

  // ----- How the entries of one destination may differ from an earlier moment

  ghost predicate SameBut(e0: Entries, e: Entries, names: set<string>) {
    forall n :: n !in names ==> (n in e0 <==> n in e) && (n in e ==> e[n] == e0[n])
  }

  ghost predicate Same(e0: Entries, e: Entries, n: string) {
    (n in e0 <==> n in e) && (n in e ==> e[n] == e0[n])
  }

  ghost predicate Committed(e: Entries, id: string, src: Files) {
    HasDir(e, id) && e[id].files == Placed(src) && Partial(id) !in e
  }

  /** During `store`: only the partial directory varies, until it becomes the generation. */
  ghost predicate StoreChange(e0: Entries, e: Entries, id: string, src: Files) {
    && SameBut(e0, e, {id, Partial(id)})
    && (Same(e0, e, id) || (!Complete(e0, id) && Committed(e, id, src)))
  }

  /** During deletions: entries only lose files or vanish, and only within `reach`. */
  ghost predicate DeleteChange(e0: Entries, e: Entries, reach: iset<string>) {
    && SameOutside(e0, e, reach)
    && (forall n :: n in e ==> n in e0 && (e[n].Dir? <==> e0[n].Dir?))
    && (forall n, p :: HasDir(e, n) && p in e[n].files ==> p in e0[n].files && e[n].files[p] == e0[n].files[p])
  }

  ghost predicate SameOutside(e0: Entries, e: Entries, reach: iset<string>) {
    forall n :: n !in reach ==> (n in e0 <==> n in e) && (n in e ==> e[n] == e0[n])
  }

  lemma DeleteChangeCompose(e0: Entries, e1: Entries, e2: Entries, r1: iset<string>, r2: iset<string>, r: iset<string>)
    requires DeleteChange(e0, e1, r1) && DeleteChange(e1, e2, r2) && r1 <= r && r2 <= r
    ensures DeleteChange(e0, e2, r)
  {
    forall n, p | HasDir(e2, n) && p in e2[n].files
      ensures p in e0[n].files && e2[n].files[p] == e0[n].files[p]
    {
      assert HasDir(e1, n);
    }
  }

  ghost predicate OnlyDest(a: seq<Dest>, b: seq<Dest>, d: nat) {
    |a| == |b| && d < |b| && forall j :: 0 <= j < |b| && j != d ==> b[j] == a[j]
  }

  ghost predicate OnlyAt(w0: World, w: World, d: nat) {
    && w.work == w0.work && |w.disks| == |w0.disks| && d < |w0.disks|
    && forall j :: 0 <= j < |w0.disks| && j != d ==> w.disks[j] == w0.disks[j]
  }

  /** Nothing but the partial directory of `id` differs. */
  ghost predicate Filling(w0: World, w: World, d: nat, id: string) {
    OnlyAt(w0, w, d) && SameBut(w0.disks[d].dir.entries, w.disks[d].dir.entries, {Partial(id)})
  }

  ghost predicate StoringAt(w0: World, w: World, d: nat, id: string, src: Files) {
    OnlyAt(w0, w, d) && StoreChange(w0.disks[d].dir.entries, w.disks[d].dir.entries, id, src)
  }

  ghost predicate Removing(w0: World, w: World, d: nat, reach: iset<string>) {
    OnlyAt(w0, w, d) && DeleteChange(w0.disks[d].dir.entries, w.disks[d].dir.entries, reach)
  }

  /** A plain file sits where `store` wants its partial directory. */
  predicate PartialIsFile(e: Entries, id: string) { Partial(id) in e && e[Partial(id)].File? }

  /** What makes `store` fail without any file-system call failing on its own. */
  predicate Blocked(e: Entries, id: string) {
    !Complete(e, id) && (!Vacant(e, id) || PartialIsFile(e, id))
  }

  /** What makes `delete` fail without any file-system call failing on its own. */
  predicate FileInTheWay(e: Entries, id: string) {
    !Degenerate(id) && ((id in e && e[id].File?) || (id + PARTIAL in e && e[id + PARTIAL].File?))
  }

  ghost function NextWorld(w: World, d: nat, a: Act): World
    requires d < |w.disks| && Enabled(Cfg(w.op, w.disks[d]), a)
  {
    var c := Apply(Cfg(w.op, w.disks[d]), a);
    World(w.work, w.disks[d := c.disk], d, c.op)
  }

  lemma CommitChange(e0: Entries, e: Entries, id: string, src: Files)
    requires SameBut(e0, e, {Partial(id)})
    requires Vacant(e, id) && PartialHolds(e, id, Placed(src))
    ensures StoreChange(e0, (e - {Partial(id)})[id := e[Partial(id)]], id, src)
    ensures Committed((e - {Partial(id)})[id := e[Partial(id)]], id, src)
    ensures !Complete(e0, id) && Vacant(e0, id)
  {
    assert Partial(id) != id;
    assert Same(e0, e, id);
  }

  /** The action `a` is possible and leads to `op'` and `dir`. */
  ghost predicate Leads(c: Cfg, a: Act, op': Op, dir: Dest) {
    Enabled(c, a) && Apply(c, a).op == op' && Apply(c, a).disk.dir == dir
  }

  /** A finished partial directory can be renamed onto a vacant name. */
  lemma CommitLeads(c: Cfg, id: string, src: Files, dir: Dest)
    requires OpInv(c.op, c.disk) && c.op == Sealed(id, src) && Vacant(c.disk.dir.entries, id)
    requires Partial(id) in c.disk.dir.entries
    requires var e := c.disk.dir.entries; dir == c.disk.dir.(entries := (e - {Partial(id)})[id := e[Partial(id)]])
    ensures Leads(c, Commit, Idle, dir) && PartialHolds(c.disk.dir.entries, id, Placed(src))
  {}

  ghost predicate StoreOp(op: Op, id: string) {
    (op.Clearing? || op.Copying? || op.Sealed? || op.Spoiled?) && op.id == id
  }

  lemma FirstFills(w: World, w': World, d: nat, id: string)
    requires WorldStep(w, w') && w.op.Idle? && w'.at == d && StoreOp(w'.op, id)
    ensures Filling(w, w', d, id)
  {}

  lemma NextFills(w0: World, w: World, w': World, d: nat, id: string)
    requires Filling(w0, w, d, id) && WorldStep(w, w')
    requires w.at == w'.at == d && StoreOp(w.op, id) && StoreOp(w'.op, id)
    ensures Filling(w0, w', d, id)
  {
    assert Filling(w, w', d, id);
  }

  /** Every moment after `mark` up to `p` belongs to the store of `id` at `d`, before its last effect. */
  ghost predicate StoringOn(mark: Past, p: Past, d: nat, id: string)
    decreases p
  {
    && p.Then? && p.now.at == d && StoreOp(p.now.op, id)
    && (p.before == mark || StoringOn(mark, p.before, d, id))
  }

  /** The steps of `store` before the rename only ever change the partial directory. */
  lemma {:induction false} StoreSegment(mark: Past, p: Past, d: nat, id: string)
    requires Linked(p) && StoringOn(mark, p, d, id) && mark.now.op.Idle?
    ensures Filling(mark.now, p.now, d, id)
    decreases p
  {
    LinkedBefore(p, p);
    if p.before == mark {
      FirstFills(mark.now, p.now, d, id);
    } else {
      LinkedBefore(p.before, p);
      StoreSegment(mark, p.before, d, id);
      NextFills(mark.now, p.before.now, p.now, d, id);
    }
  }

  /** Every moment from `was` to `p` belongs to one store at `d`. */
  ghost predicate StoringSince(was: Past, p: Past, d: nat, id: string, src: Files)
    decreases p
  {
    && StoringAt(was.now, p.now, d, id, src)
    && (p != was ==> p.Then? && StoringSince(was, p.before, d, id, src))
  }

  lemma {:induction false} StoreSegments(mark: Past, p: Past, d: nat, id: string, src: Files)
    requires Linked(p) && StoringOn(mark, p, d, id) && mark.now.op.Idle? && d < |mark.now.disks|
    ensures StoringSince(mark, p, d, id, src)
    ensures Filling(mark.now, p.now, d, id)
    decreases p
  {
    StoreSegment(mark, p, d, id);
    FillingIsStoring(mark.now, p.now, d, id, src);
    if p.before == mark {
      FillingIsStoring(mark.now, mark.now, d, id, src);
    } else {
      LinkedBefore(p.before, p);
      StoreSegments(mark, p.before, d, id, src);
    }
  }

  /** The rename of a finished partial directory: possible, and the last step of the store that began at `w0`. */
  lemma CommitFollows(w0: World, w: World, d: nat, id: string, src: Files, dir: Dest)
    requires Filling(w0, w, d, id) && w.op == Sealed(id, src) && WorldInv(w) && w.at == d
    requires Vacant(w.disks[d].dir.entries, id) && Partial(id) in w.disks[d].dir.entries
    requires var e := w.disks[d].dir.entries;
             dir == w.disks[d].dir.(entries := (e - {Partial(id)})[id := e[Partial(id)]])
    ensures Leads(Cfg(w.op, w.disks[d]), Commit, Idle, dir)
    ensures StoringAt(w0, NextWorld(w, d, Commit), d, id, src)
    ensures Committed(dir.entries, id, src) && Vacant(w0.disks[d].dir.entries, id)
  {
    CommitLeads(Cfg(w.op, w.disks[d]), id, src, dir);
    CommitChange(w0.disks[d].dir.entries, w.disks[d].dir.entries, id, src);
  }

  /** One step of `delete` only shrinks or removes entries that the id reaches. */
  lemma DeleteStep(c: Cfg, c': Cfg, id: string)
    requires Step(c, c') && c.op == c'.op == Deleting(id)
    ensures DeleteChange(c.disk.dir.entries, c'.disk.dir.entries, Reach([id]))
  {
    forall n | Covers(id, n) ensures n in Reach([id]) { assert id in [id]; }
  }

  lemma FirstRemoves(w: World, w': World, d: nat, id: string)
    requires WorldStep(w, w') && w.op.Idle? && w'.at == d && w'.op == Deleting(id)
    ensures Removing(w, w', d, Reach([id]))
  {}

  lemma NextRemoves(w0: World, w: World, w': World, d: nat, id: string)
    requires Removing(w0, w, d, Reach([id])) && WorldStep(w, w')
    requires w.at == w'.at == d && w.op == w'.op == Deleting(id)
    ensures Removing(w0, w', d, Reach([id]))
  {
    DeleteStep(Cfg(w.op, w.disks[d]), Cfg(w'.op, w'.disks[d]), id);
    DeleteChangeCompose(w0.disks[d].dir.entries, w.disks[d].dir.entries, w'.disks[d].dir.entries,
                        Reach([id]), Reach([id]), Reach([id]));
  }

  /** Every moment after `mark` up to `p` belongs to the deletion of `id` at `d`. */
  ghost predicate DeletingOn(mark: Past, p: Past, d: nat, id: string)
    decreases p
  {
    && p.Then? && p.now.at == d && p.now.op == Deleting(id)
    && (p.before == mark || DeletingOn(mark, p.before, d, id))
  }

  /** Every moment from `was` to `p` belongs to deletions at `d` within `reach`. */
  ghost predicate RemovingSince(was: Past, p: Past, d: nat, reach: iset<string>)
    decreases p
  {
    && Removing(was.now, p.now, d, reach)
    && (p != was ==> p.Then? && RemovingSince(was, p.before, d, reach))
  }

  lemma {:induction false} DeleteSegments(mark: Past, p: Past, d: nat, id: string)
    requires Linked(p) && DeletingOn(mark, p, d, id) && mark.now.op.Idle? && d < |mark.now.disks|
    ensures RemovingSince(mark, p, d, Reach([id]))
    decreases p
  {
    LinkedBefore(p, p);
    if p.before == mark {
      FirstRemoves(mark.now, p.now, d, id);
      assert Removing(mark.now, mark.now, d, Reach([id]));
    } else {
      LinkedBefore(p.before, p);
      DeleteSegments(mark, p.before, d, id);
      NextRemoves(mark.now, p.before.now, p.now, d, id);
    }
  }

  lemma DeletedNames(e: Entries, id: string)
    ensures Survivors(e, [id]) == if Degenerate(id) then map[] else e - {id, id + PARTIAL}
  {
    forall n ensures CoveredByAny([id], n) <==> Covers(id, n) {
      if Covers(id, n) { assert id in [id]; }
    }
  }

  lemma FillingIsStoring(w0: World, w: World, d: nat, id: string, src: Files)
    requires Filling(w0, w, d, id)
    ensures StoringAt(w0, w, d, id, src) && Same(w0.disks[d].dir.entries, w.disks[d].dir.entries, id)
  {
    assert Partial(id) != id;
  }

  lemma NextWorldFollows(w: World, d: nat, a: Act)
    requires d < |w.disks| && (w.op.Idle? || w.at == d) && Enabled(Cfg(w.op, w.disks[d]), a)
    ensures WorldStep(w, NextWorld(w, d, a))
  {
    var c := Cfg(w.op, w.disks[d]);
    assert Step(c, Apply(c, a));
  }
}
