/** What a destination directory holds, how it is read back, and which names a delete reaches. */
module Layout {
  import opened Retention

  type Path = seq<string>          // components, from a generation's directory or from the root
  type Files = map<Path, string>   // file contents by path

  datatype Node = File | Dir(files: Files, mtime: int)

  type Entries = map<string, Node>

  const PARTIAL := ".partial"
  const META := "meta.json"

  /** Everything outside meta.json; the exclusion pattern matches a component at any depth. */
  function Data(src: Files): Files {
    map p | p in src && META !in p :: src[p]
  }

  /** What a finished store leaves under the generation's name. */
  function Placed(src: Files): Files {
    if [META] in src then Data(src)[[META] := src[[META]]] else Data(src)
  }

  /** `files` is a copy of `src` without everything named meta.json, but with the one at the top. */
  ghost predicate Copied(files: Files, src: Files) {
    forall p ::
      && (p in files <==> p in src && (p == ["meta.json"] || forall i :: 0 <= i < |p| ==> p[i] != "meta.json"))
      && (p in files ==> files[p] == src[p])
  }

  lemma PlacedIsCopied(src: Files, files: Files)
    ensures Copied(files, src) <==> files == Placed(src)
  {
    forall p ensures p in Placed(src)
                     <==> p in src && (p == ["meta.json"] || forall i :: 0 <= i < |p| ==> p[i] != "meta.json") {}
    if Copied(files, src) {
      forall p ensures (p in files <==> p in Placed(src)) && (p in files ==> files[p] == Placed(src)[p]) {}
      assert files == Placed(src);
    }
  }

  predicate Suffixed(n: string) {
    |n| >= |PARTIAL| && n[|n| - |PARTIAL|..] == PARTIAL
  }

  function Strip(n: string): string
    requires Suffixed(n)
  {
    n[..|n| - |PARTIAL|]
  }

  predicate HasMeta(node: Node) {
    node.Dir? && [META] in node.files
  }

  predicate Complete(e: Entries, n: string) {
    n in e && !Suffixed(n) && HasMeta(e[n])
  }

  ghost function CompleteNames(e: Entries): set<string> {
    set n | n in e && Complete(e, n)
  }

  lemma SuffixRoundTrip(id: string)
    ensures Suffixed(id + PARTIAL) && Strip(id + PARTIAL) == id
  {}

  lemma StripRoundTrip(n: string)
    requires Suffixed(n)
    ensures Strip(n) + PARTIAL == n
  {}

  /** One directory as `list_backups` reports it. */
  function Row(n: string, node: Node): StoredBackup
    requires node.Dir?
  {
    if Suffixed(n) then StoredBackup(Strip(n), false, node.mtime)
    else StoredBackup(n, HasMeta(node), node.mtime)
  }

  /** The listing, for entries visited in the given order; plain files are skipped. */
  function Rows(order: seq<string>, e: Entries): seq<StoredBackup>
    requires forall n :: n in order ==> n in e
  {
    if order == [] then []
    else
      var n := order[|order| - 1];
      Rows(order[..|order| - 1], e) + (if e[n].Dir? then [Row(n, e[n])] else [])
  }

  ghost predicate Enumerates(order: seq<string>, names: set<string>) {
    Distinct(order) && Members(order) == names
  }

  lemma OneMoreName(order: seq<string>, n: string)
    requires Distinct(order) && n !in Members(order)
    ensures (order + [n])[..|order|] == order && Members(order + [n]) == Members(order) + {n} && Distinct(order + [n])
  {}

  lemma {:induction false} RowsMember(order: seq<string>, e: Entries, b: StoredBackup)
    requires forall n :: n in order ==> n in e
    ensures b in Rows(order, e) <==> exists n :: n in order && e[n].Dir? && Row(n, e[n]) == b
  {
    if order != [] {
      var k := |order| - 1;
      assert order == order[..k] + [order[k]];
      RowsMember(order[..k], e, b);
    }
  }

  /** The complete rows of a listing are the complete directories, each once. */
  lemma {:induction false} RowsComplete(order: seq<string>, e: Entries)
    requires Distinct(order) && forall n :: n in order ==> n in e
    ensures Distinct(Ids(Completes(Rows(order, e))))
    ensures forall n :: n in CompleteIds(Rows(order, e)) <==> n in order && Complete(e, n)
  {
    if order != [] {
      var k := |order| - 1;
      var n := order[k];
      assert order == order[..k] + [n] && n !in order[..k];
      RowsComplete(order[..k], e);
      var front := Rows(order[..k], e);
      if e[n].Dir? {
        DistinctOfMore(front, Row(n, e[n]));
      } else {
        assert front + [] == front;
      }
    }
  }

  /** The row `b` is what the directory `n` is listed as. */
  ghost predicate ListedAs(n: string, node: Node, b: StoredBackup)
    requires node.Dir?
  {
    && b.storedAt == node.mtime
    && (if |n| >= 8 && n[|n| - 8..] == ".partial" then b.id == n[..|n| - 8] && !b.complete
        else b.id == n && (b.complete <==> ["meta.json"] in node.files))
  }

  ghost predicate SomeRowFor(rows: seq<StoredBackup>, n: string, node: Node)
    requires node.Dir?
  {
    exists b :: b in rows && ListedAs(n, node, b)
  }

  ghost predicate SomeDirFor(e: Entries, b: StoredBackup) {
    exists n :: n in e && e[n].Dir? && ListedAs(n, e[n], b)
  }

  ghost function DirNames(order: seq<string>, e: Entries): set<string>
    requires forall n :: n in order ==> n in e
  {
    set n | n in order && e[n].Dir?
  }

  /** One row for each directory, and none for anything else. */
  ghost predicate ListsDirs(rows: seq<StoredBackup>, e: Entries) {
    && (forall n :: n in e && e[n].Dir? ==> SomeRowFor(rows, n, e[n]))
    && (forall b :: b in rows ==> SomeDirFor(e, b))
    && |rows| == |set n | n in e && e[n].Dir?|
  }

  lemma RowIsListedAs(n: string, node: Node)
    requires node.Dir?
    ensures ListedAs(n, node, Row(n, node))
  {
    assert |PARTIAL| == 8;
  }

  lemma RowOfDir(order: seq<string>, e: Entries, n: string)
    requires (forall m :: m in order ==> m in e) && n in order && e[n].Dir?
    ensures SomeRowFor(Rows(order, e), n, e[n])
  {
    RowIsListedAs(n, e[n]);
    RowsMember(order, e, Row(n, e[n]));
  }

  lemma DirOfRow(order: seq<string>, e: Entries, b: StoredBackup)
    requires (forall m :: m in order ==> m in e) && b in Rows(order, e)
    ensures SomeDirFor(e, b)
  {
    RowsMember(order, e, b);
    var n :| n in order && e[n].Dir? && Row(n, e[n]) == b;
    RowIsListedAs(n, e[n]);
  }

  lemma EachDirHasRow(order: seq<string>, e: Entries)
    requires Enumerates(order, e.Keys)
    ensures forall n :: n in e && e[n].Dir? ==> SomeRowFor(Rows(order, e), n, e[n])
  {
    forall n | n in e && e[n].Dir? ensures SomeRowFor(Rows(order, e), n, e[n]) {
      assert n in Members(order);
      RowOfDir(order, e, n);
    }
  }

  lemma EachRowHasDir(order: seq<string>, e: Entries)
    requires Enumerates(order, e.Keys)
    ensures forall b :: b in Rows(order, e) ==> SomeDirFor(e, b)
  {
    forall b | b in Rows(order, e) ensures SomeDirFor(e, b) { DirOfRow(order, e, b); }
  }

  lemma RowsListDirs(order: seq<string>, e: Entries)
    requires Enumerates(order, e.Keys)
    ensures ListsDirs(Rows(order, e), e)
  {
    EachDirHasRow(order, e);
    EachRowHasDir(order, e);
    RowsLength(order, e);
    assert forall n :: n in Members(order) <==> n in e;
    assert DirNames(order, e) == set n | n in e && e[n].Dir?;
  }

  lemma OneMoreDirName(order: seq<string>, e: Entries)
    requires Distinct(order) && order != [] && forall n :: n in order ==> n in e
    ensures var k := |order| - 1; var n := order[k]; var front := order[..k];
            && DirNames(order, e) == DirNames(front, e) + (if e[n].Dir? then {n} else {})
            && n !in DirNames(front, e)
  {
    var k := |order| - 1;
    assert order == order[..k] + [order[k]] && order[k] !in order[..k];
  }

  lemma {:induction false} RowsLength(order: seq<string>, e: Entries)
    requires Distinct(order) && forall n :: n in order ==> n in e
    ensures |Rows(order, e)| == |DirNames(order, e)|
  {
    if order != [] {
      RowsLength(order[..|order| - 1], e);
      OneMoreDirName(order, e);
    }
  }

  /** Ids whose path below a destination is the destination itself or its parent. */
  predicate Degenerate(id: string) {
    id == "" || id == "." || id == ".."
  }

  /** `delete(id)` may remove something under the entry `n`. */
  predicate Covers(id: string, n: string) {
    Degenerate(id) || n == id || n == id + PARTIAL
  }

  ghost predicate CoveredByAny(ids: seq<string>, n: string) {
    exists id :: id in ids && Covers(id, n)
  }

  ghost function Reach(ids: seq<string>): iset<string> {
    iset n: string | CoveredByAny(ids, n)
  }

  /** What is left once every id in `ids` has been deleted. */
  ghost function Survivors(e: Entries, ids: seq<string>): Entries {
    map n | n in e && !CoveredByAny(ids, n) :: e[n]
  }

  lemma CoveredByMore(ids: seq<string>, id: string, n: string)
    ensures CoveredByAny(ids + [id], n) <==> CoveredByAny(ids, n) || CoveredByAny([id], n)
  {
    if CoveredByAny(ids, n) {
      var x :| x in ids && Covers(x, n);
      assert x in ids + [id];
    }
    if CoveredByAny([id], n) { assert id in ids + [id]; }
    if CoveredByAny(ids + [id], n) {
      var x :| x in ids + [id] && Covers(x, n);
      assert x in ids || x in [id];
    }
  }

  lemma SurvivorsOfMore(e: Entries, ids: seq<string>, id: string)
    ensures Survivors(Survivors(e, ids), [id]) == Survivors(e, ids + [id])
  {
    forall n ensures CoveredByAny(ids + [id], n) <==> CoveredByAny(ids, n) || CoveredByAny([id], n) {
      CoveredByMore(ids, id, n);
    }
  }

  lemma ReachOfPart(ids: seq<string>, i: nat)
    requires i < |ids|
    ensures Reach([ids[i]]) <= Reach(ids)
  {
    forall n | n in Reach([ids[i]]) ensures n in Reach(ids) { assert ids[i] in ids; }
  }

  /** Directory entries never carry these names, and their names hold no slash. */
  ghost predicate WellNamed(e: Entries) {
    forall n :: n in e ==> !Degenerate(n) && '/' !in n
  }

  function LeftAt(e: Entries, n: string): Files {
    if n in e && e[n].Dir? then e[n].files else map[]
  }

  /** The files of a directory as seen from further up, where the directory is reached by `below`. */
  function Nested(below: Path, files: Files): Files {
    map q | q in (set p | p in files :: below + p) :: files[q[|below|..]]
  }

  lemma NestedIsBelow(below: Path, files: Files, q: Path)
    requires q in Nested(below, files)
    ensures |q| >= |below| && q[..|below|] == below
  {
    var p :| p in files && below + p == q;
  }

  /** No complete generation has a sibling with the partial suffix. */
  ghost predicate NoCoexistence(e: Entries) {
    forall n :: Complete(e, n) ==> n + PARTIAL !in e
  }

  /** No entry is named `.partial`, `..partial` or `...partial`. */
  ghost predicate NoDotPartial(e: Entries) {
    forall id :: Degenerate(id) ==> id + PARTIAL !in e
  }
}
