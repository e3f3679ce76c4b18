/** The remote listing against the directory it describes, and against the local listing of the same one. */
module SshListing {
  import opened Wrappers
  import opened Retention
  import opened Layout
  import opened SshOutput

  // ----- The script

  /** The pattern of the script's loop matches directories whose name has no leading dot. */
  predicate Visible(n: string) { n != "" && n[0] != '.' }

  predicate Printed(n: string, node: Node) {
    node.Dir? && Visible(n) && (HasMeta(node) || Suffixed(n))
  }

  /** `stat` takes a name that begins with a dash for options and fails; the script then prints 0. */
  function Seconds(n: string, node: Node): int
    requires node.Dir?
  {
    if n != "" && n[0] == '-' then 0 else node.mtime / SECOND
  }

  function EntryOf(n: string, node: Node): Entry
    requires Printed(n, node)
  {
    Entry(HasMeta(node), if HasMeta(node) then n else Strip(n), Seconds(n, node))
  }

  /** The script's entries for a directory; nothing is printed when the path does not exist. */
  function Script(order: seq<string>, e: Entries): seq<Entry>
    requires forall n :: n in order ==> n in e
  {
    if order == [] then []
    else
      var n := order[|order| - 1];
      Script(order[..|order| - 1], e) + (if Printed(n, e[n]) then [EntryOf(n, e[n])] else [])
  }

  /** SSHDestination.list_backups on an existing path: what is read from the printed text; None when int() raises. */
  function SshRows(order: seq<string>, e: Entries): Option<seq<StoredBackup>>
    requires forall n :: n in order ==> n in e
  {
    ParseLines(SplitLines(Output(Script(order, e))))
  }

  // ----- Names that fit on a line

  /** No printed name holds a line break. */
  ghost predicate Unbroken(e: Entries) {
    forall n :: n in e && Printed(n, e[n]) ==> OneLine(n)
  }

  /** The rows for names that fit on a line. */
  function PlainRows(order: seq<string>, e: Entries): seq<StoredBackup>
    requires forall n :: n in order ==> n in e
  {
    Readable(Script(order, e))
  }

  lemma {:induction false} ScriptIsOneLine(order: seq<string>, e: Entries)
    requires Unbroken(e) && forall n :: n in order ==> n in e
    ensures forall i :: 0 <= i < |Script(order, e)| ==> OneLine(Script(order, e)[i].id)
  {
    if order != [] { ScriptIsOneLine(order[..|order| - 1], e); }
  }

  /** The text gets through unharmed when no name breaks a line. */
  lemma SshRowsArePlain(order: seq<string>, e: Entries)
    requires Unbroken(e) && forall n :: n in order ==> n in e
    ensures SshRows(order, e) == Some(PlainRows(order, e))
  {
    ScriptIsOneLine(order, e);
    ListingRoundTrip(Script(order, e));
  }

  /** Shown by the script and not dropped by the parser, as far as the name goes. */
  predicate Shown(n: string) { Visible(n) && ' ' !in n }

  predicate Listed(n: string, node: Node) { Printed(n, node) && ' ' !in n }

  function SshRow(n: string, node: Node): StoredBackup
    requires Listed(n, node)
  {
    RowOf(EntryOf(n, node))
  }

  lemma StripKeepsSpaces(n: string)
    requires Suffixed(n)
    ensures ' ' in Strip(n) <==> ' ' in n
  {
    assert n == Strip(n) + PARTIAL;
  }

  lemma {:induction false} PlainRowsStep(order: seq<string>, e: Entries)
    requires order != [] && forall n :: n in order ==> n in e
    ensures var n := order[|order| - 1];
            PlainRows(order, e)
            == PlainRows(order[..|order| - 1], e) + (if Listed(n, e[n]) then [SshRow(n, e[n])] else [])
  {
    var n := order[|order| - 1];
    var front := Script(order[..|order| - 1], e);
    if Printed(n, e[n]) {
      if Suffixed(n) { StripKeepsSpaces(n); }
      ReadableOfMore(front, EntryOf(n, e[n]));
    } else {
      assert front + [] == front;
    }
  }

  lemma {:induction false} PlainRowsMember(order: seq<string>, e: Entries, b: StoredBackup)
    requires forall n :: n in order ==> n in e
    ensures b in PlainRows(order, e) <==> exists n :: n in order && Listed(n, e[n]) && SshRow(n, e[n]) == b
  {
    if order != [] {
      var k := |order| - 1;
      assert order == order[..k] + [order[k]];
      PlainRowsStep(order, e);
      PlainRowsMember(order[..k], e, b);
    }
  }

  /** Which directories the remote listing reports, and as what. */
  lemma SshRowsMember(order: seq<string>, e: Entries, b: StoredBackup)
    requires Unbroken(e) && forall n :: n in order ==> n in e
    ensures SshRows(order, e).Some?
    ensures b in SshRows(order, e).value <==> exists n :: n in order && Listed(n, e[n]) && SshRow(n, e[n]) == b
  {
    SshRowsArePlain(order, e);
    PlainRowsMember(order, e, b);
  }

  // ----- The same without the definitions of the script

  /** A name in which a listing line can hold. */
  ghost predicate NoBreaks(n: string) {
    forall c :: c in n ==>
      c !in ['\n', '\r', 11 as char, 12 as char, 28 as char, 29 as char, 30 as char,
             133 as char, 8232 as char, 8233 as char]
  }

  /** What the script is to say about the directory `n`: nothing about hidden names and names with spaces. */
  ghost predicate SshListedAs(n: string, node: Node, b: StoredBackup)
    requires node.Dir?
  {
    && n != "" && n[0] != '.' && ' ' !in n
    && b.storedAt == (if n[0] == '-' then 0 else node.mtime / 1_000_000 * 1_000_000)
    && (if ["meta.json"] in node.files then b.id == n && b.complete
        else n == b.id + ".partial" && !b.complete)
  }

  lemma ListedAsMeans(n: string, node: Node, b: StoredBackup)
    requires node.Dir?
    ensures Listed(n, node) && SshRow(n, node) == b <==> SshListedAs(n, node, b)
  {
    assert ".partial" == PARTIAL;
    if Suffixed(n) { StripRoundTrip(n); }
    if n == b.id + ".partial" { SuffixRoundTrip(b.id); }
  }

  lemma NoBreaksIsOneLine(n: string)
    requires NoBreaks(n)
    ensures OneLine(n)
  {
    forall i | 0 <= i < |n| ensures !IsBreak(n[i]) { assert n[i] in n; }
  }

  /** One row for each directory that is to be shown, as it is to be shown, and none for anything else. */
  lemma SshRowsMean(order: seq<string>, e: Entries, b: StoredBackup)
    requires Enumerates(order, e.Keys) && forall n :: n in e ==> NoBreaks(n)
    ensures SshRows(order, e).Some?
    ensures b in SshRows(order, e).value <==> exists n :: n in e && e[n].Dir? && SshListedAs(n, e[n], b)
  {
    assert forall n :: n in Members(order) <==> n in e;
    forall n | n in e ensures OneLine(n) { NoBreaksIsOneLine(n); }
    SshRowsMember(order, e, b);
    forall n | n in e && e[n].Dir? ensures Listed(n, e[n]) && SshRow(n, e[n]) == b <==> SshListedAs(n, e[n], b) {
      ListedAsMeans(n, e[n], b);
    }
  }

  // ----- The local listing with times cut to seconds

  function Cut(b: StoredBackup): StoredBackup { b.(storedAt := b.storedAt / SECOND * SECOND) }

  function Truncated(rows: seq<StoredBackup>): seq<StoredBackup> {
    seq(|rows|, i requires 0 <= i < |rows| => Cut(rows[i]))
  }

  ghost function DirsWith(order: seq<string>, e: Entries, b: StoredBackup): set<string>
    requires forall n :: n in order ==> n in e
  {
    set n | n in order && e[n].Dir? && Cut(Row(n, e[n])) == b
  }

  lemma OneMoreDir(order: seq<string>, e: Entries, b: StoredBackup)
    requires Distinct(order) && order != [] && forall n :: n in order ==> n in e
    ensures var k := |order| - 1; var n := order[k]; var front := order[..k];
            && Truncated(Rows(order, e)) == Truncated(Rows(front, e)) + (if e[n].Dir? then [Cut(Row(n, e[n]))] else [])
            && DirNames(order, e) == DirNames(front, e) + (if e[n].Dir? then {n} else {})
            && DirsWith(order, e, b)
               == DirsWith(front, e, b) + (if e[n].Dir? && Cut(Row(n, e[n])) == b then {n} else {})
            && n !in DirNames(front, e) && n !in DirsWith(front, e, b)
  {
    var k := |order| - 1;
    assert order == order[..k] + [order[k]] && order[k] !in order[..k];
  }

  lemma {:induction false} LocalRowsCount(order: seq<string>, e: Entries, b: StoredBackup)
    requires Distinct(order) && forall n :: n in order ==> n in e
    ensures |Rows(order, e)| == |DirNames(order, e)|
    ensures multiset(Truncated(Rows(order, e)))[b] == |DirsWith(order, e, b)|
  {
    if order != [] {
      LocalRowsCount(order[..|order| - 1], e, b);
      OneMoreDir(order, e, b);
    }
  }

  lemma LocalRowsIgnoreOrder(a: seq<string>, b: seq<string>, e: Entries)
    requires Enumerates(a, e.Keys) && Enumerates(b, e.Keys)
    ensures multiset(Truncated(Rows(a, e))) == multiset(Truncated(Rows(b, e)))
  {
    forall n ensures n in a <==> n in b {
      assert n in Members(a) <==> n in Members(b);
    }
    forall r ensures multiset(Truncated(Rows(a, e)))[r] == multiset(Truncated(Rows(b, e)))[r] {
      LocalRowsCount(a, e, r);
      LocalRowsCount(b, e, r);
      assert DirsWith(a, e, r) == DirsWith(b, e, r);
    }
  }

  // ----- When the two listings say the same

  lemma {:induction false} PlainRowsLength(order: seq<string>, e: Entries)
    requires Distinct(order) && forall n :: n in order ==> n in e
    ensures |PlainRows(order, e)| <= |DirNames(order, e)|
    ensures |PlainRows(order, e)| == |DirNames(order, e)| ==> forall n :: n in DirNames(order, e) ==> Listed(n, e[n])
  {
    if order != [] {
      PlainRowsStep(order, e);
      PlainRowsLength(order[..|order| - 1], e);
      OneMoreDir(order, e, StoredBackup("", false, 0));
    }
  }

  /** Both backends say the same about the directory `n`. */
  predicate Agrees(n: string, node: Node)
    requires node.Dir?
  {
    && Visible(n) && ' ' !in n && OneLine(n)
    && (Suffixed(n) <==> !HasMeta(node))
    && Seconds(n, node) == node.mtime / SECOND
  }

  lemma {:induction false} SameRowsWhereAgreed(order: seq<string>, e: Entries)
    requires forall n :: n in order ==> n in e
    requires Distinct(order) && forall n :: n in order && e[n].Dir? ==> Agrees(n, e[n])
    ensures PlainRows(order, e) == Truncated(Rows(order, e))
  {
    if order != [] {
      var k := |order| - 1;
      assert order == order[..k] + [order[k]];
      PlainRowsStep(order, e);
      OneMoreDir(order, e, StoredBackup("", false, 0));
      SameRowsWhereAgreed(order[..k], e);
    }
  }

  lemma ReadIdsAreOneLine(a: seq<string>, e: Entries, b: StoredBackup)
    requires (forall n :: n in a ==> n in e) && SshRows(a, e).Some? && b in SshRows(a, e).value
    ensures OneLine(b.id)
  {
    LinesAreOneLine(Output(Script(a, e)));
    ParsedIdsAreOneLine(SplitLines(Output(Script(a, e))));
  }

  lemma OneLineWithSuffix(n: string)
    requires Suffixed(n) && OneLine(Strip(n))
    ensures OneLine(n)
  {
    assert n == Strip(n) + PARTIAL && OneLine(PARTIAL);
  }

  /** What is read back never holds a line break, while the local listing keeps the names it finds. */
  lemma EqualListingsAreUnbroken(a: seq<string>, e: Entries, n: string)
    requires Enumerates(a, e.Keys) && SshRows(a, e).Some?
    requires multiset(SshRows(a, e).value) == multiset(Truncated(Rows(a, e)))
    requires n in e && e[n].Dir?
    ensures OneLine(n)
  {
    var b := Cut(Row(n, e[n]));
    LocalRowsCount(a, e, b);
    assert n in Members(a);
    assert n in DirsWith(a, e, b);
    assert b in multiset(Truncated(Rows(a, e)));
    assert b in multiset(SshRows(a, e).value);
    ReadIdsAreOneLine(a, e, b);
    if Suffixed(n) { OneLineWithSuffix(n); }
  }

  lemma EqualListingsAgree(a: seq<string>, e: Entries, n: string)
    requires Enumerates(a, e.Keys) && n in e && e[n].Dir? && OneLine(n)
    requires multiset(PlainRows(a, e)) == multiset(Truncated(Rows(a, e)))
    ensures Agrees(n, e[n])
  {
    assert n in Members(a);
    assert |PlainRows(a, e)| == |multiset(PlainRows(a, e))| == |Truncated(Rows(a, e))|;
    PlainRowsLength(a, e);
    var b := StoredBackup("", false, 0);
    LocalRowsCount(a, e, b);
    assert n in DirNames(a, e);
    b := SshRow(n, e[n]);
    PlainRowsMember(a, e, b);
    assert b in multiset(Truncated(Rows(a, e)));
    LocalRowsCount(a, e, b);
    assert DirsWith(a, e, b) != {};
    var m :| m in DirsWith(a, e, b);
    assert m in DirNames(a, e);
    if Suffixed(m) { StripRoundTrip(m); }
    if Suffixed(n) { StripRoundTrip(n); }
  }

  /**
   The ssh listing equals the local listing of the same directory, with times cut to seconds, exactly when every
   directory has a visible name without spaces and line breaks, every unsuffixed one holds meta.json, no suffixed
   one does, and a name with a leading dash goes with a time in the first second of 1970.
   */
  lemma ListingsAgreeIff(a: seq<string>, b: seq<string>, e: Entries)
    requires Enumerates(a, e.Keys) && Enumerates(b, e.Keys)
    ensures SshRows(a, e).Some? && multiset(SshRows(a, e).value) == multiset(Truncated(Rows(b, e)))
            <==> forall n :: n in e && e[n].Dir? ==> Agrees(n, e[n])
  {
    assert forall n :: n in Members(a) <==> n in e;
    LocalRowsIgnoreOrder(a, b, e);
    if forall n :: n in e && e[n].Dir? ==> Agrees(n, e[n]) {
      SshRowsArePlain(a, e);
      SameRowsWhereAgreed(a, e);
    }
    if SshRows(a, e).Some? && multiset(SshRows(a, e).value) == multiset(Truncated(Rows(b, e))) {
      forall n | n in e && e[n].Dir? ensures OneLine(n) { EqualListingsAreUnbroken(a, e, n); }
      SshRowsArePlain(a, e);
      forall n | n in e && e[n].Dir? ensures Agrees(n, e[n]) { EqualListingsAgree(a, e, n); }
    }
  }
}
