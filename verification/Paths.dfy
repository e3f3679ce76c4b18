/** Paths as pathlib reads them, and the places they lead to. */
module Paths {
  import opened Text

  function Components(parts: seq<string>): seq<string> {
    if parts == [] then []
    else (if parts[0] == "" || parts[0] == "." then [] else [parts[0]]) + Components(parts[1..])
  }

  function Join(parts: seq<string>): string {
    if parts == [] then "" else if |parts| == 1 then parts[0] else parts[0] + "/" + Join(parts[1..])
  }

  function Root(path: string): string {
    if |path| >= 1 && path[0] == '/' then
      (if |path| >= 2 && path[1] == '/' && !(|path| >= 3 && path[2] == '/') then "//" else "/")
    else ""
  }

  /** Path(path).parts without the root: empty and dot components vanish. */
  function Parts(path: string): seq<string> { Components(Split(path, '/')) }

  function Spelled(root: string, parts: seq<string>): string {
    var body := root + Join(parts);
    if body == "" then "." else body
  }

  /** str(Path(path)) on POSIX. */
  function NormalPath(path: string): string { Spelled(Root(path), Parts(path)) }

  lemma {:induction false} ComponentsOfSum(a: seq<string>, b: seq<string>)
    ensures Components(a + b) == Components(a) + Components(b)
  {
    if a == [] {
      assert a + b == b;
    } else {
      assert (a + b)[1..] == a[1..] + b;
      ComponentsOfSum(a[1..], b);
    }
  }

  lemma NoComponent(part: string)
    requires part == "" || part == "."
    ensures Components([part]) == []
  {
    assert Components([part]) == [] + Components([part][1..]) && [part][1..] == [];
  }

  /** Neither empty nor a dot, and without a slash. */
  predicate IsName(part: string) { part != "" && part != "." && '/' !in part }

  lemma {:induction false} ComponentsAreNames(parts: seq<string>)
    requires forall part :: part in parts ==> '/' !in part
    ensures forall part :: part in Components(parts) ==> IsName(part)
    ensures (forall part :: part in parts ==> IsName(part)) ==> Components(parts) == parts
  {
    if parts != [] {
      ComponentsAreNames(parts[1..]);
      assert parts[0] in parts && parts == [parts[0]] + parts[1..];
    }
  }

  lemma PartsAreNames(path: string)
    ensures forall part :: part in Parts(path) ==> IsName(part)
  {
    PartsHaveNoSep(path, '/');
    ComponentsAreNames(Split(path, '/'));
  }

  lemma {:induction false} SplitOfJoined(parts: seq<string>)
    requires parts != [] && forall part :: part in parts ==> IsName(part)
    ensures Split(Join(parts), '/') == parts
    ensures Join(parts) != "" && Join(parts)[0] != '/'
  {
    SplitOfWord(parts[0], '/');
    assert parts[0] in parts;
    assert parts[0][0] in parts[0];
    if |parts| == 1 {
      assert parts == [parts[0]];
    } else {
      SplitOfJoined(parts[1..]);
      SplitOfJoin(parts[0], Join(parts[1..]), '/');
      assert Join(parts) == parts[0] + ['/'] + Join(parts[1..]);
    }
  }

  lemma JoinedParts(parts: seq<string>)
    requires forall part :: part in parts ==> IsName(part)
    ensures Parts(Join(parts)) == parts && Root(Join(parts)) == ""
  {
    if parts == [] {
      NoComponent("");
    } else {
      SplitOfJoined(parts);
      ComponentsAreNames(parts);
    }
  }

  lemma PartsBelowSlash(body: string)
    ensures Parts("/" + body) == Parts(body)
  {
    assert "" + ['/'] + body == "/" + body;
    SplitOfSum("", body, '/');
    ComponentsOfSum([""], Split(body, '/'));
    NoComponent("");
  }

  lemma BelowRoot(body: string)
    requires body == "" || body[0] != '/'
    ensures Root("/" + body) == "/" && Parts("/" + body) == Parts(body)
    ensures Root("//" + body) == "//" && Parts("//" + body) == Parts(body)
  {
    PartsBelowSlash(body);
    PartsBelowSlash("/" + body);
    assert "/" + ("/" + body) == "//" + body;
    if body != "" { assert ("/" + body)[1] == body[0] && ("//" + body)[2] == body[0]; }
  }

  lemma SpelledKeeps(root: string, parts: seq<string>)
    requires root in {"", "/", "//"} && forall part :: part in parts ==> IsName(part)
    ensures Root(Spelled(root, parts)) == root && Parts(Spelled(root, parts)) == parts
  {
    var body := Join(parts);
    JoinedParts(parts);
    if parts != [] { SplitOfJoined(parts); }
    if root != "" {
      BelowRoot(body);
    } else if parts == [] {
      SplitOfWord(".", '/');
      NoComponent(".");
    } else {
      assert "" + body == body;
    }
  }

  /** Normal form keeps the root and the components, so it is its own normal form. */
  lemma NormalFormKeeps(path: string)
    ensures Root(NormalPath(path)) == Root(path) && Parts(NormalPath(path)) == Parts(path)
  {
    PartsAreNames(path);
    SpelledKeeps(Root(path), Parts(path));
  }

  /** str(Path(path) / more). */
  function Joined(path: string, more: string): string {
    if Root(more) == "" then Spelled(Root(path), Parts(path) + Parts(more)) else NormalPath(more)
  }

  /** From `at` along the components; `..` goes up and stays put at the top. */
  function Walk(at: seq<string>, parts: seq<string>): seq<string>
    decreases |parts|
  {
    if parts == [] then at
    else if parts[0] != ".." then Walk(at + [parts[0]], parts[1..])
    else Walk(if at == [] then [] else at[..|at| - 1], parts[1..])
  }

  /** The directory a path leads to from the working directory, where there are no symbolic links. */
  function Place(cwd: seq<string>, path: string): seq<string> {
    Walk(if Root(path) == "" then cwd else [], Parts(path))
  }

  lemma {:induction false} StraightWalk(at: seq<string>, parts: seq<string>)
    requires ".." !in parts
    ensures Walk(at, parts) == at + parts
    decreases |parts|
  {
    if parts != [] {
      StraightWalk(at + [parts[0]], parts[1..]);
      assert at + [parts[0]] + parts[1..] == at + parts;
    }
  }

  lemma WalkUpAndBack(name: string, rest: seq<string>)
    requires name != ".."
    ensures Walk([], [name, ".."] + rest) == Walk([], rest)
  {
    var all := [name, ".."] + rest;
    assert all[1..] == [".."] + rest && all[1..][1..] == rest;
    assert [] + [name] == [name] && [name][..0] == [];
  }

  lemma NameFirst(name: string, rest: string)
    requires IsName(name)
    ensures Parts(name + "/" + rest) == [name] + Parts(rest)
  {
    SplitOfJoin(name, rest, '/');
    ComponentsOfSum([name], Split(rest, '/'));
    ComponentsAreNames([name]);
  }

  lemma PartsUpAndBack(name: string, w: string)
    requires IsName(name) && w != "" && w[0] == '/'
    ensures Parts("/" + (name + "/" + (".." + w))) == [name, ".."] + Parts(w)
  {
    var body := w[1..];
    assert w == "/" + body;
    PartsBelowSlash(name + "/" + (".." + w));
    NameFirst(name, ".." + w);
    assert ".." + w == ".." + "/" + body;
    NameFirst("..", body);
    PartsBelowSlash(body);
    assert [name] + ([".."] + Parts(w)) == [name, ".."] + Parts(w);
  }

  lemma {:induction false} WalkOfSum(at: seq<string>, a: seq<string>, b: seq<string>)
    ensures Walk(at, a + b) == Walk(Walk(at, a), b)
    decreases |a|
  {
    if a == [] {
      assert a + b == b;
    } else {
      assert (a + b)[1..] == a[1..] + b;
      WalkOfSum(if a[0] != ".." then at + [a[0]] else if at == [] then [] else at[..|at| - 1], a[1..], b);
    }
  }

  /** Joining below a directory leads where the second path leads from that directory. */
  lemma JoinedLeads(cwd: seq<string>, path: string, more: string)
    ensures Place(cwd, Joined(path, more)) == Place(Place(cwd, path), more)
  {
    PartsAreNames(path);
    PartsAreNames(more);
    if Root(more) == "" {
      SpelledKeeps(Root(path), Parts(path) + Parts(more));
      WalkOfSum(if Root(path) == "" then cwd else [], Parts(path), Parts(more));
    } else {
      NormalFormKeeps(more);
    }
  }

  // ----- The last component

  /** The components before the last slash. */
  function Front(path: string): seq<string> {
    var parts := Split(path, '/');
    Components(parts[..|parts| - 1])
  }

  /** The text after the last slash. */
  function Tail(path: string): string {
    var parts := Split(path, '/');
    parts[|parts| - 1]
  }

  lemma TailHasNoSlash(path: string)
    ensures '/' !in Tail(path)
    ensures forall part :: part in Front(path) ==> IsName(part)
    ensures Parts(path) == Front(path) + Components([Tail(path)])
    ensures '/' !in path ==> Front(path) == [] && Tail(path) == path && Root(path) == ""
  {
    var parts := Split(path, '/');
    PartsHaveNoSep(path, '/');
    SplitOfWord(path, '/');
    ComponentsAreNames(parts[..|parts| - 1]);
    assert parts == parts[..|parts| - 1] + [parts[|parts| - 1]];
    ComponentsOfSum(parts[..|parts| - 1], [parts[|parts| - 1]]);
  }

  /** A word appended to a path changes its last component only. */
  lemma AppendedWord(path: string, word: string)
    requires '/' !in word
    ensures Front(path + word) == Front(path) && Tail(path + word) == Tail(path) + word
  {
    SplitOfMore(path, word, '/');
    var parts, more := Split(path, '/'), Split(path + word, '/');
    assert more[..|more| - 1] == parts[..|parts| - 1];
  }

  lemma AppendedRoot(path: string, word: string)
    requires '/' !in word && word != ""
    ensures Root(path + word) == Root(path)
  {
    assert word[0] in word;
    var all := path + word;
    assert forall i :: 0 <= i < |path| ==> all[i] == path[i];
    assert all[|path|] == word[0];
  }

  lemma NameIsLast(path: string)
    requires IsName(Tail(path))
    ensures Parts(path) == Front(path) + [Tail(path)]
  {
    TailHasNoSlash(path);
    ComponentsAreNames([Tail(path)]);
  }

  // ----- What the functions mean, text by text

  /** The components are the stretches between slashes, without the empty ones and the single dots. */
  lemma PartsMean(a: string, b: string)
    ensures Parts(a + "/" + b) == Parts(a) + Parts(b)
    ensures '/' !in a ==> Parts(a) == if a == "" || a == "." then [] else [a]
  {
    SplitOfSum(a, b, '/');
    ComponentsOfSum(Split(a, '/'), Split(b, '/'));
    SplitOfWord(a, '/');
    if '/' !in a {
      if a == "" || a == "." { NoComponent(a); } else { ComponentsAreNames([a]); }
    }
  }

  /** No leading slash is no root, two are a root of their own, and any other number is one. */
  lemma RootMeans(body: string)
    requires body == "" || body[0] != '/'
    ensures Root(body) == "" && Root("/" + body) == "/" && Root("//" + body) == "//"
    ensures Root("///" + body) == "/" && Root("////" + body) == "/"
  {
    BelowRoot(body);
  }

  /** `..` goes to the parent of wherever the walk has come, and from the top nowhere. */
  lemma WalkMeans(at: seq<string>, parts: seq<string>, name: string)
    ensures Walk(at, []) == at
    ensures name != ".." ==> Walk(at, parts + [name]) == Walk(at, parts) + [name]
    ensures Walk(at, parts + [".."]) == (var was := Walk(at, parts); if was == [] then [] else was[..|was| - 1])
  {
    WalkOfSum(at, parts, [name]);
    WalkOfSum(at, parts, [".."]);
    assert [name][1..] == [] && [".."][1..] == [];
  }

  /** A path is what comes before its last slash, the slash, and its tail. */
  lemma TailMeans(dir: string, word: string)
    requires '/' !in word
    ensures Tail(word) == word && Front(word) == []
    ensures Tail(dir + "/" + word) == word && Front(dir + "/" + word) == Parts(dir)
  {
    TailHasNoSlash(word);
    SplitOfSum(dir, word, '/');
    SplitOfWord(word, '/');
    assert (Split(dir, '/') + [word])[..|Split(dir, '/')|] == Split(dir, '/');
  }

  lemma {:induction false} JoinOfMore(parts: seq<string>, name: string)
    requires parts != []
    ensures Join(parts + [name]) == Join(parts) + "/" + name
  {
    if |parts| > 1 {
      JoinOfMore(parts[1..], name);
      assert (parts + [name])[1..] == parts[1..] + [name];
      assert parts[0] + "/" + (Join(parts[1..]) + "/" + name) == parts[0] + "/" + Join(parts[1..]) + "/" + name;
    }
  }

  lemma RootAlone(path: string)
    ensures path == "" || path == "/" || path == "//" ==> Parts(path) == []
  {
    NoComponent("");
    PartsBelowSlash("");
    PartsBelowSlash("/");
    assert "/" + "" == "/" && "/" + "/" == "//";
  }

  lemma RootOfMore(path: string, name: string)
    requires Parts(path) != []
    ensures Root(path + "/" + name) == Root(path)
  {
    RootAlone(path);
    var more := path + "/" + name;
    assert more[0] == path[0];
    if |path| == 1 {
      assert path == [path[0]];
    } else {
      assert more[1] == path[1] && path == [path[0], path[1]] + path[2..];
      assert |path| > 2 ==> more[2] == path[2];
    }
  }

  /** The normal form of nothing is a dot, that of the top a slash. */
  lemma NormalPathOfNothing()
    ensures NormalPath("") == "." && NormalPath("/") == "/"
  {
    RootAlone("");
    RootAlone("/");
  }

  lemma PartsOfName(name: string)
    requires IsName(name)
    ensures Parts(name) == [name] && Parts("/" + name) == [name]
    ensures Root(name) == "" && Root("/" + name) == "/"
  {
    PartsMean(name, "");
    PartsBelowSlash(name);
    assert name[0] in name;
    RootMeans(name);
  }

  /** A name is its own normal form, below the top as well. */
  lemma NormalPathOfName(name: string)
    requires IsName(name)
    ensures NormalPath(name) == name && NormalPath("/" + name) == "/" + name
  {
    PartsOfName(name);
    assert Join([name]) == name && "" + name == name;
  }

  lemma SpelledMore(root: string, parts: seq<string>, name: string)
    requires parts != [] && forall part :: part in parts ==> IsName(part)
    ensures Spelled(root, parts + [name]) == Spelled(root, parts) + "/" + name
  {
    var body := Join(parts);
    SplitOfJoined(parts);
    JoinOfMore(parts, name);
    assert body != "";
    Regroup(root, body, name);
  }

  lemma Regroup(a: string, b: string, c: string)
    ensures a + (b + "/" + c) == a + b + "/" + c
  {}

  /** One more component comes behind one slash. */
  lemma NormalPathOfMore(path: string, name: string)
    requires IsName(name) && Parts(path) != []
    ensures NormalPath(path + "/" + name) == NormalPath(path) + "/" + name
  {
    PartsMean(path, name);
    PartsOfName(name);
    RootOfMore(path, name);
    PartsAreNames(path);
    SpelledMore(Root(path), Parts(path), name);
  }
}
