/** Validation of the destination list, as far as the pipeline relies on it. */
module Config {
  import opened Wrappers
  import opened Text
  import opened Paths
  import O = Purger

  /** A decoded TOML value. */
  datatype Value =
    | Str(s: string)
    | Int(n: int)
    | Bool(b: bool)
    | Float(zero: bool)        // of a number with a point only this matters here
    | Moment(text: string)     // dates and times
    | List(items: seq<Value>)
    | Table(fields: map<string, Value>)

  datatype DestinationConfig = DestinationConfig(
    name: string, kind: string, keep: nat, path: string,
    host: Value, port: Value, user: Value, sshKey: Value, sshOptions: Value, bwlimitKbps: Value)

  datatype Problem =
    | NoDestinations
    | NotAList
    | NotATable(index: nat)
    | BadKind(index: nat)
    | UnknownKey(key: string, index: nat)
    | BadField(key: string, index: nat)
    | DuplicateName(name: string)
    | PathIsWorkDir(name: string)

  /** The problems found so far, in order; parsing goes on after each one. */
  class Errors {
    var items: seq<Problem>

    constructor ()
      ensures items == []
    {
      items := [];
    }

    method Add(p: Problem)
      modifies this
      ensures items == old(items) + [p]
    {
      items := items + [p];
    }
  }

  function Get(t: map<string, Value>, key: string, default: Value): Value {
    if key in t then t[key] else default
  }

  /** Python truth of a decoded value. */
  predicate Truthy(v: Value) {
    match v
    case Str(s) => s != ""
    case Int(n) => n != 0
    case Bool(b) => b
    case Float(zero) => !zero
    case Moment(_) => true
    case List(items) => items != []
    case Table(m) => m != map[]
  }

  predicate NonEmptyStr(t: map<string, Value>, key: string) {
    key in t && t[key].Str? && t[key].s != ""
  }

  const COMMON := {"name", "type", "path", "keep"}
  const SSH_ONLY := {"host", "port", "user", "ssh_key", "ssh_options", "bwlimit_kbps"}

  predicate ValidKind(t: map<string, Value>) {
    "type" in t && t["type"] in [Str("local"), Str("ssh")]
  }

  function Allowed(kind: string): set<string> {
    if kind == "ssh" then COMMON + SSH_ONLY else COMMON
  }

  predicate ValidKeep(t: map<string, Value>) {
    "keep" in t && t["keep"].Int? && t["keep"].n >= 1
  }

  predicate ValidPort(v: Value) { v.Int? && 0 < v.n < 65536 }

  predicate ValidOptions(v: Value) { v.List? && forall o :: o in v.items ==> o.Str? }

  predicate ValidLimit(v: Value) { v.Int? && v.n >= 0 }

  /** The fields only ssh destinations have. */
  predicate ValidSshFields(t: map<string, Value>) {
    && Truthy(Get(t, "host", Str(""))) && Truthy(Get(t, "user", Str(""))) && Truthy(Get(t, "ssh_key", Str("")))
    && ValidPort(Get(t, "port", Int(22)))
    && ValidOptions(Get(t, "ssh_options", List([])))
    && ValidLimit(Get(t, "bwlimit_kbps", Int(0)))
  }

  /** What one destination table must satisfy on its own. */
  predicate ValidTable(v: Value) {
    && v.Table?
    && ValidKind(v.fields)
    && v.fields.Keys <= Allowed(v.fields["type"].s)
    && NonEmptyStr(v.fields, "name") && NonEmptyStr(v.fields, "path")
    && ValidKeep(v.fields)
    && (v.fields["type"] == Str("ssh") ==> ValidSshFields(v.fields))
  }

  function ConfigOf(v: Value): DestinationConfig
    requires ValidTable(v)
  {
    var t := v.fields;
    DestinationConfig(t["name"].s, t["type"].s, t["keep"].n, t["path"].s,
                      Get(t, "host", Str("")), Get(t, "port", Int(22)), Get(t, "user", Str("")),
                      Get(t, "ssh_key", Str("")), Get(t, "ssh_options", List([])), Get(t, "bwlimit_kbps", Int(0)))
  }

  /** What one destination table must hold, key by key. */
  ghost predicate Acceptable(t: map<string, Value>) {
    && "type" in t && (t["type"] == Str("local") || t["type"] == Str("ssh"))
    && (forall key :: key in t ==>
          || key in {"name", "type", "path", "keep"}
          || (t["type"] == Str("ssh")
              && key in {"host", "port", "user", "ssh_key", "ssh_options", "bwlimit_kbps"}))
    && "name" in t && t["name"].Str? && |t["name"].s| >= 1
    && "path" in t && t["path"].Str? && |t["path"].s| >= 1
    && "keep" in t && t["keep"].Int? && t["keep"].n > 0
    && (t["type"] == Str("ssh") ==>
          && "host" in t && !IsBlank(t["host"]) && "user" in t && !IsBlank(t["user"])
          && "ssh_key" in t && !IsBlank(t["ssh_key"])
          && ("port" in t ==> t["port"].Int? && 1 <= t["port"].n <= 65535)
          && ("ssh_options" in t ==> t["ssh_options"].List? && forall o :: o in t["ssh_options"].items ==> o.Str?)
          && ("bwlimit_kbps" in t ==> t["bwlimit_kbps"].Int? && t["bwlimit_kbps"].n >= 0))
  }

  /** The values that count as absent. */
  ghost predicate IsBlank(v: Value) {
    v in {Str(""), Int(0), Bool(false), Float(true), List([]), Table(map[])}
  }

  lemma ValidIsAcceptable(v: Value)
    ensures ValidTable(v) <==> v.Table? && Acceptable(v.fields)
  {
    if v.Table? {
      BlankIsFalse(v.fields, "host");
      BlankIsFalse(v.fields, "user");
      BlankIsFalse(v.fields, "ssh_key");
    }
  }

  lemma BlankIsFalse(t: map<string, Value>, key: string)
    ensures Truthy(Get(t, key, Str(""))) <==> key in t && !IsBlank(t[key])
  {}

  /** The value under a key, or the default for it. */
  ghost predicate TakenFrom(got: Value, t: map<string, Value>, key: string, default: Value) {
    (key in t ==> got == t[key]) && (key !in t ==> got == default)
  }

  /** `d` says what the table says, and the defaults where it says nothing. */
  ghost predicate SaysTheSame(d: DestinationConfig, t: map<string, Value>) {
    && "name" in t && t["name"] == Str(d.name) && "type" in t && t["type"] == Str(d.kind)
    && "path" in t && t["path"] == Str(d.path) && "keep" in t && t["keep"] == Int(d.keep)
    && TakenFrom(d.host, t, "host", Str("")) && TakenFrom(d.user, t, "user", Str(""))
    && TakenFrom(d.sshKey, t, "ssh_key", Str("")) && TakenFrom(d.port, t, "port", Int(22))
    && TakenFrom(d.sshOptions, t, "ssh_options", List([])) && TakenFrom(d.bwlimitKbps, t, "bwlimit_kbps", Int(0))
  }

  lemma ConfigSaysTheSame(v: Value)
    requires ValidTable(v)
    ensures SaysTheSame(ConfigOf(v), v.fields)
  {}

  /** The name a table gives, if it gives a usable one. */
  function NameOf(v: Value): string {
    if v.Table? && NonEmptyStr(v.fields, "name") then v.fields["name"].s else ""
  }

  ghost predicate DistinctNames(items: seq<Value>) {
    forall i, j :: 0 <= i < j < |items| ==> NameOf(items[i]) != NameOf(items[j])
  }

  ghost predicate ValidList(items: seq<Value>) {
    (forall v :: v in items ==> ValidTable(v)) && DistinctNames(items)
  }

  ghost predicate ValidDestinations(raw: Option<Value>) {
    raw.Some? && raw.value.List? && raw.value.items != [] && ValidList(raw.value.items)
  }

  method RejectUnknownKeys(t: map<string, Value>, allowed: set<string>, index: nat, errors: Errors)
    modifies errors
    ensures old(errors.items) <= errors.items
    ensures errors.items == old(errors.items) <==> t.Keys <= allowed
  {
    var left := t.Keys;
    while left != {}
      invariant old(errors.items) <= errors.items && left <= t.Keys
      invariant errors.items == old(errors.items) <==> t.Keys - left <= allowed
      decreases left
    {
      var key :| key in left;
      left := left - {key};
      if key !in allowed { errors.Add(UnknownKey(key, index)); }
    }
  }

  /** Records one bad field unless `ok`. */
  method Require(ok: bool, key: string, index: nat, errors: Errors)
    modifies errors
    ensures old(errors.items) <= errors.items
    ensures |errors.items| == |old(errors.items)| + (if ok then 0 else 1)
  {
    if !ok { errors.Add(BadField(key, index)); }
  }

  method CheckSshFields(t: map<string, Value>, index: nat, errors: Errors)
    modifies errors
    ensures old(errors.items) <= errors.items
    ensures errors.items == old(errors.items) <==> ValidSshFields(t)
  {
    Require(Truthy(Get(t, "host", Str(""))), "host", index, errors);
    Require(Truthy(Get(t, "user", Str(""))), "user", index, errors);
    Require(Truthy(Get(t, "ssh_key", Str(""))), "ssh_key", index, errors);
    Require(ValidPort(Get(t, "port", Int(22))), "port", index, errors);
    Require(ValidOptions(Get(t, "ssh_options", List([]))), "ssh_options", index, errors);
    Require(ValidLimit(Get(t, "bwlimit_kbps", Int(0))), "bwlimit_kbps", index, errors);
  }

  /** The name of a table: recorded as a problem when it is unusable or taken. */
  method ParseName(t: map<string, Value>, index: nat, seen: set<string>, errors: Errors) returns (seen': set<string>)
    modifies errors
    ensures old(errors.items) <= errors.items
    ensures errors.items == old(errors.items) <==> NonEmptyStr(t, "name") && t["name"].s !in seen
    ensures seen' == if NonEmptyStr(t, "name") then seen + {t["name"].s} else seen
  {
    seen' := seen;
    if NonEmptyStr(t, "name") {
      if t["name"].s in seen { errors.Add(DuplicateName(t["name"].s)); }
      seen' := seen + {t["name"].s};
    } else {
      errors.Add(BadField("name", index));
    }
  }

  /** One entry: a destination unless its name, path or keep is unusable; every flaw is recorded. */
  method ParseDestination(v: Value, index: nat, seen: set<string>, errors: Errors)
    returns (dest: Option<DestinationConfig>, seen': set<string>)
    modifies errors
    ensures old(errors.items) <= errors.items
    ensures dest.None? ==> errors.items != old(errors.items)
    ensures errors.items == old(errors.items) <==> ValidTable(v) && NameOf(v) !in seen
    ensures ValidTable(v) ==> dest == Some(ConfigOf(v)) && seen' == seen + {NameOf(v)}
    ensures ValidTable(v) ==> v.Table? && Acceptable(v.fields) && SaysTheSame(dest.value, v.fields)
    ensures dest.Some? ==> dest.value.keep >= 1
  {
    ValidIsAcceptable(v);
    dest, seen' := None, seen;
    if !v.Table? {
      errors.Add(NotATable(index));
      return;
    }
    var t := v.fields;
    if !ValidKind(t) {
      errors.Add(BadKind(index));
      return;
    }
    var kind := t["type"].s;
    RejectUnknownKeys(t, Allowed(kind), index, errors);
    seen' := ParseName(t, index, seen, errors);
    Require(NonEmptyStr(t, "path"), "path", index, errors);
    Require(ValidKeep(t), "keep", index, errors);
    var port, options := Get(t, "port", Int(22)), Get(t, "ssh_options", List([]));
    var limit := Get(t, "bwlimit_kbps", Int(0));
    if kind == "ssh" {
      CheckSshFields(t, index, errors);
      if !ValidPort(port) { port := Int(22); }
      if !ValidOptions(options) { options := List([]); }
      if !ValidLimit(limit) { limit := Int(0); }
    }
    if NonEmptyStr(t, "name") && NonEmptyStr(t, "path") && ValidKeep(t) {
      dest := Some(DestinationConfig(t["name"].s, kind, t["keep"].n, t["path"].s, Get(t, "host", Str("")), port,
                                     Get(t, "user", Str("")), Get(t, "ssh_key", Str("")), options, limit));
    }
  }

  ghost function Names(items: seq<Value>): set<string> {
    set v | v in items :: NameOf(v)
  }

  lemma OneMoreItem(items: seq<Value>, v: Value)
    ensures ValidList(items + [v]) <==> ValidList(items) && ValidTable(v) && NameOf(v) !in Names(items)
    ensures Names(items + [v]) == Names(items) + {NameOf(v)}
  {
    var all := items + [v];
    assert all[|items|] == v && forall i :: 0 <= i < |items| ==> all[i] == items[i];
    assert forall x :: x in all <==> x in items || x == v;
    forall i | 0 <= i < |items| ensures NameOf(all[i]) in Names(items) { assert items[i] in items; }
    forall x | x in items && DistinctNames(all) ensures NameOf(x) != NameOf(v) {
      var i :| 0 <= i < |items| && items[i] == x;
      assert NameOf(all[i]) != NameOf(all[|items|]);
    }
    if DistinctNames(all) {
      forall i, j | 0 <= i < j < |items| ensures NameOf(items[i]) != NameOf(items[j]) {
        assert NameOf(all[i]) != NameOf(all[j]);
      }
    }
  }

  /** `dests` is `items`, entry by entry. */
  ghost predicate Matches(dests: seq<DestinationConfig>, items: seq<Value>) {
    && |dests| == |items|
    && forall i :: 0 <= i < |items| ==> ValidTable(items[i]) && dests[i] == ConfigOf(items[i])
  }

  lemma MatchesMore(dests: seq<DestinationConfig>, items: seq<Value>, v: Value)
    requires Matches(dests, items) && ValidTable(v)
    ensures Matches(dests + [ConfigOf(v)], items + [v])
  {}

  /** What the loop over the tables has after reading `items`, with that many problems recorded. */
  ghost predicate TablesRead(items: seq<Value>, dests: seq<DestinationConfig>, seen: set<string>, problems: nat) {
    && (problems == 0 <==> ValidList(items))
    && |items| <= |dests| + problems
    && (ValidList(items) ==> seen == Names(items) && Matches(dests, items))
    && forall k :: 0 <= k < |dests| ==> dests[k].keep >= 1
  }

  lemma OneMoreTable(items: seq<Value>, dests: seq<DestinationConfig>, seen: set<string>, problems: nat, v: Value,
                     dest: Option<DestinationConfig>, seen': set<string>, more: nat)
    requires TablesRead(items, dests, seen, problems)
    requires more == 0 <==> ValidTable(v) && NameOf(v) !in seen
    requires dest.None? ==> more > 0
    requires dest.Some? ==> dest.value.keep >= 1
    requires ValidTable(v) ==> dest == Some(ConfigOf(v)) && seen' == seen + {NameOf(v)}
    ensures TablesRead(items + [v], if dest.Some? then dests + [dest.value] else dests, seen', problems + more)
  {
    OneMoreItem(items, v);
    if ValidList(items + [v]) { MatchesMore(dests, items, v); }
  }

  /** The loop over the tables. */
  method ParseTables(items: seq<Value>, errors: Errors) returns (dests: seq<DestinationConfig>)
    modifies errors
    ensures old(errors.items) <= errors.items
    ensures errors.items == old(errors.items) <==> ValidList(items)
    ensures |items| <= |dests| + |errors.items| - |old(errors.items)|
    ensures ValidList(items) ==> Matches(dests, items)
    ensures forall i :: 0 <= i < |dests| ==> dests[i].keep >= 1
  {
    dests := [];
    var seen: set<string> := {};
    for i := 0 to |items|
      invariant old(errors.items) <= errors.items
      invariant TablesRead(items[..i], dests, seen, |errors.items| - |old(errors.items)|)
    {
      ghost var dests0, seen0, count := dests, seen, |errors.items|;
      var dest;
      dest, seen := ParseDestination(items[i], i, seen, errors);
      OneMoreTable(items[..i], dests0, seen0, count - |old(errors.items)|, items[i], dest, seen,
                   |errors.items| - count);
      assert items[..i + 1] == items[..i] + [items[i]];
      if dest.Some? { dests := dests + [dest.value]; }
    }
    assert items[..|items|] == items;
  }

  /** No problem is recorded iff the list is valid, and then nothing is dropped or reordered. */
  method ParseDestinations(raw: Option<Value>, errors: Errors) returns (dests: seq<DestinationConfig>)
    modifies errors
    ensures old(errors.items) <= errors.items
    ensures errors.items == old(errors.items) <==> ValidDestinations(raw)
    ensures raw.Some? && raw.value.List? ==> |raw.value.items| <= |dests| + |errors.items| - |old(errors.items)|
    ensures ValidDestinations(raw) ==> Matches(dests, raw.value.items)
    ensures forall i :: 0 <= i < |dests| ==> dests[i].keep >= 1
  {
    dests := [];
    if raw.None? || raw.value == List([]) {
      errors.Add(NoDestinations);
      return;
    }
    if !raw.value.List? {
      errors.Add(NotAList);
      return;
    }
    dests := ParseTables(raw.value.items, errors);
  }

  // ----- The work directory

  /** The check of parse_config; `workDir` is str(backup.work_dir). */
  predicate ClashesWithWorkDir(d: DestinationConfig, workDir: string) {
    d.kind == "local" && workDir == d.path
  }

  ghost predicate AvoidsWorkDir(dests: seq<DestinationConfig>, workDir: string) {
    forall i :: 0 <= i < |dests| ==> !ClashesWithWorkDir(dests[i], workDir)
  }

  method CheckWorkDir(dests: seq<DestinationConfig>, workDir: string, errors: Errors)
    modifies errors
    ensures old(errors.items) <= errors.items
    ensures errors.items == old(errors.items) <==> AvoidsWorkDir(dests, workDir)
  {
    for i := 0 to |dests|
      invariant old(errors.items) <= errors.items
      invariant errors.items == old(errors.items) <==> forall k :: 0 <= k < i ==> !ClashesWithWorkDir(dests[k], workDir)
    {
      if dests[i].kind == "local" && workDir == dests[i].path {
        errors.Add(PathIsWorkDir(dests[i].name));
      }
    }
  }

  /** One destination for each table, in order, saying what the table says; the tables are sound, the names distinct. */
  ghost predicate SaysAll(dests: seq<DestinationConfig>, items: seq<Value>) {
    && |dests| == |items|
    && (forall i :: 0 <= i < |items| ==>
          items[i].Table? && Acceptable(items[i].fields) && SaysTheSame(dests[i], items[i].fields))
    && forall i, j :: 0 <= i < j < |dests| ==> dests[i].name != dests[j].name
  }

  lemma MatchesSaysAll(dests: seq<DestinationConfig>, items: seq<Value>)
    requires Matches(dests, items) && ValidList(items)
    ensures SaysAll(dests, items)
  {
    forall i | 0 <= i < |items|
      ensures items[i].Table? && Acceptable(items[i].fields) && SaysTheSame(dests[i], items[i].fields)
      ensures dests[i].name == NameOf(items[i])
    {
      ValidIsAcceptable(items[i]);
      ConfigSaysTheSame(items[i]);
    }
    forall i, j | 0 <= i < j < |dests| ensures dests[i].name != dests[j].name {
      assert NameOf(items[i]) != NameOf(items[j]);
    }
  }

  /** Acceptable tables with distinct names make a valid list. */
  lemma AcceptableIsValid(items: seq<Value>)
    requires forall i :: 0 <= i < |items| ==> items[i].Table? && Acceptable(items[i].fields)
    requires DistinctNames(items)
    ensures ValidList(items)
  {
    forall v | v in items ensures ValidTable(v) { ValidIsAcceptable(v); }
  }

  /** The destination part of parse_config; a rejected [backup] has left a problem and no `workDir`. */
  method ParseConfig(raw: Option<Value>, workDir: Option<string>, errors: Errors)
    returns (r: Result<seq<DestinationConfig>, seq<Problem>>)
    requires workDir.None? ==> errors.items != []
    modifies errors
    ensures r.Success? ==>
      && old(errors.items) == [] && ValidDestinations(raw)
      && Matches(r.value, raw.value.items) && AvoidsWorkDir(r.value, NormalPath(workDir.value))
      && SaysAll(r.value, raw.value.items) && r.value != []
    ensures r.Failure? ==> r.error == errors.items != []
    ensures r.Failure? && old(errors.items) == [] && ValidDestinations(raw) ==>
      exists dests :: Matches(dests, raw.value.items) && !AvoidsWorkDir(dests, NormalPath(workDir.value))
  {
    var dests := ParseDestinations(raw, errors);
    if workDir.Some? { CheckWorkDir(dests, NormalPath(workDir.value), errors); }
    if errors.items != [] { return Failure(errors.items); }
    MatchesSaysAll(dests, raw.value.items);
    return Result.Success(dests);
  }

  function ForPipeline(dests: seq<DestinationConfig>): seq<O.DestConfig> {
    seq(|dests|, i requires 0 <= i < |dests| => O.DestConfig(dests[i].name, dests[i].keep))
  }

  /** What the pipeline needs of its configuration holds of every accepted one. */
  lemma AcceptedConfigServesPipeline(raw: Option<Value>, dests: seq<DestinationConfig>)
    requires ValidDestinations(raw) && Matches(dests, raw.value.items)
    ensures var cfgs := ForPipeline(dests); var items := raw.value.items;
            && |cfgs| == |items|
            && (forall i :: 0 <= i < |items| ==>
                  && items[i].fields["name"] == Str(cfgs[i].name) && items[i].fields["keep"] == Int(cfgs[i].keep))
            && O.UniqueNames(cfgs) && |cfgs| > 0 && forall d :: 0 <= d < |cfgs| ==> cfgs[d].keep >= 1
  {
    var items := raw.value.items;
    MatchesSaysAll(dests, items);
    forall i, j | 0 <= i < j < |dests| ensures dests[i].name != dests[j].name {
      assert items[i] in items && items[j] in items;
      assert NameOf(items[i]) != NameOf(items[j]);
    }
    forall i | 0 <= i < |dests| ensures dests[i].keep >= 1 { assert items[i] in items; }
  }

  // ----- Which clashes with the work directory are caught

  /**
   The normal form of the work directory is compared with the path as written: a clash is caught exactly when the
   path is in normal form and has the root and the components, `..` included, of the work directory.
   */
  lemma WorkDirCaughtIff(d: DestinationConfig, workDir: string)
    requires d.kind == "local"
    ensures ClashesWithWorkDir(d, NormalPath(workDir))
            <==> d.path == NormalPath(d.path) && Root(d.path) == Root(workDir) && Parts(d.path) == Parts(workDir)
  {
    NormalFormKeeps(workDir);
  }

  /** Absolute, with a single slash, and never going up. */
  predicate Straight(path: string) { Root(path) == "/" && ".." !in Parts(path) }

  /**
   A destination that is the work directory, given straight, is caught exactly when its own path is straight and
   in normal form.
   */
  lemma SamePlaceCaughtIff(d: DestinationConfig, workDir: string, cwd: seq<string>)
    requires d.kind == "local" && Straight(workDir) && Place(cwd, d.path) == Place(cwd, workDir)
    ensures ClashesWithWorkDir(d, NormalPath(workDir)) <==> Straight(d.path) && d.path == NormalPath(d.path)
  {
    WorkDirCaughtIff(d, workDir);
    StraightWalk([], Parts(workDir));
    assert [] + Parts(workDir) == Parts(workDir);
    if Straight(d.path) {
      StraightWalk([], Parts(d.path));
      assert [] + Parts(d.path) == Parts(d.path);
    }
  }

  /** Spellings of the work directory that are not caught. */
  datatype Detour = TrailingSlash | UpAndBack(name: string) | FromTheRoot

  function Respelled(w: string, detour: Detour): string
    requires w != ""
  {
    match detour
    case TrailingSlash => w + "/"
    case UpAndBack(name) => "/" + (name + "/" + (".." + w))
    case FromTheRoot => w[1..]
  }

  /** The same directory under another name: `/w/`, `/a/../w`, or `w` when the program runs in the root. */
  lemma DetoursSlipThrough(d: DestinationConfig, w: string, detour: Detour)
    requires d.kind == "local" && Straight(w) && NormalPath(w) == w && Parts(w) != []
    requires detour.UpAndBack? ==> IsName(detour.name) && detour.name != ".."
    requires d.path == Respelled(w, detour)
    ensures Place([], d.path) == Place([], w) && !ClashesWithWorkDir(d, NormalPath(w))
  {
    assert w == "/" + w[1..];
    PartsBelowSlash(w[1..]);
    match detour {
      case TrailingSlash =>
        SplitOfSum(w, "", '/');
        assert w + ['/'] + "" == d.path && Split("", '/') == [""];
        assert Parts(w) + [] == Parts(w);
        ComponentsOfSum(Split(w, '/'), [""]);
        NoComponent("");
      case UpAndBack(name) =>
        PartsUpAndBack(name, w);
        WalkUpAndBack(name, Parts(w));
        assert d.path[1] == name[0] && name[0] in name;
      case FromTheRoot =>
    }
  }
}
