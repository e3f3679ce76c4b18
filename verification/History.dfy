/** Any number of runs and purges one after another, at every destination. */
module History {
  import opened Wrappers
  import opened Paths
  import opened Order
  import opened Retention
  import opened Layout
  import opened Placement
  import opened Recording
  import opened Destinations
  import opened Purger
  import opened Runner
  import opened Pipeline

  /** Whatever happens, a destination keeps at least as many complete generations as it is due. */
  lemma RetainsCount(c0: set<string>, c: set<string>, id: string, keep: nat)
    requires Retains(c0, c, id, keep)
    ensures |c| >= Min(keep, |c0|)
  {
    if Newest(c0, keep) <= c {
      NewestCount(c0, keep);
      SubsetCard(Newest(c0, keep), c);
    } else {
      NewestCount(c0 + {id}, keep);
      SubsetCard(Newest(c0 + {id}, keep), c);
      SubsetCard(c0, c0 + {id});
    }
  }

  // ----- Histories at one destination

  ghost function Ever(cs: seq<set<string>>): set<string> {
    set i, x | 0 <= i < |cs| && x in cs[i] :: x
  }

  /** An id that was stored and is already gone was not among the newest, so it displaced nothing. */
  lemma GoneIdDisplacedNothing(c: set<string>, id: string, keep: nat, x: string)
    requires id !in Newest(c + {id}, keep) && x in Newest(c, keep)
    ensures x in Newest(c + {id}, keep)
  {
    var all := c + {id};
    if Less(x, id) {
      forall y | y in Newer(all, id) ensures y in Newer(c, x) {
        LessTransitive(x, id, y);
        LessIrreflexive(id);
      }
      SubsetCard(Newer(all, id), Newer(c, x));
    } else {
      assert Newer(all, x) == Newer(c, x);
    }
  }

  lemma EverGrows(cs: seq<set<string>>)
    requires |cs| > 1
    ensures Ever(cs) == Ever(cs[..|cs| - 1]) + cs[|cs| - 1]
  {
    var n := |cs| - 1;
    forall x | x in Ever(cs[..n]) ensures x in Ever(cs) {
      var i :| 0 <= i < n && x in cs[..n][i];
      assert x in cs[i];
    }
    forall x | x in Ever(cs) && x !in cs[n] ensures x in Ever(cs[..n]) {
      var i :| 0 <= i < |cs| && x in cs[i];
      assert cs[..n][i] == cs[i];
    }
  }

  /** What a run that stores `step.value`, or a purge, does to the complete generations of a destination at least. */
  ghost predicate StepRetains(c: set<string>, c': set<string>, step: Option<string>, keep: nat) {
    match step
    case None => Newest(c, keep) <= c' <= c
    case Some(id) => Retains(c, c', id, keep)
  }

  ghost function Named(steps: seq<Option<string>>): set<string> {
    set i | 0 <= i < |steps| && steps[i].Some? :: steps[i].value
  }

  lemma NamedGrows(steps: seq<Option<string>>, step: Option<string>)
    ensures Named(steps + [step]) == Named(steps) + (if step.Some? then {step.value} else {})
  {
    var all := steps + [step];
    forall x ensures x in Named(all) <==> x in Named(steps) || step == Some(x) {
      if x in Named(steps) {
        var i :| 0 <= i < |steps| && steps[i] == Some(x);
        assert all[i] == Some(x);
      }
      if step == Some(x) { assert all[|steps|] == Some(x); }
    }
  }

  /** One more step: a member of the newest of all is not lost. */
  lemma NewestNotLost(all: set<string>, c: set<string>, c': set<string>, step: Option<string>, keep: nat, x: string)
    requires StepRetains(c, c', step, keep) && x in Newest(all, keep) && c <= all && c' <= all
    requires x in c
    ensures x in c'
  {
    NewestInSubset(all, c, keep, x);
    if step.Some? {
      var id := step.value;
      if id in c' { NewestInSubset(all, c + {id}, keep, x); }
      if id !in Newest(c + {id}, keep) { GoneIdDisplacedNothing(c, id, keep, x); }
    }
  }

  /**
   Any history of runs and purges, failing and crashing anywhere: the newest `keep` of all the
   generations ever seen complete are still there, and all that is there was there at first or stored.
   */
  lemma {:induction false} HistoryRetainsNewest(cs: seq<set<string>>, steps: seq<Option<string>>, keep: nat)
    requires |cs| == |steps| + 1
    requires forall i :: 0 <= i < |steps| ==> StepRetains(cs[i], cs[i + 1], steps[i], keep)
    ensures Newest(Ever(cs), keep) <= cs[|steps|] <= cs[0] + Named(steps)
    decreases |steps|
  {
    var n := |steps|;
    if n == 0 {
      assert Ever(cs) == cs[0];
    } else {
      var front, all := cs[..n], Ever(cs);
      HistoryRetainsNewest(front, steps[..n - 1], keep);
      EverGrows(cs);
      assert steps == steps[..n - 1] + [steps[n - 1]];
      NamedGrows(steps[..n - 1], steps[n - 1]);
      forall x | x in Newest(all, keep) ensures x in cs[n] {
        if x !in cs[n] {
          NewestInSubset(all, Ever(front), keep, x);
          assert cs[n - 1] <= all;
          NewestNotLost(all, cs[n - 1], cs[n], steps[n - 1], keep, x);
        }
      }
    }
  }

  /** What a run or a purge that returns 0 does; a purge may be a dry run or pass the destination over. */
  ghost predicate StepIsExact(c: set<string>, c': set<string>, step: Option<string>, keep: nat) {
    match step
    case None => c' == c || c' == Newest(c, keep)
    case Some(id) => c' == Newest(c + {id}, keep)
  }

  /** All steps together: trimming after each one comes to trimming once at the end. */
  lemma {:induction false} TrimmedEachTime(cs: seq<set<string>>, steps: seq<Option<string>>, keep: nat)
    requires |cs| == |steps| + 1
    requires forall i :: 0 <= i < |steps| ==> StepIsExact(cs[i], cs[i + 1], steps[i], keep)
    ensures cs[|steps|] == Newest(cs[0] + Named(steps), keep) || (cs[|steps|] == cs[0] && Named(steps) == {})
    decreases |steps|
  {
    if steps != [] {
      var n := |steps| - 1;
      var all, front := cs[0] + Named(steps[..n]), steps[..n];
      TrimmedEachTime(cs[..n + 1], front, keep);
      assert steps == front + [steps[n]];
      NamedGrows(front, steps[n]);
      assert Named(front) == {} ==> all == cs[0];
      if steps[n].Some? {
        NewestCompose(all, {steps[n].value}, keep);
        assert all + {steps[n].value} == cs[0] + Named(steps);
      } else {
        assert all == cs[0] + Named(steps) && all + {} == all;
        NewestCompose(all, {}, keep);
        assert Newest(all, keep) + {} == Newest(all, keep);
      }
    }
  }

  // ----- Histories of the node

  ghost function DirsOf(w: World): (dests: seq<Dest>)
    ensures Shows(w, dests)
  {
    seq(|w.disks|, d requires 0 <= d < |w.disks| => w.disks[d].dir)
  }

  lemma DirsShown(w: World, dests: seq<Dest>)
    requires Shows(w, dests)
    ensures DirsOf(w) == dests
  {}

  ghost function CompletesOf(w: World, d: nat): set<string>
    requires d < |w.disks|
  {
    CompleteNames(w.disks[d].dir.entries)
  }

  /** The complete generations at destination `d` at successive moments. */
  ghost function CompletesAt(ws: seq<World>, d: nat): seq<set<string>>
    requires forall i :: 0 <= i < |ws| ==> d < |ws[i].disks|
  {
    seq(|ws|, i requires 0 <= i < |ws| => CompletesOf(ws[i], d))
  }

  /** One activation took the node from `w` to `w'`, perhaps by way of a failure or a crash. */
  ghost predicate AllStep(w: World, w': World, cfgs: seq<DestConfig>, step: Option<string>) {
    && |w.disks| == |w'.disks| == |cfgs|
    && forall d :: 0 <= d < |cfgs| ==> StepRetains(CompletesOf(w, d), CompletesOf(w', d), step, cfgs[d].keep)
  }

  /** One activation that returned 0. */
  ghost predicate AllStepExactly(w: World, w': World, cfgs: seq<DestConfig>, step: Option<string>) {
    && |w.disks| == |w'.disks| == |cfgs|
    && forall d :: 0 <= d < |cfgs| ==> StepIsExact(CompletesOf(w, d), CompletesOf(w', d), step, cfgs[d].keep)
  }

  ghost predicate SomeHistory(ws: seq<World>, steps: seq<Option<string>>, cfgs: seq<DestConfig>) {
    && |ws| == |steps| + 1 && (forall i :: 0 <= i < |ws| ==> |ws[i].disks| == |cfgs|)
    && forall i :: 0 <= i < |steps| ==> AllStep(ws[i], ws[i + 1], cfgs, steps[i])
  }

  ghost predicate ExactHistory(ws: seq<World>, steps: seq<Option<string>>, cfgs: seq<DestConfig>) {
    && |ws| == |steps| + 1 && (forall i :: 0 <= i < |ws| ==> |ws[i].disks| == |cfgs|)
    && forall i :: 0 <= i < |steps| ==> AllStepExactly(ws[i], ws[i + 1], cfgs, steps[i])
  }

  /** At every destination, after any history. */
  lemma EveryHistoryRetains(ws: seq<World>, steps: seq<Option<string>>, cfgs: seq<DestConfig>, d: nat)
    requires SomeHistory(ws, steps, cfgs) && d < |cfgs|
    ensures var cs := CompletesAt(ws, d);
            && Newest(Ever(cs), cfgs[d].keep) <= cs[|steps|] <= cs[0] + Named(steps)
            && |cs[|steps|]| >= Min(cfgs[d].keep, |cs[0]|)
  {
    var cs := CompletesAt(ws, d);
    forall i | 0 <= i < |steps| ensures StepRetains(cs[i], cs[i + 1], steps[i], cfgs[d].keep) {
      assert AllStep(ws[i], ws[i + 1], cfgs, steps[i]);
    }
    HistoryRetainsNewest(cs, steps, cfgs[d].keep);
    NewestCount(Ever(cs), cfgs[d].keep);
    SubsetCard(Newest(Ever(cs), cfgs[d].keep), cs[|steps|]);
    SubsetCard(cs[0], Ever(cs));
  }

  /** When every exit code is 0, a destination ends with exactly the newest `keep` of all ever present. */
  lemma HistoryIsExact(ws: seq<World>, steps: seq<Option<string>>, cfgs: seq<DestConfig>, d: nat)
    requires ExactHistory(ws, steps, cfgs) && d < |cfgs|
    ensures var cs := CompletesAt(ws, d);
            || cs[|steps|] == Newest(cs[0] + Named(steps), cfgs[d].keep)
            || (cs[|steps|] == cs[0] && Named(steps) == {})
  {
    var cs := CompletesAt(ws, d);
    forall i | 0 <= i < |steps| ensures StepIsExact(cs[i], cs[i + 1], steps[i], cfgs[d].keep) {
      assert AllStepExactly(ws[i], ws[i + 1], cfgs, steps[i]);
    }
    TrimmedEachTime(cs, steps, cfgs[d].keep);
  }

  lemma HistoryMore(ws: seq<World>, steps: seq<Option<string>>, cfgs: seq<DestConfig>, w: World, step: Option<string>)
    requires SomeHistory(ws, steps, cfgs) && AllStep(ws[|steps|], w, cfgs, step)
    ensures SomeHistory(ws + [w], steps + [step], cfgs)
  {
    var ws', steps' := ws + [w], steps + [step];
    forall i | 0 <= i < |steps'| ensures AllStep(ws'[i], ws'[i + 1], cfgs, steps'[i]) {
      if i < |steps| { assert AllStep(ws[i], ws[i + 1], cfgs, steps[i]); }
    }
  }

  lemma ExactHistoryMore(ws: seq<World>, steps: seq<Option<string>>, cfgs: seq<DestConfig>, w: World,
                         step: Option<string>)
    requires ExactHistory(ws, steps, cfgs) && AllStepExactly(ws[|steps|], w, cfgs, step)
    ensures ExactHistory(ws + [w], steps + [step], cfgs)
  {
    var ws', steps' := ws + [w], steps + [step];
    forall i | 0 <= i < |steps'| ensures AllStepExactly(ws'[i], ws'[i + 1], cfgs, steps'[i]) {
      if i < |steps| { assert AllStepExactly(ws[i], ws[i + 1], cfgs, steps[i]); }
    }
  }

  // ----- Activations that may be cut short

  /** A process that found the node as `was` shows it, would have gone on to `end`, and got no further than `stop`. */
  datatype Episode =
    | Ran(was: Past, end: Past, stop: Past, entry: string)
    | Purged(was: Past, end: Past, stop: Past, chosen: set<nat>)

  function StepOf(ep: Episode): Option<string> {
    match ep
    case Ran(_, _, _, entry) => Some(entry)
    case Purged(_, _, _, _) => None
  }

  /** As `Run` and `Purge` describe what they do; any moment of it can be the last. */
  ghost predicate IsEpisode(ep: Episode, cfgs: seq<DestConfig>) {
    && Later(ep.was, ep.stop) && Later(ep.stop, ep.end) && Linked(ep.end) && |ep.was.now.disks| == |cfgs|
    && match ep
       case Ran(was, end, _, entry) => RetainSince(DirsOf(was.now), was, end, cfgs, entry)
       case Purged(was, end, _, chosen) => AllTrimmedSince(was, end, cfgs, chosen)
  }

  lemma {:induction false} TrimmedAt(was: Past, p: Past, cfgs: seq<DestConfig>, chosen: set<nat>, m: Past)
    requires AllTrimmedSince(was, p, cfgs, chosen) && Later(was, m) && Later(m, p)
    ensures AllTrimmed(was.now, m.now, cfgs, chosen)
    decreases p
  {
    if m != p {
      if p == was { LaterBothWays(was, m); }
      TrimmedAt(was, p.before, cfgs, chosen, m);
    }
  }

  /** Directories that the next process can start from. */
  ghost predicate AllSound(w: World) {
    forall d :: 0 <= d < |w.disks| ==> Sound(w.disks[d].dir)
  }

  lemma EpisodeSteps(ep: Episode, cfgs: seq<DestConfig>)
    requires IsEpisode(ep, cfgs)
    ensures AllStep(ep.was.now, ep.stop.now, cfgs, StepOf(ep))
    ensures AllSound(ep.stop.now)
  {
    match ep {
      case Ran(was, end, stop, entry) =>
        RetainAt(DirsOf(was.now), was, end, cfgs, entry, stop);
      case Purged(was, end, stop, chosen) =>
        TrimmedAt(was, end, cfgs, chosen, stop);
        forall d | 0 <= d < |cfgs|
          ensures StepRetains(CompletesOf(was.now, d), CompletesOf(stop.now, d), None, cfgs[d].keep)
        {
          if d in chosen {
            TrimmedRetains(was.now.disks[d].dir.entries, stop.now.disks[d].dir.entries, cfgs[d].keep);
          }
        }
    }
    forall d | 0 <= d < |ep.stop.now.disks| ensures Sound(ep.stop.now.disks[d].dir) {
      CrashLeavesSound(ep.stop, ep.end, d);
    }
  }

  /** Each process finds what the one before it left, and `last` is what the last one left. */
  ghost predicate Chained(eps: seq<Episode>, cfgs: seq<DestConfig>) {
    && (forall i :: 0 <= i < |eps| ==> IsEpisode(eps[i], cfgs))
    && forall i :: 0 <= i < |eps| - 1 ==> DirsOf(eps[i + 1].was.now) == DirsOf(eps[i].stop.now)
  }

  /** What the processes found, and what the last one left. */
  ghost function WorldsOf(eps: seq<Episode>): seq<World>
    requires eps != []
  {
    seq(|eps|, i requires 0 <= i < |eps| => eps[i].was.now) + [eps[|eps| - 1].stop.now]
  }

  ghost function StepsOf(eps: seq<Episode>): seq<Option<string>> {
    seq(|eps|, i requires 0 <= i < |eps| => StepOf(eps[i]))
  }

  /**
   Runs and purges cut short at any moment, each started on what the one before it left: together they are a
   history, so `EveryHistoryRetains` holds of them, and each left directories that the next one could start from.
   */
  lemma CrashesAreHistory(eps: seq<Episode>, cfgs: seq<DestConfig>)
    requires Chained(eps, cfgs) && eps != []
    ensures SomeHistory(WorldsOf(eps), StepsOf(eps), cfgs)
    ensures forall i :: 0 <= i < |eps| ==> AllSound(eps[i].stop.now)
  {
    var ws, steps := WorldsOf(eps), StepsOf(eps);
    forall i | 0 <= i < |eps|
      ensures AllStep(ws[i], ws[i + 1], cfgs, steps[i])
      ensures AllSound(eps[i].stop.now)
    {
      EpisodeSteps(eps[i], cfgs);
      if i < |eps| - 1 { SameDirsSameStep(eps[i].was.now, eps[i].stop.now, eps[i + 1].was.now, cfgs, steps[i]); }
    }
    forall i | 0 <= i < |ws| ensures |ws[i].disks| == |cfgs| {
      if i == |eps| { assert AllStep(ws[i - 1], ws[i], cfgs, steps[i - 1]); }
    }
  }

  lemma SameDirsSameStep(w: World, w1: World, w2: World, cfgs: seq<DestConfig>, step: Option<string>)
    requires AllStep(w, w1, cfgs, step) && DirsOf(w1) == DirsOf(w2)
    ensures AllStep(w, w2, cfgs, step)
  {
    assert |DirsOf(w1)| == |w2.disks|;
    forall d | 0 <= d < |cfgs| ensures CompletesOf(w1, d) == CompletesOf(w2, d) {
      assert DirsOf(w1)[d] == w1.disks[d].dir && DirsOf(w2)[d] == w2.disks[d].dir;
    }
  }

  // ----- The scheduler

  /** One activation: a run with what it reads from outside, or a purge. */
  datatype Activation =
    | StartRun(id: string, now: int, ready: bool, backup: Backup, meta: string)
    | StartPurge(names: Option<set<string>>, dryRun: bool, now: int)

  function StepFor(act: Activation): Option<string> {
    match act
    case StartRun(id, _, _, _, _) => Some(Tail(id))
    case StartPurge(_, _, _) => None
  }

  ghost function StepsFor(acts: seq<Activation>): (steps: seq<Option<string>>)
    ensures |steps| == |acts| && forall i :: 0 <= i < |acts| ==> steps[i] == StepFor(acts[i])
  {
    seq(|acts|, i requires 0 <= i < |acts| => StepFor(acts[i]))
  }

  predicate AllZero(codes: seq<ExitCode>) { forall c :: c in codes ==> c.Success? }

  lemma RunIsStep(w: World, w': World, before: seq<Dest>, after: seq<Dest>, cfgs: seq<DestConfig>, entry: string)
    requires Shows(w, before) && Shows(w', after) && |before| == |cfgs|
    ensures AllRetain(before, w', cfgs, entry) ==> AllStep(w, w', cfgs, Some(entry))
    ensures AllExact(before, after, cfgs, entry) ==> AllStepExactly(w, w', cfgs, Some(entry))
  {}

  lemma PurgeIsStep(was: Past, p: Past, before: seq<Dest>, after: seq<Dest>, cfgs: seq<DestConfig>, chosen: set<nat>)
    requires Shows(was.now, before) && Shows(p.now, after) && AllTrimmedSince(was, p, cfgs, chosen)
    ensures AllStep(was.now, p.now, cfgs, None)
  {
    forall d | 0 <= d < |cfgs|
      ensures StepRetains(CompletesOf(was.now, d), CompletesOf(p.now, d), None, cfgs[d].keep)
    {
      if d in chosen { TrimmedRetains(before[d].entries, after[d].entries, cfgs[d].keep); }
    }
  }

  lemma CleanPurgeIsExact(was: Past, p: Past, before: seq<Dest>, after: seq<Dest>, cfgs: seq<DestConfig>,
                          chosen: set<nat>, faults: seq<Fault>, terms: Terms)
    requires Shows(was.now, before) && Shows(p.now, after) && AllTrimmedSince(was, p, cfgs, chosen)
    requires p == was || AllPurged(before, after, cfgs, chosen, faults, |faults|, terms)
    ensures AllStepExactly(was.now, p.now, cfgs, None)
  {
    forall d: nat | d < |cfgs|
      ensures StepIsExact(CompletesOf(was.now, d), CompletesOf(p.now, d), None, cfgs[d].keep)
    {
      if d in chosen && p != was { assert CleanPurge(faults, |faults|, d); }
    }
  }

  /** One activation is one step of the history. */
  method Activate(h: Host, config: Settings, act: Activation) returns (code: ExitCode)
    requires h.Resting() && |config.destinations| == |h.dests| && UniqueNames(config.destinations)
    requires act.StartRun? ==> EntryId(act.id)
    modifies h`work, h`dests, h`past, h`faults, h`hitches
    ensures h.Resting() && |h.dests| == |old(h.dests)|
    ensures AllStep(old(h.past).now, h.past.now, config.destinations, StepFor(act))
    ensures code.Success? ==> AllStepExactly(old(h.past).now, h.past.now, config.destinations, StepFor(act))
  {
    ghost var cfgs, before, was, faults := config.destinations, h.dests, h.past, h.faults;
    match act {
      case StartRun(id, now, ready, backup, meta) =>
        var s, _, _ := Run(h, config, id, now, ready, backup, meta);
        code := s.code;
        RunIsStep(was.now, h.past.now, before, h.dests, cfgs, Tail(id));
      case StartPurge(names, dryRun, now) =>
        var exit, _, _ := Purge(h, config, names, dryRun, now);
        code := exit;
        PurgeIsStep(was, h.past, before, h.dests, cfgs, Chosen(cfgs, names));
        if code.Success? {
          CleanPurgeIsExact(was, h.past, before, h.dests, cfgs, Chosen(cfgs, names), faults,
                            Terms(config.graceHours, now, None));
        }
    }
  }

  /**
   What a destination holds after any number of activations: never less than the newest `keep` of all that was
   ever complete there, and exactly the newest `keep` when every exit code was 0 and something was stored.
   */
  method RunAll(h: Host, config: Settings, acts: seq<Activation>)
    returns (codes: seq<ExitCode>, ghost ws: seq<World>)
    requires h.Resting() && |config.destinations| == |h.dests| && UniqueNames(config.destinations)
    requires forall act :: act in acts && act.StartRun? ==> EntryId(act.id)
    modifies h`work, h`dests, h`past, h`faults, h`hitches
    ensures h.Resting() && |h.dests| == |old(h.dests)| && |codes| == |acts|
    ensures |ws| == |acts| + 1 && Shows(ws[0], old(h.dests)) && Shows(ws[|acts|], h.dests)
    ensures SomeHistory(ws, StepsFor(acts), config.destinations)
    ensures forall d: nat :: d < |h.dests| ==>
      var keep := config.destinations[d].keep;
      var c0, c := CompleteNames(old(h.dests)[d].entries), CompleteNames(h.dests[d].entries);
      && Newest(Ever(CompletesAt(ws, d)), keep) <= c <= c0 + Named(StepsFor(acts))
      && (AllZero(codes) && Named(StepsFor(acts)) != {} ==> c == Newest(c0 + Named(StepsFor(acts)), keep))
  {
    ghost var cfgs, steps := config.destinations, [];
    codes, ws := [], [h.past.now];
    for i := 0 to |acts|
      invariant h.Resting() && |h.dests| == |old(h.dests)|
      invariant |codes| == |steps| == i && steps == StepsFor(acts[..i])
      invariant SomeHistory(ws, steps, cfgs) && Shows(ws[0], old(h.dests)) && ws[i] == h.past.now
      invariant AllZero(codes) ==> ExactHistory(ws, steps, cfgs)
    {
      var code := Activate(h, config, acts[i]);
      assert forall c :: c in codes + [code] <==> c in codes || c == code;
      HistoryMore(ws, steps, cfgs, h.past.now, StepFor(acts[i]));
      if AllZero(codes + [code]) { ExactHistoryMore(ws, steps, cfgs, h.past.now, StepFor(acts[i])); }
      codes := codes + [code];
      ws, steps := ws + [h.past.now], steps + [StepFor(acts[i])];
    }
    assert acts[..|acts|] == acts;
    forall d: nat | d < |h.dests|
      ensures var keep := config.destinations[d].keep;
              var c0, c := CompleteNames(old(h.dests)[d].entries), CompleteNames(h.dests[d].entries);
              && Newest(Ever(CompletesAt(ws, d)), keep) <= c <= c0 + Named(steps)
              && (AllZero(codes) && Named(steps) != {} ==> c == Newest(c0 + Named(steps), keep))
    {
      EveryHistoryRetains(ws, steps, cfgs, d);
      if AllZero(codes) { HistoryIsExact(ws, steps, cfgs, d); }
    }
  }
}
