/** Any number of processes guarding the pipeline with one non-blocking lock file. */
module Locking {
  import opened Wrappers
  import opened Layout
  import opened Placement
  import opened Recording

  /**
   A process: outside, holding an open but unlocked descriptor, refused, or inside the pipeline, where it stands in
   the operation `op` on destination `at`.
   */
  datatype Proc = Outside | Opened | Refused | Inside(at: nat, op: Op)

  /** `lock` is the process whose descriptor holds the kernel's exclusive lock; the rest is what all processes share. */
  datatype System = System(lock: Option<nat>, procs: seq<Proc>, work: map<string, Files>, disks: seq<Disk>)

  /** What process `p` sees of the node. */
  ghost function SeenBy(s: System, proc: Proc): World
    requires proc.Inside?
  {
    World(s.work, s.disks, proc.at, proc.op)
  }

  /** flock(LOCK_UN) or the kernel closing a descriptor: only the holder's own call has an effect. */
  function Unlock(lock: Option<nat>, p: nat): Option<nat> {
    if lock == Some(p) then None else lock
  }

  ghost predicate ProcStep(s: System, s': System, p: nat)
    requires p < |s.procs|
  {
    var proc := s.procs[p];
    // open(lock_path, "w")
    || (proc.Outside? && s' == s.(procs := s.procs[p := Opened]))
    // flock succeeds only on a free lock
    || (proc.Opened? && s.lock.None? && s' == s.(lock := Some(p), procs := s.procs[p := Inside(0, Idle)]))
    // flock raises, for whatever reason
    || (proc.Opened? && s' == s.(procs := s.procs[p := Refused]))
    // the finally clause of a refused contender: unlock and close
    || (proc.Refused? && s' == s.(lock := Unlock(s.lock, p), procs := s.procs[p := Outside]))
    // the pipeline works on the work directory or on a destination
    || (proc.Inside? && s'.lock == s.lock && |s'.procs| == |s.procs|
        && s'.procs == s.procs[p := s'.procs[p]] && s'.procs[p].Inside?
        && WorldStep(SeenBy(s, proc), SeenBy(s', s'.procs[p])))
    // the pipeline returns or raises between two operations
    || (proc.Inside? && proc.op.Idle? && s' == s.(lock := Unlock(s.lock, p), procs := s.procs[p := Outside]))
    // the process dies
    || s' == s.(lock := Unlock(s.lock, p), procs := s.procs[p := Outside])
  }

  ghost predicate SystemStep(s: System, s': System) {
    |s'.procs| == |s.procs| && exists p: nat :: p < |s.procs| && ProcStep(s, s', p)
  }

  ghost predicate Execution(ss: seq<System>) {
    |ss| > 0 && forall i :: 0 <= i < |ss| - 1 ==> SystemStep(ss[i], ss[i + 1])
  }

  /** A process is inside the pipeline exactly when it holds the lock. */
  ghost predicate Exclusive(s: System) {
    && (s.lock.Some? ==> s.lock.value < |s.procs|)
    && forall p: nat :: p < |s.procs| ==> (s.procs[p].Inside? <==> s.lock == Some(p))
  }

  lemma ExclusiveIsKept(s: System, s': System)
    requires Exclusive(s) && SystemStep(s, s')
    ensures Exclusive(s')
  {}

  lemma {:induction false} AlwaysExclusive(ss: seq<System>, i: nat)
    requires Execution(ss) && Exclusive(ss[0]) && i < |ss|
    ensures Exclusive(ss[i])
  {
    if i > 0 {
      AlwaysExclusive(ss, i - 1);
      ExclusiveIsKept(ss[i - 1], ss[i]);
    }
  }

  /** At most one process is ever inside the pipeline. */
  lemma MutualExclusion(ss: seq<System>, i: nat, p: nat, q: nat)
    requires Execution(ss) && Exclusive(ss[0]) && i < |ss| && p < |ss[i].procs| && q < |ss[i].procs|
    requires ss[i].procs[p].Inside? && ss[i].procs[q].Inside?
    ensures p == q
  {
    AlwaysExclusive(ss, i);
  }

  /** The unlock in a refused contender's finally clause never frees the holder. */
  lemma RefusedUnlockIsHarmless(ss: seq<System>, i: nat, p: nat)
    requires Execution(ss) && Exclusive(ss[0]) && i < |ss| && p < |ss[i].procs|
    requires ss[i].procs[p].Refused?
    ensures Unlock(ss[i].lock, p) == ss[i].lock
  {
    AlwaysExclusive(ss, i);
  }

  /**
   The lock file as the processes use it through `acquire_lock`. Each system call appends the new state of the
   whole system to `trace`, so what holds of all executions holds of what the code does.
   */
  class LockFile {
    var holder: Option<nat>
    ghost var trace: seq<System>

    ghost function Now(): System
      reads `trace
      requires |trace| > 0
    {
      trace[|trace| - 1]
    }

    ghost predicate Valid()
      reads this
    {
      Execution(trace) && Exclusive(trace[0]) && Now().lock == holder
    }

    constructor (procs: nat, work: map<string, Files>, disks: seq<Disk>)
      ensures Valid() && holder == None && Now() == System(None, seq(procs, _ => Outside), work, disks)
    {
      holder := None;
      trace := [System(None, seq(procs, _ => Outside), work, disks)];
    }

    /** One system call by process `p`. */
    ghost method Record(p: nat, proc: Proc, lock: Option<nat>)
      requires |trace| > 0 && Execution(trace) && p < |Now().procs|
      requires ProcStep(Now(), Now().(procs := Now().procs[p := proc], lock := lock), p)
      modifies this`trace
      ensures Execution(trace) && old(trace) <= trace && trace[0] == old(trace)[0]
      ensures Now() == old(Now()).(procs := old(Now()).procs[p := proc], lock := lock)
    {
      trace := trace + [Now().(procs := Now().procs[p := proc], lock := lock)];
    }

    /**
     Enters alone with the lock, or is refused; the finally clause of a refused call changes nothing for
     anybody. flock may also fail for reasons of its own.
     */
    method Acquire(p: nat, raises: bool) returns (entered: bool)
      requires Valid() && p < |Now().procs| && Now().procs[p].Outside?
      modifies this
      ensures Valid() && old(trace) <= trace && |Now().procs| == |old(Now()).procs|
      ensures entered <==> old(holder).None? && !raises
      ensures entered ==>
        Now().procs[p].Inside? && forall q: nat :: q < |Now().procs| && Now().procs[q].Inside? ==> q == p
      ensures !entered ==> Now() == old(Now())
    {
      ghost var s := Now();
      AlwaysExclusive(trace, |trace| - 1);
      Record(p, Opened, holder);
      if holder.Some? || raises {
        Record(p, Refused, holder);
        entered := false;
        holder := Unlock(holder, p);                        // the finally clause
        Record(p, Outside, holder);
        assert Now().procs == s.procs;
      } else {
        holder := Some(p);
        Record(p, Inside(0, Idle), holder);
        entered := true;
        AlwaysExclusive(trace, |trace| - 1);
      }
    }

    /** The finally clause after the pipeline: nobody is inside, and the next caller can enter. */
    method Release(p: nat)
      requires Valid() && p < |Now().procs| && Now().procs[p].Inside? && Now().procs[p].op.Idle?
      modifies this
      ensures Valid() && old(trace) <= trace && holder == None
      ensures forall q: nat :: q < |Now().procs| ==> !Now().procs[q].Inside?
      ensures Now().work == old(Now()).work && Now().disks == old(Now()).disks
    {
      AlwaysExclusive(trace, |trace| - 1);
      holder := Unlock(holder, p);
      Record(p, Outside, holder);
      AlwaysExclusive(trace, |trace| - 1);
    }
  }

  /** Only the process that holds the lock changes anything but its own standing. */
  lemma OthersChangeNothing(s: System, s': System, p: nat)
    requires Exclusive(s) && p < |s.procs| && ProcStep(s, s', p) && s.lock != Some(p)
    ensures s'.work == s.work && s'.disks == s.disks && |s'.procs| == |s.procs|
    ensures forall q: nat :: q < |s.procs| && q != p ==> s'.procs[q] == s.procs[q]
  {}

  /** The system seen as one writer: whatever the lock holder, if any, is doing. */
  ghost function Writer(s: System): World {
    if s.lock.Some? && s.lock.value < |s.procs| && s.procs[s.lock.value].Inside?
    then SeenBy(s, s.procs[s.lock.value])
    else World(s.work, s.disks, 0, Idle)
  }

  /** One more state; a process that dies in the middle of an operation stops it first. */
  ghost function Extended(p: Past, w: World): Past {
    if p.now == w then p
    else if w.op.Idle? && !p.now.op.Idle? && p.now.at != w.at then Then(Then(p, p.now.(op := Idle)), w)
    else Then(p, w)
  }

  lemma ExtendedIsLinked(p: Past, s: System, s': System)
    requires Linked(p) && p.now == Writer(s) && Exclusive(s) && SystemStep(s, s')
    ensures Linked(Extended(p, Writer(s'))) && Extended(p, Writer(s')).now == Writer(s')
  {
    var i: nat :| i < |s.procs| && ProcStep(s, s', i);
    ExclusiveIsKept(s, s');
    SoundThroughout(p, p);
    if Writer(s) != Writer(s') {
      if WorldStep(Writer(s), Writer(s')) && (p.now.op.Idle? || !Writer(s').op.Idle? || p.now.at == Writer(s').at) {
        LinkedExtends(p, Writer(s'));
      } else {
        DyingIsTwoSteps(p, s, s', i);
      }
    }
  }

  /** The holder died in the middle of an operation. */
  lemma DyingIsTwoSteps(p: Past, s: System, s': System, i: nat)
    requires Linked(p) && p.now == Writer(s) && Exclusive(s) && i < |s.procs| && ProcStep(s, s', i) && WorldInv(p.now)
    requires Writer(s) != Writer(s')
    requires !(WorldStep(Writer(s), Writer(s'))
               && (p.now.op.Idle? || !Writer(s').op.Idle? || p.now.at == Writer(s').at))
    ensures Linked(Extended(p, Writer(s')))
  {
    var c := Cfg(p.now.op, p.now.disks[p.now.at]);
    assert Enabled(c, Stop) && Apply(c, Stop) == Cfg(Idle, c.disk);
    LinkedExtends(p, p.now.(op := Idle));
    LinkedExtends(Then(p, p.now.(op := Idle)), Writer(s'));
  }

  /** The past of the whole system up to its state `i`. */
  ghost function PastOf(ss: seq<System>, i: nat): Past
    requires i < |ss|
  {
    if i == 0 then First(Writer(ss[0])) else Extended(PastOf(ss, i - 1), Writer(ss[i]))
  }

  /**
   Any number of contending and crashing processes behave like a single writer of the node: all that any of them
   does is one past made of single effects, so every lemma about such pasts holds of the whole system.
   */
  lemma {:induction false} LockedSystemIsSingleWriter(ss: seq<System>, i: nat)
    requires Execution(ss) && Exclusive(ss[0]) && WorldInv(Writer(ss[0])) && i < |ss|
    ensures Linked(PastOf(ss, i)) && PastOf(ss, i).now == Writer(ss[i])
  {
    if i == 0 {
      assert LinkAt(First(Writer(ss[0])));
    } else {
      LockedSystemIsSingleWriter(ss, i - 1);
      AlwaysExclusive(ss, i - 1);
      ExtendedIsLinked(PastOf(ss, i - 1), ss[i - 1], ss[i]);
    }
  }

  /** So every destination is sound in every state of the whole system, whoever has died where. */
  lemma SystemKeepsInv(ss: seq<System>, i: nat, d: nat)
    requires Execution(ss) && Exclusive(ss[0]) && WorldInv(Writer(ss[0])) && i < |ss| && d < |ss[i].disks|
    ensures DiskInv(ss[i].disks[d]) && Sound(ss[i].disks[d].dir)
  {
    LockedSystemIsSingleWriter(ss, i);
    SoundThroughout(PastOf(ss, i), PastOf(ss, i));
    CrashLeavesSound(PastOf(ss, i), PastOf(ss, i), d);
  }

  // ----- Without the lock

  datatype TwoWriters = TwoWriters(first: Op, second: Op, disk: Disk)

  ghost predicate UnlockedStep(t: TwoWriters, t': TwoWriters) {
    || (t'.second == t.second && Step(Cfg(t.first, t.disk), Cfg(t'.first, t'.disk)))
    || (t'.first == t.first && Step(Cfg(t.second, t.disk), Cfg(t'.second, t'.disk)))
  }

  /** Two writers from their start, one effect at a time. */
  ghost predicate UnlockedRun(ts: seq<TwoWriters>) {
    && |ts| > 0 && ts[0].first == ts[0].second == Idle && DiskInv(ts[0].disk)
    && forall i :: 0 <= i < |ts| - 1 ==> UnlockedStep(ts[i], ts[i + 1])
  }

  ghost function Last(ts: seq<TwoWriters>): TwoWriters
    requires UnlockedRun(ts)
  {
    ts[|ts| - 1]
  }

  lemma FirstActs(ts: seq<TwoWriters>, a: Act) returns (ts': seq<TwoWriters>)
    requires UnlockedRun(ts) && Enabled(Cfg(Last(ts).first, Last(ts).disk), a)
    ensures UnlockedRun(ts')
    ensures var t := Last(ts); var c := Apply(Cfg(t.first, t.disk), a); Last(ts') == TwoWriters(c.op, t.second, c.disk)
  {
    var c := Apply(Cfg(Last(ts).first, Last(ts).disk), a);
    ts' := ts + [TwoWriters(c.op, Last(ts).second, c.disk)];
  }

  lemma SecondActs(ts: seq<TwoWriters>, a: Act) returns (ts': seq<TwoWriters>)
    requires UnlockedRun(ts) && Enabled(Cfg(Last(ts).second, Last(ts).disk), a)
    ensures UnlockedRun(ts')
    ensures var t := Last(ts); var c := Apply(Cfg(t.second, t.disk), a); Last(ts') == TwoWriters(t.first, c.op, c.disk)
  {
    var c := Apply(Cfg(Last(ts).second, Last(ts).disk), a);
    ts' := ts + [TwoWriters(Last(ts).first, c.op, c.disk)];
  }

  /** The first writer finishes a generation of nothing but meta.json while the second one waits. */
  lemma FirstFinishes(was: seq<TwoWriters>, id: string, src: Files) returns (ts: seq<TwoWriters>)
    requires UnlockedRun(was) && Last(was).first == Clearing(id, src) && Last(was).disk.dir == Dest(true, map[])
    requires Data(src) == map[] && [META] in src && PlainId(id)
    ensures UnlockedRun(ts) && Last(ts).second == Last(was).second && Last(ts).disk.dir.present
    ensures Complete(Last(ts).disk.dir.entries, id) && Partial(id) !in Last(ts).disk.dir.entries
  {
    PlainPartial(id);
    ts := FirstActs(was, MakePartial(0));
    ts := FirstActs(ts, Seal(0));
    ts := FirstActs(ts, Commit);
  }

  /** Whatever their id, two unlocked writers storing it can leave a complete generation beside its partial. */
  lemma UnlockedWritersCoexist(id: string, meta: string) returns (ts: seq<TwoWriters>)
    requires PlainId(id)
    ensures UnlockedRun(ts)
    ensures Complete(Last(ts).disk.dir.entries, id) && Partial(id) in Last(ts).disk.dir.entries
  {
    var src: Files := map[[META] := meta];
    assert Data(src) == map[];
    ts := [TwoWriters(Idle, Idle, Disk(Dest(true, map[]), map[], {}))];
    ts := FirstActs(ts, BeginStore(id, src));
    ts := SecondActs(ts, BeginStore(id, src));
    ts := FirstFinishes(ts, id, src);
    PlainPartial(id);
    ts := SecondActs(ts, MakePartial(0));
  }
}
