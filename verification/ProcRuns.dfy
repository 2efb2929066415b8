/** Whole runs of the process table: dispatch safety, address-space lifetime, and how long an
    eligible slot waits. */
module ProcRuns {
  import opened ProcTable
  import opened ProcSafety

  /** Any interleaving of steps, from boot. */
  ghost predicate IsRun(run: seq<State>, steps: seq<Step>) {
    && |run| == |steps| + 1 && Initial(run[0])
    && forall i | 0 <= i < |steps| :: Shaped(run[i]) && Enabled(run[i], steps[i]) && run[i + 1] == Do(run[i], steps[i])
  }

  lemma {:induction false} RunInv(run: seq<State>, steps: seq<Step>, i: nat)
    requires IsRun(run, steps) && i < |run|
    ensures Inv(run[i])
  {
    if i == 0 {
      InitialInv(run[0]);
    } else {
      RunInv(run, steps, i - 1);
      StepInv(run[i - 1], steps[i - 1]);
    }
  }

  /** In every state of every run, whatever CPUs fork, exec, create threads, exit, are preempted
      or dispatched from idle: a CPU runs a used slot or none, no slot runs twice, and two CPUs
      that run one process have a slot on its way out between them. */
  lemma DispatchSafety(run: seq<State>, steps: seq<Step>, i: nat, c: nat, d: nat)
    requires IsRun(run, steps) && i < |run| && c < MAX_CPUS && d < MAX_CPUS && c != d
    ensures Shaped(run[i]) && (run[i].current[c] == NONE || Running(run[i], c))
    ensures Running(run[i], c) && Running(run[i], d) ==>
              var p, q := run[i].procs[run[i].current[c]], run[i].procs[run[i].current[d]];
              run[i].current[c] != run[i].current[d] && (p.exiting || q.exiting || p.owner != q.owner)
  {
    RunInv(run, steps, i);
    var s := run[i];
    assert s.current[c] != NONE ==> RunsUsed(s.procs, s.current[c]);
    assert s.current[c] != NONE && s.current[d] != NONE ==> Apart(s.procs, s.current[c], s.current[d]);
  }

  lemma ForkApart(s: State, c: nat, d: nat)
    requires Inv(s) && c < MAX_CPUS && d < MAX_CPUS && c != d && s.phase[c] == Forking && Running(s, d)
    ensures Running(s, c)
    ensures s.hw[d] == s.hw[c] ==>
              s.procs[s.current[c]].exiting || s.procs[s.current[d]].exiting || s.phase[d].Loading?
  {
    CallerRuns(s, c);
    CallerRuns(s, d);
    assert Apart(s.procs, s.current[c], s.current[d]);
    if s.phase[d].ExecBuilding? { PendingLive(s, d); }
  }

  /** What dispatch guarantees a fork: while it clones, no other CPU that runs a slot has its address
      space loaded, unless one of the two slots is marked exiting or that CPU has a load due. */
  lemma ForkAlone(run: seq<State>, steps: seq<Step>, i: nat, c: nat, d: nat)
    requires IsRun(run, steps) && i < |run| && c < MAX_CPUS && d < MAX_CPUS && c != d
    requires Shaped(run[i]) && run[i].phase[c] == Forking && Running(run[i], d)
    ensures Running(run[i], c)
    ensures run[i].hw[d] == run[i].hw[c] ==>
              || run[i].procs[run[i].current[c]].exiting || run[i].procs[run[i].current[d]].exiting
              || run[i].phase[d].Loading?
  {
    RunInv(run, steps, i);
    ForkApart(run[i], c, d);
  }

  /** The space a fork clones is not one that any CPU has left to free. */
  lemma ForkKept(s: State, c: nat, d: nat)
    requires Inv(s) && c < MAX_CPUS && d < MAX_CPUS && s.phase[c] == Forking && Pending(s.phase[d]) != 0
    ensures Pending(s.phase[d]) != s.hw[c]
  {
    CallerRuns(s, c);
    PendingLive(s, d);
  }

  /** A step leaves the phase and the CR3 of every other CPU alone. */
  lemma StepElsewhere(s: State, a: Step, d: nat)
    requires Shaped(s) && Enabled(s, a) && d < MAX_CPUS && (a.MarkExiting? || a.cpu != d)
    ensures Shaped(Do(s, a)) && Do(s, a).phase[d] == s.phase[d] && Do(s, a).hw[d] == s.hw[d]
  {
    hide PickNext, PickNextSameOwner, FirstUnused, FirstIdle, OtherLive;
  }

  // ---------------------------------------------------------------- address-space lifetime

  /** A CPU that runs a slot and has no load due never has a freed space in CR3. */
  lemma LoadedLive(run: seq<State>, steps: seq<Step>, i: nat, c: nat)
    requires IsRun(run, steps) && i < |run| && c < MAX_CPUS
    requires Shaped(run[i]) && Running(run[i], c) && !run[i].phase[c].Loading?
    ensures run[i].hw[c] in run[i].live
  {
    RunInv(run, steps, i);
    CallerRuns(run[i], c);
    if run[i].phase[c].ExecBuilding? { PendingLive(run[i], c); }
  }

  /** What a step frees was allocated, so nothing is freed twice, and afterwards no slot names it, no
      CPU still has to free it, and no CPU runs a slot on it unless a load is due there. */
  lemma FreesOnce(s: State, a: Step, x: Cr3)
    requires Inv(s) && Enabled(s, a) && x != 0 && x in s.live && x !in Do(s, a).live
    ensures var t := Do(s, a);
      && !Named(t.procs, x)
      && forall c | 0 <= c < MAX_CPUS :: Pending(t.phase[c]) != x && (Running(t, c) && t.hw[c] == x ==> t.phase[c].Loading?)
  {
    hide Dispatch, Pids, Callers, Building, PickNext, FirstUnused, OtherLive, Do, Enabled;
    StepInv(s, a);
    var t := Do(s, a);
    Fresh(t, x);
    forall c | 0 <= c < MAX_CPUS
      ensures Pending(t.phase[c]) != x && (Running(t, c) && t.hw[c] == x ==> t.phase[c].Loading?)
    {
      NotLive(t, c, x);
    }
  }

  lemma NotLive(t: State, c: nat, x: Cr3)
    requires Inv(t) && c < MAX_CPUS && x !in t.live && x != 0
    ensures Pending(t.phase[c]) != x
    ensures Running(t, c) && t.hw[c] == x ==> t.phase[c].Loading?
  {
    if Pending(t.phase[c]) != 0 { PendingLive(t, c); }
    if Running(t, c) { CallerRuns(t, c); }
  }

  /** A space that is allocated, that no CPU builds or has to free, and that no slot owns. */
  predicate Orphan(s: State, x: Cr3)
    requires Shaped(s)
  {
    && x in s.live && x != 0
    && (forall i | 0 <= i < MAX_PROCS && s.procs[i].used && s.procs[i].cr3 == x :: !s.procs[i].ownsCr3)
    && (forall c | 0 <= c < MAX_CPUS :: Pending(s.phase[c]) != x)
  }

  /** Only three steps ever free a space, and each frees one that its CPU alone has. */
  lemma WhatIsFreed(s: State, a: Step)
    requires Inv(s) && Enabled(s, a)
    ensures s.live - Do(s, a).live ==
      match a
      case ForkCommit(c) => if IsSlot(FirstUnused(s, 0)) then {} else {Pending(s.phase[c])}
      case ExecAbort(c) => if s.phase[c].ExecReady? then {Pending(s.phase[c])} else {}
      case FreeSpace(c) => {Pending(s.phase[c])}
      case _ => {}
  {
    hide Dispatch, Pids, Loaded, Callers, Building, PickNext, PickNextSameOwner, FirstUnused, FirstIdle, OtherLive, LastOwner;
    match a
    case ForkCommit(c) => PendingPositive(s, c); PendingLive(s, c);
    case ExecAbort(c) => if s.phase[c].ExecReady? { PendingPositive(s, c); PendingLive(s, c); }
    case FreeSpace(c) => PendingPositive(s, c); PendingLive(s, c);
    case _ =>
  }

  /** Whatever step is taken, an orphaned space stays allocated and without an owner. */
  lemma OrphanForever(s: State, a: Step, x: Cr3)
    requires Inv(s) && Enabled(s, a) && Orphan(s, x)
    ensures Orphan(Do(s, a), x)
  {
    hide Dispatch, Pids, Spaces, Callers, Building, PickNext, PickNextSameOwner, FirstUnused, FirstIdle, LastOwner;
    match a
    case ForkCommit(c) => CallerRuns(s, c);
    case ExecLeave(c) => CallerRuns(s, c);
    case ExecCommit(c) => CallerRuns(s, c);
    case ThreadCreate(c) => CallerRuns(s, c);
    case TimerPreempt(c) => StayInv(s, c);
    case PostSyscall(c, resched, sameOwner) => OrphanPost(s, c, resched, sameOwner, x);
    case _ =>
  }

  lemma OrphanPost(s: State, c: nat, resched: bool, sameOwner: bool, x: Cr3)
    requires Inv(s) && Enabled(s, PostSyscall(c, resched, sameOwner)) && Orphan(s, x)
    ensures Orphan(Posted(s, c, resched, sameOwner), x)
  {
    hide Dispatch, Pids, Spaces, Callers, Building, PickNext, PickNextSameOwner;
    CallerRuns(s, c);
    StayInv(s, c);
  }

  /** Over a whole run: once a space has lost its owner it is never freed. */
  lemma {:induction false} LeakedForever(run: seq<State>, steps: seq<Step>, i: nat, j: nat, x: Cr3)
    requires IsRun(run, steps) && i <= j < |run| && Shaped(run[i]) && Orphan(run[i], x)
    ensures Shaped(run[j]) && Orphan(run[j], x)
    decreases j
  {
    hide Enabled, Do, Orphan;
    RunInv(run, steps, j);
    if i < j {
      LeakedForever(run, steps, i, j - 1, x);
      RunInv(run, steps, j - 1);
      OrphanForever(run[j - 1], steps[j - 1], x);
    }
  }

  /** The space of an exiting owner is left to its CPU to free exactly when no slot of its process is
      left; otherwise the owner's exit orphans it, and it is never freed. */
  lemma ExitFreesOrOrphans(s: State, c: nat, resched: bool, sameOwner: bool)
    requires Inv(s) && Enabled(s, PostSyscall(c, resched, sameOwner))
    requires var p := s.procs[s.current[c]]; p.exiting && p.ownsCr3
    ensures var t := Do(s, PostSyscall(c, resched, sameOwner)); var p := s.procs[s.current[c]];
            if OtherLive(s.procs, p.owner, s.current[c]) then Orphan(t, p.cr3)
            else Pending(t.phase[c]) == p.cr3
  {
    hide Dispatch, Pids, Callers, PickNext;
    CallerRuns(s, c);
    var k := s.current[c];
    if LastOwner(s, c) { ExitNext(s, c); }
    forall d | 0 <= d < MAX_CPUS && d != c ensures Pending(s.phase[d]) != s.procs[k].cr3 {
      if Pending(s.phase[d]) != 0 { PendingLive(s, d); }
    }
  }

  /** And that CPU frees it: after the load it has left to do, if any, the space is gone. */
  lemma PendingIsFreed(s: State, c: nat)
    requires Inv(s) && c < MAX_CPUS && Pending(s.phase[c]) != 0 && (s.phase[c].Loading? || s.phase[c].Freeing?)
    ensures var t := if s.phase[c].Loading? then Do(s, LoadCr3(c)) else s;
      && Inv(t) && Enabled(t, FreeSpace(c)) && Pending(s.phase[c]) !in Do(t, FreeSpace(c)).live
      && (Running(t, c) ==> t.hw[c] == t.procs[t.current[c]].cr3)
  {
    if s.phase[c].Loading? { StepInv(s, LoadCr3(c)); }
    var t := if s.phase[c].Loading? then Do(s, LoadCr3(c)) else s;
    if Running(t, c) { CallerRuns(t, c); }
  }
}
