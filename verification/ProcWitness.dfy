/** Runs from boot that show what the process table does not guarantee: a CPU on a freed address space
    while its load is due, an address space that is never freed, a slot the timer never reaches, and a
    fork whose address space another CPU is running on. */
module ProcWitness {
  import opened ProcTable
  import opened ProcSafety
  import opened ProcPicks
  import opened ProcRuns
  import opened ProcWaiting

  /** The used part of a state: slots, CPUs and claims beyond these lists are empty. */
  datatype Small = Small(procs: seq<Proc>, current: seq<int>, phase: seq<Phase>, hw: seq<Cr3>,
                         claimed: set<nat>, live: set<Cr3>, nextPid: nat)

  predicate Fits(v: Small) {
    |v.procs| <= 4 && |v.current| == |v.phase| == |v.hw| <= 4 && forall i | i in v.claimed :: i < |v.procs|
  }

  predicate At(s: State, v: Small) {
    && Shaped(s) && Fits(v) && s.live == v.live && s.nextPid == v.nextPid
    && (forall i | 0 <= i < MAX_PROCS :: s.procs[i] == if i < |v.procs| then v.procs[i] else EMPTY)
    && (forall i: nat | i < MAX_PROCS :: s.claimed[i] <==> i in v.claimed)
    && (forall c | 0 <= c < MAX_CPUS :: s.current[c] == if c < |v.current| then v.current[c] else NONE)
    && (forall c | 0 <= c < MAX_CPUS :: s.phase[c] == if c < |v.phase| then v.phase[c] else Ready)
    && (forall c | 0 <= c < |v.hw| :: s.hw[c] == v.hw[c])
  }

  /** The run so far ends in a state whose used part is `v`. */
  ghost predicate Reached(run: seq<State>, steps: seq<Step>, v: Small) {
    IsRun(run, steps) && At(run[|steps|], v)
  }

  lemma Start(cpus: nat) returns (run: seq<State>, steps: seq<Step>, v: Small)
    requires 1 <= cpus <= 4
    ensures v == Small([], seq(cpus, _ => NONE), seq(cpus, _ => Ready), seq(cpus, _ => 0), {}, {}, 1)
    ensures Reached(run, steps, v)
  {
    v := Small([], seq(cpus, _ => NONE), seq(cpus, _ => Ready), seq(cpus, _ => 0), {}, {}, 1);
    var s := State(seq(MAX_PROCS, _ => EMPTY), seq(MAX_CPUS, _ => NONE), seq(MAX_PROCS, _ => false),
                   seq(MAX_CPUS, _ => Ready), seq(MAX_CPUS, _ => 0), 1, {});
    run, steps := [s], [];
  }

  /** One more step. */
  lemma Then(run: seq<State>, steps: seq<Step>, v: Small, a: Step, v': Small)
    returns (run': seq<State>, steps': seq<Step>)
    requires Reached(run, steps, v)
    requires var s := run[|steps|]; Enabled(s, a) && At(Do(s, a), v')
    ensures Reached(run', steps', v') && run'[|steps'|] == Do(run[|steps|], a)
  {
    hide Enabled, Do;
    run', steps' := run + [Do(run[|steps|], a)], steps + [a];
    forall i | 0 <= i < |steps'|
      ensures Shaped(run'[i]) && Enabled(run'[i], steps'[i]) && run'[i + 1] == Do(run'[i], steps'[i])
    {
      assert i < |steps| ==> run'[i] == run[i] && run'[i + 1] == run[i + 1] && steps'[i] == steps[i];
    }
  }

  // ---------------------------------------------------------------- one step on the used part

  predicate OnCpu(v: Small, c: nat) {
    c < |v.current| == |v.phase| == |v.hw| && 0 <= v.current[c] < |v.procs| && v.procs[v.current[c]].used
  }

  lemma BootStep(s: State, v: Small, c: nat, cr3: Cr3)
    requires At(s, v) && v.procs == [] && v.nextPid == 1 && c < |v.current| && v.current[c] == NONE && v.phase[c] == Ready
    requires cr3 != 0 && cr3 !in v.live
    ensures Enabled(s, Boot(c, cr3))
    ensures At(Do(s, Boot(c, cr3)),
               v.(procs := [Proc(true, false, true, false, 1, 0, 1, cr3)], current := v.current[c := 0],
                  hw := v.hw[c := cr3], live := v.live + {cr3}, nextPid := 2))
  {}

  lemma {:induction false} UnusedIs(s: State, from: nat, k: nat)
    requires Shaped(s) && from <= k < MAX_PROCS && !s.procs[k].used && forall i | from <= i < k :: s.procs[i].used
    ensures FirstUnused(s, from) == k
    decreases k - from
  {
    if from < k { UnusedIs(s, from + 1, k); }
  }

  /** A whole fork: check, clone, install. */
  lemma ForkSteps(s: State, v: Small, c: nat, child: Cr3)
    requires At(s, v) && OnCpu(v, c) && v.phase[c] == Ready && |v.procs| < 4 && child != 0 && child !in v.live
    requires forall i | 0 <= i < |v.procs| :: v.procs[i].used && (i != v.current[c] ==> v.procs[i].owner != v.procs[v.current[c]].owner)
    ensures Enabled(s, ForkBegin(c))
    ensures var s1 := Do(s, ForkBegin(c)); Enabled(s1, ForkClone(c, child))
    ensures var s2 := Do(Do(s, ForkBegin(c)), ForkClone(c, child)); Enabled(s2, ForkCommit(c))
    ensures At(Do(s, ForkBegin(c)), v.(phase := v.phase[c := Forking]))
    ensures At(Do(Do(s, ForkBegin(c)), ForkClone(c, child)), v.(phase := v.phase[c := ForkReady(child)], live := v.live + {child}))
    ensures At(Do(Do(Do(s, ForkBegin(c)), ForkClone(c, child)), ForkCommit(c)),
               v.(procs := v.procs + [Proc(true, false, true, false, v.nextPid, v.procs[v.current[c]].owner, v.nextPid, child)],
                  live := v.live + {child}, nextPid := v.nextPid + 1))
  {
    var s2 := Do(Do(s, ForkBegin(c)), ForkClone(c, child));
    UnusedIs(s2, 0, |v.procs|);
  }

  predicate BlocksSmall(v: Small, d: nat, slot: nat)
    requires Fits(v) && d < |v.current| && slot < |v.procs|
  {
    var r := v.current[d];
    0 <= r < |v.procs| &&
    (r == slot || (v.procs[slot].owner != 0 && v.procs[r].used && !v.procs[r].exiting && v.procs[r].owner == v.procs[slot].owner))
  }

  predicate EligibleSmall(v: Small, slot: nat, c: nat)
    requires Fits(v) && slot < |v.procs|
  {
    && v.procs[slot].used && v.procs[slot].cr3 != 0
    && forall d | 0 <= d < |v.current| && d != c :: !BlocksSmall(v, d, slot)
  }

  predicate InRange(v: Small) { forall c | 0 <= c < |v.current| :: v.current[c] == NONE || 0 <= v.current[c] < |v.procs| }

  lemma EligibleIs(s: State, v: Small, slot: nat, c: nat)
    requires At(s, v) && InRange(v) && slot < |v.procs|
    ensures Eligible(s, slot, c) == EligibleSmall(v, slot, c)
  {
    if v.procs[slot].used {
      forall d | 0 <= d < |v.current| ensures Blocks(s, d, slot) == BlocksSmall(v, d, slot) {}
      forall d | |v.current| <= d < MAX_CPUS ensures !Blocks(s, d, slot) {}
    }
  }

  lemma EmptyNotEligible(s: State, v: Small, slot: nat, c: nat)
    requires At(s, v) && slot < MAX_PROCS && (slot >= |v.procs| || !v.procs[slot].used)
    ensures !Eligible(s, slot, c)
  {}

  /** The scan from `cur` finds slot `k` above it, nothing between being eligible. */
  lemma PickUp(s: State, v: Small, cur: nat, c: nat, k: nat)
    requires At(s, v) && InRange(v) && cur < k < |v.procs| && EligibleSmall(v, k, c)
    requires forall i | cur < i < k :: !EligibleSmall(v, i, c)
    ensures PickNext(s, cur, c) == k
  {
    EligibleIs(s, v, k, c);
    forall i | cur < i < k ensures !Eligible(s, i, c) { EligibleIs(s, v, i, c); }
    ScanUp(s, cur, c, 1, k - cur);
  }

  lemma {:induction false} ScanUp(s: State, from: nat, c: nat, step: nat, last: nat)
    requires Shaped(s) && from + last < MAX_PROCS && step <= last && Eligible(s, from + last, c)
    requires forall i | from + step <= i < from + last :: !Eligible(s, i, c)
    ensures FirstEligible(s, from, c, step, MAX_PROCS) == from + last
    decreases last - step
  {
    hide Eligible;
    assert (from + step) % MAX_PROCS == from + step;
    if step < last { ScanUp(s, from, c, step + 1, last); }
  }

  /** The scan with no current slot starts at slot 0. */
  lemma PickFirst(s: State, v: Small, c: nat, k: nat)
    requires At(s, v) && InRange(v) && k < |v.procs| && EligibleSmall(v, k, c)
    requires forall i | 0 <= i < k :: !EligibleSmall(v, i, c)
    ensures PickNext(s, NONE, c) == k
  {
    EligibleIs(s, v, k, c);
    forall i | 0 <= i < k ensures !Eligible(s, i, c) { EligibleIs(s, v, i, c); }
    ScanUp(s, 0, c, 0, k);
  }

  lemma {:induction false} ScanNone(s: State, c: nat, step: nat)
    requires Shaped(s) && step <= MAX_PROCS && forall i | 0 <= i < MAX_PROCS :: !Eligible(s, i, c)
    ensures FirstEligible(s, 0, c, step, MAX_PROCS) == NONE
    decreases MAX_PROCS - step
  {
    hide Eligible;
    if step < MAX_PROCS { ScanNone(s, c, step + 1); }
  }

  lemma ThreadStep(s: State, v: Small, c: nat)
    requires At(s, v) && OnCpu(v, c) && v.phase[c] == Ready && |v.procs| < 4 && forall i | 0 <= i < |v.procs| :: v.procs[i].used
    ensures Enabled(s, ThreadCreate(c))
    ensures var p := v.procs[v.current[c]];
      At(Do(s, ThreadCreate(c)),
         v.(procs := v.procs + [Proc(true, false, false, true, v.nextPid, p.ppid, p.owner, p.cr3)], nextPid := v.nextPid + 1))
  {
    UnusedIs(s, 0, |v.procs|);
  }

  lemma MarkStep(s: State, v: Small, k: nat)
    requires At(s, v) && k < |v.procs| && v.procs[k].used
    ensures Enabled(s, MarkExiting({k}))
    ensures At(Do(s, MarkExiting({k})), v.(procs := v.procs[k := v.procs[k].(exiting := true)]))
  {}

  lemma LoadStep(s: State, v: Small, c: nat)
    requires At(s, v) && c < |v.phase| && v.phase[c].Loading?
    ensures Enabled(s, LoadCr3(c))
    ensures At(Do(s, LoadCr3(c)),
               v.(hw := v.hw[c := v.phase[c].next],
                  phase := v.phase[c := if v.phase[c].gone != 0 then Freeing(v.phase[c].gone) else Ready]))
  {}

  lemma FreeStep(s: State, v: Small, c: nat)
    requires At(s, v) && c < |v.phase| && v.phase[c].Freeing?
    ensures Enabled(s, FreeSpace(c))
    ensures At(Do(s, FreeSpace(c)), v.(phase := v.phase[c := Ready], live := v.live - {v.phase[c].gone}))
  {}

  predicate IdleSmall(v: Small, slot: nat, c: nat)
    requires Fits(v) && slot < |v.procs|
  {
    var p := v.procs[slot];
    EligibleSmall(v, slot, c) && !p.exiting && p.pid != 1 && p.ppid != 0 && slot !in v.claimed
  }

  lemma {:induction false} IdleFrom(s: State, v: Small, c: nat, from: nat, k: nat)
    requires At(s, v) && InRange(v) && from <= k < |v.procs| && IdleSmall(v, k, c)
    requires forall i | from <= i < k :: !IdleSmall(v, i, c)
    ensures FirstIdle(s, c, from) == k
    decreases k - from
  {
    EligibleIs(s, v, from, c);
    assert Eligible(s, from, c) <==> s.procs[from].used && s.procs[from].cr3 != 0 && !OnOtherCpu(s, from, c);
    hide Eligible, EligibleSmall, OnOtherCpu;
    assert IdleCandidate(s, from, c) == IdleSmall(v, from, c);
    if from < k { IdleFrom(s, v, c, from + 1, k); }
  }

  lemma IdleStep(s: State, v: Small, c: nat, k: nat)
    requires At(s, v) && InRange(v) && c < |v.current| && v.current[c] == NONE && v.phase[c] == Ready
    requires k < |v.procs| && IdleSmall(v, k, c) && forall i | 0 <= i < k :: !IdleSmall(v, i, c)
    ensures Enabled(s, IdleDispatch(c))
    ensures At(Do(s, IdleDispatch(c)),
               v.(current := v.current[c := k], phase := v.phase[c := Loading(v.procs[k].cr3, 0)], claimed := v.claimed + {k}))
  {
    IdleFrom(s, v, c, 0, k);
  }

  /** A reschedule after a system call, to the next slot above. */
  lemma PostStep(s: State, v: Small, c: nat, k: nat)
    requires At(s, v) && InRange(v) && OnCpu(v, c) && v.phase[c] == Ready && !v.procs[v.current[c]].exiting
    requires v.hw[c] == v.procs[v.current[c]].cr3
    requires v.current[c] < k < |v.procs| && EligibleSmall(v, k, c) && forall i | v.current[c] < i < k :: !EligibleSmall(v, i, c)
    ensures Enabled(s, PostSyscall(c, true, false))
    ensures At(Do(s, PostSyscall(c, true, false)), v.(current := v.current[c := k], phase := v.phase[c := Loading(v.procs[k].cr3, 0)]))
  {
    assert Saved(s, c) == s by { assert s.procs[s.current[c] := s.procs[s.current[c]]] == s.procs; }
    PickUp(s, v, v.current[c], c, k);
  }

  function ClearedSmall(v: Small, c: nat): Small
    requires OnCpu(v, c)
  {
    v.(procs := v.procs[v.current[c] := EMPTY], current := v.current[c := NONE], claimed := v.claimed - {v.current[c]})
  }

  predicate AloneSmall(v: Small, k: nat)
    requires k < |v.procs|
  {
    forall i | 0 <= i < |v.procs| && i != k :: !(v.procs[i].used && v.procs[i].owner == v.procs[k].owner)
  }

  lemma ClearedAt(s: State, v: Small, c: nat)
    requires At(s, v) && OnCpu(v, c) && v.procs[v.current[c]].owner != 0 && v.procs[v.current[c]].cr3 != 0
    ensures IsSlot(s.current[c]) && At(Cleared(s, c), ClearedSmall(v, c))
    ensures LastOwner(s, c) == (AloneSmall(v, v.current[c]) && v.procs[v.current[c]].ownsCr3)
  {
    var k := v.current[c];
    assert OtherLive(s.procs, s.procs[k].owner, k) == !AloneSmall(v, k) by {
      if !AloneSmall(v, k) {
        var i :| 0 <= i < |v.procs| && i != k && v.procs[i].used && v.procs[i].owner == v.procs[k].owner;
        assert s.procs[i] == v.procs[i];
      }
    }
  }

  /** The exit of the current slot, with slot `k` next. */
  lemma ExitStep(s: State, v: Small, c: nat, k: nat, gone: Cr3)
    requires At(s, v) && OnCpu(v, c) && v.phase[c] == Ready && v.procs[v.current[c]].exiting
    requires v.procs[v.current[c]].cr3 != 0 && v.procs[v.current[c]].owner != 0
    requires gone == if AloneSmall(v, v.current[c]) && v.procs[v.current[c]].ownsCr3 then v.procs[v.current[c]].cr3 else 0
    requires k < |v.procs| && k != v.current[c] && (gone != 0 ==> v.procs[k].cr3 != gone)
    requires InRange(ClearedSmall(v, c)) && Fits(ClearedSmall(v, c)) && EligibleSmall(ClearedSmall(v, c), k, c)
    requires forall i | 0 <= i < k :: !EligibleSmall(ClearedSmall(v, c), i, c)
    ensures Enabled(s, PostSyscall(c, true, false))
    ensures At(Do(s, PostSyscall(c, true, false)),
               ClearedSmall(v, c).(current := v.current[c := k], phase := v.phase[c := Loading(v.procs[k].cr3, gone)]))
  {
    ClearedAt(s, v, c);
    PickFirst(Cleared(s, c), ClearedSmall(v, c), c, k);
    hide LastOwner, EligibleSmall, PickNext, OtherLive, AloneSmall;
  }

  /** The exit of the last slot of all. */
  lemma ExitLastStep(s: State, v: Small, c: nat)
    requires At(s, v) && InRange(v) && OnCpu(v, c) && v.phase[c] == Ready && v.procs[v.current[c]].exiting
    requires !v.procs[v.current[c]].ownsCr3 && forall i | 0 <= i < |v.procs| && i != v.current[c] :: !v.procs[i].used
    ensures Enabled(s, PostSyscall(c, true, false))
    ensures At(Do(s, PostSyscall(c, true, false)),
               v.(procs := v.procs[v.current[c] := EMPTY], claimed := v.claimed - {v.current[c]}, current := v.current[c := NONE]))
  {
    var t := Cleared(s, c);
    var u := v.(procs := v.procs[v.current[c] := EMPTY], current := v.current[c := NONE], claimed := v.claimed - {v.current[c]});
    assert At(t, u);
    forall i | 0 <= i < MAX_PROCS ensures !Eligible(t, i, c) { EmptyNotEligible(t, u, i, c); }
    ScanNone(t, c, 0);
  }

  lemma ForkBeginStep(s: State, v: Small, c: nat)
    requires At(s, v) && OnCpu(v, c) && v.phase[c] == Ready
    requires forall i | 0 <= i < |v.procs| && i != v.current[c] && v.procs[i].used && !v.procs[i].isThread ::
               v.procs[i].owner != v.procs[v.current[c]].owner
    ensures Enabled(s, ForkBegin(c))
    ensures At(Do(s, ForkBegin(c)), v.(phase := v.phase[c := Forking]))
  {}

  // ---------------------------------------------------------------- longer runs

  lemma Fork(run: seq<State>, steps: seq<Step>, v: Small, c: nat, child: Cr3, v': Small) returns (run': seq<State>, steps': seq<Step>)
    requires Reached(run, steps, v) && OnCpu(v, c) && v.phase[c] == Ready && |v.procs| < 4 && child != 0 && child !in v.live
    requires forall i | 0 <= i < |v.procs| :: v.procs[i].used && (i != v.current[c] ==> v.procs[i].owner != v.procs[v.current[c]].owner)
    requires v' == v.(procs := v.procs + [Proc(true, false, true, false, v.nextPid, v.procs[v.current[c]].owner, v.nextPid, child)],
                      live := v.live + {child}, nextPid := v.nextPid + 1)
    ensures Reached(run', steps', v')
  {
    hide Enabled, Do, At;
    ForkSteps(run[|steps|], v, c, child);
    var v1 := v.(phase := v.phase[c := Forking]);
    run', steps' := Then(run, steps, v, ForkBegin(c), v1);
    var v2 := v.(phase := v.phase[c := ForkReady(child)], live := v.live + {child});
    run', steps' := Then(run', steps', v1, ForkClone(c, child), v2);
    run', steps' := Then(run', steps', v2, ForkCommit(c), v');
  }

  lemma Load(run: seq<State>, steps: seq<Step>, v: Small, c: nat, v': Small) returns (run': seq<State>, steps': seq<Step>)
    requires Reached(run, steps, v) && c < |v.phase| == |v.hw| && v.phase[c].Loading?
    requires v' == v.(hw := v.hw[c := v.phase[c].next],
                      phase := v.phase[c := if v.phase[c].gone != 0 then Freeing(v.phase[c].gone) else Ready])
    ensures Reached(run', steps', v')
  {
    hide Enabled, Do, At;
    LoadStep(run[|steps|], v, c);
    run', steps' := Then(run, steps, v, LoadCr3(c), v');
  }

  lemma Idle(run: seq<State>, steps: seq<Step>, v: Small, c: nat, k: nat, v': Small) returns (run': seq<State>, steps': seq<Step>)
    requires Reached(run, steps, v) && Fits(v) && InRange(v) && c < |v.current| && v.current[c] == NONE && v.phase[c] == Ready
    requires k < |v.procs| && IdleSmall(v, k, c) && forall i | 0 <= i < k :: !IdleSmall(v, i, c)
    requires v' == v.(current := v.current[c := k], phase := v.phase[c := Ready], hw := v.hw[c := v.procs[k].cr3], claimed := v.claimed + {k})
    ensures Reached(run', steps', v')
  {
    hide Enabled, Do, At, IdleSmall;
    IdleStep(run[|steps|], v, c, k);
    var v1 := v.(current := v.current[c := k], phase := v.phase[c := Loading(v.procs[k].cr3, 0)], claimed := v.claimed + {k});
    run', steps' := Then(run, steps, v, IdleDispatch(c), v1);
    assert v'.phase == v1.phase[c := Ready];
    run', steps' := Load(run', steps', v1, c, v');
  }

  lemma Post(run: seq<State>, steps: seq<Step>, v: Small, c: nat, k: nat, v': Small) returns (run': seq<State>, steps': seq<Step>)
    requires Reached(run, steps, v) && Fits(v) && InRange(v) && OnCpu(v, c) && v.phase[c] == Ready && !v.procs[v.current[c]].exiting
    requires v.hw[c] == v.procs[v.current[c]].cr3
    requires v.current[c] < k < |v.procs| && EligibleSmall(v, k, c) && forall i | v.current[c] < i < k :: !EligibleSmall(v, i, c)
    requires v' == v.(current := v.current[c := k], phase := v.phase[c := Loading(v.procs[k].cr3, 0)])
    ensures Reached(run', steps', v')
  {
    hide Enabled, Do, At, EligibleSmall;
    PostStep(run[|steps|], v, c, k);
    run', steps' := Then(run, steps, v, PostSyscall(c, true, false), v');
  }

  lemma Mark(run: seq<State>, steps: seq<Step>, v: Small, k: nat, v': Small) returns (run': seq<State>, steps': seq<Step>)
    requires Reached(run, steps, v) && k < |v.procs| && v.procs[k].used
    requires v' == v.(procs := v.procs[k := v.procs[k].(exiting := true)])
    ensures Reached(run', steps', v')
  {
    hide Enabled, Do, At;
    MarkStep(run[|steps|], v, k);
    run', steps' := Then(run, steps, v, MarkExiting({k}), v');
  }

  lemma Thread(run: seq<State>, steps: seq<Step>, v: Small, c: nat, v': Small) returns (run': seq<State>, steps': seq<Step>)
    requires Reached(run, steps, v) && OnCpu(v, c) && v.phase[c] == Ready && |v.procs| < 4
    requires forall i | 0 <= i < |v.procs| :: v.procs[i].used
    requires var p := v.procs[v.current[c]];
      v' == v.(procs := v.procs + [Proc(true, false, false, true, v.nextPid, p.ppid, p.owner, p.cr3)], nextPid := v.nextPid + 1)
    ensures Reached(run', steps', v')
  {
    hide Enabled, Do, At;
    ThreadStep(run[|steps|], v, c);
    run', steps' := Then(run, steps, v, ThreadCreate(c), v');
  }

  lemma Exit(run: seq<State>, steps: seq<Step>, v: Small, c: nat, k: nat, gone: Cr3, v': Small) returns (run': seq<State>, steps': seq<Step>)
    requires Reached(run, steps, v) && OnCpu(v, c) && v.phase[c] == Ready && v.procs[v.current[c]].exiting
    requires v.procs[v.current[c]].cr3 != 0 && v.procs[v.current[c]].owner != 0
    requires gone == if AloneSmall(v, v.current[c]) && v.procs[v.current[c]].ownsCr3 then v.procs[v.current[c]].cr3 else 0
    requires k < |v.procs| && k != v.current[c] && (gone != 0 ==> v.procs[k].cr3 != gone)
    requires InRange(ClearedSmall(v, c)) && Fits(ClearedSmall(v, c)) && EligibleSmall(ClearedSmall(v, c), k, c)
    requires forall i | 0 <= i < k :: !EligibleSmall(ClearedSmall(v, c), i, c)
    requires v' == ClearedSmall(v, c).(current := v.current[c := k], phase := v.phase[c := Loading(v.procs[k].cr3, gone)])
    ensures Reached(run', steps', v')
  {
    hide Enabled, Do, At, EligibleSmall, AloneSmall;
    ExitStep(run[|steps|], v, c, k, gone);
    run', steps' := Then(run, steps, v, PostSyscall(c, true, false), v');
  }

  const INIT := Proc(true, false, true, false, 1, 0, 1, 1)
  const CHILD := Proc(true, false, true, false, 2, 1, 2, 2)
  const OTHER := Proc(true, false, true, false, 3, 1, 3, 3)
  const DYING_CHILD := CHILD.(exiting := true)
  const THREAD := Proc(true, false, false, true, 3, 1, 2, 2)      // of CHILD
  const INIT_THREAD := Proc(true, false, false, true, 2, 0, 1, 1)

  function OneChildView(): Small {
    Small([INIT, CHILD], [0, NONE, NONE], [Ready, Ready, Ready], [1, 0, 0], {}, {1, 2}, 3)
  }

  function TwoChildrenView(): Small {
    Small([INIT, CHILD, OTHER], [0, NONE, NONE], [Ready, Ready, Ready], [1, 0, 0], {}, {1, 2, 3}, 4)
  }

  /** Init on CPU 0 with one child. */
  lemma OneChild() returns (run: seq<State>, steps: seq<Step>)
    ensures Reached(run, steps, OneChildView())
  {
    var v;
    run, steps, v := Start(3);
    var v1 := Small([INIT], [0, NONE, NONE], [Ready, Ready, Ready], [1, 0, 0], {}, {1}, 2);
    BootStep(run[|steps|], v, 0, 1);
    hide Enabled, Do, At;
    assert v1 == v.(procs := [INIT], current := v.current[0 := 0], hw := v.hw[0 := 1], live := v.live + {1}, nextPid := 2);
    run, steps := Then(run, steps, v, Boot(0, 1), v1);
    run, steps := Fork(run, steps, v1, 0, 2, OneChildView());
  }

  /** Init on CPU 0 with two children. */
  lemma TwoChildren() returns (run: seq<State>, steps: seq<Step>)
    ensures Reached(run, steps, TwoChildrenView())
  {
    hide Reached;
    run, steps := OneChild();
    run, steps := Fork(run, steps, OneChildView(), 0, 3, TwoChildrenView());
  }

  /** CPU 1 has dropped the lock after switching from slot 1 to slot 2 and not yet loaded CR3. */
  lemma SwitchedOut() returns (run: seq<State>, steps: seq<Step>)
    ensures Reached(run, steps, Small([INIT, CHILD, OTHER], [0, 2, NONE], [Ready, Loading(3, 0), Ready], [1, 2, 0], {1}, {1, 2, 3}, 4))
  {
    hide Reached;
    run, steps := TwoChildren();
    var v := Small([INIT, CHILD, OTHER], [0, 1, NONE], [Ready, Ready, Ready], [1, 2, 0], {1}, {1, 2, 3}, 4);
    run, steps := Idle(run, steps, TwoChildrenView(), 1, 1, v);
    run, steps := Post(run, steps, v, 1, 2, Small([INIT, CHILD, OTHER], [0, 2, NONE], [Ready, Loading(3, 0), Ready], [1, 2, 0], {1}, {1, 2, 3}, 4));
  }

  /** CPU 0 runs slot 1, which is then to exit. */
  lemma TakenOver() returns (run: seq<State>, steps: seq<Step>)
    ensures Reached(run, steps, Small([INIT, DYING_CHILD, OTHER], [1, 2, NONE], [Ready, Loading(3, 0), Ready], [2, 2, 0], {1}, {1, 2, 3}, 4))
  {
    hide Reached;
    run, steps := SwitchedOut();
    var v := Small([INIT, CHILD, OTHER], [0, 2, NONE], [Ready, Loading(3, 0), Ready], [1, 2, 0], {1}, {1, 2, 3}, 4);
    var v1 := Small([INIT, CHILD, OTHER], [1, 2, NONE], [Loading(2, 0), Loading(3, 0), Ready], [1, 2, 0], {1}, {1, 2, 3}, 4);
    run, steps := Post(run, steps, v, 0, 1, v1);
    var v2 := Small([INIT, CHILD, OTHER], [1, 2, NONE], [Ready, Loading(3, 0), Ready], [2, 2, 0], {1}, {1, 2, 3}, 4);
    run, steps := Load(run, steps, v1, 0, v2);
    run, steps := Mark(run, steps, v2, 1, Small([INIT, DYING_CHILD, OTHER], [1, 2, NONE], [Ready, Loading(3, 0), Ready], [2, 2, 0], {1}, {1, 2, 3}, 4));
  }

  /** A run in which a CPU that runs a slot has a freed address space in CR3: the slot it switched away
      from was taken over, exited and freed by another CPU before this one loaded CR3. */
  lemma RunsOnFreedSpace() returns (run: seq<State>, steps: seq<Step>)
    ensures IsRun(run, steps)
    ensures var s := run[|steps|]; Shaped(s) && Running(s, 1) && s.phase[1].Loading? && s.hw[1] == 2 && 2 !in s.live
  {
    run, steps := TakenOver();
    var v := Small([INIT, DYING_CHILD, OTHER], [1, 2, NONE], [Ready, Loading(3, 0), Ready], [2, 2, 0], {1}, {1, 2, 3}, 4);
    var v1 := Small([INIT, EMPTY, OTHER], [0, 2, NONE], [Loading(1, 2), Loading(3, 0), Ready], [2, 2, 0], {}, {1, 2, 3}, 4);
    assert v1 == ClearedSmall(v, 0).(current := v.current[0 := 0], phase := v.phase[0 := Loading(1, 2)]) by {
      assert v.claimed - {1} == {};
    }
    run, steps := Exit(run, steps, v, 0, 0, 2, v1);
    var v2 := Small([INIT, EMPTY, OTHER], [0, 2, NONE], [Freeing(2), Loading(3, 0), Ready], [1, 2, 0], {}, {1, 2, 3}, 4);
    run, steps := Load(run, steps, v1, 0, v2);
    FreeStep(run[|steps|], v2, 0);
    hide Enabled, Do;
    run, steps := Then(run, steps, v2, FreeSpace(0), v2.(phase := v2.phase[0 := Ready], live := v2.live - {2}));
  }

  /** Init exits while its thread is alive. */
  lemma OwnerGone() returns (run: seq<State>, steps: seq<Step>)
    ensures Reached(run, steps, Small([EMPTY, INIT_THREAD], [1], [Ready], [1], {}, {1}, 3))
  {
    var v;
    run, steps, v := Start(1);
    BootStep(run[|steps|], v, 0, 1);
    var v1 := Small([INIT], [0], [Ready], [1], {}, {1}, 2);
    hide Enabled, Do, At;
    assert v1 == v.(procs := [INIT], current := v.current[0 := 0], hw := v.hw[0 := 1], live := v.live + {1}, nextPid := 2);
    run, steps := Then(run, steps, v, Boot(0, 1), v1);
    hide Reached;
    var v2 := Small([INIT, INIT_THREAD], [0], [Ready], [1], {}, {1}, 3);
    run, steps := Thread(run, steps, v1, 0, v2);
    var v3 := Small([INIT.(exiting := true), INIT_THREAD], [0], [Ready], [1], {}, {1}, 3);
    run, steps := Mark(run, steps, v2, 0, v3);
    assert !AloneSmall(v3, 0) by { assert v3.procs[1].used && v3.procs[1].owner == v3.procs[0].owner; }
    var v4 := Small([EMPTY, INIT_THREAD], [1], [Loading(1, 0)], [1], {}, {1}, 3);
    assert v4 == ClearedSmall(v3, 0).(current := v3.current[0 := 1], phase := v3.phase[0 := Loading(1, 0)]) by {
      assert v3.claimed - {0} == {};
    }
    run, steps := Exit(run, steps, v3, 0, 1, 0, v4);
    run, steps := Load(run, steps, v4, 0, Small([EMPTY, INIT_THREAD], [1], [Ready], [1], {}, {1}, 3));
  }

  /** A run that ends with no slot in use and an address space allocated: its owner exited before its
      thread did. */
  lemma LeaksSpace() returns (run: seq<State>, steps: seq<Step>)
    ensures IsRun(run, steps)
    ensures var s := run[|steps|]; Shaped(s) && Orphan(s, 1) && forall i | 0 <= i < MAX_PROCS :: !s.procs[i].used
  {
    run, steps := OwnerGone();
    var v := Small([EMPTY, INIT_THREAD], [1], [Ready], [1], {}, {1}, 3);
    var v1 := Small([EMPTY, INIT_THREAD.(exiting := true)], [1], [Ready], [1], {}, {1}, 3);
    run, steps := Mark(run, steps, v, 1, v1);
    ExitLastStep(run[|steps|], v1, 0);
    hide Enabled, Do;
    run, steps := Then(run, steps, v1, PostSyscall(0, true, false),
                       v1.(procs := v1.procs[1 := EMPTY], claimed := v1.claimed - {1}, current := v1.current[0 := NONE]));
  }

  /** A state that a run reaches in which a slot is eligible and, however many ticks come due, the timer
      never makes it current. */
  lemma TimerStarves() returns (run: seq<State>, steps: seq<Step>)
    ensures IsRun(run, steps)
    ensures var s := run[|steps|];
      Ticking(s, 0) && Eligible(s, 2, 0) && !s.procs[2].exiting && forall n: nat :: Ticks(s, 0, n).current[0] != 2
  {
    hide Enabled, Do;
    run, steps := TwoChildren();
    var v1 := Small([INIT, DYING_CHILD, OTHER], [0, NONE, NONE], [Ready, Ready, Ready], [1, 0, 0], {}, {1, 2, 3}, 4);
    run, steps := Mark(run, steps, TwoChildrenView(), 1, v1);
    var s := run[|steps|];
    RunInv(run, steps, |steps|);
    EligibleIs(s, v1, 1, 0);
    EligibleIs(s, v1, 2, 0);
    hide Eligible, Dispatch, Pids, Spaces, Loaded, Callers, Building;
    assert Doomed(s, 0, 1) && 0 < Ahead(s.current[0], 1) <= Ahead(s.current[0], 2);
    TimerReachesIff(s, 0, 2);
  }

  /** Slot 1, marked exiting, on CPU 1, and its thread on CPU 2. */
  lemma MarkedAndThread() returns (run: seq<State>, steps: seq<Step>)
    ensures Reached(run, steps, Small([INIT, DYING_CHILD, THREAD], [0, 1, 2], [Ready, Ready, Ready], [1, 2, 2], {1, 2}, {1, 2}, 4))
  {
    hide Reached;
    run, steps := OneChild();
    var v2 := Small([INIT, CHILD], [0, 1, NONE], [Ready, Ready, Ready], [1, 2, 0], {1}, {1, 2}, 3);
    run, steps := Idle(run, steps, OneChildView(), 1, 1, v2);
    var v3 := Small([INIT, CHILD, THREAD], [0, 1, NONE], [Ready, Ready, Ready], [1, 2, 0], {1}, {1, 2}, 4);
    run, steps := Thread(run, steps, v2, 1, v3);
    var v4 := Small([INIT, DYING_CHILD, THREAD], [0, 1, NONE], [Ready, Ready, Ready], [1, 2, 0], {1}, {1, 2}, 4);
    run, steps := Mark(run, steps, v3, 1, v4);
    run, steps := Idle(run, steps, v4, 2, 2, Small([INIT, DYING_CHILD, THREAD], [0, 1, 2], [Ready, Ready, Ready], [1, 2, 2], {1, 2}, {1, 2}, 4));
  }

  /** A run in which a CPU clones an address space on which another CPU runs a slot that is not exiting:
      the forking slot itself has been marked. */
  lemma ForkNotAlone() returns (run: seq<State>, steps: seq<Step>)
    ensures IsRun(run, steps)
    ensures var s := run[|steps|];
      && Shaped(s) && s.phase[1] == Forking && Running(s, 1) && Running(s, 2) && s.phase[2] == Ready
      && !s.procs[s.current[2]].exiting && s.hw[1] == s.hw[2] == s.procs[s.current[1]].cr3
  {
    run, steps := MarkedAndThread();
    var v := Small([INIT, DYING_CHILD, THREAD], [0, 1, 2], [Ready, Ready, Ready], [1, 2, 2], {1, 2}, {1, 2}, 4);
    ForkBeginStep(run[|steps|], v, 1);
    hide Enabled, Do;
    run, steps := Then(run, steps, v, ForkBegin(1), v.(phase := v.phase[1 := Forking]));
  }
}
