/** The process-lock critical sections as the kernel writes them, with their scan loops, each
    tied to its step of the process-table model. */
module Scheduler {
  import opened ProcTable
  import opened ProcSafety
  import opened ProcPicks

  function SlotsOf(procs: seq<Proc>, owner: nat): set<nat> {
    set i: nat | i < |procs| && procs[i].used && procs[i].owner == owner && owner != 0
  }

  function Terminated(procs: seq<Proc>, owner: nat): seq<Proc> {
    seq(|procs|, i requires 0 <= i < |procs| =>
      if procs[i].used && procs[i].owner == owner && owner != 0 then procs[i].(exiting := true) else procs[i])
  }

  lemma TerminatedIsMarked(s: State, owner: nat)
    requires Shaped(s)
    ensures Marked(s, SlotsOf(s.procs, owner)) == s.(procs := Terminated(s.procs, owner))
  {
    assert Marked(s, SlotsOf(s.procs, owner)).procs == Terminated(s.procs, owner);
  }

  method MarkOwner(procs: seq<Proc>, owner: nat) returns (any: bool, out: seq<Proc>)
    ensures out == Terminated(procs, owner)
    ensures any <==> SlotsOf(procs, owner) != {}
  {
    any, out := false, procs;
    if owner == 0 { return; }
    for i := 0 to |procs|
      invariant |out| == |procs|
      invariant forall j | 0 <= j < i :: out[j] == Terminated(procs, owner)[j]
      invariant forall j | i <= j < |procs| :: out[j] == procs[j]
      invariant any <==> exists j: nat :: j < i && j in SlotsOf(procs, owner)
    {
      if out[i].used && out[i].owner == owner {
        assert i in SlotsOf(procs, owner);
        out, any := out[i := out[i].(exiting := true)], true;
      }
    }
  }

  lemma PicksAreSlots(s: State, cur: nat, c: nat)
    requires Shaped(s) && cur < MAX_PROCS
    ensures PickNext(s, cur, c) == NONE || IsSlot(PickNext(s, cur, c))
    ensures PickNextSameOwner(s, cur, c) == NONE || IsSlot(PickNextSameOwner(s, cur, c))
  {
    PickNextOk(s, cur, c);
    PickNextSameOwnerOk(s, cur, c);
  }

  lemma PeersHaveSpace(s: State)
    requires Inv(s)
    ensures forall i | 0 <= i < MAX_PROCS && s.procs[i].used :: s.procs[i].cr3 != 0
  {}

  class ProcessTable {
    var procs: seq<Proc>
    var current: seq<int>
    var claimed: seq<bool>
    var hw: seq<Cr3>
    var nextPid: nat
    var needResched: seq<bool>
    var yieldSameOwner: seq<bool>
    var needTimerPreempt: seq<bool>
    var phase: seq<Phase>            // the locals a CPU keeps between its critical sections
    ghost var live: set<Cr3>

    ghost function S(): State
      reads this
    {
      State(procs, current, claimed, phase, hw, nextPid, live)
    }

    ghost predicate Valid()
      reads this
    {
      Inv(S()) && |needResched| == MAX_CPUS && |yieldSameOwner| == MAX_CPUS && |needTimerPreempt| == MAX_CPUS
    }

    constructor ()
      ensures Valid() && Initial(S())
    {
      procs, current := seq(MAX_PROCS, i => EMPTY), seq(MAX_CPUS, i => NONE);
      claimed, hw, nextPid := seq(MAX_PROCS, i => false), seq(MAX_CPUS, i => 0), 1;
      needResched, yieldSameOwner := seq(MAX_CPUS, i => false), seq(MAX_CPUS, i => false);
      needTimerPreempt := seq(MAX_CPUS, i => false);
      phase, live := seq(MAX_CPUS, i => Ready), {};
      new;
      InitialInv(S());
    }

    // ------------------------------------------------------------ scans

    method ProcAlloc() returns (slot: int)
      requires Shaped(S())
      ensures slot == FirstUnused(S(), 0)
      ensures if TableFull(procs) then slot == NONE else LowestUnused(procs, slot)
    {
      FirstUnusedIs(S(), 0);
      for i := 0 to MAX_PROCS
        invariant FirstUnused(S(), 0) == FirstUnused(S(), i)
      {
        if !procs[i].used { return i; }
      }
      return NONE;
    }

    method IsOnOtherCpu(slot: nat, c: nat) returns (b: bool)
      requires Shaped(S()) && slot < MAX_PROCS
      ensures b <==> OnOtherCpu(S(), slot, c)
    {
      var owner := if procs[slot].used then procs[slot].owner else 0;
      for d := 0 to MAX_CPUS
        invariant forall e | 0 <= e < d && e != c :: !Blocks(S(), e, slot)
      {
        if d == c { continue; }
        var running := current[d];
        if running < 0 || running >= MAX_PROCS { continue; }
        if running == slot {
          assert Blocks(S(), d, slot);
          return true;
        }
        if owner == 0 { continue; }
        if procs[running].used && !procs[running].exiting && procs[running].owner == owner {
          assert Blocks(S(), d, slot);
          return true;
        }
      }
      return false;
    }

    method OwnerHasOtherLive(owner: nat, slot: int) returns (b: bool)
      ensures b <==> OtherLive(procs, owner, slot)
    {
      if owner == 0 { return false; }
      for i := 0 to |procs|
        invariant forall j | 0 <= j < i && j != slot :: !(procs[j].used && procs[j].owner == owner)
      {
        if i != slot && procs[i].used && procs[i].owner == owner { return true; }
      }
      return false;
    }

    method ScanEligible(from: nat, c: nat, first: nat) returns (slot: int)
      requires Shaped(S()) && first <= MAX_PROCS
      ensures slot == FirstEligible(S(), from, c, first, MAX_PROCS)
    {
      for step := first to MAX_PROCS
        invariant FirstEligible(S(), from, c, first, MAX_PROCS) == FirstEligible(S(), from, c, step, MAX_PROCS)
      {
        var idx := (from + step) % MAX_PROCS;
        var busy := IsOnOtherCpu(idx, c);
        if procs[idx].used && procs[idx].cr3 != 0 && !busy { return idx; }
      }
      return NONE;
    }

    method PickNextSlot(cur: int, c: nat) returns (slot: int)
      requires Shaped(S()) && (cur == NONE || IsSlot(cur))
      ensures slot == PickNext(S(), cur, c)
      ensures if cur == NONE then LowestPick(S(), c, slot) else NextPick(S(), cur, c, slot)
    {
      hide NextPick, LowestPick;
      if cur == NONE { PickFirstIs(S(), c); } else { PickNextIs(S(), cur, c); }
      if cur >= 0 {
        slot := ScanEligible(cur, c, 1);
        if slot >= 0 { return; }
        FirstEligibleOk(S(), cur, c, 1, MAX_PROCS);
        if procs[cur].used && procs[cur].cr3 != 0 { return cur; }
      }
      slot := ScanEligible(0, c, 0);
    }

    method PickPeerSlot(cur: nat, c: nat) returns (slot: int)
      requires Shaped(S()) && cur < MAX_PROCS
      ensures slot == PickNextSameOwner(S(), cur, c)
      ensures procs[cur].used && procs[cur].owner != 0 ==> PeerPick(S(), cur, c, slot)
    {
      hide PeerPick, NextPick;
      if procs[cur].used && procs[cur].owner != 0 { PickPeerIs(S(), cur, c); }
      var p := procs[cur];
      if !p.used || p.owner == 0 {
        slot := PickNextSlot(cur, c);
        return;
      }
      for step := 1 to MAX_PROCS
        invariant FirstPeer(S(), cur, c, p.owner, 1) == FirstPeer(S(), cur, c, p.owner, step)
      {
        var idx := (cur + step) % MAX_PROCS;
        var busy := IsOnOtherCpu(idx, c);
        if procs[idx].used && !procs[idx].exiting && procs[idx].cr3 != 0 && procs[idx].owner == p.owner && !busy {
          return idx;
        }
      }
      if p.cr3 != 0 { return cur; }
      slot := PickNextSlot(cur, c);
    }

    method OwnerHasOtherLiveNonThread(owner: nat, slot: int) returns (b: bool)
      ensures b <==> OtherLiveNonThread(procs, owner, slot)
    {
      if owner == 0 { return false; }
      for i := 0 to |procs|
        invariant forall j | 0 <= j < i && j != slot :: !(procs[j].used && !procs[j].isThread && procs[j].owner == owner)
      {
        if i != slot && procs[i].used && !procs[i].isThread && procs[i].owner == owner { return true; }
      }
      return false;
    }

    /** Syscall_proc_has_other_owner_peer_locked. */
    method HasOtherOwnerPeer(slot: nat) returns (b: bool)
      requires slot < |procs|
      ensures b <==> && procs[slot].used && procs[slot].owner != 0
                     && exists t: nat :: Peer(procs, slot, t) && procs[t].cr3 != 0
    {
      if !procs[slot].used || procs[slot].owner == 0 { return false; }
      for i := 0 to |procs|
        invariant forall t: nat | t < i :: !(Peer(procs, slot, t) && procs[t].cr3 != 0)
      {
        if i == slot { continue; }
        if !procs[i].used || procs[i].exiting || procs[i].cr3 == 0 { continue; }
        if procs[i].owner == procs[slot].owner {
          assert Peer(procs, slot, i);
          return true;
        }
      }
      return false;
    }

    /** SYS_YIELD: asks for a reschedule, among the slots of the process if it has another one. */
    method Yield(c: nat)
      requires Valid() && c < MAX_CPUS && Running(S(), c)
      modifies this`needResched, this`yieldSameOwner
      ensures Valid() && S() == old(S()) && needResched == old(needResched)[c := true]
      ensures yieldSameOwner == old(yieldSameOwner)[c := old(yieldSameOwner)[c] || exists t: nat :: Peer(procs, current[c], t)]
    {
      hide Dispatch, Pids, Loaded, Callers, Building, Spaces;
      ghost var s := S();
      CallerRuns(s, c);
      PeersHaveSpace(s);
      var peer := HasOtherOwnerPeer(current[c]);
      if peer { yieldSameOwner := yieldSameOwner[c := true]; }
      needResched := needResched[c := true];
    }

    // ------------------------------------------------------------ fork, exec, threads

    /** The first critical section of fork: refused while another main thread of the process
        lives. */
    method BeginFork(c: nat) returns (ok: bool)
      requires Valid() && c < MAX_CPUS && Running(S(), c) && phase[c] == Ready
      modifies this`phase
      ensures Valid() && (ok <==> Enabled(old(S()), ForkBegin(c)))
      ensures S() == if ok then Do(old(S()), ForkBegin(c)) else old(S())
    {
      hide Dispatch, Pids, Spaces, Loaded, Callers, Building, OtherLiveNonThread;
      var busy := OwnerHasOtherLiveNonThread(procs[current[c]].owner, current[c]);
      if busy { return false; }
      StepInv(S(), ForkBegin(c));
      phase := phase[c := Forking];
      return true;
    }

    /** The first critical section of exec: refused while the process has another live slot. */
    method BeginExec(c: nat) returns (ok: bool)
      requires Valid() && c < MAX_CPUS && Running(S(), c) && phase[c] == Ready
      modifies this`phase
      ensures Valid() && (ok <==> Enabled(old(S()), ExecBegin(c)))
      ensures S() == if ok then Do(old(S()), ExecBegin(c)) else old(S())
    {
      hide Dispatch, Pids, Spaces, Loaded, Callers, Building, OtherLive;
      var busy := OwnerHasOtherLive(procs[current[c]].owner, current[c]);
      if busy { return false; }
      StepInv(S(), ExecBegin(c));
      phase := phase[c := Execing];
      return true;
    }

    /** Syscall_signal_terminate_owner_locked: mark every slot of a process. */
    method TerminateOwner(owner: nat) returns (any: bool)
      requires Valid()
      modifies this`procs
      ensures Valid() && S() == Do(old(S()), MarkExiting(SlotsOf(old(procs), owner)))
      ensures any <==> SlotsOf(old(procs), owner) != {}
    {
      hide Dispatch, Pids, Spaces, Loaded, Callers, Building;
      ghost var s := S();
      StepInv(s, MarkExiting(SlotsOf(procs, owner)));
      TerminatedIsMarked(s, owner);
      any, procs := MarkOwner(procs, owner);
    }

    /** The second critical section of fork, for a clone that succeeded; a full table gives the
        clone back. */
    method ForkInstall(c: nat, child: Cr3) returns (pid: nat)
      requires Valid() && Enabled(S(), ForkCommit(c)) && phase[c].child == child
      modifies this
      ensures Valid() && S() == Do(old(S()), ForkCommit(c))
      ensures pid == if IsSlot(FirstUnused(old(S()), 0)) then old(nextPid) else 0
    {
      hide Dispatch, Pids, Spaces, Loaded, Callers, Building, FirstUnused;
      ghost var s := S();
      StepInv(s, ForkCommit(c));
      FirstUnusedOk(s, 0);
      CallerRuns(s, c);
      var slot := ProcAlloc();
      phase := phase[c := Ready];
      if slot < 0 {
        live := live - {child};
        return 0;
      }
      pid := nextPid;
      nextPid := nextPid + 1;
      claimed := claimed[slot := false];
      procs := procs[slot := Proc(true, false, true, false, pid, procs[current[c]].owner, pid, child)];
      needResched := needResched[c := true];
    }

    /** The second critical section of exec: the caller becomes a process of its own with the
        new image; its old space is left to be freed if it owned it. */
    method ExecInstall(c: nat, image: Cr3) returns (gone: Cr3)
      requires Valid() && Enabled(S(), ExecCommit(c)) && phase[c].image == image
      modifies this
      ensures Valid() && S() == Do(old(S()), ExecCommit(c)) && phase[c] == Loading(image, gone)
    {
      ghost var s := S();
      StepInv(s, ExecCommit(c));
      CallerRuns(s, c);
      hide Dispatch, Pids, Spaces, Loaded, Callers, Building;
      var slot := current[c];
      var p := procs[slot];
      var freeOld := p.ownsCr3 && p.cr3 != 0 && p.cr3 != image;
      gone := if freeOld then p.cr3 else 0;
      procs := procs[slot := p.(cr3 := image, ownsCr3 := true, isThread := false, owner := p.pid, exiting := false)];
      phase := phase[c := Loading(image, gone)];
    }

    method CreateThread(c: nat) returns (tid: nat)
      requires Valid() && Enabled(S(), ThreadCreate(c))
      modifies this
      ensures Valid() && S() == Do(old(S()), ThreadCreate(c))
      ensures tid == if IsSlot(FirstUnused(old(S()), 0)) then old(nextPid) else 0
    {
      hide Dispatch, Pids, Spaces, Loaded, Callers, Building, FirstUnused;
      ghost var s := S();
      StepInv(s, ThreadCreate(c));
      FirstUnusedOk(s, 0);
      CallerRuns(s, c);
      var slot := ProcAlloc();
      if slot < 0 { return 0; }
      var parent := procs[current[c]];
      tid := nextPid;
      nextPid := nextPid + 1;
      procs := procs[slot := Proc(true, false, false, true, tid, parent.ppid, parent.owner, parent.cr3)];
      needResched := needResched[c := true];
    }

    // ------------------------------------------------------------ switching

    /** Syscall_handle_timer_preempt, for an interrupt from user mode. */
    method HandleTimer(c: nat) returns (switched: bool)
      requires Valid() && Enabled(S(), TimerPreempt(c))
      modifies this
      ensures Valid() && S() == if old(needTimerPreempt)[c] then Do(old(S()), TimerPreempt(c)) else old(S())
      ensures switched <==> current[c] != old(current)[c]
    {
      hide Inv, Preempted;
      StepInv(S(), TimerPreempt(c));
      var flag := needTimerPreempt[c];
      needTimerPreempt := needTimerPreempt[c := false];
      if !flag { return false; }
      switched := PreemptCurrent(c);
    }

    method PreemptCurrent(c: nat) returns (switched: bool)
      requires Inv(S()) && Enabled(S(), TimerPreempt(c))
      modifies this`procs, this`current, this`phase
      ensures S() == Preempted(old(S()), c)
      ensures switched <==> current[c] != old(current)[c]
    {
      ghost var s := S();
      CallerRuns(s, c);
      PicksAreSlots(Saved(s, c), current[c], c);
      hide Inv, PickNext;
      var cur := current[c];
      if procs[cur].exiting { return false; }
      procs := procs[cur := procs[cur].(cr3 := hw[c])];
      var next := PickNextSlot(cur, c);
      if next < 0 || next == cur { return false; }
      if procs[next].exiting { return false; }
      current := current[c := next];
      phase := phase[c := Loading(procs[next].cr3, 0)];
      return true;
    }

    /** Syscall_try_dispatch_user_from_idle. */
    method DispatchFromIdle(c: nat) returns (ok: bool)
      requires Valid() && c < MAX_CPUS && phase[c] == Ready
      modifies this
      ensures Valid()
      ensures S() == if Running(old(S()), c) then old(S()) else Do(old(S()), IdleDispatch(c))
      ensures ok <==> !Running(old(S()), c) && FirstIdle(old(S()), c, 0) != NONE
    {
      hide Dispatch, Pids, Spaces, Loaded, Callers, Building, FirstIdle, IdleCandidate;
      ghost var s := S();
      if IsSlot(current[c]) && procs[current[c]].used { return false; }
      StepInv(s, IdleDispatch(c));
      FirstIdleOk(s, c, 0);
      var next := ScanIdle(c);
      if next < 0 { return false; }
      current := current[c := next];
      claimed := claimed[next := true];
      phase := phase[c := Loading(procs[next].cr3, 0)];
      needResched, needTimerPreempt := needResched[c := false], needTimerPreempt[c := false];
      yieldSameOwner := yieldSameOwner[c := false];
      return true;
    }

    method ScanIdle(c: nat) returns (slot: int)
      requires Shaped(S())
      ensures slot == FirstIdle(S(), c, 0)
    {
      for i := 0 to MAX_PROCS
        invariant FirstIdle(S(), c, 0) == FirstIdle(S(), c, i)
      {
        var p := procs[i];
        if !p.used || p.exiting || p.cr3 == 0 { continue; }
        if p.pid == 1 || p.ppid == 0 { continue; }
        if claimed[i] { continue; }
        var busy := IsOnOtherCpu(i, c);
        if !busy { return i; }
      }
      return NONE;
    }

    /** The critical section of Syscall_post_handler: save or clear the current slot and choose. */
    method PostSection(c: nat)
      requires Valid() && c < MAX_CPUS && Running(S(), c) && phase[c] == Ready
      modifies this
      ensures Valid()
      ensures S() == Do(old(S()), PostSyscall(c, old(needResched)[c], old(yieldSameOwner)[c]))
    {
      hide Dispatch, Pids, Spaces, Loaded, Callers, Building, PickNext, PickNextSameOwner, Exited, Choice;
      ghost var s := S();
      ghost var a := PostSyscall(c, needResched[c], yieldSameOwner[c]);
      StepInv(s, a);
      CallerRuns(s, c);
      StayInv(s, c);
      var cur := current[c];
      var resched, peer := needResched[c], yieldSameOwner[c];
      needResched := needResched[c := false];
      if procs[cur].exiting {
        ExitCurrent(c);
        return;
      }
      if resched { yieldSameOwner := yieldSameOwner[c := false]; }
      procs := procs[cur := procs[cur].(cr3 := hw[c])];
      var next := cur;
      if resched {
        if peer { next := PickPeerSlot(cur, c); } else { next := PickNextSlot(cur, c); }
      }
      PicksAreSlots(s, cur, c);
      if next < 0 || next == cur { return; }
      current := current[c := next];
      phase := phase[c := Loading(procs[next].cr3, 0)];
    }

    method ExitCurrent(c: nat)
      requires Inv(S()) && c < MAX_CPUS && Running(S(), c)
      modifies this`procs, this`claimed, this`current, this`phase
      ensures S() == Exited(old(S()), c)
    {
      hide Dispatch, Pids, Spaces, Loaded, Callers, Building, PickNext;
      var cur := current[c];
      var p := procs[cur];
      var others := OwnerHasOtherLive(p.owner, cur);
      var freeOld := !others && p.ownsCr3 && p.cr3 != 0;
      claimed := claimed[cur := false];
      procs := procs[cur := EMPTY];
      current := current[c := NONE];
      var next := PickNextSlot(NONE, c);
      PickNextOk(S(), NONE, c);
      if next < 0 {
        phase := phase[c := if freeOld then Freeing(p.cr3) else Ready];
        return;
      }
      current := current[c := next];
      phase := phase[c := Loading(procs[next].cr3, if freeOld && procs[next].cr3 != p.cr3 then p.cr3 else 0)];
    }

    /** After the lock is dropped: CR3 is written if it differs. */
    method LoadNext(c: nat)
      requires Valid() && c < MAX_CPUS && phase[c].Loading?
      modifies this`hw, this`phase
      ensures Valid() && S() == Do(old(S()), LoadCr3(c))
    {
      StepInv(S(), LoadCr3(c));
      hide Inv;
      var next, gone := phase[c].next, phase[c].gone;
      if next != hw[c] { hw := hw[c := next]; } else { assert hw[c := next] == hw; }
      phase := phase[c := if gone != 0 then Freeing(gone) else Ready];
    }

    /** Last of all the space that was left is freed. */
    method FreeOld(c: nat)
      requires Valid() && c < MAX_CPUS && phase[c].Freeing?
      modifies this`phase, this`live
      ensures Valid() && S() == Do(old(S()), FreeSpace(c))
    {
      StepInv(S(), FreeSpace(c));
      hide Inv;
      live := live - {phase[c].gone};
      phase := phase[c := Ready];
    }
  }
}
