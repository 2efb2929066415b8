/** What the scans of the process table choose, said without the scans: the nearest slot in slot
    order, the lowest slot, or none because there is none; and what the steps that choose make of it. */
module ProcPicks {
  import opened ProcTable
  import opened ProcSafety

  // ---------------------------------------------------------------- slot order

  /** How far `target` lies ahead of `from` in slot order. */
  function Ahead(from: nat, target: nat): (k: nat)
    requires from < MAX_PROCS && target < MAX_PROCS
    ensures k < MAX_PROCS && (from + k) % MAX_PROCS == target
  {
    if target >= from then target - from else target + MAX_PROCS - from
  }

  lemma StepAhead(from: nat, step: nat, target: nat)
    requires from < MAX_PROCS && target < MAX_PROCS && step <= Ahead(from, target)
    ensures var at := (from + step) % MAX_PROCS;
      at < MAX_PROCS && Ahead(from, at) == step && step + Ahead(at, target) == Ahead(from, target)
  {
    assert (from + step) % MAX_PROCS == if from + step < MAX_PROCS then from + step else from + step - MAX_PROCS;
  }

  /** The scan passes over slots that are not eligible and stops at the first that is. */
  lemma {:induction false} FirstEligibleReaches(s: State, from: nat, c: nat, step: nat, target: nat)
    requires Shaped(s) && from < MAX_PROCS && target < MAX_PROCS && Eligible(s, target, c)
    requires 1 <= step <= Ahead(from, target)
    ensures var r := FirstEligible(s, from, c, step, MAX_PROCS);
      IsSlot(r) && Eligible(s, r, c) && step <= Ahead(from, r) && Ahead(from, r) + Ahead(r, target) == Ahead(from, target)
    decreases MAX_PROCS - step
  {
    hide Eligible;
    var at := (from + step) % MAX_PROCS;
    StepAhead(from, step, target);
    if !Eligible(s, at, c) {
      assert at != target;
      FirstEligibleReaches(s, from, c, step + 1, target);
    }
  }

  lemma {:induction false} FirstPeerReaches(s: State, from: nat, c: nat, owner: nat, step: nat, target: nat)
    requires Shaped(s) && from < MAX_PROCS && target < MAX_PROCS && SameOwnerPeer(s, target, c, owner)
    requires 1 <= step <= Ahead(from, target)
    ensures var r := FirstPeer(s, from, c, owner, step);
      IsSlot(r) && SameOwnerPeer(s, r, c, owner) && step <= Ahead(from, r) <= Ahead(from, target)
    decreases MAX_PROCS - step
  {
    hide SameOwnerPeer;
    var at := (from + step) % MAX_PROCS;
    StepAhead(from, step, target);
    if !SameOwnerPeer(s, at, c, owner) {
      assert at != target;
      FirstPeerReaches(s, from, c, owner, step + 1, target);
    }
  }

  /** A pick lies on the way from the current slot to any eligible one. */
  lemma PickProgress(s: State, cur: nat, c: nat, target: nat)
    requires Shaped(s) && cur < MAX_PROCS && target < MAX_PROCS && target != cur && Eligible(s, target, c)
    ensures var r := PickNext(s, cur, c);
      IsSlot(r) && Eligible(s, r, c) && r != cur && Ahead(cur, r) + Ahead(r, target) == Ahead(cur, target)
  {
    FirstEligibleReaches(s, cur, c, 1, target);
  }

  // ---------------------------------------------------------------- what a pick is

  /** CPU `c` may run the slot: it is in use with a space, and no other CPU keeps it. */
  predicate CanRun(s: State, c: nat, t: nat)
    requires Shaped(s)
  {
    && t < MAX_PROCS && s.procs[t].used && s.procs[t].cr3 != 0
    && forall d | 0 <= d < MAX_CPUS && d != c :: !Blocks(s, d, t)
  }

  /** Another slot of the process of `cur` that CPU `c` may run and that is not on its way out. */
  predicate CanRunPeer(s: State, c: nat, cur: nat, t: nat)
    requires Shaped(s) && cur < MAX_PROCS
  {
    t != cur && CanRun(s, c, t) && !s.procs[t].exiting && s.procs[t].owner == s.procs[cur].owner
  }

  /** The nearest other slot that can run; without one the current slot, if it still has a space. */
  ghost predicate NextPick(s: State, cur: nat, c: nat, r: int)
    requires Shaped(s) && cur < MAX_PROCS
  {
    && (forall t: nat | t != cur && CanRun(s, c, t) :: r >= 0 && r != cur && CanRun(s, c, r) && Ahead(cur, r) <= Ahead(cur, t))
    && ((forall t: nat | t != cur :: !CanRun(s, c, t)) ==>
          r == if s.procs[cur].used && s.procs[cur].cr3 != 0 then cur else NONE)
  }

  /** The nearest other slot of the same process that can run; without one the current slot. */
  ghost predicate PeerPick(s: State, cur: nat, c: nat, r: int)
    requires Shaped(s) && cur < MAX_PROCS
  {
    && (forall t: nat | CanRunPeer(s, c, cur, t) :: r >= 0 && CanRunPeer(s, c, cur, r) && Ahead(cur, r) <= Ahead(cur, t))
    && ((forall t: nat :: !CanRunPeer(s, c, cur, t)) && s.procs[cur].cr3 != 0 ==> r == cur)
  }

  /** The lowest slot that can run, or none because there is none. */
  ghost predicate LowestPick(s: State, c: nat, r: int)
    requires Shaped(s)
  {
    && (r == NONE || (r >= 0 && CanRun(s, c, r)))
    && (forall t: nat | CanRun(s, c, t) :: 0 <= r <= t)
  }

  lemma EligibleIs(s: State, c: nat, t: nat)
    requires Shaped(s) && t < MAX_PROCS
    ensures Eligible(s, t, c) <==> CanRun(s, c, t)
  {}

  lemma {:induction false} FirstEligibleLowest(s: State, c: nat, step: nat)
    requires Shaped(s) && step <= MAX_PROCS && forall t: nat | t < step :: !CanRun(s, c, t)
    ensures LowestPick(s, c, FirstEligible(s, 0, c, step, MAX_PROCS))
    decreases MAX_PROCS - step
  {
    hide Blocks;
    if step < MAX_PROCS {
      EligibleIs(s, c, step);
      hide Eligible;
      if !Eligible(s, step, c) { FirstEligibleLowest(s, c, step + 1); }
    }
  }

  lemma PickNextIs(s: State, cur: nat, c: nat)
    requires Shaped(s) && cur < MAX_PROCS
    ensures NextPick(s, cur, c, PickNext(s, cur, c))
  {
    hide Blocks, Eligible, PickNext;
    forall t: nat | t != cur && CanRun(s, c, t)
      ensures var r := PickNext(s, cur, c); r >= 0 && r != cur && CanRun(s, c, r) && Ahead(cur, r) <= Ahead(cur, t)
    {
      EligibleIs(s, c, t);
      PickProgress(s, cur, c, t);
      EligibleIs(s, c, PickNext(s, cur, c));
    }
    if forall t: nat | t != cur :: !CanRun(s, c, t) { PickNextAlone(s, cur, c); }
  }

  lemma InTable(s: State, c: nat, t: nat)
    requires Shaped(s) && CanRun(s, c, t)
    ensures t < MAX_PROCS && s.procs[t].used && s.procs[t].cr3 != 0
  {}

  lemma PickNextAlone(s: State, cur: nat, c: nat)
    requires Shaped(s) && cur < MAX_PROCS && forall t: nat | t != cur :: !CanRun(s, c, t)
    ensures PickNext(s, cur, c) == if s.procs[cur].used && s.procs[cur].cr3 != 0 then cur else NONE
  {
    hide Blocks, CanRun, Eligible;
    FirstEligibleOther(s, cur, c, 1);
    FirstEligibleLowest(s, c, 0);
    var r := FirstEligible(s, 0, c, 0, MAX_PROCS);
    if r != NONE { InTable(s, c, r); }
  }

  lemma {:induction false} FirstEligibleOther(s: State, cur: nat, c: nat, step: nat)
    requires Shaped(s) && cur < MAX_PROCS && 1 <= step <= MAX_PROCS && forall t: nat | t != cur :: !CanRun(s, c, t)
    ensures FirstEligible(s, cur, c, step, MAX_PROCS) == NONE
    decreases MAX_PROCS - step
  {
    hide Blocks, CanRun, Eligible;
    if step < MAX_PROCS {
      var at := (cur + step) % MAX_PROCS;
      assert at == if cur + step < MAX_PROCS then cur + step else cur + step - MAX_PROCS;
      EligibleIs(s, c, at);
      FirstEligibleOther(s, cur, c, step + 1);
    }
  }

  lemma PickFirstIs(s: State, c: nat)
    requires Shaped(s)
    ensures LowestPick(s, c, PickNext(s, NONE, c))
  {
    FirstEligibleLowest(s, c, 0);
  }

  lemma PickPeerIs(s: State, cur: nat, c: nat)
    requires Shaped(s) && cur < MAX_PROCS && s.procs[cur].used && s.procs[cur].owner != 0
    ensures PeerPick(s, cur, c, PickNextSameOwner(s, cur, c))
  {
    hide Blocks, PickNext, FirstPeer;
    var owner := s.procs[cur].owner;
    FirstPeerOk(s, cur, c, owner, 1);
    var r := FirstPeer(s, cur, c, owner, 1);
    forall t: nat | CanRunPeer(s, c, cur, t)
      ensures r >= 0 && CanRunPeer(s, c, cur, r) && Ahead(cur, r) <= Ahead(cur, t)
    {
      EligibleIs(s, c, t);
      FirstPeerReaches(s, cur, c, owner, 1, t);
      EligibleIs(s, c, r);
    }
    if (forall t: nat :: !CanRunPeer(s, c, cur, t)) && r != NONE {
      EligibleIs(s, c, r);
      FirstPeerOther(s, cur, c, owner, 1);
    }
  }

  lemma {:induction false} FirstPeerOther(s: State, cur: nat, c: nat, owner: nat, step: nat)
    requires Shaped(s) && cur < MAX_PROCS && 1 <= step
    ensures FirstPeer(s, cur, c, owner, step) != cur
    decreases MAX_PROCS - step
  {
    hide SameOwnerPeer;
    if step < MAX_PROCS {
      assert (cur + step) % MAX_PROCS == if cur + step < MAX_PROCS then cur + step else cur + step - MAX_PROCS;
      FirstPeerOther(s, cur, c, owner, step + 1);
    }
  }

  /** The lowest slot the idle loop may take: not init or its like, not on its way out, not claimed. */
  lemma {:induction false} FirstIdleIs(s: State, c: nat, from: nat)
    requires Shaped(s)
    ensures var r := FirstIdle(s, c, from);
      && (r == NONE || (r >= from && Idle(s, c, r)))
      && (forall t: nat | from <= t && Idle(s, c, t) :: 0 <= r <= t)
    decreases MAX_PROCS - from
  {
    hide Blocks;
    if from < MAX_PROCS && !IdleCandidate(s, from, c) { FirstIdleIs(s, c, from + 1); }
  }

  predicate Idle(s: State, c: nat, t: nat)
    requires Shaped(s)
  {
    CanRun(s, c, t) && !s.procs[t].exiting && s.procs[t].pid != 1 && s.procs[t].ppid != 0 && !s.claimed[t]
  }

  lemma {:induction false} FirstUnusedIs(s: State, from: nat)
    requires Shaped(s)
    ensures var r := FirstUnused(s, from);
      && (r == NONE || (from <= r < MAX_PROCS && !s.procs[r].used))
      && (forall t: nat | from <= t < MAX_PROCS && !s.procs[t].used :: 0 <= r <= t)
    decreases MAX_PROCS - from
  {
    if from < MAX_PROCS && s.procs[from].used { FirstUnusedIs(s, from + 1); }
  }

  // ---------------------------------------------------------------- yielding

  /** Another live slot of the process of `cur`. */
  predicate Peer(procs: seq<Proc>, cur: nat, t: nat)
    requires cur < |procs|
  {
    t < |procs| && t != cur && procs[t].used && !procs[t].exiting && procs[t].owner == procs[cur].owner
  }

  /** While a process runs on a CPU, no other CPU keeps any of its live slots from it. */
  lemma PeersCanRun(s: State, c: nat, t: nat)
    requires Inv(s) && c < MAX_CPUS && Running(s, c) && !s.procs[s.current[c]].exiting && Peer(s.procs, s.current[c], t)
    ensures CanRunPeer(s, c, s.current[c], t)
  {
    hide Pids, Loaded, Callers, Building;
    var cur := s.current[c];
    forall d | 0 <= d < MAX_CPUS && d != c ensures !Blocks(s, d, t) {
      if IsSlot(s.current[d]) { assert Apart(s.procs, cur, s.current[d]); }
    }
  }

  /** A yield that takes the same-owner route goes to the nearest other live slot of the process, stays
      where it is exactly when there is none, and changes nothing else. */
  lemma YieldIs(s: State, c: nat)
    requires Inv(s) && Enabled(s, PostSyscall(c, true, true)) && !s.procs[s.current[c]].exiting
    ensures var cur, s' := s.current[c], Do(s, PostSyscall(c, true, true));
      && Shaped(s') && IsSlot(s'.current[c]) && (s'.current[c] == cur || Peer(s.procs, cur, s'.current[c]))
      && (forall t: nat | Peer(s.procs, cur, t) :: s'.current[c] != cur && Ahead(cur, s'.current[c]) <= Ahead(cur, t))
      && s'.procs == s.procs && s'.live == s.live && s'.hw == s.hw && s'.claimed == s.claimed && s'.nextPid == s.nextPid
      && (forall d | 0 <= d < MAX_CPUS && d != c :: s'.current[d] == s.current[d] && s'.phase[d] == s.phase[d])
      && (s'.current[c] != cur ==> s'.phase[c] == Loading(s.procs[s'.current[c]].cr3, 0))
  {
    var cur := s.current[c];
    CallerRuns(s, c);
    StayInv(s, c);
    PickPeerIs(s, cur, c);
    var r := PickNextSameOwner(s, cur, c);
    hide Inv, PickNextSameOwner, CanRun, PickNext, Exited;
    forall t: nat | Peer(s.procs, cur, t) ensures CanRunPeer(s, c, cur, t) { PeersCanRun(s, c, t); }
    if t: nat :| CanRunPeer(s, c, cur, t) {
      InTable(s, c, r);
    }
  }

  // ---------------------------------------------------------------- the other switches

  lemma NextPickUnique(s: State, cur: nat, c: nat, r: int, q: int)
    requires Shaped(s) && cur < MAX_PROCS && NextPick(s, cur, c, r) && NextPick(s, cur, c, q)
    ensures r == q
  {
    hide Blocks;
    if t: nat :| t != cur && CanRun(s, c, t) {
      assert r >= 0 && CanRun(s, c, r) && q >= 0 && CanRun(s, c, q);
    }
  }

  /** With a reschedule due the call returns to the nearest slot that can run; without one, to its caller. */
  lemma ReschedIs(s: State, c: nat, resched: bool)
    requires Inv(s) && Enabled(s, PostSyscall(c, resched, false)) && !s.procs[s.current[c]].exiting
    ensures var cur, s' := s.current[c], Do(s, PostSyscall(c, resched, false));
      && s'.procs == s.procs && |s'.current| == MAX_CPUS
      && (if resched then NextPick(s, cur, c, s'.current[c]) else s' == s)
  {
    var cur := s.current[c];
    CallerRuns(s, c);
    StayInv(s, c);
    PickNextOk(s, cur, c);
    PickNextIs(s, cur, c);
    hide Inv, PickNext, NextPick, Exited, Choice;
    assert s.procs[cur].used && s.procs[cur].cr3 != 0;
    NextPickIsSlot(s, cur, c, PickNext(s, cur, c));
  }

  lemma NextPickIsSlot(s: State, cur: nat, c: nat, r: int)
    requires Shaped(s) && cur < MAX_PROCS && s.procs[cur].used && s.procs[cur].cr3 != 0 && NextPick(s, cur, c, r)
    ensures IsSlot(r)
  {
    hide Blocks;
    if t: nat :| t != cur && CanRun(s, c, t) { assert CanRun(s, c, r); }
  }

  /** The timer switches to the nearest slot that can run, but not away from a slot that is on its way
      out and not to one that is. */
  lemma TimerIs(s: State, c: nat, r: int)
    requires Inv(s) && Enabled(s, TimerPreempt(c)) && NextPick(s, s.current[c], c, r)
    ensures var cur, s' := s.current[c], Do(s, TimerPreempt(c));
      && IsSlot(r) && |s'.current| == MAX_CPUS && s'.procs == s.procs
      && s'.current[c] == if s.procs[cur].exiting || s.procs[r].exiting then cur else r
  {
    var cur := s.current[c];
    CallerRuns(s, c);
    StayInv(s, c);
    PickNextIs(s, cur, c);
    NextPickUnique(s, cur, c, r, PickNext(s, cur, c));
    hide Inv, PickNext;
    assert s.procs[cur].used && s.procs[cur].cr3 != 0;
    NextPickIsSlot(s, cur, c, r);
    hide NextPick;
  }

  /** The idle loop takes the lowest slot it may take and marks it, so that it is taken once. */
  lemma IdleIs(s: State, c: nat)
    requires Inv(s) && Enabled(s, IdleDispatch(c))
    ensures var s' := Do(s, IdleDispatch(c));
      && Shaped(s') && s'.procs == s.procs
      && ((forall t: nat :: !Idle(s, c, t)) ==> s' == s)
      && (forall t: nat | Idle(s, c, t) ::
            var r := s'.current[c];
            0 <= r <= t && Idle(s, c, r) && s'.claimed == s.claimed[r := true] && !Idle(s', c, r))
  {
    FirstIdleIs(s, c, 0);
    var r := FirstIdle(s, c, 0);
    if r != NONE { IdleClaims(s, c, r); }
    hide Inv, FirstIdle, Idle;
  }

  lemma IdleClaims(s: State, c: nat, r: nat)
    requires Shaped(s) && c < MAX_CPUS && Idle(s, c, r) && FirstIdle(s, c, 0) == r
    ensures var s' := Dispatched(s, c);
      && IsSlot(r) && s'.procs == s.procs && s'.current == s.current[c := r]
      && s'.claimed == s.claimed[r := true] && !Idle(s', c, r)
  {
    hide CanRun, FirstIdle;
    InTable(s, c, r);
  }

  /** The slot owns its space and no other slot of its process is in use. */
  predicate LastOfProcess(procs: seq<Proc>, cur: nat)
    requires cur < |procs|
  {
    procs[cur].ownsCr3 && forall i | 0 <= i < |procs| && i != cur :: !(procs[i].used && procs[i].owner == procs[cur].owner)
  }

  /** The slot of an exiting current process is wiped; its CPU goes to the lowest slot that can run, or
      runs nothing because there is none. The space is left to be freed exactly when the slot owned it
      and no slot of the process is left. */
  lemma ExitIs(s: State, c: nat, resched: bool, sameOwner: bool)
    requires Inv(s) && Enabled(s, PostSyscall(c, resched, sameOwner)) && s.procs[s.current[c]].exiting
    ensures var cur, s' := s.current[c], Do(s, PostSyscall(c, resched, sameOwner));
      && Shaped(s') && s'.procs == s.procs[cur := EMPTY] && s'.claimed == s.claimed[cur := false] && s'.live == s.live
      && LowestPick(Cleared(s, c), c, s'.current[c])
      && Pending(s'.phase[c]) == if LastOfProcess(s.procs, cur) then s.procs[cur].cr3 else 0
  {
    CallerRuns(s, c);
    LastOwnerIs(s, c);
    PickFirstIs(Cleared(s, c), c);
    PickNextOk(Cleared(s, c), NONE, c);
    if LastOwner(s, c) { ExitNext(s, c); }
    hide Inv, PickNext, LowestPick, LastOwner, Choice, LastOfProcess;
    ExitedIs(s, c);
  }

  lemma LastOwnerIs(s: State, c: nat)
    requires Shaped(s) && c < MAX_CPUS && IsSlot(s.current[c])
    requires s.procs[s.current[c]].owner != 0 && s.procs[s.current[c]].cr3 != 0
    ensures LastOwner(s, c) <==> LastOfProcess(s.procs, s.current[c])
  {}

  lemma ExitedIs(s: State, c: nat)
    requires Shaped(s) && c < MAX_CPUS && IsSlot(s.current[c]) && s.phase[c] == Ready
    requires var next := PickNext(Cleared(s, c), NONE, c);
      && (next == NONE || IsSlot(next))
      && (IsSlot(next) && LastOwner(s, c) ==> Cleared(s, c).procs[next].cr3 != s.procs[s.current[c]].cr3)
    ensures var cur, s' := s.current[c], Exited(s, c);
      && Shaped(s') && s'.procs == s.procs[cur := EMPTY] && s'.claimed == s.claimed[cur := false] && s'.live == s.live
      && s'.current[c] == PickNext(Cleared(s, c), NONE, c)
      && Pending(s'.phase[c]) == if LastOwner(s, c) then s.procs[cur].cr3 else 0
  {
    hide PickNext, LastOwner;
  }

  // ---------------------------------------------------------------- new processes and threads

  predicate LowestUnused(procs: seq<Proc>, k: int) {
    0 <= k < |procs| && !procs[k].used && forall i | 0 <= i < k :: procs[i].used
  }

  predicate OnlySlot(procs: seq<Proc>, procs': seq<Proc>, k: int) {
    |procs'| == |procs| && forall i | 0 <= i < |procs| && i != k :: procs'[i] == procs[i]
  }

  /** No slot has the pid or is owned by it, and none ever had a pid this high. */
  predicate NewPid(procs: seq<Proc>, pid: nat) {
    forall i | 0 <= i < |procs| && procs[i].used :: procs[i].pid < pid && procs[i].owner < pid
  }

  predicate TableFull(procs: seq<Proc>) { forall i | 0 <= i < |procs| :: procs[i].used }

  lemma UnusedSlot(s: State) returns (k: int)
    requires Inv(s)
    ensures k == FirstUnused(s, 0) && NewPid(s.procs, s.nextPid)
    ensures if TableFull(s.procs) then k == NONE else LowestUnused(s.procs, k)
  {
    hide Dispatch, Spaces, Loaded, Callers, Building;
    FirstUnusedIs(s, 0);
    k := FirstUnused(s, 0);
    if k != NONE { assert !s.procs[k].used; }
  }

  /** fork adds one process in the lowest unused slot: a new pid, the caller's process as parent, and the
      clone as a space of its own. A full table gives the clone back. */
  lemma ForkCreates(s: State, c: nat) returns (k: int)
    requires Inv(s) && Enabled(s, ForkCommit(c))
    ensures var s', child := Do(s, ForkCommit(c)), s.phase[c].child;
      && Shaped(s') && s'.current == s.current && s'.hw == s.hw
      && (TableFull(s.procs) ==> s'.procs == s.procs && s'.live == s.live - {child} && s'.nextPid == s.nextPid)
      && (!TableFull(s.procs) ==>
            && LowestUnused(s.procs, k) && OnlySlot(s.procs, s'.procs, k)
            && s'.nextPid == s.nextPid + 1 && s'.live == s.live && !s'.claimed[k]
            && var p, caller := s'.procs[k], s.procs[s.current[c]];
               && p.used && !p.exiting && !p.isThread && p.ownsCr3
               && NewPid(s.procs, p.pid) && p.owner == p.pid && p.ppid == caller.owner
               && p.cr3 == child && !Named(s.procs, child))
  {
    CallerRuns(s, c);
    k := UnusedSlot(s);
    ChildFresh(s, c);
    hide Inv, FirstUnused, Named, NewPid, TableFull;
  }

  lemma ChildFresh(s: State, c: nat)
    requires Inv(s) && c < MAX_CPUS && s.phase[c].ForkReady?
    ensures !Named(s.procs, s.phase[c].child)
  {
    assert HasPending(s.phase[c]) && Pending(s.phase[c]) == s.phase[c].child;
  }

  /** thread_create adds one thread of the caller's process in its space, which the thread does not own. */
  lemma ThreadCreates(s: State, c: nat) returns (k: int)
    requires Inv(s) && Enabled(s, ThreadCreate(c))
    ensures var s' := Do(s, ThreadCreate(c));
      && Shaped(s') && s'.current == s.current && s'.hw == s.hw && s'.live == s.live && s'.phase == s.phase
      && (TableFull(s.procs) ==> s' == s)
      && (!TableFull(s.procs) ==>
            && LowestUnused(s.procs, k) && OnlySlot(s.procs, s'.procs, k) && s'.nextPid == s.nextPid + 1
            && var p, caller := s'.procs[k], s.procs[s.current[c]];
               && p.used && !p.exiting && p.isThread && !p.ownsCr3
               && NewPid(s.procs, p.pid) && p.ppid == caller.ppid && p.owner == caller.owner && p.cr3 == caller.cr3)
  {
    CallerRuns(s, c);
    k := UnusedSlot(s);
    hide Inv, FirstUnused, NewPid, TableFull;
  }

  /** exec keeps the caller's pid and parent and makes it a process by itself, alone in the new space;
      the old space is left to be freed exactly when the caller owned it. */
  lemma ExecReplaces(s: State, c: nat)
    requires Inv(s) && Enabled(s, ExecCommit(c))
    ensures var cur, s', image := s.current[c], Do(s, ExecCommit(c)), s.phase[c].image;
      && Shaped(s') && s'.current == s.current && s'.hw == s.hw && s'.live == s.live && s'.nextPid == s.nextPid
      && (forall i | 0 <= i < MAX_PROCS && i != cur :: s'.procs[i] == s.procs[i])
      && var p, was := s'.procs[cur], s.procs[cur];
         && p.used && !p.exiting && !p.isThread && p.ownsCr3
         && p.pid == was.pid == p.owner && p.ppid == was.ppid && p.cr3 == image
         && s'.phase[c] == Loading(image, if was.ownsCr3 then was.cr3 else 0)
         && forall i | 0 <= i < MAX_PROCS && i != cur && s'.procs[i].used ::
              s'.procs[i].owner != p.owner && s'.procs[i].pid != p.pid && s'.procs[i].cr3 != p.cr3
  {
    CallerRuns(s, c);
    StepInv(s, ExecCommit(c));
    var cur := s.current[c];
    assert Pending(s.phase[c]) == s.phase[c].image && HasPending(s.phase[c]);
    assert !Named(s.procs, s.phase[c].image);
    ExecApart(s, c);
    hide Dispatch, Loaded, Callers, Building;
  }

  lemma ExecApart(s: State, c: nat)
    requires Inv(s) && Enabled(s, ExecCommit(c)) && s.procs[s.current[c]].used
    ensures forall i | 0 <= i < MAX_PROCS && i != s.current[c] && s.procs[i].used ::
      s.procs[i].owner != s.procs[s.current[c]].pid && s.procs[i].pid != s.procs[s.current[c]].pid
  {
    CallerRuns(s, c);
    hide Dispatch, Spaces, Loaded, Callers, Building;
    var cur := s.current[c];
    forall i | 0 <= i < MAX_PROCS && i != cur && s.procs[i].used
      ensures s.procs[i].owner != s.procs[cur].pid && s.procs[i].pid != s.procs[cur].pid
    {
      assert s.procs[i].owner != s.procs[cur].owner;
    }
  }
}
