/** Every step of every CPU keeps the dispatch and address-space invariants. */
module ProcSafety {
  import opened ProcTable

  // ---------------------------------------------------------------- what the choices promise

  lemma {:induction false} FirstEligibleOk(s: State, from: nat, c: nat, step: nat, last: nat)
    requires Shaped(s)
    ensures var r := FirstEligible(s, from, c, step, last);
            r == NONE || (IsSlot(r) && Eligible(s, r, c))
    decreases last - step
  {
    if step < last && !Eligible(s, (from + step) % MAX_PROCS, c) { FirstEligibleOk(s, from, c, step + 1, last); }
  }

  /** A slot the scheduler may switch CPU `c` to: live, and blocked by no other CPU. */
  predicate Choice(s: State, c: nat, r: int)
    requires Shaped(s)
  {
    IsSlot(r) && Eligible(s, r, c)
  }

  lemma PickNextOk(s: State, cur: int, c: nat)
    requires Shaped(s) && (cur == NONE || IsSlot(cur))
    ensures var r := PickNext(s, cur, c); r == NONE || r == cur || Choice(s, c, r)
  {
    if cur == NONE { FirstEligibleOk(s, 0, c, 0, MAX_PROCS); }
    else {
      FirstEligibleOk(s, cur, c, 1, MAX_PROCS);
      FirstEligibleOk(s, 0, c, 0, MAX_PROCS);
    }
  }

  lemma {:induction false} FirstPeerOk(s: State, from: nat, c: nat, owner: nat, step: nat)
    requires Shaped(s)
    ensures var r := FirstPeer(s, from, c, owner, step);
            r == NONE || (Choice(s, c, r) && !s.procs[r].exiting && s.procs[r].owner == owner)
    decreases MAX_PROCS - step
  {
    if step < MAX_PROCS && !SameOwnerPeer(s, (from + step) % MAX_PROCS, c, owner) {
      FirstPeerOk(s, from, c, owner, step + 1);
    }
  }

  lemma PickNextSameOwnerOk(s: State, cur: nat, c: nat)
    requires Shaped(s) && cur < MAX_PROCS
    ensures var r := PickNextSameOwner(s, cur, c); r == NONE || r == cur || Choice(s, c, r)
    ensures var p, r := s.procs[cur], PickNextSameOwner(s, cur, c);
      p.used && p.owner != 0 && p.cr3 != 0 ==>
        IsSlot(r) && s.procs[r].owner == p.owner && (r == cur || !s.procs[r].exiting)
  {
    FirstPeerOk(s, cur, c, s.procs[cur].owner, 1);
    PickNextOk(s, cur, c);
  }

  lemma {:induction false} FirstIdleOk(s: State, c: nat, from: nat)
    requires Shaped(s)
    ensures var r := FirstIdle(s, c, from); r == NONE || (IsSlot(r) && IdleCandidate(s, r, c))
    decreases MAX_PROCS - from
  {
    if from < MAX_PROCS && !IdleCandidate(s, from, c) { FirstIdleOk(s, c, from + 1); }
  }

  lemma {:induction false} FirstUnusedOk(s: State, from: nat)
    requires Shaped(s)
    ensures var r := FirstUnused(s, from); r == NONE || (IsSlot(r) && !s.procs[r].used)
    decreases MAX_PROCS - from
  {
    if from < MAX_PROCS && s.procs[from].used { FirstUnusedOk(s, from + 1); }
  }

  // ---------------------------------------------------------------- one clause, one edit

  lemma DispatchSwitch(procs: seq<Proc>, current: seq<int>, c: nat, r: int)
    requires Dispatch(procs, current) && c < |current| && RunsUsed(procs, r)
    requires forall d | 0 <= d < |current| && d != c && current[d] != NONE :: Apart(procs, r, current[d])
    ensures Dispatch(procs, current[c := r])
  {}

  /** Replacing a slot that no CPU runs. */
  lemma DispatchIdleSlot(procs: seq<Proc>, current: seq<int>, k: nat, p: Proc)
    requires Dispatch(procs, current) && k < |procs|
    requires forall c | 0 <= c < |current| :: current[c] != k
    ensures Dispatch(procs[k := p], current)
  {
    forall c, d | 0 <= c < |current| && 0 <= d < |current| && c != d && current[c] != NONE && current[d] != NONE
      ensures Apart(procs[k := p], current[c], current[d])
    {
      assert Apart(procs, current[c], current[d]);
    }
  }

  lemma DispatchOwner(procs: seq<Proc>, current: seq<int>, c: nat, p: Proc)
    requires Dispatch(procs, current) && c < |current| && 0 <= current[c] < |procs| && p.used
    requires forall d | 0 <= d < |current| && d != c && current[d] != NONE :: procs[current[d]].owner != p.owner
    ensures Dispatch(procs[current[c] := p], current)
  {
    var procs' := procs[current[c] := p];
    forall a, b | 0 <= a < |current| && 0 <= b < |current| && a != b && current[a] != NONE && current[b] != NONE
      ensures Apart(procs', current[a], current[b])
    {
      assert Apart(procs, current[a], current[b]);
    }
  }

  lemma DispatchStop(procs: seq<Proc>, current: seq<int>, c: nat, p: Proc)
    requires Dispatch(procs, current) && c < |current| && 0 <= current[c] < |procs|
    ensures Dispatch(procs[current[c] := p], current[c := NONE])
    ensures forall d | 0 <= d < |current| && d != c :: current[d] != current[c]
  {
    forall d | 0 <= d < |current| && d != c ensures current[d] != current[c] {
      if current[d] != NONE { assert Apart(procs, current[d], current[c]); }
    }
    var current' := current[c := NONE];
    forall a, b | 0 <= a < |current'| && 0 <= b < |current'| && a != b && current'[a] != NONE && current'[b] != NONE
      ensures Apart(procs[current[c] := p], current'[a], current'[b])
    {
      assert Apart(procs, current[a], current[b]);
    }
  }

  lemma PidsAdd(procs: seq<Proc>, nextPid: nat, k: nat, p: Proc)
    requires Pids(procs, nextPid) && k < |procs| && !procs[k].used && p.pid == nextPid
    requires p.owner == nextPid || exists i :: 0 <= i < |procs| && procs[i].used && procs[i].owner == p.owner
    ensures Pids(procs[k := p], nextPid + 1)
  {}

  lemma PidsKeep(procs: seq<Proc>, nextPid: nat, k: nat, p: Proc)
    requires Pids(procs, nextPid) && k < |procs|
    requires p.used ==> procs[k].used && p.pid == procs[k].pid && (p.owner == procs[k].owner || p.owner == p.pid)
    ensures Pids(procs[k := p], nextPid)
  {}

  lemma SpacesAdd(procs: seq<Proc>, live: set<Cr3>, k: nat, p: Proc)
    requires Spaces(procs, live) && k < |procs| && !procs[k].used && p.cr3 != 0 && p.cr3 in live
    requires forall i | 0 <= i < |procs| && procs[i].used && procs[i].cr3 == p.cr3 ::
               procs[i].owner == p.owner && !p.ownsCr3
    ensures Spaces(procs[k := p], live)
  {}

  lemma SpacesRemove(procs: seq<Proc>, live: set<Cr3>, k: nat)
    requires Spaces(procs, live) && k < |procs|
    ensures Spaces(procs[k := EMPTY], live)
  {}

  lemma LoadedElsewhere(procs: seq<Proc>, current: seq<int>, phase: seq<Phase>, hw: seq<Cr3>, k: nat, p: Proc)
    requires Loaded(procs, current, phase, hw) && k < |procs|
    requires forall c | 0 <= c < |current| :: current[c] != k
    ensures Loaded(procs[k := p], current, phase, hw)
  {}

  /** One CPU changes its phase, its CR3 or its slot. */
  lemma LoadedCpu(procs: seq<Proc>, current: seq<int>, phase: seq<Phase>, hw: seq<Cr3>, c: nat, r: int, ph: Phase, h: Cr3)
    requires Loaded(procs, current, phase, hw) && c < |phase|
    requires r != NONE ==> 0 <= r < |procs| && LoadOk(ph, h, procs[r].cr3)
    ensures Loaded(procs, current[c := r], phase[c := ph], hw[c := h])
  {}

  lemma NotRunUnused(procs: seq<Proc>, current: seq<int>, k: nat)
    requires Dispatch(procs, current) && k < |procs| && !procs[k].used
    ensures forall c | 0 <= c < |current| :: current[c] != k
  {
    forall c | 0 <= c < |current| ensures current[c] != k {
      if current[c] != NONE { assert RunsUsed(procs, current[c]); }
    }
  }

  lemma CallersAdd(procs: seq<Proc>, current: seq<int>, phase: seq<Phase>, k: nat, p: Proc)
    requires Callers(procs, current, phase) && k < |procs| && !procs[k].used
    requires forall c | 0 <= c < |phase| && Exec(phase[c]) && 0 <= current[c] < |procs| ::
               procs[current[c]].owner != p.owner
    ensures Callers(procs[k := p], current, phase)
  {
    forall c | 0 <= c < |phase| && InCall(phase[c])
      ensures current[c] != NONE && RunsUsed(procs[k := p], current[c])
      ensures Exec(phase[c]) ==> !OtherLive(procs[k := p], procs[k := p][current[c]].owner, current[c])
    {
      assert RunsUsed(procs, current[c]);
      if Exec(phase[c]) {
        assert !OtherLive(procs, procs[current[c]].owner, current[c]);
      }
    }
  }

  lemma CallersCpu(procs: seq<Proc>, current: seq<int>, phase: seq<Phase>, c: nat, r: int, ph: Phase)
    requires Callers(procs, current, phase) && c < |phase|
    requires InCall(ph) ==> r != NONE && RunsUsed(procs, r)
    requires Exec(ph) ==> RunsUsed(procs, r) && !OtherLive(procs, procs[r].owner, r)
    ensures Callers(procs, current[c := r], phase[c := ph])
  {}

  lemma BuildingPhase(procs: seq<Proc>, phase: seq<Phase>, live: set<Cr3>, live': set<Cr3>, c: nat, ph: Phase)
    requires Building(procs, phase, live) && c < |phase|
    requires HasPending(ph) ==> Pending(ph) != 0
    requires Pending(ph) != 0 ==> Pending(ph) in live' && !Named(procs, Pending(ph))
    requires forall d | 0 <= d < |phase| && d != c && Pending(phase[d]) != 0 ::
               Pending(phase[d]) in live' && Pending(phase[d]) != Pending(ph)
    ensures Building(procs, phase[c := ph], live')
  {}

  lemma BuildingAdd(procs: seq<Proc>, phase: seq<Phase>, live: set<Cr3>, k: nat, p: Proc)
    requires Building(procs, phase, live) && k < |procs|
    requires forall c | 0 <= c < |phase| && Pending(phase[c]) != 0 :: Pending(phase[c]) != p.cr3
    ensures Building(procs[k := p], phase, live)
  {
    forall c | 0 <= c < |phase| && Pending(phase[c]) != 0
      ensures !Named(procs[k := p], Pending(phase[c]))
    {
      assert !Named(procs, Pending(phase[c]));
    }
  }

  // ---------------------------------------------------------------- every step keeps Inv

  lemma ChoiceApart(s: State, c: nat, r: int)
    requires Inv(s) && c < MAX_CPUS && Choice(s, c, r)
    ensures RunsUsed(s.procs, r)
    ensures forall d | 0 <= d < MAX_CPUS && d != c && s.current[d] != NONE ::
              RunsUsed(s.procs, s.current[d]) && Apart(s.procs, r, s.current[d])
  {
    forall d | 0 <= d < MAX_CPUS && d != c && s.current[d] != NONE
      ensures RunsUsed(s.procs, s.current[d]) && Apart(s.procs, r, s.current[d])
    {
      assert !Blocks(s, d, r);
      assert RunsUsed(s.procs, s.current[d]);
    }
  }

  /** A space that only CPU `c` has to free. */
  ghost predicate LeftToFree(s: State, c: nat, gone: Cr3)
    requires Shaped(s)
  {
    gone != 0 ==>
      && gone in s.live && !Named(s.procs, gone)
      && forall d | 0 <= d < MAX_CPUS && d != c && Pending(s.phase[d]) != 0 :: Pending(s.phase[d]) != gone
  }

  lemma OthersPending(s: State, c: nat)
    requires Inv(s)
    ensures forall d | 0 <= d < MAX_CPUS && d != c && Pending(s.phase[d]) != 0 :: Pending(s.phase[d]) in s.live
  {}

  /** Switching to a chosen slot, from a CPU that is in no call. */
  lemma SwitchInv(s: State, c: nat, r: int, gone: Cr3)
    requires Inv(s) && c < MAX_CPUS && s.phase[c] == Ready && Choice(s, c, r) && LeftToFree(s, c, gone)
    ensures Inv(SwitchTo(s, c, r, gone))
  {
    hide Dispatch, Pids, Spaces, Loaded, Callers, Building;
    var ph := Loading(s.procs[r].cr3, gone);
    ChoiceApart(s, c, r);
    DispatchSwitch(s.procs, s.current, c, r);
    CallersCpu(s.procs, s.current, s.phase, c, r, ph);
    LoadedCpu(s.procs, s.current, s.phase, s.hw, c, r, ph, s.hw[c]);
    assert s.hw[c := s.hw[c]] == s.hw;
    OthersPending(s, c);
    BuildingPhase(s.procs, s.phase, s.live, s.live, c, ph);
  }

  /** Saving the CR3 of a CPU that is in no call changes nothing. */
  lemma StayInv(s: State, c: nat)
    requires Inv(s) && c < MAX_CPUS && s.current[c] != NONE && s.phase[c] == Ready
    ensures IsSlot(s.current[c]) && Saved(s, c) == s
  {
    assert LoadOk(s.phase[c], s.hw[c], s.procs[s.current[c]].cr3);
    assert s.procs[s.current[c] := s.procs[s.current[c]]] == s.procs;
  }

  lemma PreemptInv(s: State, c: nat)
    requires Inv(s) && c < MAX_CPUS && s.current[c] != NONE && IsSlot(s.current[c]) && s.phase[c] == Ready
    ensures Inv(Preempted(s, c))
  {
    hide Dispatch, Pids, Spaces, Loaded, Callers, Building, PickNext;
    StayInv(s, c);
    PickNextOk(s, s.current[c], c);
    var next := PickNext(s, s.current[c], c);
    if next != NONE && next != s.current[c] { SwitchInv(s, c, next, 0); }
  }

  lemma IdleInv(s: State, c: nat)
    requires Inv(s) && c < MAX_CPUS && s.phase[c] == Ready
    ensures Inv(Dispatched(s, c))
  {
    hide Dispatch, Pids, Spaces, Loaded, Callers, Building;
    FirstIdleOk(s, c, 0);
    var next := FirstIdle(s, c, 0);
    if next != NONE { SwitchInv(s, c, next, 0); }
  }

  lemma CallerRuns(s: State, c: nat)
    requires Inv(s) && c < MAX_CPUS && (InCall(s.phase[c]) || s.current[c] != NONE)
    ensures IsSlot(s.current[c]) && s.procs[s.current[c]].used && s.procs[s.current[c]].owner != 0
    ensures Exec(s.phase[c]) ==> !OtherLive(s.procs, s.procs[s.current[c]].owner, s.current[c])
    ensures s.procs[s.current[c]].cr3 in s.live && s.procs[s.current[c]].cr3 != 0
    ensures LoadOk(s.phase[c], s.hw[c], s.procs[s.current[c]].cr3)
  {
    assert s.current[c] != NONE && RunsUsed(s.procs, s.current[c]);
  }

  lemma Fresh(s: State, cr3: Cr3)
    requires Inv(s) && cr3 !in s.live
    ensures !Named(s.procs, cr3)
  {}

  lemma PendingLive(s: State, c: nat)
    requires Inv(s) && c < MAX_CPUS && Pending(s.phase[c]) != 0
    ensures Pending(s.phase[c]) in s.live && !Named(s.procs, Pending(s.phase[c]))
    ensures forall d | 0 <= d < MAX_CPUS && d != c && Pending(s.phase[d]) != 0 ::
              Pending(s.phase[d]) in s.live && Pending(s.phase[d]) != Pending(s.phase[c])
  {}

  /** A CPU advances in its call: only its phase, its CR3 and the space it builds or frees change. */
  lemma PhaseInv(s: State, c: nat, ph: Phase, h: Cr3, live': set<Cr3>)
    requires Inv(s) && c < MAX_CPUS && (InCall(ph) ==> s.current[c] != NONE)
    requires Exec(ph) ==> IsSlot(s.current[c]) && !OtherLive(s.procs, s.procs[s.current[c]].owner, s.current[c])
    requires IsSlot(s.current[c]) ==> LoadOk(ph, h, s.procs[s.current[c]].cr3)
    requires HasPending(ph) ==> Pending(ph) != 0
    requires Pending(ph) != 0 ==> Pending(ph) in live' && (Pending(ph) !in s.live || Pending(ph) == Pending(s.phase[c]))
    requires live' == s.live || live' == s.live + {Pending(ph)} ||
             (Pending(s.phase[c]) != 0 && live' == s.live - {Pending(s.phase[c])})
    ensures Inv(s.(phase := s.phase[c := ph], hw := s.hw[c := h], live := live'))
  {
    hide Dispatch, Pids, Spaces, Loaded, Callers, Building;
    if s.current[c] != NONE { CallerRuns(s, c); }
    var cur := s.current[c];
    CallersCpu(s.procs, s.current, s.phase, c, cur, ph);
    LoadedCpu(s.procs, s.current, s.phase, s.hw, c, cur, ph, h);
    assert s.current[c := cur] == s.current;
    PhaseLive(s, c, ph, live');
    BuildingPhase(s.procs, s.phase, s.live, live', c, ph);
  }

  lemma PhaseLive(s: State, c: nat, ph: Phase, live': set<Cr3>)
    requires Inv(s) && c < MAX_CPUS
    requires Pending(ph) != 0 ==> Pending(ph) !in s.live || Pending(ph) == Pending(s.phase[c])
    requires live' == s.live || live' == s.live + {Pending(ph)} ||
             (Pending(s.phase[c]) != 0 && live' == s.live - {Pending(s.phase[c])})
    ensures Spaces(s.procs, live')
    ensures Pending(ph) != 0 ==> !Named(s.procs, Pending(ph))
    ensures forall d | 0 <= d < MAX_CPUS && d != c && Pending(s.phase[d]) != 0 ::
              Pending(s.phase[d]) in live' && Pending(s.phase[d]) != Pending(ph)
  {
    if Pending(s.phase[c]) != 0 {
      PendingLive(s, c);
      assert forall i | 0 <= i < |s.procs| && s.procs[i].used :: s.procs[i].cr3 != Pending(s.phase[c]);
    }
    if Pending(ph) != 0 && Pending(ph) !in s.live { Fresh(s, Pending(ph)); }
    forall d | 0 <= d < MAX_CPUS && d != c && Pending(s.phase[d]) != 0
      ensures Pending(s.phase[d]) in live' && Pending(s.phase[d]) != Pending(ph)
    {
      PendingLive(s, d);
    }
  }

  /** A slot taken for a child or thread. */
  lemma AddInv(s: State, k: nat, p: Proc)
    requires Inv(s) && k < MAX_PROCS && !s.procs[k].used && p.used && p.pid == s.nextPid
    requires p.cr3 != 0 && p.cr3 in s.live
    requires p.owner == s.nextPid || exists i :: 0 <= i < |s.procs| && s.procs[i].used && s.procs[i].owner == p.owner
    requires forall i | 0 <= i < |s.procs| && s.procs[i].used && s.procs[i].cr3 == p.cr3 ::
               s.procs[i].owner == p.owner && !p.ownsCr3
    requires forall c | 0 <= c < MAX_CPUS && Exec(s.phase[c]) && IsSlot(s.current[c]) ::
               s.procs[s.current[c]].owner != p.owner
    requires forall c | 0 <= c < MAX_CPUS && Pending(s.phase[c]) != 0 :: Pending(s.phase[c]) != p.cr3
    ensures Inv(s.(procs := s.procs[k := p], nextPid := s.nextPid + 1))
    ensures Inv(s.(procs := s.procs[k := p], nextPid := s.nextPid + 1, claimed := s.claimed[k := false]))
  {
    hide Dispatch, Pids, Spaces, Loaded, Callers, Building;
    NotRunUnused(s.procs, s.current, k);
    DispatchIdleSlot(s.procs, s.current, k, p);
    PidsAdd(s.procs, s.nextPid, k, p);
    SpacesAdd(s.procs, s.live, k, p);
    LoadedElsewhere(s.procs, s.current, s.phase, s.hw, k, p);
    CallersAdd(s.procs, s.current, s.phase, k, p);
    BuildingAdd(s.procs, s.phase, s.live, k, p);
  }

  lemma OwnersBelow(s: State)
    requires Inv(s)
    ensures forall c | 0 <= c < MAX_CPUS && InCall(s.phase[c]) && IsSlot(s.current[c]) ::
              s.procs[s.current[c]].owner < s.nextPid
  {
    forall c | 0 <= c < MAX_CPUS && InCall(s.phase[c]) && IsSlot(s.current[c])
      ensures s.procs[s.current[c]].owner < s.nextPid
    {
      CallerRuns(s, c);
    }
  }

  lemma ForkCommitInv(s: State, c: nat)
    requires Inv(s) && c < MAX_CPUS && s.phase[c].ForkReady? && IsSlot(s.current[c])
    ensures Inv(InstallChild(s, c, s.phase[c].child))
  {
    hide Dispatch, Pids, Spaces, Loaded, Callers, Building;
    var child := s.phase[c].child;
    FirstUnusedOk(s, 0);
    PendingPositive(s, c);
    PendingLive(s, c);
    CallerRuns(s, c);
    if IsSlot(FirstUnused(s, 0)) {
      var t := s.(phase := s.phase[c := Ready]);
      PhaseInv(s, c, Ready, s.hw[c], s.live);
      assert s.hw[c := s.hw[c]] == s.hw;
      OwnersBelow(t);
      var p := Proc(true, false, true, false, s.nextPid, s.procs[s.current[c]].owner, s.nextPid, child);
      AddInv(t, FirstUnused(s, 0), p);
    } else {
      PhaseInv(s, c, Ready, s.hw[c], s.live - {child});
      assert s.hw[c := s.hw[c]] == s.hw;
    }
  }

  lemma PendingPositive(s: State, c: nat)
    requires Inv(s) && c < MAX_CPUS && HasPending(s.phase[c])
    ensures Pending(s.phase[c]) != 0
  {}

  lemma ThreadInv(s: State, c: nat)
    requires Inv(s) && c < MAX_CPUS && s.phase[c] == Ready && s.current[c] != NONE && IsSlot(s.current[c])
    ensures Inv(InstallThread(s, c))
  {
    hide Dispatch, Pids, Spaces, Loaded, Callers, Building;
    FirstUnusedOk(s, 0);
    CallerRuns(s, c);
    var k := FirstUnused(s, 0);
    if IsSlot(k) {
      var parent := s.procs[s.current[c]];
      var p := Proc(true, false, false, true, s.nextPid, parent.ppid, parent.owner, parent.cr3);
      ShareSpace(s, s.current[c]);
      forall d | 0 <= d < MAX_CPUS && Exec(s.phase[d]) && IsSlot(s.current[d])
        ensures s.procs[s.current[d]].owner != p.owner
      {
        CallerRuns(s, d);
        CpusApart(s, c, d);
      }
      forall d | 0 <= d < MAX_CPUS && Pending(s.phase[d]) != 0 ensures Pending(s.phase[d]) != p.cr3 {
        PendingLive(s, d);
      }
      AddInv(s, k, p);
    }
  }

  lemma CpusApart(s: State, c: nat, d: nat)
    requires Inv(s) && c < MAX_CPUS && d < MAX_CPUS && c != d && s.current[c] != NONE && s.current[d] != NONE
    ensures s.current[c] != s.current[d]
  {
    assert Apart(s.procs, s.current[c], s.current[d]);
  }

  lemma ShareSpace(s: State, k: int)
    requires Inv(s) && IsSlot(k) && s.procs[k].used
    ensures forall i | 0 <= i < |s.procs| && s.procs[i].used && s.procs[i].cr3 == s.procs[k].cr3 ::
              s.procs[i].owner == s.procs[k].owner
  {}

  // ---------------------------------------------------------------- exec

  /** Nobody else belongs to the process that an exec caller becomes. */
  lemma ExecAlone(s: State, c: nat)
    requires Inv(s) && c < MAX_CPUS && s.phase[c].ExecReady? && IsSlot(s.current[c])
    ensures forall i | 0 <= i < MAX_PROCS && i != s.current[c] && s.procs[i].used ::
              && s.procs[i].owner != s.procs[s.current[c]].pid
              && s.procs[i].owner != s.procs[s.current[c]].owner
              && s.procs[i].cr3 != s.procs[s.current[c]].cr3
  {
    CallerRuns(s, c);
    var k := s.current[c];
    forall i | 0 <= i < MAX_PROCS && i != k && s.procs[i].used
      ensures s.procs[i].owner != s.procs[k].pid && s.procs[i].owner != s.procs[k].owner && s.procs[i].cr3 != s.procs[k].cr3
    {
      assert s.procs[i].owner != s.procs[k].owner;
    }
  }

  lemma SpacesExec(procs: seq<Proc>, live: set<Cr3>, k: nat, p: Proc)
    requires Spaces(procs, live) && k < |procs| && p.cr3 != 0 && p.cr3 in live
    requires forall i | 0 <= i < |procs| && i != k && procs[i].used :: procs[i].cr3 != p.cr3
    ensures Spaces(procs[k := p], live)
  {}

  lemma LoadedExec(procs: seq<Proc>, current: seq<int>, phase: seq<Phase>, hw: seq<Cr3>, c: nat, p: Proc, gone: Cr3)
    requires Loaded(procs, current, phase, hw) && c < |current| && 0 <= current[c] < |procs|
    requires forall d | 0 <= d < |current| && d != c :: current[d] != current[c]
    ensures Loaded(procs[current[c] := p], current, phase[c := Loading(p.cr3, gone)], hw)
  {}

  /** Other CPUs inside fork or exec are not disturbed when a slot changes process. */
  lemma CallersExec(procs: seq<Proc>, current: seq<int>, phase: seq<Phase>, c: nat, p: Proc, gone: Cr3)
    requires Callers(procs, current, phase) && c < |phase| && 0 <= current[c] < |procs| && p.used
    requires forall i | 0 <= i < |procs| && i != current[c] && procs[i].used :: procs[i].owner != p.owner
    requires forall d | 0 <= d < |current| && d != c :: current[d] != current[c]
    ensures Callers(procs[current[c] := p], current, phase[c := Loading(p.cr3, gone)])
  {
    var k := current[c];
    var procs' := procs[k := p];
    forall d | 0 <= d < |phase| && d != c && InCall(phase[d])
      ensures current[d] != NONE && RunsUsed(procs', current[d])
      ensures Exec(phase[d]) ==> !OtherLive(procs', procs'[current[d]].owner, current[d])
    {
      assert RunsUsed(procs, current[d]) && current[d] != k;
      if Exec(phase[d]) { assert !OtherLive(procs, procs[current[d]].owner, current[d]); }
    }
  }

  lemma RunsAlone(s: State, c: nat)
    requires Inv(s) && c < MAX_CPUS && s.current[c] != NONE
    ensures forall d | 0 <= d < MAX_CPUS && d != c :: s.current[d] != s.current[c]
  {
    forall d | 0 <= d < MAX_CPUS && d != c ensures s.current[d] != s.current[c] {
      if s.current[d] != NONE { CpusApart(s, c, d); }
    }
  }

  lemma BuildingExec(procs: seq<Proc>, phase: seq<Phase>, live: set<Cr3>, c: nat, k: nat, p: Proc, gone: Cr3)
    requires Building(procs, phase, live) && c < |phase| && k < |procs|
    requires forall d | 0 <= d < |phase| && d != c && Pending(phase[d]) != 0 ::
               Pending(phase[d]) != p.cr3 && Pending(phase[d]) != gone
    requires gone != 0 ==> gone in live && !Named(procs[k := p], gone)
    ensures Building(procs[k := p], phase[c := Loading(p.cr3, gone)], live)
  {
    forall d | 0 <= d < |phase| && d != c && Pending(phase[d]) != 0
      ensures !Named(procs[k := p], Pending(phase[d]))
    {
      assert !Named(procs, Pending(phase[d]));
    }
  }

  /** The space an exec leaves behind is used by no other slot and no other CPU. */
  lemma ExecLeaves(s: State, c: nat)
    requires Inv(s) && c < MAX_CPUS && s.phase[c].ExecReady? && IsSlot(s.current[c])
    ensures var was, image := s.procs[s.current[c]].cr3, s.phase[c].image;
            && (forall i | 0 <= i < MAX_PROCS && i != s.current[c] && s.procs[i].used ::
                  s.procs[i].cr3 != was && s.procs[i].cr3 != image)
            && was != image && image in s.live && image != 0 && was in s.live
            && (forall d | 0 <= d < MAX_CPUS && d != c && Pending(s.phase[d]) != 0 ::
                  Pending(s.phase[d]) != was && Pending(s.phase[d]) != image)
  {
    hide Dispatch, Pids, Loaded, Callers, Building;
    ExecAlone(s, c);
    PendingPositive(s, c);
    PendingLive(s, c);
    CallerRuns(s, c);
    forall d | 0 <= d < MAX_CPUS && d != c && Pending(s.phase[d]) != 0
      ensures Pending(s.phase[d]) != s.procs[s.current[c]].cr3
    {
      PendingLive(s, d);
    }
  }

  lemma ExecCommitInv(s: State, c: nat)
    requires Inv(s) && c < MAX_CPUS && s.phase[c].ExecReady? && IsSlot(s.current[c])
    ensures Inv(InstallImage(s, c, s.phase[c].image))
  {
    hide Dispatch, Pids, Spaces, Loaded, Callers, Building;
    var k := s.current[c];
    var s' := InstallImage(s, c, s.phase[c].image);
    var p, gone := s'.procs[k], s'.phase[c].gone;
    CallerRuns(s, c);
    ExecAlone(s, c);
    ExecLeaves(s, c);
    RunsAlone(s, c);
    OthersUsed(s);
    DispatchOwner(s.procs, s.current, c, p);
    PidsKeep(s.procs, s.nextPid, k, p);
    SpacesExec(s.procs, s.live, k, p);
    LoadedExec(s.procs, s.current, s.phase, s.hw, c, p, gone);
    CallersExec(s.procs, s.current, s.phase, c, p, gone);
    BuildingExec(s.procs, s.phase, s.live, c, k, p, gone);
  }

  lemma OthersUsed(s: State)
    requires Inv(s)
    ensures forall d | 0 <= d < MAX_CPUS && s.current[d] != NONE :: IsSlot(s.current[d]) && s.procs[s.current[d]].used
  {
    forall d | 0 <= d < MAX_CPUS && s.current[d] != NONE
      ensures IsSlot(s.current[d]) && s.procs[s.current[d]].used
    {
      assert RunsUsed(s.procs, s.current[d]);
    }
  }

  // ---------------------------------------------------------------- exit

  lemma MarkInv(s: State, slots: set<nat>)
    requires Inv(s)
    ensures Inv(Marked(s, slots))
  {
    hide Dispatch, Callers, Building;
    var t := Marked(s, slots);
    MarkDispatch(s, slots);
    MarkCallers(s, slots);
    MarkBuilding(s, slots);
  }

  lemma MarkDispatch(s: State, slots: set<nat>)
    requires Inv(s)
    ensures Dispatch(Marked(s, slots).procs, s.current)
  {
    var procs' := Marked(s, slots).procs;
    forall c, d | 0 <= c < |s.current| && 0 <= d < |s.current| && c != d && s.current[c] != NONE && s.current[d] != NONE
      ensures Apart(procs', s.current[c], s.current[d])
    {
      assert Apart(s.procs, s.current[c], s.current[d]);
    }
  }

  lemma MarkCallers(s: State, slots: set<nat>)
    requires Inv(s)
    ensures Callers(Marked(s, slots).procs, s.current, s.phase)
  {
    var procs' := Marked(s, slots).procs;
    forall c | 0 <= c < |s.phase| && InCall(s.phase[c])
      ensures s.current[c] != NONE && RunsUsed(procs', s.current[c])
      ensures Exec(s.phase[c]) ==> !OtherLive(procs', procs'[s.current[c]].owner, s.current[c])
    {
      CallerRuns(s, c);
    }
  }

  lemma MarkBuilding(s: State, slots: set<nat>)
    requires Inv(s)
    ensures Building(Marked(s, slots).procs, s.phase, s.live)
  {
    forall c | 0 <= c < |s.phase| && Pending(s.phase[c]) != 0
      ensures !Named(Marked(s, slots).procs, Pending(s.phase[c]))
    {
      assert !Named(s.procs, Pending(s.phase[c]));
    }
  }

  /** The last owner of a space leaves no other name of it behind. */
  lemma LastOwnerAlone(s: State, c: nat)
    requires Inv(s) && c < MAX_CPUS && s.current[c] != NONE && IsSlot(s.current[c]) && LastOwner(s, c)
    ensures forall i | 0 <= i < MAX_PROCS && i != s.current[c] && s.procs[i].used ::
              s.procs[i].cr3 != s.procs[s.current[c]].cr3
    ensures forall d | 0 <= d < MAX_CPUS && Pending(s.phase[d]) != 0 ::
              Pending(s.phase[d]) != s.procs[s.current[c]].cr3
  {
    CallerRuns(s, c);
    forall d | 0 <= d < MAX_CPUS && Pending(s.phase[d]) != 0
      ensures Pending(s.phase[d]) != s.procs[s.current[c]].cr3
    {
      PendingLive(s, d);
    }
  }

  lemma CallersStop(procs: seq<Proc>, current: seq<int>, phase: seq<Phase>, c: nat)
    requires Callers(procs, current, phase) && c < |phase| && phase[c] == Ready && 0 <= current[c] < |procs|
    requires forall d | 0 <= d < |current| && d != c :: current[d] != current[c]
    ensures Callers(procs[current[c] := EMPTY], current[c := NONE], phase)
  {
    var procs' := procs[current[c] := EMPTY];
    forall d | 0 <= d < |phase| && InCall(phase[d])
      ensures current[d] != NONE && RunsUsed(procs', current[d])
      ensures Exec(phase[d]) ==> !OtherLive(procs', procs'[current[d]].owner, current[d])
    {
      assert RunsUsed(procs, current[d]) && d != c;
      if Exec(phase[d]) { assert !OtherLive(procs, procs[current[d]].owner, current[d]); }
    }
  }

  lemma BuildingStop(procs: seq<Proc>, phase: seq<Phase>, live: set<Cr3>, k: nat)
    requires Building(procs, phase, live) && k < |procs|
    ensures Building(procs[k := EMPTY], phase, live)
  {
    forall d | 0 <= d < |phase| && Pending(phase[d]) != 0
      ensures !Named(procs[k := EMPTY], Pending(phase[d]))
    {
      assert !Named(procs, Pending(phase[d]));
    }
  }

  lemma LoadedStop(procs: seq<Proc>, current: seq<int>, phase: seq<Phase>, hw: seq<Cr3>, c: nat)
    requires Loaded(procs, current, phase, hw) && c < |current| && 0 <= current[c] < |procs|
    requires forall d | 0 <= d < |current| && d != c :: current[d] != current[c]
    ensures Loaded(procs[current[c] := EMPTY], current[c := NONE], phase, hw)
  {}

  lemma ClearedInv(s: State, c: nat)
    requires Inv(s) && c < MAX_CPUS && s.current[c] != NONE && IsSlot(s.current[c]) && s.phase[c] == Ready
    ensures Inv(Cleared(s, c))
  {
    hide Dispatch, Pids, Spaces, Loaded, Callers, Building;
    var k := s.current[c];
    RunsAlone(s, c);
    DispatchStop(s.procs, s.current, c, EMPTY);
    PidsKeep(s.procs, s.nextPid, k, EMPTY);
    SpacesRemove(s.procs, s.live, k);
    LoadedStop(s.procs, s.current, s.phase, s.hw, c);
    CallersStop(s.procs, s.current, s.phase, c);
    BuildingStop(s.procs, s.phase, s.live, k);
  }

  /** What the last owner leaves is for its own CPU to free. */
  lemma LastOwnerLeaves(s: State, c: nat)
    requires Inv(s) && c < MAX_CPUS && s.current[c] != NONE && IsSlot(s.current[c]) && LastOwner(s, c)
    ensures s.procs[s.current[c]].cr3 != 0 && LeftToFree(Cleared(s, c), c, s.procs[s.current[c]].cr3)
  {
    CallerRuns(s, c);
    LastOwnerAlone(s, c);
  }

  /** Exit switches only to a slot of another space, so the guard on freeing never holds back. */
  lemma ExitNext(s: State, c: nat)
    requires Inv(s) && c < MAX_CPUS && s.current[c] != NONE && IsSlot(s.current[c]) && LastOwner(s, c)
    ensures var next := PickNext(Cleared(s, c), NONE, c);
            IsSlot(next) ==> Cleared(s, c).procs[next].cr3 != s.procs[s.current[c]].cr3
  {
    LastOwnerAlone(s, c);
    PickNextOk(Cleared(s, c), NONE, c);
  }

  lemma ExitInv(s: State, c: nat)
    requires Inv(s) && c < MAX_CPUS && s.current[c] != NONE && IsSlot(s.current[c]) && s.phase[c] == Ready
    ensures Inv(Exited(s, c))
  {
    hide Dispatch, Pids, Spaces, Loaded, Callers, Building, PickNext, LastOwner, LeftToFree;
    var gone := s.procs[s.current[c]].cr3;
    ClearedInv(s, c);
    if LastOwner(s, c) { LastOwnerLeaves(s, c); }
    NothingToFree(Cleared(s, c), c);
    var t := Cleared(s, c);
    PickNextOk(t, NONE, c);
    var next := PickNext(t, NONE, c);
    if IsSlot(next) {
      SwitchInv(t, c, next, if LastOwner(s, c) && t.procs[next].cr3 != gone then gone else 0);
    } else if LastOwner(s, c) {
      FreeingInv(t, c, gone);
    } else {
      assert s.phase[c := Ready] == s.phase;
    }
  }

  lemma NothingToFree(s: State, c: nat)
    requires Shaped(s)
    ensures LeftToFree(s, c, 0)
  {}

  lemma FreeingInv(s: State, c: nat, gone: Cr3)
    requires Inv(s) && c < MAX_CPUS && s.current[c] == NONE && gone != 0 && LeftToFree(s, c, gone)
    ensures Inv(s.(phase := s.phase[c := Freeing(gone)]))
  {
    hide Dispatch, Pids, Spaces, Loaded, Callers, Building;
    CallersCpu(s.procs, s.current, s.phase, c, NONE, Freeing(gone));
    LoadedCpu(s.procs, s.current, s.phase, s.hw, c, NONE, Freeing(gone), s.hw[c]);
    assert s.hw[c := s.hw[c]] == s.hw && s.current[c := NONE] == s.current;
    OthersPending(s, c);
    BuildingPhase(s.procs, s.phase, s.live, s.live, c, Freeing(gone));
  }

  lemma PostInv(s: State, c: nat, resched: bool, sameOwner: bool)
    requires Inv(s) && c < MAX_CPUS && s.current[c] != NONE && IsSlot(s.current[c]) && s.phase[c] == Ready
    ensures Inv(Posted(s, c, resched, sameOwner))
  {
    hide Dispatch, Pids, Spaces, Loaded, Callers, Building, PickNext, PickNextSameOwner, Exited;
    var cur := s.current[c];
    if s.procs[cur].exiting {
      ExitInv(s, c);
    } else {
      StayInv(s, c);
      PickNextOk(s, cur, c);
      PickNextSameOwnerOk(s, cur, c);
      var next := if !resched then cur else if sameOwner then PickNextSameOwner(s, cur, c) else PickNext(s, cur, c);
      if IsSlot(next) && next != cur { SwitchInv(s, c, next, 0); }
    }
  }

  // ---------------------------------------------------------------- whole runs

  /** Syscall_init. */
  predicate Initial(s: State) {
    && Shaped(s) && s.nextPid == 1 && s.live == {}
    && (forall i | 0 <= i < MAX_PROCS :: s.procs[i] == EMPTY && !s.claimed[i])
    && (forall c | 0 <= c < MAX_CPUS :: s.current[c] == NONE && s.phase[c] == Ready)
  }

  lemma InitialInv(s: State)
    requires Initial(s)
    ensures Inv(s)
  {}

  lemma BootBuilding(s: State, cr3: Cr3, p: Proc)
    requires Inv(s) && cr3 !in s.live && p.cr3 == cr3
    ensures Building(s.procs[0 := p], s.phase, s.live + {cr3})
  {
    forall d | 0 <= d < MAX_CPUS && Pending(s.phase[d]) != 0
      ensures !Named(s.procs[0 := p], Pending(s.phase[d]))
    {
      assert !Named(s.procs, Pending(s.phase[d]));
    }
  }

  lemma BootInv(s: State, c: nat, cr3: Cr3)
    requires Inv(s) && Enabled(s, Boot(c, cr3))
    ensures Inv(Do(s, Boot(c, cr3)))
  {
    forall d | 0 <= d < MAX_CPUS ensures s.current[d] == NONE && !InCall(s.phase[d]) {
      assert s.current[d] != NONE ==> RunsUsed(s.procs, s.current[d]);
    }
    var p := Proc(true, false, true, false, 1, 0, 1, cr3);
    hide Building;
    BootBuilding(s, cr3, p);
  }

  /** A CPU in a call that leaves CR3 alone still has its slot's space loaded. */
  lemma KeepCr3(s: State, c: nat)
    requires Inv(s) && c < MAX_CPUS && (InCall(s.phase[c]) || s.current[c] != NONE)
    ensures IsSlot(s.current[c]) && s.current[c] != NONE && LoadOk(s.phase[c], s.hw[c], s.procs[s.current[c]].cr3)
    ensures s.hw[c := s.hw[c]] == s.hw
  {
    CallerRuns(s, c);
  }

  lemma ExecMoves(s: State, c: nat)
    requires Inv(s) && c < MAX_CPUS && (s.phase[c].ExecBuilding? || s.phase[c].ExecReady?)
    ensures s.current[c] != NONE && IsSlot(s.current[c]) && Pending(s.phase[c]) != 0 && Pending(s.phase[c]) in s.live
    ensures !OtherLive(s.procs, s.procs[s.current[c]].owner, s.current[c])
  {
    CallerRuns(s, c);
    PendingPositive(s, c);
    PendingLive(s, c);
  }

  lemma ExecAbortInv(s: State, c: nat)
    requires Inv(s) && Enabled(s, ExecAbort(c))
    ensures Inv(Do(s, ExecAbort(c)))
  {
    hide Dispatch, Pids, Spaces, Loaded, Callers, Building, OtherLive;
    KeepCr3(s, c);
    if s.phase[c].ExecReady? {
      PendingPositive(s, c);
      PhaseInv(s, c, Ready, s.hw[c], s.live - {s.phase[c].image});
    } else {
      PhaseInv(s, c, Ready, s.hw[c], s.live);
    }
  }

  lemma LoadCr3Inv(s: State, c: nat)
    requires Inv(s) && Enabled(s, LoadCr3(c))
    ensures Inv(Do(s, LoadCr3(c)))
  {
    hide Dispatch, Pids, Spaces, Loaded, Callers, Building, OtherLive;
    CallerRuns(s, c);
    var gone := s.phase[c].gone;
    if gone != 0 { PendingLive(s, c); }
    PhaseInv(s, c, if gone != 0 then Freeing(gone) else Ready, s.phase[c].next, s.live);
  }

  lemma FreeSpaceInv(s: State, c: nat)
    requires Inv(s) && Enabled(s, FreeSpace(c))
    ensures Inv(Do(s, FreeSpace(c)))
  {
    hide Dispatch, Pids, Spaces, Loaded, Callers, Building, OtherLive;
    PendingPositive(s, c);
    if s.current[c] != NONE { CallerRuns(s, c); }
    FreeingCr3(s, c);
    PhaseInv(s, c, Ready, s.hw[c], s.live - {s.phase[c].gone});
  }

  lemma FreeingCr3(s: State, c: nat)
    requires Inv(s) && c < MAX_CPUS
    ensures s.hw[c := s.hw[c]] == s.hw && (IsSlot(s.current[c]) ==> s.current[c] != NONE)
  {}

  lemma StepInv(s: State, a: Step)
    requires Inv(s) && Enabled(s, a)
    ensures Inv(Do(s, a))
  {
    hide Dispatch, Pids, Spaces, Loaded, Callers, Building, OtherLive, OtherLiveNonThread;
    match a
    case Boot(c, cr3) => BootInv(s, c, cr3);
    case ForkBegin(c) => KeepCr3(s, c); PhaseInv(s, c, Forking, s.hw[c], s.live);
    case ForkClone(c, child) => KeepCr3(s, c); PhaseInv(s, c, ForkReady(child), s.hw[c], s.live + {child});
    case ForkAbort(c) => KeepCr3(s, c); PhaseInv(s, c, Ready, s.hw[c], s.live);
    case ForkCommit(c) => CallerRuns(s, c); ForkCommitInv(s, c);
    case ExecBegin(c) => KeepCr3(s, c); PhaseInv(s, c, Execing, s.hw[c], s.live);
    case ExecBuild(c, image) => CallerRuns(s, c); PhaseInv(s, c, ExecBuilding(image), image, s.live + {image});
    case ExecLeave(c) => ExecMoves(s, c); PhaseInv(s, c, ExecReady(s.phase[c].image), s.procs[s.current[c]].cr3, s.live);
    case ExecEnter(c) => ExecMoves(s, c); PhaseInv(s, c, ExecBuilding(s.phase[c].image), s.phase[c].image, s.live);
    case ExecAbort(c) => ExecAbortInv(s, c);
    case ExecCommit(c) => CallerRuns(s, c); ExecCommitInv(s, c);
    case ThreadCreate(c) => ThreadInv(s, c);
    case MarkExiting(slots) => MarkInv(s, slots);
    case TimerPreempt(c) => PreemptInv(s, c);
    case IdleDispatch(c) => IdleInv(s, c);
    case PostSyscall(c, resched, sameOwner) => PostInv(s, c, resched, sameOwner);
    case LoadCr3(c) => LoadCr3Inv(s, c);
    case FreeSpace(c) => FreeSpaceInv(s, c);
  }
}
