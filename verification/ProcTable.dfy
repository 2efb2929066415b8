/** The user process table and its dispatch on many CPUs. Every critical section under the
    process lock is one step; so is what a CPU does after it has dropped the lock: loading CR3,
    freeing an address space, and the address-space work of fork and exec. */
module ProcTable {

  const MAX_PROCS: nat := 256
  const MAX_CPUS: nat := 256
  const NONE: int := -1

  type Cr3 = nat

  datatype Proc = Proc(used: bool, exiting: bool, ownsCr3: bool, isThread: bool,
                       pid: nat, ppid: nat, owner: nat, cr3: Cr3)

  const EMPTY := Proc(false, false, false, false, 0, 0, 0, 0)

  /** Where a CPU stands after a critical section. */
  datatype Phase =
    | Ready
    | Forking                     // fork has checked its caller and is about to clone its space
    | ForkReady(child: Cr3)       // the clone is built
    | Execing                     // exec has checked that its caller is alone in its process
    | ExecBuilding(image: Cr3)    // exec works on the new image with the image's CR3 loaded
    | ExecReady(image: Cr3)       // exec is back on its caller's CR3
    | Loading(next: Cr3, gone: Cr3)  // a slot is chosen and the lock dropped; CR3 is not loaded yet
    | Freeing(gone: Cr3)          // a space is about to be freed

  /** `live` are the address spaces allocated and not yet freed; `hw` is each CPU's CR3. */
  datatype State = State(procs: seq<Proc>, current: seq<int>, claimed: seq<bool>, phase: seq<Phase>,
                         hw: seq<Cr3>, nextPid: nat, live: set<Cr3>)

  predicate Shaped(s: State) {
    && |s.procs| == MAX_PROCS && |s.claimed| == MAX_PROCS
    && |s.current| == MAX_CPUS && |s.phase| == MAX_CPUS && |s.hw| == MAX_CPUS
  }

  predicate IsSlot(i: int) { 0 <= i < MAX_PROCS }

  predicate Running(s: State, c: nat)
    requires Shaped(s) && c < MAX_CPUS
  {
    IsSlot(s.current[c]) && s.procs[s.current[c]].used
  }

  // ---------------------------------------------------------------- choosing a slot

  /** Whether CPU `d` keeps `slot` from running elsewhere: it runs the slot itself, or a slot of
      the same process that is not on its way out. */
  predicate Blocks(s: State, d: nat, slot: nat)
    requires Shaped(s) && d < MAX_CPUS && slot < MAX_PROCS
  {
    var r := s.current[d];
    && IsSlot(r)
    && (|| r == slot
        || (s.procs[slot].used && s.procs[slot].owner != 0
            && s.procs[r].used && !s.procs[r].exiting && s.procs[r].owner == s.procs[slot].owner))
  }

  predicate OnOtherCpu(s: State, slot: nat, c: nat)
    requires Shaped(s) && slot < MAX_PROCS
  {
    exists d | 0 <= d < MAX_CPUS && d != c :: Blocks(s, d, slot)
  }

  predicate Eligible(s: State, slot: nat, c: nat)
    requires Shaped(s) && slot < MAX_PROCS
  {
    s.procs[slot].used && s.procs[slot].cr3 != 0 && !OnOtherCpu(s, slot, c)
  }

  /** The first eligible slot among (from + k) mod MAX_PROCS for step <= k < last. */
  function FirstEligible(s: State, from: nat, c: nat, step: nat, last: nat): int
    requires Shaped(s)
    decreases last - step
  {
    if step >= last then NONE
    else if Eligible(s, (from + step) % MAX_PROCS, c) then (from + step) % MAX_PROCS
    else FirstEligible(s, from, c, step + 1, last)
  }

  /** Syscall_proc_pick_next_locked. */
  function PickNext(s: State, cur: int, c: nat): int
    requires Shaped(s) && (cur == NONE || IsSlot(cur))
  {
    if cur == NONE then FirstEligible(s, 0, c, 0, MAX_PROCS)
    else
      var next := FirstEligible(s, cur, c, 1, MAX_PROCS);
      if next != NONE then next
      else if s.procs[cur].used && s.procs[cur].cr3 != 0 then cur
      else FirstEligible(s, 0, c, 0, MAX_PROCS)
  }

  predicate SameOwnerPeer(s: State, slot: nat, c: nat, owner: nat)
    requires Shaped(s) && slot < MAX_PROCS
  {
    Eligible(s, slot, c) && !s.procs[slot].exiting && s.procs[slot].owner == owner
  }

  function FirstPeer(s: State, from: nat, c: nat, owner: nat, step: nat): int
    requires Shaped(s)
    decreases MAX_PROCS - step
  {
    if step >= MAX_PROCS then NONE
    else if SameOwnerPeer(s, (from + step) % MAX_PROCS, c, owner) then (from + step) % MAX_PROCS
    else FirstPeer(s, from, c, owner, step + 1)
  }

  /** Syscall_proc_pick_next_same_owner_locked, for a current slot. */
  function PickNextSameOwner(s: State, cur: nat, c: nat): int
    requires Shaped(s) && cur < MAX_PROCS
  {
    var p := s.procs[cur];
    if !p.used || p.owner == 0 then PickNext(s, cur, c)
    else
      var next := FirstPeer(s, cur, c, p.owner, 1);
      if next != NONE then next
      else if p.cr3 != 0 then cur
      else PickNext(s, cur, c)
  }

  /** The slot the idle loop may take over: not init, not exiting, never claimed before. */
  predicate IdleCandidate(s: State, slot: nat, c: nat)
    requires Shaped(s) && slot < MAX_PROCS
  {
    var p := s.procs[slot];
    && p.used && !p.exiting && p.cr3 != 0 && p.pid != 1 && p.ppid != 0
    && !s.claimed[slot] && !OnOtherCpu(s, slot, c)
  }

  function FirstIdle(s: State, c: nat, from: nat): int
    requires Shaped(s)
    decreases MAX_PROCS - from
  {
    if from >= MAX_PROCS then NONE
    else if IdleCandidate(s, from, c) then from
    else FirstIdle(s, c, from + 1)
  }

  function FirstUnused(s: State, from: nat): int
    requires Shaped(s)
    decreases MAX_PROCS - from
  {
    if from >= MAX_PROCS then NONE
    else if !s.procs[from].used then from
    else FirstUnused(s, from + 1)
  }

  /** Syscall_proc_owner_has_other_live_locked. */
  predicate OtherLive(procs: seq<Proc>, owner: nat, slot: int) {
    owner != 0 && exists i | 0 <= i < |procs| && i != slot :: procs[i].used && procs[i].owner == owner
  }

  predicate OtherLiveNonThread(procs: seq<Proc>, owner: nat, slot: int) {
    owner != 0 &&
    exists i | 0 <= i < |procs| && i != slot :: procs[i].used && !procs[i].isThread && procs[i].owner == owner
  }

  // ---------------------------------------------------------------- the critical sections

  datatype Step =
    | Boot(cpu: nat, cr3: Cr3)               // ensure_current for the first process
    | ForkBegin(cpu: nat)
    | ForkClone(cpu: nat, child: Cr3)        // clone_address_space succeeded
    | ForkAbort(cpu: nat)                    // clone_address_space failed
    | ForkCommit(cpu: nat)
    | ExecBegin(cpu: nat)
    | ExecBuild(cpu: nat, image: Cr3)        // a new space, and its CR3 loaded
    | ExecLeave(cpu: nat)                    // back to the caller's CR3
    | ExecEnter(cpu: nat)                    // and again to the image's, for its stack
    | ExecAbort(cpu: nat)
    | ExecCommit(cpu: nat)
    | ThreadCreate(cpu: nat)
    | MarkExiting(slots: set<nat>)           // exit, thread exit, signals
    | TimerPreempt(cpu: nat)
    | IdleDispatch(cpu: nat)
    | PostSyscall(cpu: nat, resched: bool, sameOwner: bool)
    | LoadCr3(cpu: nat)                      // after the lock is dropped
    | FreeSpace(cpu: nat)                    // free_address_space, last of all

  function StepCpu(a: Step): nat {
    match a case MarkExiting(_) => 0 case _ => a.cpu
  }

  /** When a step may be taken. A CPU inside fork or exec always has a current slot
      (`ProcSafety.CallerRuns`), so asking for one at the commit excludes nothing. */
  predicate Enabled(s: State, a: Step)
    requires Shaped(s)
  {
    StepCpu(a) < MAX_CPUS &&
    match a
    case Boot(c, cr3) => (forall i | 0 <= i < MAX_PROCS :: !s.procs[i].used) && s.nextPid == 1 && cr3 != 0 && cr3 !in s.live
                         && s.current[c] == NONE && s.phase[c] == Ready
    case ForkBegin(c) => Running(s, c) && s.phase[c] == Ready
                         && !OtherLiveNonThread(s.procs, s.procs[s.current[c]].owner, s.current[c])
    case ForkClone(c, child) => s.phase[c] == Forking && child != 0 && child !in s.live
    case ForkAbort(c) => s.phase[c] == Forking
    case ForkCommit(c) => s.phase[c].ForkReady? && IsSlot(s.current[c])
    case ExecBegin(c) => Running(s, c) && s.phase[c] == Ready
                         && !OtherLive(s.procs, s.procs[s.current[c]].owner, s.current[c])
    case ExecBuild(c, image) => s.phase[c] == Execing && image != 0 && image !in s.live
    case ExecLeave(c) => s.phase[c].ExecBuilding? && IsSlot(s.current[c])
    case ExecEnter(c) => s.phase[c].ExecReady?
    case ExecAbort(c) => s.phase[c] == Execing || s.phase[c].ExecReady?
    case ExecCommit(c) => s.phase[c].ExecReady? && IsSlot(s.current[c])
    case ThreadCreate(c) => Running(s, c) && s.phase[c] == Ready
    case MarkExiting(slots) => forall i | i in slots :: i < MAX_PROCS && s.procs[i].used
    case TimerPreempt(c) => Running(s, c) && s.phase[c] == Ready
    case IdleDispatch(c) => !Running(s, c) && s.phase[c] == Ready
    case PostSyscall(c, _, _) => Running(s, c) && s.phase[c] == Ready
    case LoadCr3(c) => s.phase[c].Loading?
    case FreeSpace(c) => s.phase[c].Freeing?
  }

  /** Make `slot` current on CPU `c`. Its address space is loaded after the lock is dropped, and
      `gone`, if it is not 0, freed after that. */
  function SwitchTo(s: State, c: nat, slot: int, gone: Cr3): State
    requires Shaped(s) && c < MAX_CPUS && IsSlot(slot)
  {
    s.(current := s.current[c := slot], phase := s.phase[c := Loading(s.procs[slot].cr3, gone)])
  }

  function InstallChild(s: State, c: nat, child: Cr3): State
    requires Shaped(s) && c < MAX_CPUS && IsSlot(s.current[c])
  {
    var slot := FirstUnused(s, 0);
    if !IsSlot(slot) then s.(phase := s.phase[c := Ready], live := s.live - {child})
    else
      var parent := s.procs[s.current[c]];
      var p := Proc(true, false, true, false, s.nextPid, parent.owner, s.nextPid, child);
      s.(procs := s.procs[slot := p], claimed := s.claimed[slot := false],
         phase := s.phase[c := Ready], nextPid := s.nextPid + 1)
  }

  function InstallImage(s: State, c: nat, image: Cr3): State
    requires Shaped(s) && c < MAX_CPUS && IsSlot(s.current[c])
  {
    var slot := s.current[c];
    var p := s.procs[slot];
    s.(procs := s.procs[slot := p.(cr3 := image, ownsCr3 := true, isThread := false, owner := p.pid, exiting := false)],
       phase := s.phase[c := Loading(image, if p.ownsCr3 && p.cr3 != 0 && p.cr3 != image then p.cr3 else 0)])
  }

  /** thread_create does not reset the idle claim of the slot it takes. */
  function InstallThread(s: State, c: nat): State
    requires Shaped(s) && c < MAX_CPUS && IsSlot(s.current[c])
  {
    var slot := FirstUnused(s, 0);
    if !IsSlot(slot) then s
    else
      var parent := s.procs[s.current[c]];
      var p := Proc(true, false, false, true, s.nextPid, parent.ppid, parent.owner, parent.cr3);
      s.(procs := s.procs[slot := p], nextPid := s.nextPid + 1)
  }

  function Marked(s: State, slots: set<nat>): State
    requires Shaped(s)
  {
    s.(procs := seq(MAX_PROCS, i requires 0 <= i < MAX_PROCS =>
         if i in slots then s.procs[i].(exiting := true) else s.procs[i]))
  }

  /** The timer saves the interrupted context, CR3 included, before it chooses. */
  function Saved(s: State, c: nat): State
    requires Shaped(s) && c < MAX_CPUS && IsSlot(s.current[c])
  {
    s.(procs := s.procs[s.current[c] := s.procs[s.current[c]].(cr3 := s.hw[c])])
  }

  function Preempted(s: State, c: nat): State
    requires Shaped(s) && c < MAX_CPUS && IsSlot(s.current[c])
  {
    if s.procs[s.current[c]].exiting then s
    else
      var t := Saved(s, c);
      var next := PickNext(t, t.current[c], c);
      if !IsSlot(next) || next == t.current[c] then t
      else if t.procs[next].exiting then t
      else SwitchTo(t, c, next, 0)
  }

  function Dispatched(s: State, c: nat): State
    requires Shaped(s) && c < MAX_CPUS
  {
    var next := FirstIdle(s, c, 0);
    if !IsSlot(next) then s
    else SwitchTo(s, c, next, 0).(claimed := s.claimed[next := true])
  }

  /** The slot of an exiting current process is cleared and its CPU runs nothing. */
  function Cleared(s: State, c: nat): State
    requires Shaped(s) && c < MAX_CPUS && IsSlot(s.current[c])
  {
    var slot := s.current[c];
    s.(procs := s.procs[slot := EMPTY], claimed := s.claimed[slot := false], current := s.current[c := NONE])
  }

  /** The exiting slot owned its address space and no slot of its process is left. */
  predicate LastOwner(s: State, c: nat)
    requires Shaped(s) && c < MAX_CPUS && IsSlot(s.current[c])
  {
    var p := s.procs[s.current[c]];
    !OtherLive(s.procs, p.owner, s.current[c]) && p.ownsCr3 && p.cr3 != 0
  }

  /** Exit: clear the slot, choose the next one if there is any, and leave the space to be freed
      unless it is the one to load. */
  function Exited(s: State, c: nat): State
    requires Shaped(s) && c < MAX_CPUS && IsSlot(s.current[c])
  {
    var gone := s.procs[s.current[c]].cr3;
    var t := Cleared(s, c);
    var next := PickNext(t, NONE, c);
    if IsSlot(next) then SwitchTo(t, c, next, if LastOwner(s, c) && t.procs[next].cr3 != gone then gone else 0)
    else t.(phase := s.phase[c := if LastOwner(s, c) then Freeing(gone) else Ready])
  }

  function Posted(s: State, c: nat, resched: bool, sameOwner: bool): State
    requires Shaped(s) && c < MAX_CPUS && IsSlot(s.current[c])
  {
    if s.procs[s.current[c]].exiting then Exited(s, c)
    else
      var t := Saved(s, c);
      var cur := t.current[c];
      var next := if !resched then cur else if sameOwner then PickNextSameOwner(t, cur, c) else PickNext(t, cur, c);
      if IsSlot(next) && next != cur then SwitchTo(t, c, next, 0) else t
  }

  function Do(s: State, a: Step): State
    requires Shaped(s) && Enabled(s, a)
  {
    match a
    case Boot(c, cr3) =>
      s.(procs := s.procs[0 := Proc(true, false, true, false, 1, 0, 1, cr3)], claimed := s.claimed[0 := false],
         nextPid := 2, live := s.live + {cr3}, current := s.current[c := 0], hw := s.hw[c := cr3])
    case ForkBegin(c) => s.(phase := s.phase[c := Forking])
    case ForkClone(c, child) => s.(phase := s.phase[c := ForkReady(child)], live := s.live + {child})
    case ForkAbort(c) => s.(phase := s.phase[c := Ready])
    case ForkCommit(c) => InstallChild(s, c, s.phase[c].child)
    case ExecBegin(c) => s.(phase := s.phase[c := Execing])
    case ExecBuild(c, image) =>
      s.(phase := s.phase[c := ExecBuilding(image)], live := s.live + {image}, hw := s.hw[c := image])
    case ExecLeave(c) =>
      s.(phase := s.phase[c := ExecReady(s.phase[c].image)], hw := s.hw[c := s.procs[s.current[c]].cr3])
    case ExecEnter(c) =>
      s.(phase := s.phase[c := ExecBuilding(s.phase[c].image)], hw := s.hw[c := s.phase[c].image])
    case ExecAbort(c) =>
      s.(phase := s.phase[c := Ready],
         live := if s.phase[c].ExecReady? then s.live - {s.phase[c].image} else s.live)
    case ExecCommit(c) => InstallImage(s, c, s.phase[c].image)
    case ThreadCreate(c) => InstallThread(s, c)
    case MarkExiting(slots) => Marked(s, slots)
    case TimerPreempt(c) => Preempted(s, c)
    case IdleDispatch(c) => Dispatched(s, c)
    case PostSyscall(c, resched, sameOwner) => Posted(s, c, resched, sameOwner)
    case LoadCr3(c) =>
      var gone := s.phase[c].gone;
      s.(hw := s.hw[c := s.phase[c].next], phase := s.phase[c := if gone != 0 then Freeing(gone) else Ready])
    case FreeSpace(c) => s.(phase := s.phase[c := Ready], live := s.live - {s.phase[c].gone})
  }

  // ---------------------------------------------------------------- the invariant

  predicate RunsUsed(procs: seq<Proc>, r: int) { 0 <= r < |procs| && procs[r].used }

  /** Two CPUs do not conflict: different slots, and different processes unless one of the two
      slots is on its way out. */
  predicate Apart(procs: seq<Proc>, r: int, q: int)
    requires RunsUsed(procs, r) && RunsUsed(procs, q)
  {
    r != q && (procs[r].exiting || procs[q].exiting || procs[r].owner != procs[q].owner)
  }

  /** Every current slot is in use, on one CPU only, and no two CPUs run slots of one process
      unless one of them is on its way out. */
  predicate Dispatch(procs: seq<Proc>, current: seq<int>) {
    && (forall c | 0 <= c < |current| && current[c] != NONE :: RunsUsed(procs, current[c]))
    && (forall c, d | 0 <= c < |current| && 0 <= d < |current| && c != d && current[c] != NONE && current[d] != NONE ::
          Apart(procs, current[c], current[d]))
  }

  /** Pids are distinct and below the counter; nobody is owned by a pid that is a mere thread. */
  predicate Pids(procs: seq<Proc>, nextPid: nat) {
    && nextPid >= 1
    && (forall i | 0 <= i < |procs| && procs[i].used ::
          0 < procs[i].pid < nextPid && 0 < procs[i].owner < nextPid)
    && (forall i, j | 0 <= i < |procs| && 0 <= j < |procs| && i != j && procs[i].used && procs[j].used ::
          && procs[i].pid != procs[j].pid
          && (procs[j].owner != procs[j].pid ==> procs[i].owner != procs[j].pid))
  }

  /** Slots that share an address space belong to one process, and at most one owns it. */
  predicate Spaces(procs: seq<Proc>, live: set<Cr3>) {
    && (forall i | 0 <= i < |procs| && procs[i].used :: procs[i].cr3 != 0 && procs[i].cr3 in live)
    && (forall i, j | 0 <= i < |procs| && 0 <= j < |procs| && i != j && procs[i].used && procs[j].used
          && procs[i].cr3 == procs[j].cr3 ::
          procs[i].owner == procs[j].owner && !(procs[i].ownsCr3 && procs[j].ownsCr3))
  }

  /** What a CPU in this phase has in CR3, when it runs a slot with this space: the slot's own, the
      image exec works on, or, while a load is due, anything. */
  predicate LoadOk(ph: Phase, h: Cr3, cr3: Cr3) {
    match ph
    case Loading(next, _) => next == cr3
    case ExecBuilding(image) => h == image
    case _ => h == cr3
  }

  predicate Loaded(procs: seq<Proc>, current: seq<int>, phase: seq<Phase>, hw: seq<Cr3>) {
    |hw| == |current| == |phase| &&
    forall c | 0 <= c < |current| && current[c] != NONE ::
      0 <= current[c] < |procs| && LoadOk(phase[c], hw[c], procs[current[c]].cr3)
  }

  /** The address space that a CPU has built and not yet given to a slot, or has still to free. */
  function Pending(ph: Phase): Cr3 {
    match ph
    case ForkReady(child) => child
    case ExecBuilding(image) => image
    case ExecReady(image) => image
    case Loading(_, gone) => gone
    case Freeing(gone) => gone
    case _ => 0
  }

  predicate Exec(ph: Phase) { ph.Execing? || ph.ExecBuilding? || ph.ExecReady? }

  /** A CPU in this phase runs a slot. */
  predicate InCall(ph: Phase) { ph != Ready && !ph.Freeing? }

  /** A CPU inside a call runs its caller, and exec's caller stays alone in its process. */
  predicate Callers(procs: seq<Proc>, current: seq<int>, phase: seq<Phase>) {
    |phase| == |current| &&
    forall c | 0 <= c < |phase| && InCall(phase[c]) ::
      && current[c] != NONE && RunsUsed(procs, current[c])
      && (Exec(phase[c]) ==> !OtherLive(procs, procs[current[c]].owner, current[c]))
  }

  predicate HasPending(ph: Phase) { ph.ForkReady? || ph.ExecBuilding? || ph.ExecReady? || ph.Freeing? }

  /** A space that a CPU builds or has to free is allocated, is named by no slot and by no other CPU. */
  predicate Building(procs: seq<Proc>, phase: seq<Phase>, live: set<Cr3>) {
    && (forall c | 0 <= c < |phase| && HasPending(phase[c]) :: Pending(phase[c]) != 0)
    && (forall c | 0 <= c < |phase| && Pending(phase[c]) != 0 ::
          Pending(phase[c]) in live && !Named(procs, Pending(phase[c])))
    && (forall c, d | 0 <= c < |phase| && 0 <= d < |phase| && c != d && Pending(phase[c]) != 0 ::
          Pending(phase[c]) != Pending(phase[d]))
  }

  predicate Named(procs: seq<Proc>, cr3: Cr3) {
    exists i | 0 <= i < |procs| :: procs[i].used && procs[i].cr3 == cr3
  }

  predicate Inv(s: State) {
    match s
    case State(procs, current, claimed, phase, hw, nextPid, live) =>
      && Shaped(s)
      && Dispatch(procs, current)
      && Pids(procs, nextPid)
      && Spaces(procs, live)
      && Loaded(procs, current, phase, hw)
      && Callers(procs, current, phase)
      && Building(procs, phase, live)
  }
}
