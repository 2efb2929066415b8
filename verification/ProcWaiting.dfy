/** How long an eligible slot waits for a CPU: in runs where the CPU commits picks, and when the
    timer alone moves it. */
module ProcWaiting {
  import opened ProcTable
  import opened ProcSafety
  import opened ProcPicks
  import opened ProcRuns

  // ---------------------------------------------------------------- committed picks

  /** The step commits a pick of pick_next on CPU `c`. */
  predicate Commits(s: State, a: Step, c: nat)
    requires Shaped(s) && Enabled(s, a) && c < MAX_CPUS
  {
    || (a == PostSyscall(c, true, false) && !s.procs[s.current[c]].exiting)
    || (a == TimerPreempt(c) && Do(s, a).current[c] != s.current[c])
  }

  /** The current slot of CPU `c` survives the step, and no same-owner pick is made on it. */
  predicate Survives(s: State, a: Step, c: nat)
    requires Shaped(s) && c < MAX_CPUS
  {
    && Running(s, c)
    && (a.PostSyscall? && a.cpu == c ==> !s.procs[s.current[c]].exiting && !(a.resched && a.sameOwner))
  }

  ghost function CommitCount(run: seq<State>, steps: seq<Step>, c: nat, i: nat, j: nat): nat
    requires IsRun(run, steps) && c < MAX_CPUS && i <= j <= |steps|
  {
    if i == j then 0
    else CommitCount(run, steps, c, i, j - 1) + if Commits(run[j - 1], steps[j - 1], c) then 1 else 0
  }

  lemma StepCurrent(s: State, a: Step, c: nat)
    requires Inv(s) && Enabled(s, a) && c < MAX_CPUS && Survives(s, a, c)
    ensures Do(s, a).current[c] == if Commits(s, a, c) then PickNext(s, s.current[c], c) else s.current[c]
  {
    hide Dispatch, Pids, Spaces, Loaded, Callers, Building, PickNext, PickNextSameOwner, FirstUnused, FirstIdle, OtherLive;
    if s.phase[c] == Ready { StayInv(s, c); }
    if a.PostSyscall? || a.TimerPreempt? { StepCurrentOwn(s, a, c); }
  }

  lemma StepCurrentOwn(s: State, a: Step, c: nat)
    requires Inv(s) && Enabled(s, a) && c < MAX_CPUS && Survives(s, a, c) && (a.PostSyscall? || a.TimerPreempt?)
    ensures Do(s, a).current[c] == if Commits(s, a, c) then PickNext(s, s.current[c], c) else s.current[c]
  {
    hide Dispatch, Pids, Spaces, Loaded, Callers, Building, PickNext, PickNextSameOwner, OtherLive, LastOwner;
    if a.cpu == c {
      StayInv(s, c);
      PickNextOk(s, s.current[c], c);
      SelfPick(s, c);
    }
  }

  /** While its slot is in use, the scan always finds something. */
  lemma SelfPick(s: State, c: nat)
    requires Inv(s) && c < MAX_CPUS && Running(s, c)
    ensures IsSlot(PickNext(s, s.current[c], c))
  {
    CallerRuns(s, c);
    FirstEligibleOk(s, s.current[c], c, 1, MAX_PROCS);
  }

  lemma {:induction false} Waiting(run: seq<State>, steps: seq<Step>, c: nat, target: nat, i: nat, j: nat)
    requires IsRun(run, steps) && c < MAX_CPUS && target < MAX_PROCS && i <= j <= |steps|
    requires forall k | i <= k < j :: Shaped(run[k]) && Survives(run[k], steps[k], c) && Eligible(run[k], target, c)
    requires Shaped(run[i]) && Running(run[i], c)
    ensures Shaped(run[j]) && IsSlot(run[j].current[c])
    ensures (exists k :: i <= k <= j && run[k].current[c] == target) ||
            Ahead(run[j].current[c], target) + CommitCount(run, steps, c, i, j) <= Ahead(run[i].current[c], target)
    decreases j
  {
    hide Enabled, Do, PickNext, Eligible, Commits;
    RunInv(run, steps, j);
    if i < j {
      Waiting(run, steps, c, target, i, j - 1);
      RunInv(run, steps, j - 1);
      var s := run[j - 1];
      StepCurrent(s, steps[j - 1], c);
      SelfPick(s, c);
      if s.current[c] != target { PickProgress(s, s.current[c], c, target); }
    }
  }

  /** However other slots come and go on however many CPUs, a slot that stays eligible becomes current
      within MAX_PROCS - 1 committed picks of the CPU, as long as the CPU's current slot survives. */
  lemma BoundedWaiting(run: seq<State>, steps: seq<Step>, c: nat, target: nat, i: nat, j: nat)
    requires IsRun(run, steps) && c < MAX_CPUS && target < MAX_PROCS && i <= j <= |steps|
    requires forall k | i <= k < j :: Shaped(run[k]) && Survives(run[k], steps[k], c) && Eligible(run[k], target, c)
    requires Shaped(run[i]) && Running(run[i], c) && CommitCount(run, steps, c, i, j) >= MAX_PROCS - 1
    ensures exists k :: i <= k <= j && run[k].current[c] == target
  {
    hide Survives, Eligible;
    Waiting(run, steps, c, target, i, j);
    assert Ahead(run[i].current[c], target) < MAX_PROCS;
    if Ahead(run[j].current[c], target) == 0 { assert run[j].current[c] == target; }
  }

  // ---------------------------------------------------------------- the timer alone

  /** One due tick of CPU `c`, with the load that follows a switch. */
  function Tick(s: State, c: nat): State
    requires Shaped(s) && c < MAX_CPUS && Enabled(s, TimerPreempt(c))
  {
    var t := Do(s, TimerPreempt(c));
    if t.phase[c].Loading? then Do(t, LoadCr3(c)) else t
  }

  /** The CPU is in user mode on a slot, in a state that a run can reach. */
  predicate Ticking(s: State, c: nat) {
    Inv(s) && c < MAX_CPUS && Running(s, c) && s.phase[c] == Ready
  }

  function Moved(s: State, c: nat, next: nat): State
    requires Shaped(s) && c < MAX_CPUS && next < MAX_PROCS
  {
    s.(current := s.current[c := next], hw := s.hw[c := s.procs[next].cr3])
  }

  /** A tick moves the CPU to the pick, and stays where it is if the pick or its own slot is exiting. */
  lemma TickIs(s: State, c: nat)
    requires Ticking(s, c)
    ensures var cur, next := s.current[c], PickNext(s, s.current[c], c);
      && IsSlot(next) && Ticking(Tick(s, c), c)
      && Tick(s, c) == if s.procs[cur].exiting || next == cur || s.procs[next].exiting then s else Moved(s, c, next)
  {
    hide Dispatch, Pids, Spaces, Loaded, Callers, Building, PickNext, OtherLive;
    StayInv(s, c);
    SelfPick(s, c);
    StepInv(s, TimerPreempt(c));
    var u := Do(s, TimerPreempt(c));
    if u.phase[c].Loading? {
      StepInv(u, LoadCr3(c));
      assert u.phase[c := Ready] == s.phase;
      CallerRuns(Do(u, LoadCr3(c)), c);
    }
  }

  /** What every tick leaves alone. */
  predicate SameBut(s: State, t: State, c: nat) {
    && Shaped(s) && Shaped(t) && c < MAX_CPUS && IsSlot(s.current[c]) && IsSlot(t.current[c])
    && t.procs == s.procs && forall d | 0 <= d < MAX_CPUS && d != c :: t.current[d] == s.current[d]
  }

  /** The states after 0, 1, 2, ... due ticks and nothing else. */
  function Ticks(s: State, c: nat, n: nat): (t: State)
    requires Ticking(s, c)
    ensures Ticking(t, c) && SameBut(s, t, c)
  {
    if n == 0 then s
    else
      TickIs(Ticks(s, c, n - 1), c);
      Tick(Ticks(s, c, n - 1), c)
  }

  /** Who is eligible for CPU `c` does not depend on what `c` itself runs. */
  lemma EligibleSame(s: State, t: State, c: nat, slot: nat)
    requires SameBut(s, t, c) && slot < MAX_PROCS
    ensures Eligible(t, slot, c) == Eligible(s, slot, c)
  {
    forall d | 0 <= d < MAX_CPUS && d != c ensures Blocks(t, d, slot) == Blocks(s, d, slot) {}
  }

  /** An eligible slot that is marked exiting. */
  predicate Doomed(s: State, c: nat, slot: nat)
    requires Shaped(s) && slot < MAX_PROCS
  {
    Eligible(s, slot, c) && s.procs[slot].exiting
  }

  /** No doomed slot lies after the current slot up to and including the target. */
  predicate ClearWay(s: State, c: nat, target: nat)
    requires Shaped(s) && c < MAX_CPUS && IsSlot(s.current[c]) && target < MAX_PROCS
  {
    forall k | 0 <= k < MAX_PROCS && 0 < Ahead(s.current[c], k) <= Ahead(s.current[c], target) :: !Doomed(s, c, k)
  }

  lemma WayShortens(s: State, t: State, c: nat, target: nat)
    requires SameBut(s, t, c) && target < MAX_PROCS && ClearWay(s, c, target)
    requires Ahead(s.current[c], t.current[c]) + Ahead(t.current[c], target) == Ahead(s.current[c], target)
    ensures ClearWay(t, c, target)
  {
    hide Eligible;
    forall k | 0 <= k < MAX_PROCS && 0 < Ahead(t.current[c], k) <= Ahead(t.current[c], target) ensures !Doomed(t, c, k) {
      EligibleSame(s, t, c, k);
      assert 0 < Ahead(s.current[c], k) <= Ahead(s.current[c], target);
    }
  }

  lemma {:induction false} TicksCompose(s: State, c: nat, n: nat)
    requires Ticking(s, c)
    ensures Ticking(Tick(s, c), c) && Ticks(s, c, n + 1) == Ticks(Tick(s, c), c, n)
  {
    hide Ticking, Tick;
    TickIs(s, c);
    if n > 0 { TicksCompose(s, c, n - 1); }
  }

  /** One tick on a clear way. */
  lemma OneTick(s: State, c: nat, target: nat)
    requires Ticking(s, c) && target < MAX_PROCS && s.current[c] != target
    requires Eligible(s, target, c) && !s.procs[s.current[c]].exiting && ClearWay(s, c, target)
    ensures var t := Tick(s, c);
      && Ticking(t, c) && Ahead(t.current[c], target) < Ahead(s.current[c], target)
      && Eligible(t, target, c) && !t.procs[t.current[c]].exiting && ClearWay(t, c, target)
  {
    hide Dispatch, Pids, Spaces, Loaded, Callers, Building, PickNext, Tick, Eligible;
    var next := PickNext(s, s.current[c], c);
    TickIs(s, c);
    PickProgress(s, s.current[c], c, target);
    assert !Doomed(s, c, next);
    var t := Tick(s, c);
    assert SameBut(s, t, c);
    EligibleSame(s, t, c, target);
    WayShortens(s, t, c, target);
  }

  /** With a clear way, the timer alone reaches the target in as many ticks as it is slots ahead. */
  lemma {:induction false} TimerReaches(s: State, c: nat, target: nat) returns (n: nat)
    requires Ticking(s, c) && target < MAX_PROCS
    requires s.current[c] == target || (Eligible(s, target, c) && !s.procs[s.current[c]].exiting && ClearWay(s, c, target))
    ensures n <= Ahead(s.current[c], target) && Ticks(s, c, n).current[c] == target
    decreases Ahead(s.current[c], target)
  {
    hide Dispatch, Pids, Spaces, Loaded, Callers, Building, Eligible, ClearWay, PickNext, Tick;
    if s.current[c] == target { return 0; }
    OneTick(s, c, target);
    var t := Tick(s, c);
    n := TimerReaches(t, c, target);
    TicksCompose(s, c, n);
    n := n + 1;
  }

  /** And a doomed slot on the way is never passed, however many ticks go by. */
  lemma {:induction false} NeverPasses(s: State, c: nat, doomed: nat, n: nat)
    requires Ticking(s, c) && doomed < MAX_PROCS && Doomed(s, c, doomed) && doomed != s.current[c]
    ensures var t := Ticks(s, c, n);
      t.current[c] != doomed &&
      Ahead(s.current[c], t.current[c]) + Ahead(t.current[c], doomed) == Ahead(s.current[c], doomed)
  {
    hide Ticking, Tick, Eligible, PickNext;
    if n > 0 {
      NeverPasses(s, c, doomed, n - 1);
      var t := Ticks(s, c, n - 1);
      EligibleSame(s, t, c, doomed);
      TickBefore(t, c, doomed);
    }
  }

  lemma TickCurrent(s: State, c: nat)
    requires Ticking(s, c)
    ensures var cur, next := s.current[c], PickNext(s, s.current[c], c);
      IsSlot(cur) && IsSlot(next) && Shaped(Tick(s, c))
      && Tick(s, c).current[c] == if s.procs[cur].exiting || next == cur || s.procs[next].exiting then cur else next
  {
    hide Dispatch, Pids, Spaces, Loaded, Callers, Building, PickNext, Tick;
    TickIs(s, c);
  }

  lemma TickBefore(s: State, c: nat, doomed: nat)
    requires Ticking(s, c) && doomed < MAX_PROCS && Doomed(s, c, doomed) && doomed != s.current[c]
    ensures var t := Tick(s, c);
      Shaped(t) && IsSlot(t.current[c]) && t.current[c] != doomed && Ahead(s.current[c], t.current[c]) + Ahead(t.current[c], doomed) == Ahead(s.current[c], doomed)
  {
    TickCurrent(s, c);
    var cur, next := s.current[c], PickNext(s, s.current[c], c);
    hide Inv, Ticking, PickNext, Tick, Eligible, Ahead, Enabled;
    PickProgress(s, cur, c, doomed);
    StaysBefore(cur, next, doomed, s.procs[cur].exiting || next == cur || s.procs[next].exiting);
  }

  lemma StaysBefore(cur: nat, next: nat, doomed: nat, stays: bool)
    requires cur < MAX_PROCS && next < MAX_PROCS && doomed < MAX_PROCS && doomed != cur && (stays || next != doomed)
    requires Ahead(cur, next) + Ahead(next, doomed) == Ahead(cur, doomed)
    ensures var t := if stays then cur else next;
      t != doomed && Ahead(cur, t) + Ahead(t, doomed) == Ahead(cur, doomed)
  {}

  lemma {:induction false} NeverLeaves(s: State, c: nat, n: nat)
    requires Ticking(s, c) && s.procs[s.current[c]].exiting
    ensures Ticks(s, c, n).current[c] == s.current[c]
  {
    hide Dispatch, Pids, Spaces, Loaded, Callers, Building, PickNext, Tick, Eligible;
    if n > 0 {
      NeverLeaves(s, c, n - 1);
      TickIs(Ticks(s, c, n - 1), c);
    }
  }

  /** Exactly when the timer alone brings an eligible slot onto the CPU: it is there already, or
      neither the current slot nor any eligible slot on the way to it is marked exiting. */
  lemma TimerReachesIff(s: State, c: nat, target: nat)
    requires Ticking(s, c) && target < MAX_PROCS && Eligible(s, target, c)
    ensures (exists n: nat :: Ticks(s, c, n).current[c] == target) <==>
            s.current[c] == target || (!s.procs[s.current[c]].exiting && ClearWay(s, c, target))
  {
    hide Dispatch, Pids, Spaces, Loaded, Callers, Building, PickNext, Tick, Eligible;
    if s.current[c] == target || (!s.procs[s.current[c]].exiting && ClearWay(s, c, target)) {
      var n := TimerReaches(s, c, target);
    } else if s.procs[s.current[c]].exiting {
      forall n: nat ensures Ticks(s, c, n).current[c] != target { NeverLeaves(s, c, n); }
    } else {
      var k :| 0 <= k < MAX_PROCS && 0 < Ahead(s.current[c], k) <= Ahead(s.current[c], target) && Doomed(s, c, k);
      forall n: nat ensures Ticks(s, c, n).current[c] != target { NeverPasses(s, c, k, n); }
    }
  }
}
