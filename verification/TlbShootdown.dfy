/** The TLB shootdown protocol: one requester at a time under a lock, a single published
    request, inter-processor interrupts and acknowledged generations, interleaved step by step
    under sequential consistency (compare section 4.10.5 of the Intel SDM, volume 3A). */
module TlbShootdown {
  import opened Common

  datatype Kind = NoFlush | PageFlush | FullFlush

  /** How far a CPU is in its interrupt handler, with what it has read. */
  datatype Handler =
    | Idle
    | Entered
    | GotVirt(virt: nat)
    | GotKind(virt: nat, kind: Kind)
    | GotGen(virt: nat, kind: Kind, gen: nat)
    | Flushed(gen: nat)

  /** How far the requester is. `i` runs over the targets. */
  datatype Point =
    | Locked                 // holds the lock
    | Bumped                 // has its generation
    | VirtStored
    | Resetting(i: nat)      // kind stored: the request is published
    | Sending(i: nat)
    | Waiting(i: nat)
    | Returned               // kind cleared, result known

  /** `since` is the length of the flush log when the request was published; `settled` records
      whether every interrupt was settled when the lock was taken. */
  datatype Request = Request(cpu: nat, kind: Kind, virt: nat, targets: seq<nat>,
                             gen: nat, ok: bool, point: Point, since: nat, settled: bool)

  /** A TLB flush that a CPU has performed. */
  datatype Flush = Flush(cpu: nat, kind: Kind, virt: nat)

  datatype State = State(gen: nat, virt: nat, kind: Kind, ack: seq<nat>, pending: seq<bool>,
                         handler: seq<Handler>, holder: Option<Request>, log: seq<Flush>)

  datatype Step =
    | Acquire(cpu: nat, kind: Kind, virt: nat, targets: seq<nat>)
    | Advance(good: bool)    // the requester's next store, send or look; `good`: sent, acknowledged
    | Release
    | Interrupt(cpu: nat)    // a pending shootdown interrupt is taken
    | Handle(cpu: nat)       // the handler's next load, flush or store

  const PAGE_SIZE: nat := 4096

  /** The address the requester publishes: the page that holds `virt`. */
  function PageBase(virt: nat): (base: nat)
    ensures base % PAGE_SIZE == 0 && base <= virt < base + PAGE_SIZE
  {
    virt / PAGE_SIZE * PAGE_SIZE
  }

  /** The interrupt may still acknowledge a generation it has not read yet. */
  predicate Unread(h: Handler) { h.Entered? || h.GotVirt? || h.GotKind? }

  predicate SettledCpu(s: State, c: nat)
    requires Shaped(s) && c < |s.ack|
  {
    !s.pending[c] && !Unread(s.handler[c])
  }

  /** No shootdown interrupt is waiting or has yet to read the generation. */
  predicate Settled(s: State)
    requires Shaped(s)
  {
    forall c | 0 <= c < |s.ack| :: SettledCpu(s, c)
  }

  predicate Shaped(s: State) { |s.pending| == |s.ack| == |s.handler| }

  /** The other online CPUs, each once. */
  predicate TargetsOk(s: State, cpu: nat, targets: seq<nat>) {
    && targets != [] && cpu < |s.ack|
    && (forall i | 0 <= i < |targets| :: targets[i] < |s.ack| && targets[i] != cpu)
    && (forall i, j | 0 <= i < j < |targets| :: targets[i] != targets[j])
  }

  predicate Enabled(s: State, a: Step)
    requires Shaped(s)
  {
    match a
    case Acquire(cpu, kind, virt, targets) => s.holder == None && kind != NoFlush && TargetsOk(s, cpu, targets)
    case Advance(good) =>
      && s.holder.Some? && s.holder.value.point != Returned && CursorOk(s.holder.value)
      && TargetsOk(s, s.holder.value.cpu, s.holder.value.targets)
      && (s.holder.value.point.Waiting? && good ==>
            s.ack[s.holder.value.targets[s.holder.value.point.i]] >= s.holder.value.gen)
    case Release => s.holder.Some? && s.holder.value.point == Returned
    case Interrupt(c) => c < |s.ack| && s.pending[c] && s.handler[c] == Idle
    case Handle(c) => c < |s.ack| && s.handler[c] != Idle
  }

  predicate CursorOk(r: Request) {
    match r.point
    case Resetting(i) => i < |r.targets|
    case Sending(i) => i < |r.targets|
    case Waiting(i) => i < |r.targets|
    case _ => true
  }

  function WithPoint(s: State, r: Request, p: Point): State { s.(holder := Some(r.(point := p))) }

  /** SMP_issue_tlb_shootdown, one shared access at a time. */
  function Advanced(s: State, good: bool): State
    requires Shaped(s) && Enabled(s, Advance(good))
  {
    var r := s.holder.value;
    match r.point
    case Locked => s.(gen := s.gen + 1, holder := Some(r.(gen := s.gen + 1, point := Bumped)))
    case Bumped => WithPoint(s.(virt := PageBase(r.virt)), r, VirtStored)
    case VirtStored => s.(kind := r.kind, holder := Some(r.(point := Resetting(0), since := |s.log|)))
    case Resetting(i) =>
      WithPoint(s.(ack := s.ack[r.targets[i] := if r.gen == 0 then 0 else r.gen - 1]), r,
                if i + 1 < |r.targets| then Resetting(i + 1) else Sending(0))
    case Sending(i) =>
      var next := if i + 1 < |r.targets| then Sending(i + 1) else Waiting(0);
      if good then WithPoint(s.(pending := s.pending[r.targets[i] := true]), r, next)
      else s.(ack := s.ack[r.targets[i] := r.gen], holder := Some(r.(ok := false, point := next)))
    case Waiting(i) =>
      var r' := r.(ok := r.ok && good);
      if i + 1 < |r.targets| then s.(holder := Some(r'.(point := Waiting(i + 1))))
      else s.(kind := NoFlush, holder := Some(r'.(point := Returned)))
  }

  /** SMP_ipi_tlb_handler, one shared access at a time. */
  function Handled(s: State, c: nat): State
    requires Shaped(s) && Enabled(s, Handle(c))
  {
    match s.handler[c]
    case Idle => s
    case Entered => s.(handler := s.handler[c := GotVirt(s.virt)])
    case GotVirt(v) => s.(handler := s.handler[c := GotKind(v, s.kind)])
    case GotKind(v, k) => s.(handler := s.handler[c := GotGen(v, k, s.gen)])
    case GotGen(v, k, g) =>
      s.(handler := s.handler[c := Flushed(g)], log := if k == NoFlush then s.log else s.log + [Flush(c, k, v)])
    case Flushed(g) => s.(handler := s.handler[c := Idle], ack := s.ack[c := g])
  }

  function Do(s: State, a: Step): State
    requires Shaped(s) && Enabled(s, a)
  {
    match a
    case Acquire(cpu, kind, virt, targets) =>
      s.(holder := Some(Request(cpu, kind, virt, targets, 0, true, Locked, 0, Settled(s))))
    case Advance(good) => Advanced(s, good)
    case Release => s.(holder := None)
    case Interrupt(c) => s.(pending := s.pending[c := false], handler := s.handler[c := Entered])
    case Handle(c) => Handled(s, c)
  }

  // ---------------------------------------------------------------- what a request promises

  /** The flush discards every translation the request names: all of them, or those of the page that
      holds the requested address. */
  predicate Covers(f: Flush, r: Request) {
    || f.kind == FullFlush
    || (f.kind == PageFlush && r.kind == PageFlush && f.virt % PAGE_SIZE == 0 && f.virt <= r.virt < f.virt + PAGE_SIZE)
  }

  /** CPU `c` has performed a covering flush since the request was published. */
  predicate FlushedSince(s: State, r: Request, c: nat) {
    exists j | r.since <= j < |s.log| :: s.log[j].cpu == c && Covers(s.log[j], r)
  }

  predicate AllFlushed(s: State, r: Request) {
    forall t | t in r.targets :: FlushedSince(s, r, t)
  }

  // ---------------------------------------------------------------- the invariant

  function HandlerGen(h: Handler): nat {
    match h case GotGen(_, _, g) => g case Flushed(g) => g case _ => 0
  }

  /** No acknowledgement is ahead of the current generation. */
  predicate GenerationsOk(s: State)
    requires Shaped(s)
  {
    forall c | 0 <= c < |s.ack| :: s.ack[c] <= s.gen && HandlerGen(s.handler[c]) <= s.gen
  }

  predicate AfterPublish(p: Point) { p.Resetting? || p.Sending? || p.Waiting? }

  predicate RequestOk(s: State, r: Request)
    requires Shaped(s)
  {
    && TargetsOk(s, r.cpu, r.targets) && CursorOk(r) && r.kind != NoFlush
    && (r.point != Locked ==> r.gen == s.gen && r.gen > 0)
    && (r.point.VirtStored? || AfterPublish(r.point) ==> s.virt == PageBase(r.virt))
    && (if AfterPublish(r.point) then s.kind == r.kind else s.kind == NoFlush)
    && (AfterPublish(r.point) || r.point == Returned ==> r.since <= |s.log|)
  }

  /** What is known of CPU `c` while a request that started settled is under way. */
  predicate CpuOk(s: State, r: Request, c: nat)
    requires Shaped(s) && c < |s.ack|
  {
    match r.point
    case Locked => SettledCpu(s, c)
    case Bumped => Quiet(s, r, c)
    case VirtStored => Quiet(s, r, c)
    case Resetting(i) => Quiet(s, r, c) && (forall j | 0 <= j < i && j < |r.targets| && r.targets[j] == c :: s.ack[c] < r.gen)
    case Sending(_) => Answering(s, r, c)
    case Waiting(i) => Answering(s, r, c) && (forall j | 0 <= j < i && j < |r.targets| && r.targets[j] == c && r.ok :: FlushedSince(s, r, c))
    case Returned => r.ok && c in r.targets ==> FlushedSince(s, r, c)
  }

  /** Settled, and any handler still running has read an older generation. */
  predicate Quiet(s: State, r: Request, c: nat)
    requires Shaped(s) && c < |s.ack|
  {
    SettledCpu(s, c) && (s.handler[c] != Idle ==> HandlerGen(s.handler[c]) < r.gen)
  }

  /** A handler of this request has read this request; an acknowledgement means a flush. */
  predicate Answering(s: State, r: Request, c: nat)
    requires Shaped(s) && c < |s.ack|
  {
    && (c in r.targets && s.ack[c] >= r.gen ==> !r.ok || FlushedSince(s, r, c))
    && match s.handler[c]
       case Idle => true
       case Entered => true
       case GotVirt(v) => v == s.virt
       case GotKind(v, k) => v == s.virt && k == s.kind
       case GotGen(v, k, g) => g < r.gen || (v == s.virt && k == s.kind)
       case Flushed(g) => g < r.gen || FlushedSince(s, r, c)
  }

  predicate Inv(s: State) {
    && Shaped(s) && GenerationsOk(s)
    && (s.holder == None ==> s.kind == NoFlush)
    && (s.holder.Some? ==> RequestOk(s, s.holder.value))
    && (s.holder.Some? && s.holder.value.settled ==> forall c | 0 <= c < |s.ack| :: CpuOk(s, s.holder.value, c))
  }

  lemma FlushedStays(s: State, s': State, r: Request, r': Request, c: nat)
    requires FlushedSince(s, r, c) && s.log <= s'.log
    requires r'.since == r.since && r'.kind == r.kind && r'.virt == r.virt
    ensures FlushedSince(s', r', c)
  {
    var j :| r.since <= j < |s.log| && s.log[j].cpu == c && Covers(s.log[j], r);
    assert s'.log[j] == s.log[j] && Covers(s'.log[j], r');
  }

  lemma AcquireInv(s: State, a: Step)
    requires Inv(s) && Enabled(s, a) && a.Acquire?
    ensures Inv(Do(s, a))
  {
    var s' := Do(s, a);
    if Settled(s) {
      forall c | 0 <= c < |s.ack| ensures CpuOk(s', s'.holder.value, c) {
        assert SettledCpu(s, c);
      }
    }
  }

  lemma InterruptInv(s: State, a: Step)
    requires Inv(s) && Enabled(s, a) && a.Interrupt?
    ensures Inv(Do(s, a))
  {
    var s' := Do(s, a);
    if s.holder.Some? && s.holder.value.settled {
      var r := s.holder.value;
      forall c | 0 <= c < |s.ack| ensures CpuOk(s', r, c) {
        assert CpuOk(s, r, c) && CpuOk(s, r, a.cpu);
        SameFlushed(s, s', r, r, c);
      }
    }
  }

  lemma HandleInv(s: State, a: Step)
    requires Inv(s) && Enabled(s, a) && a.Handle?
    ensures Inv(Do(s, a))
  {
    var s' := Do(s, a);
    assert GenerationsOk(s');
    if s.holder.Some? && s.holder.value.settled {
      var r := s.holder.value;
      forall c | 0 <= c < |s.ack| ensures CpuOk(s', r, c) {
        assert CpuOk(s, r, c);
        if FlushedSince(s, r, c) { FlushedStays(s, s', r, r, c); }
        if c == a.cpu { HandledOk(s, r, c); }
      }
    }
  }

  /** The handler's own CPU keeps its promise; the flush of a current request is the one it asks for. */
  lemma HandledOk(s: State, r: Request, c: nat)
    requires Inv(s) && Enabled(s, Handle(c)) && s.holder == Some(r) && CpuOk(s, r, c)
    ensures CpuOk(Handled(s, c), r, c)
  {
    var s' := Handled(s, c);
    if FlushedSince(s, r, c) { FlushedStays(s, s', r, r, c); }
    if s.handler[c].GotGen? && (r.point.Sending? || r.point.Waiting?) && s.handler[c].gen >= r.gen {
      assert s'.log[|s.log|] == Flush(c, r.kind, PageBase(r.virt)) && Covers(s'.log[|s.log|], r);
    }
  }

  lemma AdvanceGenerations(s: State, good: bool)
    requires Inv(s) && Enabled(s, Advance(good))
    ensures Shaped(Advanced(s, good)) && GenerationsOk(Advanced(s, good))
  {
    hide CpuOk, FlushedSince, PageBase;
  }

  lemma AdvanceRequest(s: State, good: bool)
    requires Inv(s) && Enabled(s, Advance(good))
    ensures RequestOk(Advanced(s, good), Advanced(s, good).holder.value)
  {
    AdvanceTargets(s, good);
    hide CpuOk, FlushedSince, GenerationsOk, PageBase, Settled, TargetsOk;
  }

  lemma AdvanceTargets(s: State, good: bool)
    requires Inv(s) && Enabled(s, Advance(good))
    ensures var s' := Advanced(s, good);
      Shaped(s') && s'.holder.Some? && TargetsOk(s', s'.holder.value.cpu, s'.holder.value.targets)
  {
    hide CpuOk, FlushedSince, GenerationsOk, PageBase, Settled, RequestOk;
    assert |Advanced(s, good).ack| == |s.ack|;
  }

  lemma AdvanceInv(s: State, a: Step)
    requires Inv(s) && Enabled(s, a) && a.Advance?
    ensures Inv(Do(s, a))
  {
    AdvanceGenerations(s, a.good);
    AdvanceRequest(s, a.good);
    var s' := Do(s, a);
    var r, r' := s.holder.value, s'.holder.value;
    assert r.settled ==> forall c | 0 <= c < |s.ack| :: CpuOk(s, r, c);
    forall c | 0 <= c < |s.ack| && r.settled ensures CpuOk(s', r', c) {
      hide CpuOk, RequestOk, GenerationsOk, TargetsOk;
      AdvancedOk(s, a.good, c);
    }
    hide CpuOk, RequestOk, GenerationsOk, TargetsOk;
  }

  lemma AdvancedOk(s: State, good: bool, c: nat)
    requires Inv(s) && Enabled(s, Advance(good)) && c < |s.ack|
    requires CpuOk(s, s.holder.value, c)
    ensures Shaped(Advanced(s, good)) && c < |Advanced(s, good).ack|
    ensures CpuOk(Advanced(s, good), Advanced(s, good).holder.value, c)
  {
    match s.holder.value.point {
      case Resetting(_) => ResetOk(s, good, c);
      case Sending(_) => SendOk(s, good, c);
      case Waiting(_) => WaitOk(s, good, c);
      case _ => PublishOk(s, good, c);
    }
  }

  lemma PublishOk(s: State, good: bool, c: nat)
    requires Inv(s) && Enabled(s, Advance(good)) && c < |s.ack|
    requires CpuOk(s, s.holder.value, c) && !AfterPublish(s.holder.value.point)
    ensures Shaped(Advanced(s, good)) && c < |Advanced(s, good).ack|
    ensures CpuOk(Advanced(s, good), Advanced(s, good).holder.value, c)
  {}

  lemma ResetOk(s: State, good: bool, c: nat)
    requires Inv(s) && Enabled(s, Advance(good)) && c < |s.ack|
    requires CpuOk(s, s.holder.value, c) && s.holder.value.point.Resetting?
    ensures Shaped(Advanced(s, good)) && c < |Advanced(s, good).ack|
    ensures CpuOk(Advanced(s, good), Advanced(s, good).holder.value, c)
  {
    hide FlushedSince;
  }

  lemma SendOk(s: State, good: bool, c: nat)
    requires Inv(s) && Enabled(s, Advance(good)) && c < |s.ack|
    requires CpuOk(s, s.holder.value, c) && s.holder.value.point.Sending?
    ensures Shaped(Advanced(s, good)) && c < |Advanced(s, good).ack|
    ensures CpuOk(Advanced(s, good), Advanced(s, good).holder.value, c)
  {
    var s' := Advanced(s, good);
    SameFlushed(s, s', s.holder.value, s'.holder.value, c);
    hide FlushedSince;
  }

  lemma WaitOk(s: State, good: bool, c: nat)
    requires Inv(s) && Enabled(s, Advance(good)) && c < |s.ack|
    requires CpuOk(s, s.holder.value, c) && s.holder.value.point.Waiting?
    ensures Shaped(Advanced(s, good)) && c < |Advanced(s, good).ack|
    ensures CpuOk(Advanced(s, good), Advanced(s, good).holder.value, c)
  {
    var s' := Advanced(s, good);
    SameFlushed(s, s', s.holder.value, s'.holder.value, c);
    hide FlushedSince;
  }

  lemma SameFlushed(s: State, s': State, r: Request, r': Request, c: nat)
    requires s.log == s'.log && r'.since == r.since && r'.kind == r.kind && r'.virt == r.virt
    ensures FlushedSince(s, r, c) == FlushedSince(s', r', c)
  {
    if FlushedSince(s, r, c) { FlushedStays(s, s', r, r', c); }
    if FlushedSince(s', r', c) { FlushedStays(s', s, r', r, c); }
  }

  lemma StepInv(s: State, a: Step)
    requires Inv(s) && Enabled(s, a)
    ensures Inv(Do(s, a))
  {
    match a {
      case Acquire(_, _, _, _) => AcquireInv(s, a);
      case Advance(_) => AdvanceInv(s, a);
      case Release =>
      case Interrupt(_) => InterruptInv(s, a);
      case Handle(_) => HandleInv(s, a);
    }
  }

  // ---------------------------------------------------------------- runs

  ghost predicate Next(s: State, s': State) {
    Shaped(s) && exists a :: Enabled(s, a) && s' == Do(s, a)
  }

  ghost predicate IsPath(run: seq<State>) {
    run != [] && forall k | 0 <= k < |run| - 1 :: Next(run[k], run[k + 1])
  }

  /** At boot nothing is published, pending or held. */
  predicate Initial(s: State) {
    && Shaped(s) && s.kind == NoFlush && s.holder == None && s.log == []
    && forall c | 0 <= c < |s.ack| :: s.ack[c] == 0 && !s.pending[c] && s.handler[c] == Idle
  }

  lemma {:induction false} PathInv(run: seq<State>, k: nat)
    requires IsPath(run) && Inv(run[0]) && k < |run|
    ensures Inv(run[k])
  {
    if k > 0 {
      PathInv(run, k - 1);
      assert Next(run[k - 1], run[k]);
      var a :| Enabled(run[k - 1], a) && run[k] == Do(run[k - 1], a);
      StepInv(run[k - 1], a);
    }
  }

  /** In every run from boot, no acknowledgement is ever ahead of the generation. */
  lemma AckBound(run: seq<State>, k: nat, c: nat)
    requires IsPath(run) && Initial(run[0]) && k < |run| && c < |run[k].ack|
    ensures run[k].ack[c] <= run[k].gen
  {
    PathInv(run, k);
  }

  lemma {:induction false} GenerationMonotone(run: seq<State>, i: nat, j: nat)
    requires IsPath(run) && i <= j < |run|
    ensures run[i].gen <= run[j].gen
  {
    if i < j {
      GenerationMonotone(run, i, j - 1);
      assert Next(run[j - 1], run[j]);
    }
  }

  /** From a free lock to a request that has its generation, the counter has moved. */
  lemma {:induction false} GenerationTaken(run: seq<State>, i: nat, j: nat)
    requires IsPath(run) && i <= j < |run|
    requires run[i].holder == None && run[j].holder.Some? && run[j].holder.value.point != Locked
    ensures run[i].gen < run[j].gen
  {
    assert i < j && Next(run[j - 1], run[j]);
    if run[j - 1].holder.Some? && run[j - 1].holder.value.point != Locked {
      GenerationTaken(run, i, j - 1);
    } else {
      GenerationMonotone(run, i, j - 1);
    }
  }

  /** Generations strictly increase: of two requests separated by a release, the later has the larger. */
  lemma GenerationsIncrease(run: seq<State>, i: nat, k: nat, j: nat)
    requires IsPath(run) && Inv(run[0]) && i <= k <= j < |run|
    requires run[i].holder.Some? && run[i].holder.value.point != Locked
    requires run[k].holder == None
    requires run[j].holder.Some? && run[j].holder.value.point != Locked
    ensures run[i].holder.value.gen < run[j].holder.value.gen
  {
    PathInv(run, i);
    PathInv(run, j);
    GenerationMonotone(run, i, k);
    GenerationTaken(run, k, j);
  }

  // ---------------------------------------------------------------- one whole call

  /** The run is one call of the shootdown, from taking the lock to having a result. */
  ghost predicate IsCall(run: seq<State>) {
    && IsPath(run) && |run| > 1 && run[0].holder == None
    && (forall k | 0 < k < |run| :: run[k].holder.Some?)
    && run[|run| - 1].holder.value.point == Returned
  }

  function Answer(run: seq<State>): Request
    requires run != [] && run[|run| - 1].holder.Some?
  {
    run[|run| - 1].holder.value
  }

  /** The request at step `k` of the call was settled or not at the start, and, once it has been
      published, that was at some step of this call with the log as long as `since`. */
  ghost predicate Dated(run: seq<State>, k: nat)
    requires 0 < k < |run| && run[k].holder.Some?
  {
    var r := run[k].holder.value;
    && Shaped(run[0]) && r.settled == Settled(run[0])
    && (AfterPublish(r.point) || r.point == Returned ==> exists p | 0 < p <= k :: PublishedAt(run[p], r))
  }

  predicate PublishedAt(s: State, r: Request) {
    s.kind == r.kind && s.virt == PageBase(r.virt) && |s.log| == r.since
  }

  lemma {:induction false} CallDated(run: seq<State>, k: nat)
    requires IsPath(run) && Inv(run[0]) && run[0].holder == None && 0 < k < |run|
    requires forall j | 0 < j < |run| :: run[j].holder.Some?
    ensures Dated(run, k)
  {
    assert Next(run[k - 1], run[k]);
    var a :| Enabled(run[k - 1], a) && run[k] == Do(run[k - 1], a);
    PathInv(run, k - 1);
    if k > 1 {
      CallDated(run, k - 1);
      var q, r := run[k - 1].holder.value, run[k].holder.value;
      assert r.settled == q.settled && r.kind == q.kind && r.virt == q.virt;
      if q.point == VirtStored {
        assert AfterPublish(r.point) ==> PublishedAt(run[k], r);
      } else if AfterPublish(q.point) || q.point == Returned {
        var p :| 0 < p <= k - 1 && PublishedAt(run[p], q);
        assert PublishedAt(run[p], r);
      }
    }
  }

  /** Every call that answers true from this state has flushed its targets. */
  ghost predicate CallsAreSafe(s: State) {
    forall run | IsCall(run) && run[0] == s && Answer(run).ok :: AllFlushed(run[|run| - 1], Answer(run))
  }

  /** Shootdown safety: with every interrupt settled when the lock is taken, an answer of true means
      that every target flushed after the request was published. */
  lemma SettledIsSafe(run: seq<State>)
    requires IsCall(run) && Inv(run[0]) && Settled(run[0]) && Answer(run).ok
    ensures AllFlushed(run[|run| - 1], Answer(run))
    ensures exists p | 0 < p < |run| :: PublishedAt(run[p], Answer(run))
  {
    var n := |run| - 1;
    PathInv(run, n);
    CallDated(run, n);
    var t, r := run[n], Answer(run);
    forall c | c in r.targets ensures FlushedSince(t, r, c) {
      assert c < |t.ack| && CpuOk(t, r, c);
    }
  }

  // ---------------------------------------------------------------- an unsettled interrupt breaks it

  /** How many handler steps remain until this generation is read and its flush is over. */
  function Rank(h: Handler, gen: nat): nat {
    match h
    case Idle => 5
    case Entered => 4
    case GotVirt(_) => 3
    case GotKind(_, _) => 2
    case GotGen(_, _, g) => if g == gen then 1 else 7
    case Flushed(g) => if g == gen then 0 else 6
  }

  predicate SameShared(s: State, t: State) {
    t.gen == s.gen && t.virt == s.virt && t.kind == s.kind && t.holder == s.holder && |t.ack| == |s.ack|
  }

  /** Only CPU `c` has done something, flushes included. */
  predicate OnlyCpu(s: State, t: State, c: nat) {
    && Shaped(s) && Shaped(t) && SameShared(s, t)
    && (forall d | 0 <= d < |s.ack| && d != c :: t.ack[d] == s.ack[d] && t.pending[d] == s.pending[d] && t.handler[d] == s.handler[d])
    && |s.log| <= |t.log| && t.log[..|s.log|] == s.log && forall j | |s.log| <= j < |t.log| :: t.log[j].cpu == c
  }

  /** `run'` goes on from `run`, with the lock held at every further state. */
  ghost predicate GoesOn(run: seq<State>, run': seq<State>) {
    && IsPath(run') && 0 < |run| <= |run'| && run'[..|run|] == run
    && forall k | |run| <= k < |run'| :: run'[k].holder.Some?
  }

  function Last(run: seq<State>): State
    requires run != []
  {
    run[|run| - 1]
  }

  lemma GoesOnTransitive(a: seq<State>, b: seq<State>, c: seq<State>)
    requires GoesOn(a, b) && GoesOn(b, c)
    ensures GoesOn(a, c)
  {
    assert c[..|a|] == b[..|a|];
    assert forall k | |a| <= k < |b| :: c[k] == b[k];
  }

  lemma Then(run: seq<State>, a: Step) returns (run': seq<State>)
    requires IsPath(run) && Shaped(Last(run)) && Enabled(Last(run), a) && Do(Last(run), a).holder.Some?
    ensures GoesOn(run, run') && |run'| == |run| + 1 && Last(run') == Do(Last(run), a)
  {
    hide Do, Enabled;
    run' := run + [Do(Last(run), a)];
    forall k | 0 <= k < |run'| - 1 ensures Next(run'[k], run'[k + 1]) {
      assert k < |run| - 1 ==> Next(run[k], run[k + 1]);
    }
  }

  predicate Stale(s: State, c: nat)
    requires Shaped(s) && c < |s.ack|
  {
    s.holder.Some? && (Rank(s.handler[c], s.gen) <= 4 || s.pending[c])
  }

  function DriveStep(s: State, c: nat): Step
    requires Shaped(s) && c < |s.ack|
  {
    if s.handler[c] == Idle then Interrupt(c) else Handle(c)
  }

  lemma Driven(s: State, c: nat)
    requires Inv(s) && c < |s.ack| && Stale(s, c) && s.handler[c] != Flushed(s.gen)
    ensures Enabled(s, DriveStep(s, c))
    ensures var t := Do(s, DriveStep(s, c));
      && Inv(t) && OnlyCpu(s, t, c) && Stale(t, c)
      && Rank(t.handler[c], t.gen) < Rank(s.handler[c], s.gen)
  {
    StepInv(s, DriveStep(s, c));
    hide Inv;
  }

  /** The stale handler reads the new generation and flushes before the request is published. */
  lemma {:induction false} DriveHandler(run: seq<State>, c: nat) returns (run': seq<State>)
    requires IsPath(run) && Inv(Last(run)) && c < |Last(run).ack| && Stale(Last(run), c)
    ensures GoesOn(run, run')
    ensures Inv(Last(run')) && OnlyCpu(Last(run), Last(run'), c)
    ensures Last(run').handler[c] == Flushed(Last(run).gen)
    decreases Rank(Last(run).handler[c], Last(run).gen)
  {
    var s := Last(run);
    if s.handler[c] == Flushed(s.gen) {
      run' := run;
    } else {
      Driven(s, c);
      var mid := Then(run, DriveStep(s, c));
      hide Do, Enabled, CpuOk, RequestOk, GenerationsOk;
      run' := DriveHandler(mid, c);
      GoesOnTransitive(run, mid, run');
      OnlyCpuTransitive(s, Last(mid), Last(run'), c);
    }
  }

  lemma OnlyCpuTransitive(s: State, t: State, u: State, c: nat)
    requires OnlyCpu(s, t, c) && OnlyCpu(t, u, c)
    ensures OnlyCpu(s, u, c)
  {
    assert u.log[..|s.log|] == u.log[..|t.log|][..|s.log|];
    forall j | |s.log| <= j < |u.log| ensures u.log[j].cpu == c {
      assert j < |t.log| ==> u.log[j] == u.log[..|t.log|][j];
    }
  }

  /** The call is at point `p`, good so far; the handler of CPU `c` is about to store the call's own
      generation, and CPU `c` has not flushed since the request was published. */
  predicate Lagging(s: State, c: nat, targets: seq<nat>, p: Point) {
    && Inv(s) && Shaped(s) && c < |s.ack| && s.holder.Some? && c in targets
    && s.holder.value.point == p && s.holder.value.ok && s.holder.value.targets == targets
    && s.handler[c] == Flushed(s.gen)
    && (AfterPublish(p) ==> s.holder.value.since <= |s.log| && NotBy(s.log, s.holder.value.since, c))
  }

  predicate NotBy(log: seq<Flush>, since: nat, c: nat) { forall j | since <= j < |log| :: log[j].cpu != c }

  /** Requests to the targets from number `i` on are pending. */
  predicate SentFrom(s: State, targets: seq<nat>, i: nat) {
    Shaped(s) && forall j | i <= j < |targets| :: targets[j] < |s.ack| && s.pending[targets[j]]
  }

  predicate SentBelow(s: State, targets: seq<nat>, i: nat) {
    Shaped(s) && forall j | 0 <= j < i && j < |targets| :: targets[j] < |s.ack| && s.pending[targets[j]]
  }

  lemma PublishStep(s: State, c: nat, targets: seq<nat>, p: Point)
    requires Lagging(s, c, targets, p) && (p.Bumped? || p.VirtStored?)
    ensures Enabled(s, Advance(true))
    ensures Lagging(Do(s, Advance(true)), c, targets, if p.Bumped? then VirtStored else Resetting(0))
  {
    StepInv(s, Advance(true));
    hide Inv;
  }

  /** The request is published while the handler waits to store its own acknowledgement. */
  lemma PublishLate(run: seq<State>, c: nat, targets: seq<nat>) returns (run': seq<State>)
    requires IsPath(run) && Lagging(Last(run), c, targets, Bumped)
    ensures GoesOn(run, run') && Lagging(Last(run'), c, targets, Resetting(0))
  {
    hide Do, Enabled, Inv, Next;
    PublishStep(Last(run), c, targets, Bumped);
    var mid := Then(run, Advance(true));
    PublishStep(Last(mid), c, targets, VirtStored);
    run' := Then(mid, Advance(true));
    GoesOnTransitive(run, mid, run');
  }

  lemma ResetStep(s: State, c: nat, targets: seq<nat>, i: nat)
    requires Lagging(s, c, targets, Resetting(i)) && i < |targets|
    ensures Enabled(s, Advance(true))
    ensures Lagging(Do(s, Advance(true)), c, targets, if i + 1 < |targets| then Resetting(i + 1) else Sending(0))
  {
    StepInv(s, Advance(true));
    hide CpuOk, GenerationsOk;
  }

  lemma {:induction false} ResetLate(run: seq<State>, c: nat, targets: seq<nat>, i: nat) returns (run': seq<State>)
    requires IsPath(run) && Lagging(Last(run), c, targets, Resetting(i)) && i < |targets|
    ensures GoesOn(run, run') && Lagging(Last(run'), c, targets, Sending(0))
    decreases |targets| - i
  {
    hide Do, Enabled, Inv, Next;
    ResetStep(Last(run), c, targets, i);
    run' := Then(run, Advance(true));
    if i + 1 < |targets| {
      var mid := run';
      run' := ResetLate(mid, c, targets, i + 1);
      GoesOnTransitive(run, mid, run');
    }
  }

  lemma SendStep(s: State, c: nat, targets: seq<nat>, i: nat)
    requires Lagging(s, c, targets, Sending(i)) && i < |targets| && SentBelow(s, targets, i)
    ensures Enabled(s, Advance(true))
    ensures var t := Do(s, Advance(true));
      Lagging(t, c, targets, if i + 1 < |targets| then Sending(i + 1) else Waiting(0)) && SentBelow(t, targets, i + 1)
  {
    StepInv(s, Advance(true));
    hide CpuOk, GenerationsOk;
  }

  lemma {:induction false} SendLate(run: seq<State>, c: nat, targets: seq<nat>, i: nat) returns (run': seq<State>)
    requires IsPath(run) && Lagging(Last(run), c, targets, Sending(i)) && i < |targets| && SentBelow(Last(run), targets, i)
    ensures GoesOn(run, run') && Lagging(Last(run'), c, targets, Waiting(0)) && SentFrom(Last(run'), targets, 0)
    decreases |targets| - i
  {
    hide Do, Enabled, Inv, Next;
    SendStep(Last(run), c, targets, i);
    run' := Then(run, Advance(true));
    if i + 1 < |targets| {
      var mid := run';
      run' := SendLate(mid, c, targets, i + 1);
      GoesOnTransitive(run, mid, run');
    }
  }

  /** The call waits for target number `i`; if CPU `c` is that one or a later one, its late
      acknowledgement is still to come. */
  predicate Waits(s: State, c: nat, targets: seq<nat>, i: nat) {
    && Inv(s) && Shaped(s) && c < |s.ack| && s.holder.Some? && i < |targets| && c in targets
    && s.holder.value.point == Waiting(i) && s.holder.value.ok && s.holder.value.targets == targets
    && s.holder.value.since <= |s.log| && NotBy(s.log, s.holder.value.since, c)
    && (c in targets[i..] ==> s.handler[c] == Flushed(s.gen))
  }

  predicate Fooled(s: State, c: nat, targets: seq<nat>) {
    && s.holder.Some? && s.holder.value.point == Returned && s.holder.value.ok && s.holder.value.targets == targets
    && s.holder.value.since <= |s.log| && NotBy(s.log, s.holder.value.since, c)
  }

  lemma AckOf(s: State, c: nat, targets: seq<nat>, i: nat)
    requires Waits(s, c, targets, i) && SentFrom(s, targets, i + 1)
    requires targets[i] < |s.ack| && s.handler[targets[i]] == Flushed(s.gen)
    ensures Enabled(s, Handle(targets[i]))
    ensures var t := Do(s, Handle(targets[i]));
      && Inv(t) && Shaped(t) && SentFrom(t, targets, i + 1) && t.holder == s.holder && t.log == s.log && t.pending == s.pending && t.gen == s.gen && |t.ack| == |s.ack|
      && t.ack[targets[i]] == s.gen && (c != targets[i] ==> t.handler[c] == s.handler[c])
  {
    StepInv(s, Handle(targets[i]));
    hide Inv, NotBy;
  }

  lemma EndOfWait(s: State, c: nat, targets: seq<nat>, i: nat)
    requires Inv(s) && s.holder.Some? && i < |targets| && c < |s.ack| && c in targets && SentFrom(s, targets, i + 1)
    requires var r := s.holder.value;
      r.point == Waiting(i) && r.ok && r.targets == targets && r.since <= |s.log| && NotBy(s.log, r.since, c)
    requires targets[i] < |s.ack| && s.ack[targets[i]] == s.gen && (c in targets[i + 1..] ==> s.handler[c] == Flushed(s.gen))
    ensures Enabled(s, Advance(true))
    ensures var u := Do(s, Advance(true));
      && u.holder.Some? && SentFrom(u, targets, i + 1)
      && if i + 1 < |targets| then Waits(u, c, targets, i + 1) else Fooled(u, c, targets)
  {
    StepInv(s, Advance(true));
    hide CpuOk, GenerationsOk;
  }

  /** The acknowledgement of one target is stored, and the wait for it ends. */
  lemma AckLate(run: seq<State>, c: nat, targets: seq<nat>, i: nat) returns (run': seq<State>)
    requires IsPath(run) && Waits(Last(run), c, targets, i) && SentFrom(Last(run), targets, i + 1)
    requires targets[i] < |Last(run).ack| && Last(run).handler[targets[i]] == Flushed(Last(run).gen)
    requires c !in targets[i + 1..] || c != targets[i]
    ensures GoesOn(run, run') && SentFrom(Last(run'), targets, i + 1)
    ensures if i + 1 < |targets| then Waits(Last(run'), c, targets, i + 1) else Fooled(Last(run'), c, targets)
  {
    hide Do, Enabled, Inv, Next, NotBy;
    AckOf(Last(run), c, targets, i);
    var mid := Then(run, Handle(targets[i]));
    assert c in targets[i + 1..] ==> c in targets[i..];
    EndOfWait(Last(mid), c, targets, i);
    run' := Then(mid, Advance(true));
    GoesOnTransitive(run, mid, run');
  }

  /** Another target answers in the proper way. */
  lemma WaitsAfter(s: State, t: State, c: nat, targets: seq<nat>, i: nat)
    requires Waits(s, c, targets, i) && SentFrom(s, targets, i) && OnlyCpu(s, t, targets[i]) && Inv(t) && targets[i] != c
    ensures Waits(t, c, targets, i) && SentFrom(t, targets, i + 1)
  {
    var r := s.holder.value;
    forall j | r.since <= j < |t.log| ensures t.log[j].cpu != c {
      assert j < |s.log| ==> t.log[j] == t.log[..|s.log|][j];
    }
    assert TargetsOk(s, r.cpu, r.targets);
    hide CpuOk, GenerationsOk;
  }

  lemma OnceOnly(s: State, c: nat, targets: seq<nat>, i: nat)
    requires Waits(s, c, targets, i)
    ensures targets[i] < |s.ack| && (targets[i] == c ==> c in targets[i..] && c !in targets[i + 1..])
  {
    var r := s.holder.value;
    assert TargetsOk(s, r.cpu, r.targets);
    assert targets[i..][0] == targets[i];
  }

  /** All others answer in the proper way, CPU `c` by its late acknowledgement; the call returns true. */
  lemma {:induction false} AnswerLate(run: seq<State>, c: nat, targets: seq<nat>, i: nat) returns (run': seq<State>)
    requires IsPath(run) && Waits(Last(run), c, targets, i) && SentFrom(Last(run), targets, i)
    ensures GoesOn(run, run') && Fooled(Last(run'), c, targets)
    decreases |targets| - i
  {
    OnceOnly(Last(run), c, targets, i);
    var mid := run;
    if targets[i] != c {
      mid := DriveHandler(run, targets[i]);
      WaitsAfter(Last(run), Last(mid), c, targets, i);
    }
    hide Inv, IsPath, NotBy, OnlyCpu;
    run' := AckLate(mid, c, targets, i);
    GoesOnTransitive(run, mid, run');
    if i + 1 < |targets| {
      var next := run';
      run' := AnswerLate(next, c, targets, i + 1);
      GoesOnTransitive(run, next, run');
    }
  }

  lemma StartLate(s: State, c: nat, cpu: nat, targets: seq<nat>) returns (run: seq<State>)
    requires Inv(s) && s.holder == None && TargetsOk(s, cpu, targets) && c in targets && c < |s.ack| && !SettledCpu(s, c)
    ensures IsPath(run) && |run| > 1 && run[0] == s && Inv(Last(run)) && c < |Last(run).ack| && Stale(Last(run), c)
    ensures forall k | 0 < k < |run| :: run[k].holder.Some?
    ensures var r := Last(run).holder.value; r.point == Bumped && r.ok && r.targets == targets
  {
    var a := Acquire(cpu, FullFlush, 0, targets);
    StepInv(s, a);
    var r1 := Then([s], a);
    StepInv(Last(r1), Advance(true));
    run := Then(r1, Advance(true));
    assert run[0] == r1[0] && run[1] == r1[1];
  }

  /** From any state with an unsettled interrupt of CPU `c`, any call that has `c` among its targets may
      return true although `c` has not flushed, all its other targets answering in the proper way. */
  lemma UnsettledIsUnsafe(s: State, c: nat, cpu: nat, targets: seq<nat>) returns (run: seq<State>)
    requires Inv(s) && s.holder == None && TargetsOk(s, cpu, targets) && c in targets && c < |s.ack| && !SettledCpu(s, c)
    ensures IsCall(run) && run[0] == s && Answer(run).targets == targets
    ensures Answer(run).ok && !AllFlushed(Last(run), Answer(run))
  {
    var r1 := StartLate(s, c, cpu, targets);
    var r2 := DriveHandler(r1, c);
    assert Lagging(Last(r2), c, targets, Bumped);
    hide Inv, Next, Stale, IsPath, Lagging, OnlyCpu;
    var r3 := PublishLate(r2, c, targets);
    var r4 := ResetLate(r3, c, targets, 0);
    LaggingShaped(Last(r4), c, targets);
    var r5 := SendLate(r4, c, targets, 0);
    LaggingWaits(Last(r5), c, targets);
    run := AnswerLate(r5, c, targets, 0);
    GoesOnTransitive(r2, r3, r4);
    GoesOnTransitive(r2, r4, r5);
    GoesOnTransitive(r2, r5, run);
    GoesOnTransitive(r1, r2, run);
    assert forall k | 0 <= k < |r1| :: run[k] == r1[k];
    assert c in Answer(run).targets && !FlushedSince(Last(run), Answer(run), c);
  }

  lemma LaggingShaped(s: State, c: nat, targets: seq<nat>)
    requires Lagging(s, c, targets, Sending(0))
    ensures SentBelow(s, targets, 0)
  {}

  lemma LaggingWaits(s: State, c: nat, targets: seq<nat>)
    requires Lagging(s, c, targets, Waiting(0))
    ensures Waits(s, c, targets, 0)
  {}

  // ---------------------------------------------------------------- all other CPUs

  /** The CPUs below `n` except `cpu`: the targets the code collects. */
  function OthersBelow(n: nat, cpu: nat): seq<nat> {
    if n == 0 then [] else OthersBelow(n - 1, cpu) + if n - 1 == cpu then [] else [n - 1]
  }

  lemma {:induction false} OthersAre(n: nat, cpu: nat)
    ensures forall t: nat :: t in OthersBelow(n, cpu) <==> t < n && t != cpu
    ensures forall i, j | 0 <= i < j < |OthersBelow(n, cpu)| :: OthersBelow(n, cpu)[i] != OthersBelow(n, cpu)[j]
  {
    if n > 0 {
      OthersAre(n - 1, cpu);
      var rest, o := OthersBelow(n - 1, cpu), OthersBelow(n, cpu);
      assert forall i | 0 <= i < |rest| :: rest[i] in rest && o[i] == rest[i];
      forall t: nat ensures t in o <==> t in rest || (t == n - 1 && t != cpu) {}
    }
  }

  lemma OthersOk(s: State, cpu: nat)
    requires |s.ack| > 1 && cpu < |s.ack|
    ensures TargetsOk(s, cpu, OthersBelow(|s.ack|, cpu))
    ensures forall t: nat | t < |s.ack| && t != cpu :: t in OthersBelow(|s.ack|, cpu)
  {
    OthersAre(|s.ack|, cpu);
    var o := OthersBelow(|s.ack|, cpu);
    assert forall i | 0 <= i < |o| :: o[i] in o;
    assert (if cpu == 0 then 1 else 0) in o;
  }

  /** Every call to all other CPUs that answers true from this state has flushed them. */
  ghost predicate FullCallsAreSafe(s: State) {
    forall run | IsCall(run) && run[0] == s && Answer(run).ok && Answer(run).targets == OthersBelow(|s.ack|, Answer(run).cpu) ::
      AllFlushed(run[|run| - 1], Answer(run))
  }

  lemma {:induction false} SameWidth(run: seq<State>, k: nat)
    requires IsPath(run) && Inv(run[0]) && k < |run|
    ensures |run[k].ack| == |run[0].ack|
  {
    if k > 0 {
      SameWidth(run, k - 1);
      PathInv(run, k - 1);
      assert Next(run[k - 1], run[k]);
      hide Inv;
    }
  }

  /** One such call goes to all other CPUs, as the code's do. */
  lemma FullCallUnsafe(s: State, c: nat) returns (run: seq<State>)
    requires Inv(s) && s.holder == None && |s.ack| > 1 && c < |s.ack| && !SettledCpu(s, c)
    ensures IsCall(run) && run[0] == s && Answer(run).targets == OthersBelow(|s.ack|, Answer(run).cpu)
    ensures Answer(run).ok && !AllFlushed(run[|run| - 1], Answer(run))
  {
    var cpu := if c == 0 then 1 else 0;
    OthersOk(s, cpu);
    run := UnsettledIsUnsafe(s, c, cpu, OthersBelow(|s.ack|, cpu));
    PathInv(run, |run| - 1);
    SameWidth(run, |run| - 1);
    CallerApart(Last(run));
    hide Inv, Next, AllFlushed, OthersBelow;
    assert Answer(run).cpu !in OthersBelow(|s.ack|, cpu);
  }

  lemma CallerApart(s: State)
    requires Inv(s) && s.holder.Some?
    ensures var r := s.holder.value; r.cpu < |s.ack| && r.cpu !in r.targets
  {
    var r := s.holder.value;
    assert TargetsOk(s, r.cpu, r.targets);
  }

  /** Exactly: the shootdown can be trusted from a state if and only if no interrupt is unsettled there,
      whether all calls are meant or only those to all other CPUs. */
  lemma SafeIffSettled(s: State)
    requires Inv(s) && s.holder == None && |s.ack| > 1
    ensures CallsAreSafe(s) <==> Settled(s)
    ensures FullCallsAreSafe(s) <==> Settled(s)
  {
    assert Shaped(s);
    hide Inv, AllFlushed, OthersBelow, IsPath;
    if Settled(s) {
      forall run | IsCall(run) && run[0] == s && Answer(run).ok ensures AllFlushed(run[|run| - 1], Answer(run)) {
        SettledIsSafe(run);
      }
    } else {
      var c :| 0 <= c < |s.ack| && !SettledCpu(s, c);
      var run := FullCallUnsafe(s, c);
    }
  }

  // ---------------------------------------------------------------- a run from boot

  function TwoCpus(): State {
    State(0, 0, NoFlush, [0, 0], [false, false], [Idle, Idle], None, [])
  }

  /** The states of a first call of CPU 0 to CPU 1 that times out and releases the lock. */
  lemma TimedOut() returns (run: seq<State>)
    ensures IsPath(run) && Initial(run[0]) && Inv(Last(run)) && Last(run).holder == None && |Last(run).ack| == 2
    ensures !SettledCpu(Last(run), 1)
  {
    var s := TwoCpus();
    assert Inv(s);
    StepInv(s, Acquire(0, FullFlush, 0, [1]));
    var first := Then([s], Acquire(0, FullFlush, 0, [1]));
    var r := Sent(first);
    assert r[0] == r[..|first|][0] == first[0] == first[..1][0];
    var r' := Then(r, Advance(false));
    StepInv(Last(r), Advance(false));
    StepInv(Last(r'), Release);
    run := r' + [Do(Last(r'), Release)];
    assert run[0] == r'[..|r|][0] == r[0];
    forall k | 0 <= k < |run| - 1 ensures Next(run[k], run[k + 1]) {
      assert k < |r'| - 1 ==> Next(r'[k], r'[k + 1]);
    }
  }

  /** CPU 0 is at this point of a request to CPU 1 alone. */
  ghost predicate Calling(s: State, p: Point) {
    && Inv(s) && |s.ack| == 2 && s.holder.Some?
    && s.holder.value.point == p && s.holder.value.targets == [1] && s.holder.value.cpu == 0
  }

  function AfterPoint(p: Point): Point {
    match p
    case Locked => Bumped
    case Bumped => VirtStored
    case VirtStored => Resetting(0)
    case Resetting(_) => Sending(0)
    case _ => Waiting(0)
  }

  lemma CallOn(run: seq<State>, p: Point) returns (run': seq<State>)
    requires IsPath(run) && Calling(Last(run), p) && (p.Locked? || p.Bumped? || p.VirtStored? || p == Resetting(0) || p == Sending(0))
    ensures GoesOn(run, run') && Calling(Last(run'), AfterPoint(p))
    ensures p == Sending(0) ==> Last(run').pending[1]
  {
    StepInv(Last(run), Advance(true));
    run' := Then(run, Advance(true));
    hide CpuOk, GenerationsOk, IsPath;
  }

  /** From the lock to the interrupt that has been sent and the wait that begins. */
  lemma Sent(run: seq<State>) returns (run': seq<State>)
    requires IsPath(run) && Calling(Last(run), Locked)
    ensures GoesOn(run, run') && Calling(Last(run'), Waiting(0)) && Last(run').pending[1]
  {
    var r1 := CallOn(run, Locked);
    var r2 := CallOn(r1, Bumped);
    GoesOnTransitive(run, r1, r2);
    var r3 := CallOn(r2, VirtStored);
    GoesOnTransitive(run, r2, r3);
    var r4 := CallOn(r3, Resetting(0));
    GoesOnTransitive(run, r3, r4);
    run' := CallOn(r4, Sending(0));
    GoesOnTransitive(run, r4, run');
  }

  /** So there is a run from boot in which a call answers true although its target never flushed. */
  lemma FailsFromBoot() returns (before: seq<State>, call: seq<State>)
    ensures IsPath(before) && Initial(before[0]) && call != [] && call[0] == Last(before)
    ensures IsCall(call) && Answer(call).ok && !AllFlushed(Last(call), Answer(call))
  {
    before := TimedOut();
    call := UnsettledIsUnsafe(Last(before), 1, 0, [1]);
  }
}
