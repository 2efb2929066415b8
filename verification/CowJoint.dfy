/** The process table and memory together: runs in which the CPUs take the steps of the process table
    and the moves of memory in any order, each keeping to the space it runs on. As long as no slot
    on a cloning or moving CPU is marked exiting, every share is undisturbed and every count exact. */
module CowJoint {
  import opened Common
  import opened Paging
  import opened CowSteps
  import opened CowRuns
  import opened CowMachine
  import opened CowShares
  import opened CowLive
  import opened CowDispatch
  import Procs = ProcTable
  import Safety = ProcSafety
  import Dispatch = ProcRuns

  datatype Both = Both(procs: Procs.State, world: World)

  datatype Event = Kernel(step: Procs.Step) | Memory(move: Move)

  /** What the code does with memory where: a clone walks the space it runs on, a fault, an unmap or a
      copy-out works there too, and a space is taken for teardown by the CPU that has it left to free. */
  ghost predicate KeepsTo(s: Procs.State, w: World, mv: Move)
    requires Procs.Shaped(s) && Inv(Virtual(w))
  {
    && Local(s, w, mv) && mv.cpu < Procs.MAX_CPUS
    && (mv.Load? ==> s.phase[mv.cpu] == Procs.Forking && s.hw[mv.cpu] in w.live && mv.src.table in Tree(Virtual(w), s.hw[mv.cpu]))
    && (mv.Retire? ==> mv.root != 0 && Procs.Pending(s.phase[mv.cpu]) == mv.root)
  }

  /** A CPU that has a share in flight takes no step of the process table: it is inside its clone. */
  ghost predicate May(b: Both, ev: Event) {
    match ev
    case Kernel(a) => Procs.Shaped(b.procs) && Procs.Enabled(b.procs, a) && (a.MarkExiting? || !Busy(b.world, a.cpu))
    case Memory(mv) => Can(b.world, mv)
  }

  ghost function After(b: Both, ev: Event): Both
    requires May(b, ev)
  {
    match ev
    case Kernel(a) => b.(procs := Procs.Do(b.procs, a))
    case Memory(mv) => b.(world := Go(b.world, mv))
  }

  /** The move keeps to its place, and no slot on a cloning CPU or on its own is marked exiting; the
      invariants that give a table its root hold in every state of such a run. */
  ghost predicate Orderly(b: Both, ev: Event) {
    ev.Memory? && Procs.Shaped(b.procs) && Inv(Virtual(b.world)) ==>
      KeepsTo(b.procs, b.world, ev.move) && Settled(b.procs, b.world, ev.move.cpu)
  }

  ghost predicate IsJointRun(run: seq<Both>, events: seq<Event>) {
    && |run| == |events| + 1 && Safety.Initial(run[0].procs) && BootWorld(run[0].world)
    && forall i | 0 <= i < |events| :: May(run[i], events[i]) && run[i + 1] == After(run[i], events[i])
  }

  ghost predicate OrderlyRun(run: seq<Both>, events: seq<Event>) {
    |run| == |events| + 1 && forall i | 0 <= i < |events| :: Orderly(run[i], events[i])
  }

  // ---------------------------------------------------------------- the tree of a space that is left alone

  ghost predicate AwayFrom(m: Mem, a: Action, r: Frame)
    requires Inv(m)
  {
    && (forall at | at in Writes(a) && !a.ShareCow? :: at.table !in Tree(m, r))
    && (a.FreeTable? ==> a.table !in Tree(m, r))
    && (a.LinkChild? ==> a.entry.frame !in Tree(m, r))
  }

  lemma OwnerOfTable(m: Mem, a: Action, t: Frame)
    requires Inv(m) && Enabled(m, a) && t in m.kind && m.kind[t].Table? && !a.ShareCow?
    requires a.LinkChild? ==> a.entry.frame != t
    requires a.Drop? && IsSole(UseOf(a.at, m.pte[a.at])) ==> m.pte[a.at].frame != t
    ensures t in Apply(m, a).owner <==> t in m.owner
    ensures t in m.owner ==> Apply(m, a).owner[t] == m.owner[t]
  {
    hide SlotsInTables, Targets, OwnerInverse, PagesKept, Counted, DmaCounted;
    match a
    case MapFresh(_, e, _) => FreshUnnamed(m, e.frame);
    case BreakCopy(_, g) => FreshUnnamed(m, g);
    case Promote(at) => PageTarget(m, at);
    case _ =>
  }

  lemma OwnerOfShare(m: Mem, src: Slot, dst: Slot, t: Frame)
    requires Inv(m) && Enabled(m, ShareCow(src, dst)) && t in m.kind && m.kind[t].Table?
    ensures var m' := Apply(m, ShareCow(src, dst));
      m'.kind == m.kind && (t in m'.owner <==> t in m.owner) && (t in m.owner ==> m'.owner[t] == m.owner[t])
  {
    hide Inv, InTable;
    PageTarget(m, src);
    assert m.pte[src].frame != t;
  }

  lemma OwnerStays(m: Mem, a: Action, r: Frame, t: Frame)
    requires Inv(m) && Enabled(m, a) && AwayFrom(m, a, r) && t in Tree(m, r)
    ensures var m' := Apply(m, a);
      && t in m'.kind && m'.kind[t] == m.kind[t] && (t in m'.owner <==> t in m.owner)
      && (t in m.owner ==> m'.owner[t] == m.owner[t])
  {
    hide Inv, Apply;
    if a.ShareCow? {
      OwnerOfShare(m, a.src, a.dst, t);
    } else {
      if a.Drop? { assert a.at in Writes(a); DroppedOther(m, a.at, r, t); }
      KindKeeps(m, a, t);
      OwnerOfTable(m, a, t);
    }
  }

  lemma DroppedOther(m: Mem, at: Slot, r: Frame, t: Frame)
    requires Inv(m) && at in m.pte && at.table !in Tree(m, r) && t in Tree(m, r)
    ensures IsSole(UseOf(at, m.pte[at])) ==> m.pte[at].frame != t
  {
    HasTarget(m, at);
    if UseOf(at, m.pte[at]) == Link { TreeClosed(m, r, at); }
  }

  lemma {:induction false} TreeStays(m: Mem, a: Action, r: Frame, t: Frame)
    requires Inv(m) && Enabled(m, a) && Inv(Apply(m, a)) && AwayFrom(m, a, r) && t in Tree(m, r)
    ensures t in Tree(Apply(m, a), r)
    decreases LEVELS - m.kind[t].level
  {
    hide SlotsInTables, Targets, OwnerInverse, PagesKept, Counted, DmaCounted, FramesOk, Apply, Enabled, AwayFrom;
    OwnerStays(m, a, r, t);
    if m.kind[t].level < LEVELS && t in m.owner {
      OwnerLink(m, t);
      OwnerLink(Apply(m, a), t);
      TreeStays(m, a, r, m.owner[t].table);
    }
  }

  // ---------------------------------------------------------------- the invariant

  ghost predicate JointInv(b: Both) {
    && Procs.Inv(b.procs) && MInv(b.world) && AllSole(Virtual(b.world).pte, b.world.counted) && ForksOnly(b.procs, b.world)
  }

  lemma KernelForks(s: Procs.State, w: World, a: Procs.Step, c: Cpu, sh: Share)
    requires Procs.Shaped(s) && Procs.Enabled(s, a) && (a.MarkExiting? || !Busy(w, a.cpu))
    requires Inv(Virtual(w)) && Busy(w, c) && Clones(s, w, c, sh)
    ensures Procs.Shaped(Procs.Do(s, a)) && Clones(Procs.Do(s, a), w, c, sh)
  {
    hide Inv, Tree, Procs.Do, Procs.Enabled;
    Dispatch.StepElsewhere(s, a, c);
  }

  lemma KernelInv(b: Both, a: Procs.Step)
    requires JointInv(b) && May(b, Kernel(a))
    ensures JointInv(After(b, Kernel(a)))
  {
    var s, w := b.procs, b.world;
    Safety.StepInv(s, a);
    hide Inv, Shares, Books, AllSole, Procs.Do, Procs.Enabled, Procs.Inv, Clones;
    forall c | c in w.loaded ensures Procs.Shaped(Procs.Do(s, a)) && Clones(Procs.Do(s, a), w, c, w.loaded[c]) {
      KernelForks(s, w, a, c, w.loaded[c]);
    }
    forall c | c in w.counted ensures Procs.Shaped(Procs.Do(s, a)) && Clones(Procs.Do(s, a), w, c, w.counted[c]) {
      KernelForks(s, w, a, c, w.counted[c]);
    }
    InvShaped(Procs.Do(s, a));
  }

  lemma InvShaped(s: Procs.State)
    requires Procs.Inv(s)
    ensures Procs.Shaped(s)
  {}

  /** The move of CPU `c` does nothing to the space that CPU `d` clones. */
  lemma ActAway(s: Procs.State, w: World, c: Cpu, a: Action, d: Cpu, sh: Share)
    requires Procs.Inv(s) && MInv(w) && Can(w, Act(c, a)) && Local(s, w, Act(c, a)) && Settled(s, w, c)
    requires Busy(w, d) && Clones(s, w, d, sh)
    ensures AwayFrom(Virtual(w), a, s.hw[d])
  {
    hide Inv, Shares, WorksIn, Settled, Enabled, Tree, Roots;
    var v, r := Virtual(w), s.hw[d];
    forall at | at in Writes(a) ensures at.table !in Tree(v, r) { ApartFromClone(s, w, c, at, d, sh); }
    if a.FreeTable? { HeldAway(w, a.table, r); }
    if a.LinkChild? { HeldAway(w, a.entry.frame, r); }
  }

  lemma HeldAway(w: World, t: Frame, r: Frame)
    requires Inv(Virtual(w)) && Books(w) && t in w.inHand && r in w.live
    ensures t !in Tree(Virtual(w), r)
  {
    VirtualRoots(w);
    assert t in Roots(Virtual(w));
    RootIsTop(Virtual(w), t);
  }

  /** So the source of its share stays in that space. */
  lemma SourceStays(s: Procs.State, w: World, mv: Move, d: Cpu, sh: Share)
    requires Procs.Inv(s) && MInv(w) && Can(w, mv) && Calm(w, mv) && MInv(Go(w, mv)) && Local(s, w, mv) && Settled(s, w, mv.cpu)
    requires Busy(w, d) && Clones(s, w, d, sh)
    ensures sh.src.table in Tree(Virtual(Go(w, mv)), s.hw[d])
  {
    var t, r := sh.src.table, s.hw[d];
    hide Inv, Shares, Books, Calm, Enabled, Apply, Local, Settled, Tree, Handy;
    match mv
    case Act(c, a) =>
      if !a.Store? {
        ActAway(s, w, c, a, d, sh);
        ActVirtual(w, c, a);
        TreeStays(Virtual(w), a, r, t);
      } else {
        StoreTree(w, c, a, r, t);
      }
    case CountUp(c) => CountTree(w, c, r, t);
    case StoreSrc(c) => SrcVirtual(w, c);
    case StoreDst(c) => DstVirtual(w, c);
    case _ => assert Virtual(Go(w, mv)) == Virtual(w);
  }

  lemma {:induction false} SameTree(m: Mem, m': Mem, r: Frame, t: Frame)
    requires Inv(m) && Inv(m') && m'.kind == m.kind && m'.owner == m.owner && t in Tree(m, r)
    ensures t in Tree(m', r)
    decreases LEVELS - m.kind[t].level
  {
    hide SlotsInTables, Targets, OwnerInverse, PagesKept, Counted, DmaCounted, FramesOk;
    if m.kind[t].level < LEVELS && t in m.owner {
      OwnerLink(m, t);
      SameTree(m, m', r, m.owner[t].table);
    }
  }

  lemma StoreTree(w: World, c: Cpu, a: Action, r: Frame, t: Frame)
    requires Inv(Virtual(w)) && Can(w, Act(c, a)) && a.Store? && Inv(Virtual(Go(w, Act(c, a)))) && t in Tree(Virtual(w), r)
    ensures t in Tree(Virtual(Go(w, Act(c, a))), r)
  {
    hide Inv, Tree;
    SameTree(Virtual(w), Virtual(Go(w, Act(c, a))), r, t);
  }

  lemma ShareTree(m: Mem, src: Slot, dst: Slot, r: Frame, t: Frame)
    requires Inv(m) && Enabled(m, ShareCow(src, dst)) && src in m.pte && Inv(AfterShare(m, src, dst)) && t in Tree(m, r)
    ensures t in Tree(AfterShare(m, src, dst), r)
  {
    hide Inv, Tree, AfterShare;
    assert Apply(m, ShareCow(src, dst)) == AfterShare(m, src, dst);
    hide Enabled, Apply;
    TreeStays(m, ShareCow(src, dst), r, t);
  }

  lemma CountTree(w: World, c: Cpu, r: Frame, t: Frame)
    requires MInv(w) && c in w.loaded && Inv(Virtual(AfterCount(w, c))) && t in Tree(Virtual(w), r)
    ensures t in Tree(Virtual(AfterCount(w, c)), r)
  {
    hide Inv, Shares, Books, Tree, LoadedOk, Roots, Enabled, AfterShare, AfterCount;
    LoadedDst(w, c);
    LoadedVirtual(w, c);
    CountVirtual(w, c);
    hide Virtual;
    ShareTree(Virtual(w), w.loaded[c].src, w.loaded[c].dst, r, t);
  }

  /** A space being cloned is not taken for teardown. */
  lemma LiveStays(s: Procs.State, w: World, mv: Move, d: Cpu, sh: Share)
    requires Procs.Inv(s) && Inv(Virtual(w)) && Can(w, mv) && KeepsTo(s, w, mv) && Clones(s, w, d, sh)
    ensures s.hw[d] in Go(w, mv).live
  {
    hide Inv, Tree, Local, Enabled, Apply;
    if mv.Retire? { Dispatch.ForkKept(s, d, mv.cpu); }
  }

  lemma ClonesStays(s: Procs.State, w: World, mv: Move, d: Cpu, sh: Share)
    requires Procs.Inv(s) && MInv(w) && Can(w, mv) && Calm(w, mv) && MInv(Go(w, mv)) && KeepsTo(s, w, mv) && Settled(s, w, mv.cpu)
    requires Busy(w, d) && Clones(s, w, d, sh)
    ensures Clones(s, Go(w, mv), d, sh)
  {
    SourceStays(s, w, mv, d, sh);
    LiveStays(s, w, mv, d, sh);
    hide Inv, Shares, Books, Calm, Tree, Local, Settled, Go, Can;
  }

  /** A share that is loaded or counted after a move was so before, unless it has just been loaded. */
  lemma SharesBefore(w: World, mv: Move, d: Cpu)
    requires Can(w, mv)
    ensures var w' := Go(w, mv);
      && (d in w'.loaded && !(mv.Load? && mv.cpu == d) ==> d in w.loaded && w'.loaded[d] == w.loaded[d])
      && (d in w'.counted ==> || (d in w.counted && w'.counted[d] == w.counted[d]) || (d in w.loaded && w'.counted[d] == w.loaded[d]))
  {
    hide Enabled, Apply;
  }

  lemma LoadClones(s: Procs.State, w: World, mv: Move)
    requires Procs.Shaped(s) && Inv(Virtual(w)) && Can(w, mv) && mv.Load? && KeepsTo(s, w, mv) && Inv(Virtual(Go(w, mv)))
    ensures Clones(s, Go(w, mv), mv.cpu, Go(w, mv).loaded[mv.cpu])
  {
    hide Inv, Tree, Local;
    assert Virtual(Go(w, mv)) == Virtual(w);
  }

  lemma ForksStay(s: Procs.State, w: World, mv: Move)
    requires Procs.Inv(s) && MInv(w) && ForksOnly(s, w) && Can(w, mv) && Calm(w, mv) && MInv(Go(w, mv)) && KeepsTo(s, w, mv) && Settled(s, w, mv.cpu)
    ensures ForksOnly(s, Go(w, mv))
  {
    hide Inv, Shares, Books, Calm, Clones, KeepsTo, Settled, Go, Can;
    var w' := Go(w, mv);
    forall d | d in w'.loaded ensures Clones(s, w', d, w'.loaded[d]) {
      SharesBefore(w, mv, d);
      if mv.Load? && mv.cpu == d { LoadClones(s, w, mv); } else { ClonesStays(s, w, mv, d, w.loaded[d]); }
    }
    forall d | d in w'.counted ensures Clones(s, w', d, w'.counted[d]) {
      SharesBefore(w, mv, d);
      ClonesStays(s, w, mv, d, w'.counted[d]);
    }
  }

  lemma MemoryInv(b: Both, mv: Move)
    requires JointInv(b) && May(b, Memory(mv)) && Orderly(b, Memory(mv))
    ensures JointInv(After(b, Memory(mv))) && Calm(b.world, mv)
  {
    var s, w := b.procs, b.world;
    hide Inv, Shares, Books, AllSole, ForksOnly, Settled, Local, Can, Calm, Go;
    MoveCalm(s, w, mv);
    MoveInv(w, mv);
    MoveSole(w, mv);
    ForksStay(s, w, mv);
  }

  lemma StartInv(b: Both)
    requires Safety.Initial(b.procs) && BootWorld(b.world)
    ensures JointInv(b)
  {
    Safety.InitialInv(b.procs);
    BootMInv(b.world);
    hide MInv, AllSole, Virtual;
  }

  lemma {:induction false} JointRunInv(run: seq<Both>, events: seq<Event>, i: nat)
    requires IsJointRun(run, events) && OrderlyRun(run, events) && i < |run|
    ensures JointInv(run[i])
  {
    hide JointInv, May, After, Orderly, BootWorld;
    if i == 0 {
      StartInv(run[0]);
    } else {
      JointRunInv(run, events, i - 1);
      if events[i - 1].Kernel? { KernelInv(run[i - 1], events[i - 1].step); } else { MemoryInv(run[i - 1], events[i - 1].move); }
    }
  }

  /** In every state of every joint run in which each move keeps to its place while no slot on a cloning
      or moving CPU is marked exiting or has a load due, every move is calm, and the count of every
      page is its COW entries, the decrements owed and the increments not stored yet. */
  lemma JointCounts(run: seq<Both>, events: seq<Event>, i: nat, f: Frame)
    requires IsJointRun(run, events) && OrderlyRun(run, events) && i < |run|
    ensures var w := run[i].world; Count(w.mem.refs, f) == |Holders(w.mem.pte, Cow, f)| + w.mem.credit[f] + |Unstored(w, f)|
    ensures i < |events| && events[i].Memory? ==> Calm(run[i].world, events[i].move)
  {
    JointRunInv(run, events, i);
    hide Orderly, IsJointRun, May, After;
    if i < |events| && events[i].Memory? { JointCalm(run, events, i); }
    WorldCounts(run[i].world, f);
  }

  lemma JointCalm(run: seq<Both>, events: seq<Event>, i: nat)
    requires IsJointRun(run, events) && OrderlyRun(run, events) && i < |events| && events[i].Memory? && JointInv(run[i])
    ensures Calm(run[i].world, events[i].move)
  {
    hide JointInv, May, After, Orderly, BootWorld, Calm;
    MemoryInv(run[i], events[i].move);
  }
}
