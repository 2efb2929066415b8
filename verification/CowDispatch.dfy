/** Where the machine's calm moves come from: dispatch never runs two slots of one process at once
    unless one of them is on its way out, so while a space is being cloned no other CPU works in it. */
module CowDispatch {
  import opened Common
  import opened Paging
  import opened CowSteps
  import opened CowRuns
  import opened CowMachine
  import opened CowLive
  import Procs = ProcTable
  import Dispatch = ProcRuns

  /** The share that CPU `c` has loaded or counted is part of a fork of the space in its CR3. */
  ghost predicate Clones(s: Procs.State, w: World, c: Cpu, sh: Share)
    requires Procs.Shaped(s) && Inv(Virtual(w))
  {
    && c < Procs.MAX_CPUS && s.phase[c] == Procs.Forking
    && s.hw[c] in w.live && sh.src.table in Tree(Virtual(w), s.hw[c])
  }

  ghost predicate ForksOnly(s: Procs.State, w: World)
    requires Procs.Shaped(s) && Inv(Virtual(w))
  {
    && (forall c | c in w.loaded :: Clones(s, w, c, w.loaded[c]))
    && (forall c | c in w.counted :: Clones(s, w, c, w.counted[c]))
  }

  /** The slot lies in the space CPU `c` runs on, or under a table in its hands. */
  ghost predicate WorksIn(s: Procs.State, w: World, c: Cpu, at: Slot)
    requires Procs.Shaped(s) && Inv(Virtual(w))
  {
    c < Procs.MAX_CPUS &&
    exists r :: at.table in Tree(Virtual(w), r) && (|| (r in w.live && Procs.Running(s, c) && r == s.hw[c])
                                                    || (r in w.inHand && w.inHand[r] == c))
  }

  ghost predicate Local(s: Procs.State, w: World, mv: Move)
    requires Procs.Shaped(s) && Inv(Virtual(w))
  {
    match mv
    case Act(c, a) => forall at | at in Writes(a) :: WorksIn(s, w, c, at)
    case Load(c, src, _) => WorksIn(s, w, c, src)
    case _ => true
  }

  predicate Leaving(s: Procs.State, c: Cpu)
    requires Procs.Shaped(s) && c < Procs.MAX_CPUS
  {
    Procs.Running(s, c) && s.procs[s.current[c]].exiting
  }

  /** No slot is marked exiting on a CPU that clones or on the CPU that moves, and the moving CPU has
      loaded the CR3 it was told to. */
  predicate Settled(s: Procs.State, w: World, c: Cpu)
    requires Procs.Shaped(s)
  {
    && c < Procs.MAX_CPUS && !Leaving(s, c) && !s.phase[c].Loading?
    && forall d | 0 <= d < Procs.MAX_CPUS && Busy(w, d) :: !Leaving(s, d)
  }

  lemma OneTree(m: Mem, t: Frame, r: Frame, q: Frame)
    requires Inv(m) && t in Tree(m, r) && t in Tree(m, q)
    ensures r == q
  {}

  /** A CPU that is not busy works on no source entry of a share in flight. */
  lemma ApartFromClone(s: Procs.State, w: World, c: Cpu, at: Slot, d: Cpu, sh: Share)
    requires Procs.Inv(s) && Inv(Virtual(w)) && Books(w)
    requires !Busy(w, c) && Busy(w, d) && Settled(s, w, c) && WorksIn(s, w, c, at) && Clones(s, w, d, sh)
    ensures at.table !in Tree(Virtual(w), s.hw[d])
  {
    hide Inv, Tree, Roots;
    var r :| at.table in Tree(Virtual(w), r) && (|| (r in w.live && Procs.Running(s, c) && r == s.hw[c])
                                                 || (r in w.inHand && w.inHand[r] == c));
    if at.table in Tree(Virtual(w), s.hw[d]) {
      OneTree(Virtual(w), at.table, r, s.hw[d]);
      if r == s.hw[c] && r in w.live { Dispatch.ForkApart(s, d, c); }
    }
  }

  lemma ApartFromCopy(s: Procs.State, w: World, c: Cpu, at: Slot)
    requires MInv(w) && Procs.Shaped(s) && !Busy(w, c) && WorksIn(s, w, c, at) && at in w.late
    ensures at in w.mem.pte
  {
    hide Tree, Counted, DmaCounted, Targets, OwnerInverse, PagesKept;
    var r :| at.table in Tree(Virtual(w), r) && (|| (r in w.live && Procs.Running(s, c) && r == s.hw[c])
                                                 || (r in w.inHand && w.inHand[r] == c));
    if at !in w.mem.pte {
      LateHolder(w, at);
      LateTop(w, at);
      OneTree(Virtual(w), at.table, r, at.table);
    }
  }

  /** The table of a copy on its way in is in the hands of a busy CPU, and the root of its tree. */
  lemma LateHolder(w: World, at: Slot)
    requires Shares(w) && at in w.late && at !in w.mem.pte
    ensures at.table in w.inHand && Busy(w, w.inHand[at.table])
  {
    hide LoadedOk, OwnSources, Stages;
    assert Owed(w.counted, w.half, w.due[at], at);
  }

  lemma LateTop(w: World, at: Slot)
    requires MInv(w) && at in w.late && at.table in w.inHand
    ensures at.table in Tree(Virtual(w), at.table)
  {
    hide Shares;
    VirtualRoots(w);
    assert at.table in Roots(Virtual(w));
    RootIsTop(Virtual(w), at.table);
  }

  lemma SlotCalm(s: Procs.State, w: World, c: Cpu, at: Slot)
    requires Procs.Inv(s) && MInv(w) && ForksOnly(s, w)
    requires !Busy(w, c) && Settled(s, w, c) && WorksIn(s, w, c, at)
    ensures !Source(w, at)
  {
    hide Inv, Books, WorksIn, Settled, Shares;
    if d :| d in w.loaded && w.loaded[d].src == at {
      ApartFromClone(s, w, c, at, d, w.loaded[d]);
    }
    if at in w.late {
      ApartFromCopy(s, w, c, at);
      DueSource(w, at);
      ApartFromClone(s, w, c, at, w.due[at], w.counted[w.due[at]]);
    }
  }

  lemma MoveCalm(s: Procs.State, w: World, mv: Move)
    requires Procs.Inv(s) && MInv(w) && ForksOnly(s, w) && Can(w, mv) && Local(s, w, mv) && Settled(s, w, mv.cpu)
    ensures Calm(w, mv)
  {
    hide Inv, Shares, Books, WorksIn, ForksOnly, Settled, Source, Enabled, Handy;
    match mv
    case Act(c, a) =>
      forall at | at in Writes(a) ensures !Source(w, at) { SlotCalm(s, w, c, at); }
    case Load(c, src, _) => SlotCalm(s, w, c, src);
    case _ =>
  }

  /** In every run of the process table, and whatever the memory, a move that keeps to the space its
      CPU runs on and to the tables in its hands is calm while no slot involved is exiting. */
  lemma DispatchCalm(run: seq<Procs.State>, steps: seq<Procs.Step>, i: nat, w: World, mv: Move)
    requires Dispatch.IsRun(run, steps) && i < |run| && Procs.Shaped(run[i]) && MInv(w) && ForksOnly(run[i], w)
    requires Can(w, mv) && Local(run[i], w, mv) && Settled(run[i], w, mv.cpu)
    ensures Calm(w, mv)
  {
    hide MInv, ForksOnly, Local, Settled, Can, Calm;
    Dispatch.RunInv(run, steps, i);
    MoveCalm(run[i], w, mv);
  }
}
