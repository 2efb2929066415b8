/** Whole runs of the machine from boot, with any number of CPUs: the count of every page, what is
    allocated, and what a space sees while others fork, fault, write, unmap and exit. */
module CowLive {
  import opened Common
  import opened Paging
  import opened CowSteps
  import opened CowRuns
  import opened CowMachine
  import opened CowShares

  ghost predicate BootWorld(w: World) {
    && Boot(w.mem) && w.loaded == map[] && w.counted == map[] && w.half == map[]
    && w.late == map[] && w.due == map[] && w.live == {} && w.inHand == map[]
  }

  /** A run from boot, every move of any CPU named. */
  ghost predicate IsWorldRun(run: seq<World>, moves: seq<Move>) {
    && |run| == |moves| + 1 && BootWorld(run[0])
    && forall i | 0 <= i < |moves| :: Can(run[i], moves[i]) && run[i + 1] == Go(run[i], moves[i])
  }

  /** No move rewrites the source entry of a share in flight. */
  ghost predicate CalmRun(run: seq<World>, moves: seq<Move>) {
    |run| == |moves| + 1 && forall i | 0 <= i < |moves| :: Calm(run[i], moves[i])
  }

  lemma RunStep(run: seq<World>, moves: seq<Move>, i: nat)
    requires IsWorldRun(run, moves) && CalmRun(run, moves) && i < |moves|
    ensures Can(run[i], moves[i]) && Calm(run[i], moves[i]) && run[i + 1] == Go(run[i], moves[i])
  {}

  lemma BootMInv(w: World)
    requires BootWorld(w)
    ensures MInv(w) && AllSole(Virtual(w).pte, w.counted)
  {
    BootInv(w.mem);
    hide Inv;
    assert w.mem.pte + w.late == w.mem.pte;
    assert Virtual(w) == w.mem;
  }

  // ---------------------------------------------------------------- late stores

  /** A late store makes a COW entry: of an entry that is there, or in a table in a CPU's hands. */
  lemma LateSlot(w: World, at: Slot)
    requires Shares(w) && at in w.late
    ensures UseOf(at, w.late[at]) == Cow && at.level <= 1
    ensures at in w.mem.pte ==> w.late[at] == CowEntry(w.mem.pte[at]) && Shareable(at, w.mem.pte[at])
    ensures at !in w.mem.pte ==> at.table in w.inHand
  {
    hide AllLoaded, OwnSources, Stages, SrcLate, DstLate;
    var c := w.due[at];
    assert Owed(w.counted, w.half, c, at);
    if c in w.counted && w.counted[c].src == at { SrcLateSlot(w.mem.pte, w.late, w.counted[c]); }
    else if c in w.counted && w.counted[c].dst == at { DstLateSlot(w.mem.pte, w.late, w.inHand, c, w.counted[c]); }
    else { DstLateSlot(w.mem.pte, w.late, w.inHand, c, w.half[c]); }
  }

  lemma SrcLateSlot(pte: map<Slot, Entry>, late: map<Slot, Entry>, sh: Share)
    requires SrcLate(pte, late, sh)
    ensures sh.src in late && UseOf(sh.src, late[sh.src]) == Cow && sh.src.level <= 1
    ensures sh.src in pte && late[sh.src] == CowEntry(pte[sh.src]) && Shareable(sh.src, pte[sh.src])
  {}

  lemma DstLateSlot(pte: map<Slot, Entry>, late: map<Slot, Entry>, inHand: map<Frame, Cpu>, c: Cpu, sh: Share)
    requires DstLate(pte, late, inHand, c, sh)
    ensures sh.dst in late && UseOf(sh.dst, late[sh.dst]) == Cow && sh.dst.level <= 1
    ensures sh.dst !in pte && sh.dst.table in inHand
  {}

  // ---------------------------------------------------------------- pages on their first share

  /** Until the source entry is stored, a page shared for the first time has no other holder than the
      two slots of its share; an entry that was COW already cannot be written through. */
  ghost predicate SoleShare(pte: map<Slot, Entry>, sh: Share) {
    if sh.entry.cow then !sh.entry.writable else OnlyAt(pte, sh.entry.frame, sh.src, sh.dst)
  }

  ghost predicate OnlyAt(pte: map<Slot, Entry>, f: Frame, src: Slot, dst: Slot) {
    forall at | PageAt(pte, at, f) :: at == src || at == dst
  }

  ghost predicate AllSole(pte: map<Slot, Entry>, counted: map<Cpu, Share>) {
    forall c | c in counted :: SoleShare(pte, counted[c])
  }

  /** A slot that comes to name a page by an action names a fresh one, or named it before. */
  lemma ActPageAt(m: Mem, a: Action, at: Slot, f: Frame)
    requires Inv(m) && Enabled(m, a) && !a.ShareCow? && f in m.kind && PageAt(Apply(m, a).pte, at, f)
    ensures PageAt(m.pte, at, f)
  {
    hide SlotsInTables, Targets, OwnerInverse, PagesKept, Counted, DmaCounted;
    match a
    case MapFresh(_, _, _) => FreshUnnamedFree(m, f);
    case BreakCopy(_, _) => FreshUnnamedFree(m, f);
    case _ =>
  }

  lemma ActSole(w: World, c: Cpu, a: Action)
    requires MInv(w) && AllSole(Virtual(w).pte, w.counted) && Can(w, Act(c, a)) && Calm(w, Act(c, a)) && !a.Store?
    ensures var w' := Go(w, Act(c, a)); AllSole(Virtual(w').pte, w'.counted)
  {
    hide Inv, Shares, Books, Calm, Handy;
    var w' := Go(w, Act(c, a));
    ActVirtual(w, c, a);
    hide Enabled, Apply;
    forall d | d in w.counted && !w.counted[d].entry.cow
      ensures OnlyAt(Virtual(w').pte, w.counted[d].entry.frame, w.counted[d].src, w.counted[d].dst)
    {
      CountedFrame(w, d);
      forall at | PageAt(Virtual(w').pte, at, w.counted[d].entry.frame) ensures at == w.counted[d].src || at == w.counted[d].dst {
        ActPageAt(Virtual(w), a, at, w.counted[d].entry.frame);
      }
    }
  }

  lemma CountedFrame(w: World, d: Cpu)
    requires MInv(w) && d in w.counted
    ensures w.counted[d].src in w.late && w.counted[d].entry.frame in w.mem.kind
  {
    hide SlotsInTables, OwnerInverse, Counted, DmaCounted, FramesOk, AllLoaded, AllHalf, AllDue, Books;
    assert SrcLate(w.mem.pte, w.late, w.counted[d]);
    PageTarget(Virtual(w), w.counted[d].src);
  }

  lemma CountSole(w: World, c: Cpu)
    requires MInv(w) && AllSole(Virtual(w).pte, w.counted) && c in w.loaded
    ensures var w' := AfterCount(w, c); AllSole(Virtual(w').pte, w'.counted)
  {
    hide Inv, Shares, Books, SoleShare, Virtual;
    CountOwn(w, c);
    forall d | d in w.counted ensures SoleShare(Virtual(AfterCount(w, c)).pte, w.counted[d]) { CountOthers(w, c, d); }
  }

  lemma LoadedEntry(w: World, c: Cpu)
    requires MInv(w) && c in w.loaded
    ensures var sh := w.loaded[c];
      && PageAt(Virtual(w).pte, sh.src, sh.entry.frame) && sh.src !in w.late && Virtual(w).pte[sh.src] == sh.entry
      && (sh.entry.cow ==> !sh.entry.writable)
  {
    hide SlotsInTables, OwnerInverse, Counted, DmaCounted, FramesOk, PagesKept, AllCounted, AllHalf, AllDue, Books;
    var sh := w.loaded[c];
    assert LoadedOk(w.mem.pte, w.mem.kind, w.late, w.inHand, c, sh);
    HasTarget(Virtual(w), sh.src);
  }

  /** Counting adds one slot to the holders of one page, and no other. */
  lemma CountPages(w: World, c: Cpu)
    requires c in w.loaded && PageAt(Virtual(w).pte, w.loaded[c].src, w.loaded[c].entry.frame)
    ensures PagesMore(Virtual(w).pte, Virtual(AfterCount(w, c)).pte, w.loaded[c].dst, w.loaded[c].entry.frame)
  {}

  ghost predicate PagesMore(pte: map<Slot, Entry>, pte': map<Slot, Entry>, dst: Slot, g: Frame) {
    forall at, f | PageAt(pte', at, f) :: PageAt(pte, at, f) || (at == dst && f == g)
  }

  lemma SoleMore(pte: map<Slot, Entry>, pte': map<Slot, Entry>, sh: Share, dst: Slot, g: Frame)
    requires SoleShare(pte, sh) && PagesMore(pte, pte', dst, g) && (sh.entry.cow || g != sh.entry.frame)
    ensures SoleShare(pte', sh)
  {}

  /** Two CPUs never share one private page. */
  lemma FramesApart(w: World, c: Cpu, d: Cpu)
    requires MInv(w) && AllSole(Virtual(w).pte, w.counted) && c in w.loaded && d in w.counted && !w.counted[d].entry.cow
    ensures w.loaded[c].entry.frame != w.counted[d].entry.frame
  {
    hide Inv, Books, AllLoaded, AllHalf, AllDue, Stages, OwnSources;
    LoadedEntry(w, c);
    var sh := w.counted[d];
    assert SoleShare(Virtual(w).pte, sh);
    assert sh.src in w.late && sh.dst in w.late;
  }

  lemma CountOthers(w: World, c: Cpu, d: Cpu)
    requires MInv(w) && AllSole(Virtual(w).pte, w.counted) && c in w.loaded && d in w.counted
    ensures SoleShare(Virtual(AfterCount(w, c)).pte, w.counted[d])
  {
    hide Inv, Shares, Books, SoleShare, PageAt, PagesMore, Virtual;
    LoadedEntry(w, c);
    CountPages(w, c);
    if !w.counted[d].entry.cow { FramesApart(w, c, d); }
    SoleMore(Virtual(w).pte, Virtual(AfterCount(w, c)).pte, w.counted[d], w.loaded[c].dst, w.loaded[c].entry.frame);
  }

  lemma CountOwn(w: World, c: Cpu)
    requires MInv(w) && c in w.loaded
    ensures SoleShare(Virtual(AfterCount(w, c)).pte, w.loaded[c])
  {
    hide Inv, Shares, Books;
    LoadedEntry(w, c);
    CountPages(w, c);
    var sh, v := w.loaded[c], Virtual(w);
    hide Virtual;
    forall at | !sh.entry.cow && PageAt(v.pte, at, sh.entry.frame) ensures at == sh.src {
      OnlyOwnName(v, sh.src);
    }
  }

  lemma MoveSole(w: World, mv: Move)
    requires MInv(w) && AllSole(Virtual(w).pte, w.counted) && Can(w, mv) && Calm(w, mv)
    ensures var w' := Go(w, mv); AllSole(Virtual(w').pte, w'.counted)
  {
    hide Inv, Books, Enabled, Calm, AllLoaded, AllCounted, AllHalf, AllDue, Stages, OwnSources, SoleShare;
    match mv
    case Act(c, a) => if !a.Store? { ActSole(w, c, a); }
    case CountUp(c) => CountSole(w, c);
    case StoreSrc(c) => SrcVirtual(w, c);
    case StoreDst(c) => DstVirtual(w, c);
    case _ =>
  }

  lemma {:induction false} RunMInv(run: seq<World>, moves: seq<Move>, i: nat)
    requires IsWorldRun(run, moves) && CalmRun(run, moves) && i < |run|
    ensures MInv(run[i]) && AllSole(Virtual(run[i]).pte, run[i].counted)
  {
    hide MInv, AllSole, BootWorld, Can, Go, Calm, CalmRun, Virtual;
    if i == 0 {
      BootMInv(run[0]);
    } else {
      RunMInv(run, moves, i - 1);
      RunStep(run, moves, i - 1);
      MoveInv(run[i - 1], moves[i - 1]);
      MoveSole(run[i - 1], moves[i - 1]);
    }
  }

  // ---------------------------------------------------------------- counts

  /** Increments that are added and whose entry is not stored yet. */
  ghost function Unstored(w: World, f: Frame): set<Slot> {
    set at | at in w.late && w.late[at].frame == f && !CowAt(w.mem.pte, at)
  }

  lemma HolderToCome(w: World, f: Frame, at: Slot)
    requires Shares(w)
    ensures Holds(Virtual(w).pte, at, Cow, f) <==> Holds(w.mem.pte, at, Cow, f) || at in Unstored(w, f)
    ensures !(Holds(w.mem.pte, at, Cow, f) && at in Unstored(w, f))
  {
    hide Shares;
    if at in w.late { LateSlot(w, at); }
  }

  lemma HoldersToCome(w: World, f: Frame)
    requires Shares(w)
    ensures |Holders(Virtual(w).pte, Cow, f)| == |Holders(w.mem.pte, Cow, f)| + |Unstored(w, f)|
  {
    hide Shares, Unstored, Holds, Virtual;
    var now, soon, all := Holders(w.mem.pte, Cow, f), Unstored(w, f), Holders(Virtual(w).pte, Cow, f);
    forall at ensures at in all <==> at in now || at in soon
              ensures !(at in now && at in soon)
    {
      HolderToCome(w, f, at);
      HoldersAre(w.mem.pte, Cow, f, at);
      HoldersAre(Virtual(w).pte, Cow, f, at);
    }
    hide Holders;
    assert all == now + soon && now !! soon;
  }

  lemma HoldersAre(pte: map<Slot, Entry>, u: Use, f: Frame, at: Slot)
    ensures at in Holders(pte, u, f) <==> Holds(pte, at, u, f)
  {}

  lemma WorldCounts(w: World, f: Frame)
    requires MInv(w)
    ensures Count(w.mem.refs, f) == |Holders(w.mem.pte, Cow, f)| + w.mem.credit[f] + |Unstored(w, f)|
  {
    hide Shares, Books;
    HoldersToCome(w, f);
    if f !in w.mem.refs { NoHolders(Virtual(w), f); }
  }

  /** In every state of every calm run the count of a page is the number of COW entries that name it,
      plus the decrements still owed, plus the increments a clone has added and not yet stored. */
  lemma EveryRunCounts(run: seq<World>, moves: seq<Move>, i: nat, f: Frame)
    requires IsWorldRun(run, moves) && CalmRun(run, moves) && i < |run|
    ensures var m := run[i].mem; Count(m.refs, f) == |Holders(m.pte, Cow, f)| + m.credit[f] + |Unstored(run[i], f)|
  {
    RunMInv(run, moves, i);
    hide IsWorldRun, CalmRun, MInv;
    WorldCounts(run[i], f);
  }

  // ---------------------------------------------------------------- what is allocated

  /** A table or page of a space that is live, being built or being torn down; late stores count as done. */
  ghost predicate Reached(w: World, f: Frame)
    requires Inv(Virtual(w))
  {
    exists r :: r in w.live + w.inHand.Keys && InSpace(Virtual(w), r, f)
  }

  lemma MovePool(w: World, mv: Move, f: Frame)
    requires MInv(w) && Can(w, mv) && Calm(w, mv)
    ensures var m' := Go(w, mv).mem; f in m'.free || f in m'.kind <==> f in w.mem.free || f in w.mem.kind
  {
    hide Inv, Shares, Books, Calm, Handy;
    if mv.Act? && !mv.action.Store? {
      ActVirtual(w, mv.cpu, mv.action);
      hide Enabled, Apply;
      PoolConstant(Virtual(w), mv.action, f);
    }
  }

  lemma {:induction false} RunPool(run: seq<World>, moves: seq<Move>, i: nat, f: Frame)
    requires IsWorldRun(run, moves) && CalmRun(run, moves) && i < |run|
    ensures f in run[i].mem.free || f in run[i].mem.kind <==> f in run[0].mem.free
  {
    hide MInv, AllSole, Can, Go, Calm, CalmRun;
    if i > 0 {
      RunPool(run, moves, i - 1, f);
      RunMInv(run, moves, i - 1);
      RunStep(run, moves, i - 1);
      MovePool(run[i - 1], moves[i - 1], f);
    }
  }

  /** Nothing leaks and nothing is used after it is freed: in every state of every calm run each frame
      the allocator started with is either free, or a table or page of a live space, of one being
      built or of one being torn down, or a page whose last decrement is owed. */
  lemma RunConserves(run: seq<World>, moves: seq<Move>, i: nat, f: Frame)
    requires IsWorldRun(run, moves) && CalmRun(run, moves) && i < |run|
    ensures Inv(Virtual(run[i]))
    ensures f in run[i].mem.kind <==> Reached(run[i], f) || f in run[i].mem.credit
    ensures f in run[0].mem.free <==> f in run[i].mem.free || Reached(run[i], f) || f in run[i].mem.credit
    ensures f in run[i].mem.free ==> !Reached(run[i], f) && f !in run[i].mem.credit
  {
    RunMInv(run, moves, i);
    RunPool(run, moves, i, f);
    VirtualRoots(run[i]);
    hide IsWorldRun, CalmRun, Shares, InSpace, Roots;
    var v := Virtual(run[i]);
    SpacesExact(v, run[i].live + run[i].inHand.Keys, f);
    if f in v.kind { FreshUnnamedFree(v, f); }
  }

  /** When no CPU is building, tearing down or settling, what is allocated is exactly what the live
      spaces are made of. */
  lemma AtRest(run: seq<World>, moves: seq<Move>, i: nat, f: Frame)
    requires IsWorldRun(run, moves) && CalmRun(run, moves) && i < |run|
    requires var w := run[i]; w.late == map[] && w.inHand == map[] && w.mem.credit == multiset{}
    ensures Inv(run[i].mem)
    ensures f in run[i].mem.kind <==> exists r :: r in run[i].live && InSpace(run[i].mem, r, f)
  {
    RunConserves(run, moves, i, f);
    hide IsWorldRun, CalmRun, Inv, InSpace;
    assert run[i].mem.pte + run[i].late == run[i].mem.pte;
    assert Virtual(run[i]) == run[i].mem;
  }

  // ---------------------------------------------------------------- isolation

  lemma RootIsTop(m: Mem, t: Frame)
    requires Inv(m) && t in m.kind && m.kind[t].Table? && t !in m.owner
    ensures Up(m, t, LEVELS) == t
  {}

  /** No late store goes to a new entry of a whole space. */
  lemma LateOutside(w: World, r: Frame, at: Slot)
    requires MInv(w) && IsTable(w.mem, r, LEVELS) && at in w.late && at !in w.mem.pte
    ensures at.table !in Tree(Virtual(w), r)
  {
    LateSlot(w, at);
    VirtualRoots(w);
    hide Shares;
    var v := Virtual(w);
    assert at in v.pte;
    assert at.table in Roots(v);
    RootIsTop(v, at.table);
  }

  /** What a whole space sees does not depend on the late stores. */
  lemma RealView(w: World, r: Frame, path: seq<nat>)
    requires MInv(w) && IsTable(w.mem, r, LEVELS)
    ensures View(w.mem, r, path) == View(Virtual(w), r, path)
  {
    hide Shares, Books, View, Inv, Tree, SameEntry;
    var v := Virtual(w);
    var ts := Tree(v, r);
    RootInTree(v, r);
    forall at: Slot | at.table in ts
      ensures at in v.pte <==> at in w.mem.pte
      ensures at in v.pte ==> SameEntry(at, v.pte[at], w.mem.pte[at]) && (UseOf(at, v.pte[at]) == Link ==> v.pte[at].frame in ts)
    {
      if at in w.late && at !in w.mem.pte { LateOutside(w, r, at); }
      if at in w.mem.pte { RealEntry(w, at); }
      if at in v.pte && UseOf(at, v.pte[at]) == Link { TreeClosed(v, r, at); }
    }
    assert Keeps(v, w.mem, ts);
    KeepsView(v, w.mem, ts, r, path);
  }

  lemma RootInTree(m: Mem, r: Frame)
    requires Inv(m) && IsTable(m, r, LEVELS)
    ensures r in Tree(m, r)
  {
    TopIsRoot(m, r);
  }

  lemma RealEntry(w: World, at: Slot)
    requires Shares(w) && at in w.mem.pte
    ensures at in Virtual(w).pte && SameEntry(at, Virtual(w).pte[at], w.mem.pte[at])
  {
    hide Shares;
    if at in w.late { LateSlot(w, at); }
  }

  /** A page that no entry of the space names may be written without the space seeing it. */
  lemma WriteUnseen(m: Mem, f: Frame, b: seq<Byte>, r: Frame, path: seq<nat>)
    requires Inv(m) && IsTable(m, r, LEVELS)
    requires forall at | PageAt(m.pte, at, f) :: at.table !in Tree(m, r)
    ensures View(m.(bytes := m.bytes[f := b]), r, path) == View(m, r, path)
  {
    TopIsRoot(m, r);
    var m', ts := m.(bytes := m.bytes[f := b]), Tree(m, r);
    hide Inv, View, Tree;
    forall at: Slot | at.table in ts && at in m.pte
      ensures UseOf(at, m.pte[at]) == Link ==> m.pte[at].frame in ts
      ensures IsPage(UseOf(at, m.pte[at])) ==> m.pte[at].frame != f
    {
      if UseOf(at, m.pte[at]) == Link { TreeClosed(m, r, at); }
      assert IsPage(UseOf(at, m.pte[at])) ==> PageAt(m.pte, at, m.pte[at].frame);
    }
    assert Keeps(m, m', ts);
    KeepsView(m, m', ts, r, path);
  }

  /** The move writes no entry and no page of the space with root `r`; the invariant that gives a
      table its root holds in every state of a calm run. */
  ghost predicate Spares(w: World, mv: Move, r: Frame) {
    Inv(Virtual(w)) && mv.Act? ==> r !in Touched(Virtual(w), mv.action)
  }

  /** A store through an entry is seen by the spaces that hold the page through that very entry, or
      through the copy of it that is being made. */
  lemma StoreHolders(w: World, c: Cpu, a: Action, at: Slot)
    requires MInv(w) && AllSole(Virtual(w).pte, w.counted) && Can(w, Act(c, a)) && a.Store?
    requires PageAt(Virtual(w).pte, at, w.mem.pte[a.at].frame)
    ensures at == a.at || (at in w.late && at !in w.mem.pte)
  {
    hide Inv, Shares, Books, AllSole, Handy;
    if a.at in w.late {
      StoreLate(w, a.at);
    } else if at != a.at {
      StoreElsewhere(Virtual(w), a.at, at);
    }
  }

  lemma StoreLate(w: World, s: Slot)
    requires Shares(w) && AllSole(Virtual(w).pte, w.counted) && s in w.late && s in w.mem.pte && w.mem.pte[s].writable
    ensures forall at | PageAt(Virtual(w).pte, at, w.mem.pte[s].frame) :: at == s || (at in w.late && at !in w.mem.pte)
  {
    var c := w.due[s];
    DueSource(w, s);
    var sh := w.counted[c];
    assert SoleShare(Virtual(w).pte, sh);
    hide Shares;
  }

  /** A late store to an entry that is there is the source store of a counted share. */
  lemma DueSource(w: World, s: Slot)
    requires Shares(w) && s in w.late && s in w.mem.pte
    ensures s in w.due && w.due[s] in w.counted
    ensures var sh := w.counted[w.due[s]]; sh.src == s && sh.entry == w.mem.pte[s] && sh.dst in w.late && sh.dst !in w.mem.pte
  {
    hide AllLoaded, OwnSources, Stages, SrcLate, DstLate;
    var c := w.due[s];
    assert Owed(w.counted, w.half, c, s);
    if c in w.counted {
      DstLateSlot(w.mem.pte, w.late, w.inHand, c, w.counted[c]);
      SrcIs(w.mem.pte, w.late, w.counted[c]);
    }
    if c in w.half { DstLateSlot(w.mem.pte, w.late, w.inHand, c, w.half[c]); }
  }

  lemma SrcIs(pte: map<Slot, Entry>, late: map<Slot, Entry>, sh: Share)
    requires SrcLate(pte, late, sh)
    ensures sh.src in pte && pte[sh.src] == sh.entry
  {}

  /** So the page is not in a space whose tables the store does not go through. */
  lemma StoreAway(w: World, c: Cpu, a: Action, r: Frame, at: Slot)
    requires MInv(w) && AllSole(Virtual(w).pte, w.counted) && Can(w, Act(c, a)) && a.Store?
    requires IsTable(w.mem, r, LEVELS) && Spares(w, Act(c, a), r) && PageAt(Virtual(w).pte, at, w.mem.pte[a.at].frame)
    ensures at.table !in Tree(Virtual(w), r)
  {
    hide Inv, Shares, Books, AllSole, Handy, Touched, Tree;
    StoreHolders(w, c, a, at);
    if at == a.at {
      TouchedRoot(Virtual(w), a, at, r);
    } else {
      LateOutside(w, r, at);
    }
  }

  lemma TouchedRoot(m: Mem, a: Action, at: Slot, r: Frame)
    requires Inv(m) && at in m.pte && at.table in Touches(a) && r !in Touched(m, a)
    ensures at.table !in Tree(m, r)
  {
    SlotTable(m, at);
  }

  lemma StoreSpares(w: World, c: Cpu, a: Action, r: Frame, path: seq<nat>)
    requires MInv(w) && AllSole(Virtual(w).pte, w.counted) && Can(w, Act(c, a)) && a.Store?
    requires IsTable(w.mem, r, LEVELS) && Spares(w, Act(c, a), r)
    ensures View(Virtual(Go(w, Act(c, a))), r, path) == View(Virtual(w), r, path)
  {
    hide Inv, Shares, Books, Tree, View, AllSole, Handy;
    var v, f := Virtual(w), w.mem.pte[a.at].frame;
    forall at | PageAt(v.pte, at, f) ensures at.table !in Tree(v, r) { StoreAway(w, c, a, r, at); }
    WriteUnseen(v, f, Splice(Content(w.mem, f), a.offset, a.data), r, path);
  }

  lemma ActSpares(w: World, c: Cpu, a: Action, r: Frame, path: seq<nat>)
    requires MInv(w) && Can(w, Act(c, a)) && Calm(w, Act(c, a)) && !a.Store? && |path| == LEVELS
    requires IsTable(w.mem, r, LEVELS) && Spares(w, Act(c, a), r)
    ensures IsTable(Go(w, Act(c, a)).mem, r, LEVELS)
    ensures View(Virtual(Go(w, Act(c, a))), r, path) == View(Virtual(w), r, path)
  {
    hide Inv, Shares, Books, Calm, Handy;
    ActVirtual(w, c, a);
    TopIsRoot(Virtual(w), r);
    hide Enabled, Apply, View, Touched;
    RootStays(Virtual(w), a, r);
    Isolation(Virtual(w), a, r, path);
  }

  lemma LoadedDst(w: World, c: Cpu)
    requires MInv(w) && c in w.loaded
    ensures LoadedOk(w.mem.pte, w.mem.kind, w.late, w.inHand, c, w.loaded[c])
    ensures var t := w.loaded[c].dst.table; t in Roots(Virtual(w)) && Virtual(w).kind[t] == Table(1)
  {
    VirtualRoots(w);
    hide Inv, AllCounted, AllHalf, AllDue, Roots;
  }

  lemma CountSpares(w: World, c: Cpu, r: Frame, path: seq<nat>)
    requires MInv(w) && c in w.loaded && IsTable(w.mem, r, LEVELS) && |path| == LEVELS
    ensures View(Virtual(AfterCount(w, c)), r, path) == View(Virtual(w), r, path)
  {
    hide Inv, Shares, Books, View;
    var sh, v := w.loaded[c], Virtual(w);
    LoadedDst(w, c);
    CountVirtual(w, c);
    hide LoadedOk, Enabled;
    RootIsTop(v, sh.dst.table);
    TopIsRoot(v, r);
    Isolation(v, ShareCow(sh.src, sh.dst), r, path);
  }

  lemma MoveSpares(w: World, mv: Move, r: Frame, path: seq<nat>)
    requires MInv(w) && AllSole(Virtual(w).pte, w.counted) && Can(w, mv) && Calm(w, mv) && |path| == LEVELS
    requires IsTable(w.mem, r, LEVELS) && Spares(w, mv, r)
    ensures IsTable(Go(w, mv).mem, r, LEVELS)
    ensures View(Virtual(Go(w, mv)), r, path) == View(Virtual(w), r, path)
  {
    hide Inv, Shares, Books, Calm, Enabled, View, AllSole;
    match mv
    case Act(c, a) => if a.Store? { StoreSpares(w, c, a, r, path); } else { ActSpares(w, c, a, r, path); }
    case CountUp(c) => CountSpares(w, c, r, path);
    case StoreSrc(c) => SrcVirtual(w, c);
    case StoreDst(c) => DstVirtual(w, c);
    case _ => assert Virtual(Go(w, mv)) == Virtual(w);
  }

  lemma StepIsolation(w: World, mv: Move, r: Frame, path: seq<nat>)
    requires MInv(w) && AllSole(Virtual(w).pte, w.counted) && Can(w, mv) && Calm(w, mv) && |path| == LEVELS
    requires IsTable(w.mem, r, LEVELS) && Spares(w, mv, r)
    ensures IsTable(Go(w, mv).mem, r, LEVELS) && View(Go(w, mv).mem, r, path) == View(w.mem, r, path)
  {
    MoveInv(w, mv);
    hide MInv, AllSole, Can, Go, Calm, View, Spares, Virtual;
    MoveSpares(w, mv, r, path);
    RealView(w, r, path);
    RealView(Go(w, mv), r, path);
  }

  /** Isolation over whole runs: however long other spaces fork, fault, write, unmap and exit, in
      whatever order their accesses interleave, a space that no one touches sees what it saw. */
  lemma {:induction false} RunIsolation(run: seq<World>, moves: seq<Move>, i: nat, j: nat, r: Frame, path: seq<nat>)
    requires IsWorldRun(run, moves) && CalmRun(run, moves) && i <= j < |run| && |path| == LEVELS
    requires IsTable(run[i].mem, r, LEVELS) && forall k | i <= k < j :: Spares(run[k], moves[k], r)
    ensures IsTable(run[j].mem, r, LEVELS) && View(run[j].mem, r, path) == View(run[i].mem, r, path)
    decreases j
  {
    hide MInv, AllSole, BootWorld, Can, Go, Calm, View, Spares, CalmRun, IsTable;
    if i < j {
      RunIsolation(run, moves, i, j - 1, r, path);
      RunMInv(run, moves, j - 1);
      RunStep(run, moves, j - 1);
      StepIsolation(run[j - 1], moves[j - 1], r, path);
    }
  }

  lemma PageToCome(w: World, at: Slot, f: Frame)
    requires Shares(w) && PageAt(w.mem.pte, at, f)
    ensures PageAt(Virtual(w).pte, at, f)
  {
    hide Shares;
    RealEntry(w, at);
  }

  /** In every state of every calm run a page behind a writable entry is named by no other entry. */
  lemma RunWritableAlone(run: seq<World>, moves: seq<Move>, i: nat, at: Slot, other: Slot)
    requires IsWorldRun(run, moves) && CalmRun(run, moves) && i < |run| && at != other && at.level == 1
    requires var m := run[i].mem; at in m.pte && m.pte[at].writable && IsPage(UseOf(at, m.pte[at]))
    ensures !PageAt(run[i].mem.pte, other, run[i].mem.pte[at].frame)
  {
    RunMInv(run, moves, i);
    hide IsWorldRun, CalmRun, BootWorld, Shares, Books, Inv, AllSole;
    var w := run[i];
    if PageAt(w.mem.pte, other, w.mem.pte[at].frame) {
      PageToCome(w, other, w.mem.pte[at].frame);
      if at in w.late { StoreLate(w, at); } else { StoreElsewhere(Virtual(w), at, other); }
    }
  }
}
