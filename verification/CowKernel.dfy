/** The kernel's copy-on-write address spaces as it updates them in place: the reference table,
    the free and clone walks of fork and exit, the fault resolver, copy_to_user and munmap. */
module CowKernel {
  import opened Common
  import opened Paging
  import opened CowSteps
  import opened CowRuns
  import opened CowEffects
  import opened CowWalks
  import opened CowTable
  import opened UserMemory

  /** The states passed through so far are a run of atomic actions from boot to `m`. */
  ghost predicate Traced(trace: seq<Mem>, m: Mem) {
    IsRun(trace) && Boot(trace[0]) && trace[|trace| - 1] == m
  }

  /** The frames of the allocator and of the tables and pages, together, never change. */
  ghost predicate PoolIs(pool: set<Frame>, m: Mem) {
    forall f :: f in pool <==> f in m.free || f in m.kind
  }

  /** What can make a fork fail: no free frame, no room in the reference table or in a count, a
      device page whose map count is refused, a large page. */
  ghost predicate Hindrance(m: Mem) {
    || m.free == {} || |m.refs| == COW_MAX_REFS
    || (exists f | f in m.refs :: m.refs[f] >= UINT32_MAX)
    || (exists at | at in m.pte :: UseOf(at, m.pte[at]) == Dma)
    || (exists at | at in m.pte :: m.pte[at].ps && at.level < LEVELS)
  }

  /** Some state from number `from` on was one in which a fork can fail. */
  ghost predicate Hindered(trace: seq<Mem>, from: int) {
    exists k | 0 <= from <= k < |trace| :: Hindrance(trace[k])
  }

  lemma HinderedNow(trace: seq<Mem>, from: int, m: Mem)
    requires Traced(trace, m) && 0 <= from < |trace| && Hindrance(m)
    ensures Hindered(trace, from)
  {
    assert Hindrance(trace[|trace| - 1]);
  }

  lemma HinderedStays(before: seq<Mem>, trace: seq<Mem>, from: int, earlier: int)
    requires Hindered(before, from) && before <= trace && 0 <= earlier <= from
    ensures Hindered(trace, earlier)
  {
    var k :| 0 <= from <= k < |before| && Hindrance(before[k]);
    assert Hindrance(trace[k]);
  }

  lemma NonEmpty(trace: seq<Mem>, m: Mem)
    requires Traced(trace, m)
    ensures |trace| > 0
  {}

  lemma NoFrame(m: Mem)
    requires m.free == {}
    ensures Hindrance(m)
  {}

  lemma NoFrames(trace: seq<Mem>, from: int, m: Mem)
    requires Traced(trace, m) && m.free == {} && from == |trace| - 1
    ensures Hindered(trace, from)
  {
    HinderedNow(trace, from, m);
  }

  lemma DevicePage(m: Mem, at: Slot)
    requires at in m.pte && UseOf(at, m.pte[at]) == Dma
    ensures Hindrance(m)
  {}

  lemma LargePage(trace: seq<Mem>, from: int, m: Mem, at: Slot)
    requires Traced(trace, m) && 0 <= from < |trace| && at in m.pte && m.pte[at].ps && at.level < LEVELS
    ensures Hindered(trace, from)
  {
    HinderedNow(trace, from, m);
  }

  lemma NoRoomToCount(m: Mem, f: Frame)
    requires if f in m.refs then m.refs[f] >= UINT32_MAX else |m.refs| == COW_MAX_REFS
    ensures Hindrance(m)
  {}

  lemma ShareTarget(m: Mem, src: Slot)
    requires Inv(m) && src in m.pte && IsPage(UseOf(src, m.pte[src]))
    ensures m.pte[src].frame != 0 && (m.pte[src].cow <==> m.pte[src].frame in m.refs)
  {
    HasTarget(m, src);
  }

  /** Taking an action: the invariant, the trace and the pool follow it. */
  lemma Step(trace: seq<Mem>, pool: set<Frame>, m: Mem, a: Action)
    requires Inv(m) && Traced(trace, m) && PoolIs(pool, m) && Enabled(m, a)
    ensures Inv(Apply(m, a))
    ensures Traced(trace + [Apply(m, a)], Apply(m, a))
    ensures PoolIs(pool, Apply(m, a))
  {
    hide SlotsInTables, Targets, OwnerInverse, PagesKept, Counted, DmaCounted, FramesOk;
    ActionInv(m, a);
    TraceStep(trace, m, a);
    forall f { PoolConstant(m, a, f); }
  }

  lemma TraceStep(trace: seq<Mem>, m: Mem, a: Action)
    requires Traced(trace, m) && Enabled(m, a)
    ensures Traced(trace + [Apply(m, a)], Apply(m, a))
  {
    var t' := trace + [Apply(m, a)];
    forall i | 0 < i < |t'| ensures Next(t'[i - 1], t'[i]) {
      if i < |trace| { assert Next(trace[i - 1], trace[i]); }
    }
  }

  class AddressSpaces {
    var free: set<Frame>
    var kind: map<Frame, Cell>
    var pte: map<Slot, Entry>
    var bytes: map<Frame, seq<Byte>>
    var cowRefs: seq<CowRef>
    var dma: multiset<Frame>
    var kernelHalf: map<Slot, Entry>
    const foreign: set<Frame>

    ghost const pool: set<Frame>
    ghost var refs: map<Frame, nat>
    ghost var owner: map<Frame, Slot>
    ghost var credit: multiset<Frame>
    ghost var spaces: set<Frame>
    ghost var trace: seq<Mem>

    ghost function M(): Mem
      reads this
    {
      Mem(free, kind, pte, bytes, refs, dma, foreign, owner, credit)
    }

    ghost predicate Valid()
      reads this
    {
      && Inv(M()) && Tracks(cowRefs, refs) && Traced(trace, M())
      && PoolIs(pool, M())
    }

    /** Between calls: no table is left over beside the PML4s of the live spaces, and nothing is owed. */
    ghost predicate Rested()
      reads this
    {
      Roots(M()) == spaces && credit == multiset{}
    }

    /** So between calls what is allocated is exactly what the live spaces are made of. */
    lemma NothingLeftOver(f: Frame)
      requires Valid() && Rested()
      ensures f in kind <==> exists r :: r in spaces && InSpace(M(), r, f)
    {
      hide Inv, InSpace;
      SpacesExact(M(), spaces, f);
    }

    /** Syscall_init: an empty reference table and no address space. */
    constructor (free: set<Frame>, foreign: set<Frame>, bytes: map<Frame, seq<Byte>>)
      requires free !! foreign && 0 in foreign
      requires forall f | f in foreign :: f in bytes && |bytes[f]| == PAGE_SIZE
      ensures Valid() && Boot(M()) && this.free == free && Rested() && spaces == {}
    {
      this.free, this.foreign, this.bytes := free, foreign, bytes;
      this.kind, this.pte, this.dma, this.kernelHalf := map[], map[], multiset{}, map[];
      this.cowRefs := seq(COW_MAX_REFS, i => EMPTY);
      this.pool, this.refs, this.owner, this.credit := free, map[], map[], multiset{};
      this.spaces := {};
      this.trace := [Mem(free, map[], map[], bytes, map[], multiset{}, foreign, map[], multiset{})];
      new;
      BootInv(M());
    }

    // ------------------------------------------------------------ the COW reference table

    method CowRefAdd(phys: Frame, delta: nat) returns (ok: bool)
      requires Tracks(cowRefs, refs) && delta <= UINT32_MAX
      modifies this`cowRefs, this`refs
      ensures Tracks(cowRefs, refs)
      ensures ok ==> refs == old(refs)[phys := Count(old(refs), phys) + delta]
      ensures !ok ==> refs == old(refs) && cowRefs == old(cowRefs)
      ensures ok <==> phys != 0 && delta != 0 && if phys in old(refs) then old(refs)[phys] + delta <= UINT32_MAX
                                   else |old(refs)| != COW_MAX_REFS
    {
      hide Tracks;
      if phys == 0 || delta == 0 { return false; }
      var slot := CowRefFind(cowRefs, refs, phys);
      if slot >= 0 {
        SlotCount(cowRefs, refs, slot, phys);
        var n := cowRefs[slot].refs;
        if n > UINT32_MAX - delta { return false; }
        TracksRecount(cowRefs, refs, slot, n + delta);
        cowRefs, refs := cowRefs[slot := cowRefs[slot].(refs := n + delta)], refs[phys := n + delta];
        return true;
      }
      slot := CowRefAlloc(cowRefs, refs);
      if slot < 0 { return false; }
      TracksInsert(cowRefs, refs, slot, phys, delta);
      cowRefs, refs := cowRefs[slot := CowRef(true, phys, delta)], refs[phys := delta];
      return true;
    }

    method CowRefSub(phys: Frame) returns (ok: bool, zero: bool)
      requires Tracks(cowRefs, refs)
      modifies this`cowRefs, this`refs
      ensures Tracks(cowRefs, refs)
      ensures ok <==> phys != 0 && phys in old(refs)
      ensures zero <==> ok && old(refs)[phys] <= 1
      ensures refs == if !ok then old(refs) else if zero then old(refs) - {phys}
                      else old(refs)[phys := old(refs)[phys] - 1]
    {
      hide Tracks;
      if phys == 0 { return false, false; }
      var slot := CowRefFind(cowRefs, refs, phys);
      if slot < 0 { return false, false; }
      SlotCount(cowRefs, refs, slot, phys);
      var n := cowRefs[slot].refs;
      if n <= 1 {
        TracksRemove(cowRefs, refs, slot);
        cowRefs, refs := cowRefs[slot := EMPTY], refs - {phys};
        return true, true;
      }
      TracksRecount(cowRefs, refs, slot, n - 1);
      cowRefs, refs := cowRefs[slot := cowRefs[slot].(refs := n - 1)], refs[phys := n - 1];
      return true, false;
    }

    method CowRefGet(phys: Frame) returns (n: nat)
      requires Tracks(cowRefs, refs)
      ensures n == if phys == 0 then 0 else Count(refs, phys)
    {
      if phys == 0 { return 0; }
      var slot := CowRefFind(cowRefs, refs, phys);
      return if slot >= 0 then cowRefs[slot].refs else 0;
    }

    // ------------------------------------------------------------ single actions

    /** A zeroed frame for a table, or 0 when the allocator is empty. */
    method TakeTable(level: nat) returns (t: Frame)
      requires Valid() && 1 <= level <= LEVELS
      modifies this`free, this`kind, this`trace
      ensures Valid() && old(trace) <= trace
      ensures t == 0 ==> M() == old(M()) && free == {} && trace == old(trace)
      ensures t != 0 ==> Enabled(old(M()), NewTable(t, level)) && M() == Apply(old(M()), NewTable(t, level))
    {
      hide SlotsInTables, Targets, OwnerInverse, PagesKept, Counted, DmaCounted, FramesOk, Tracks, Traced, PoolIs;
      if free == {} { return 0; }
      t :| t in free;
      ghost var m := M();
      NotForeign(m, t);
      Step(trace, pool, m, NewTable(t, level));
      free, kind := free - {t}, kind[t := Table(level)];
      trace := trace + [M()];
    }

    method LinkTo(at: Slot, e: Entry)
      requires Valid() && Enabled(M(), LinkChild(at, e))
      modifies this`pte, this`owner, this`trace
      ensures Valid() && old(trace) <= trace && M() == Apply(old(M()), LinkChild(at, e))
    {
      hide SlotsInTables, Targets, OwnerInverse, PagesKept, Counted, DmaCounted, FramesOk, Tracks, Traced, PoolIs;
      ghost var m := M();
      Step(trace, pool, m, LinkChild(at, e));
      pte := pte[at := e];
      owner := owner[e.frame := at];
      trace := trace + [M()];
    }

    method CopyEntry(at: Slot, e: Entry)
      requires Valid() && Enabled(M(), CopyOpaque(at, e))
      modifies this`pte, this`trace
      ensures Valid() && old(trace) <= trace && M() == Apply(old(M()), CopyOpaque(at, e))
    {
      hide SlotsInTables, Targets, OwnerInverse, PagesKept, Counted, DmaCounted, FramesOk, Tracks, Traced, PoolIs;
      Step(trace, pool, M(), CopyOpaque(at, e));
      pte := pte[at := e];
      trace := trace + [M()];
    }

    /** DRM_dmabuf_ref_map_pages_by_phys may refuse; otherwise the entry is copied. */
    method ShareDma(at: Slot, e: Entry) returns (ok: bool)
      requires Valid() && Enabled(M(), MapDma(at, e))
      modifies this`pte, this`dma, this`trace
      ensures Valid() && old(trace) <= trace
      ensures M() == if ok then Apply(old(M()), MapDma(at, e)) else old(M())
    {
      hide SlotsInTables, Targets, OwnerInverse, PagesKept, Counted, DmaCounted, FramesOk, Tracks, Traced, PoolIs;
      if * { return false; }
      Step(trace, pool, M(), MapDma(at, e));
      pte, dma := pte[at := e], dma + multiset{e.frame};
      trace := trace + [M()];
      return true;
    }

    /** One more holder of a COW page, or the first two of a private one. */
    method CountShare(src: Slot) returns (ok: bool)
      requires Valid() && src in pte && IsPage(UseOf(src, pte[src]))
      modifies this`cowRefs, this`refs
      ensures Tracks(cowRefs, refs)
      ensures ok ==> refs == old(refs)[pte[src].frame := Count(old(refs), pte[src].frame) + if pte[src].cow then 1 else 2]
      ensures !ok ==> cowRefs == old(cowRefs) && refs == old(refs) && Hindrance(M())
    {
      hide SlotsInTables, Targets, OwnerInverse, PagesKept, Counted, DmaCounted, FramesOk, Tracks, Traced, PoolIs, Hindrance;
      var e := pte[src];
      ShareTarget(M(), src);
      ok := CowRefAdd(e.frame, if e.cow then 1 else 2);
      if !ok { NoRoomToCount(M(), e.frame); }
    }

    /** Count the page, then mark both entries COW. */
    method Share(src: Slot, dst: Slot) returns (ok: bool)
      requires Valid() && Enabled(M(), ShareCow(src, dst))
      modifies this`pte, this`cowRefs, this`refs, this`owner, this`trace
      ensures Valid() && old(trace) <= trace
      ensures M() == if ok then Apply(old(M()), ShareCow(src, dst)) else old(M())
      ensures !ok ==> Hindrance(M())
    {
      hide SlotsInTables, Targets, OwnerInverse, PagesKept, Counted, DmaCounted, FramesOk, Tracks, Traced, PoolIs, Hindrance;
      ghost var m := M();
      var e := pte[src];
      Step(trace, pool, m, ShareCow(src, dst));
      ok := CountShare(src);
      if !ok { return; }
      pte := pte[src := CowEntry(e)][dst := CowEntry(e)];
      if !e.cow { owner := owner - {e.frame}; }
      trace := trace + [M()];
    }

    /** A fresh page with the given contents behind a private entry. */
    method MapPage(at: Slot, e: Entry, content: seq<Byte>) returns (ok: bool)
      requires Valid() && at !in pte && InTable(kind, at) && UseOf(at, e) == Own && |content| == PAGE_SIZE
      modifies this`free, this`kind, this`pte, this`bytes, this`owner, this`trace
      ensures Valid() && old(trace) <= trace
      ensures !ok ==> M() == old(M()) && free == {}
      ensures ok ==> exists f :: var a := MapFresh(at, e.(frame := f), content);
                                 Enabled(old(M()), a) && M() == Apply(old(M()), a)
    {
      hide SlotsInTables, Targets, OwnerInverse, PagesKept, Counted, DmaCounted, FramesOk, Tracks, Traced, PoolIs;
      if free == {} { return false; }
      var f :| f in free;
      ghost var m := M();
      ghost var a := MapFresh(at, e.(frame := f), content);
      NotForeign(m, f);
      Step(trace, pool, m, a);
      free, kind := free - {f}, kind[f := Page];
      bytes, pte := bytes[f := content], pte[at := e.(frame := f)];
      owner := owner[f := at];
      trace := trace + [M()];
      return true;
    }

    /** Give up an entry: a private page goes back to the allocator. */
    method DropPage(at: Slot)
      requires Valid() && at in pte && UseOf(at, pte[at]) == Own
      modifies this`free, this`kind, this`pte, this`owner, this`trace
      ensures Valid() && old(trace) <= trace && M() == AfterDrop(old(M()), at)
    {
      hide SlotsInTables, Targets, OwnerInverse, PagesKept, Counted, DmaCounted, FramesOk, Tracks, Traced, PoolIs;
      Step(trace, pool, M(), Drop(at));
      var f := pte[at].frame;
      pte, free, kind := pte - {at}, free + {f}, kind - {f};
      owner := owner - {f};
      trace := trace + [M()];
    }

    /** Give up an entry that owns no frame alone: a device page loses its map reference, a COW
        page stays counted until the decrement is settled, a child table hangs loose. */
    method DropEntry(at: Slot)
      requires Valid() && at in pte && UseOf(at, pte[at]) != Own
      modifies this`pte, this`dma, this`owner, this`credit, this`trace
      ensures Valid() && old(trace) <= trace && M() == AfterDrop(old(M()), at)
    {
      hide SlotsInTables, Targets, OwnerInverse, PagesKept, Counted, DmaCounted, FramesOk, Tracks, Traced, PoolIs;
      Step(trace, pool, M(), Drop(at));
      var f, use := pte[at].frame, UseOf(at, pte[at]);
      pte := pte - {at};
      if use == Dma { dma := dma - multiset{f}; }
      if use == Cow { credit := credit + multiset{f}; }
      if use == Link { owner := owner - {f}; }
      trace := trace + [M()];
    }

    /** cow_ref_sub for a decrement that is owed; the last one frees the page. */
    method SettleOne(f: Frame)
      requires Valid() && f in credit
      modifies this`free, this`kind, this`cowRefs, this`refs, this`credit, this`trace
      ensures Valid() && old(trace) <= trace && M() == AfterSettle(old(M()), f)
    {
      hide SlotsInTables, Targets, OwnerInverse, PagesKept, Counted, DmaCounted, FramesOk, Tracks, Traced, PoolIs;
      ghost var m := M();
      Step(trace, pool, m, Settle(f));
      OwedIsPage(m, f);
      var ok, zero := CowRefSub(f);
      if ok && zero { free, kind := free + {f}, kind - {f}; }
      credit := credit - multiset{f};
      trace := trace + [M()];
    }

    method GiveTable(t: Frame)
      requires Valid() && Enabled(M(), FreeTable(t))
      modifies this`free, this`kind, this`trace
      ensures Valid() && old(trace) <= trace && M() == Apply(old(M()), FreeTable(t))
    {
      hide SlotsInTables, Targets, OwnerInverse, PagesKept, Counted, DmaCounted, FramesOk, Tracks, Traced, PoolIs;
      Step(trace, pool, M(), FreeTable(t));
      free, kind := free + {t}, kind - {t};
      trace := trace + [M()];
    }

    // ------------------------------------------------------------ teardown

    /** Syscall_free_user_pt, _pdt, _pdpt and _free_address_space, by level: every table and
        private page of the tree goes back once, COW pages lose one count, and no other tree
        loses anything. */
    method FreeTree(level: nat, t: Frame)
      requires Valid() && 1 <= level <= LEVELS && IsTable(M(), t, level) && t in Roots(M())
      modifies this`free, this`kind, this`pte, this`cowRefs, this`refs, this`dma, this`owner, this`credit, this`trace
      ensures Valid() && old(trace) <= trace
      ensures Freed(old(M()), M(), t)
      decreases level, 1
    {
      hide SlotsInTables, Targets, OwnerInverse, PagesKept, Counted, DmaCounted, FramesOk, Tracks, Traced, PoolIs;
      hide Dropped, Freed;
      ghost var m0 := M();
      DropStart(m0, level, t);
      for i := 0 to Width(level)
        invariant Valid() && old(trace) <= trace
        invariant Dropped(m0, M(), level, t, i)
      {
        if Slot(level, t, i) in pte {
          FreeEntry(Slot(level, t, i), m0);
        } else {
          DropSkip(m0, M(), level, t, i);
        }
      }
      FreeEmptied(m0, M(), level, t);
      GiveTable(t);
    }

    /** One present entry of a table being freed. */
    method FreeEntry(at: Slot, ghost m0: Mem)
      requires Valid() && 1 <= at.level <= LEVELS && at in pte
      requires Inv(m0) && Dropped(m0, M(), at.level, at.table, at.index)
      modifies this`free, this`kind, this`pte, this`cowRefs, this`refs, this`dma, this`owner, this`credit, this`trace
      ensures Valid() && old(trace) <= trace
      ensures Dropped(m0, M(), at.level, at.table, at.index + 1)
      decreases at.level, 0
    {
      hide SlotsInTables, Targets, OwnerInverse, PagesKept, Counted, DmaCounted, FramesOk, Tracks, Traced, PoolIs;
      hide Dropped, Freed, AfterDrop, AfterSettle;
      ghost var m := M();
      var e := pte[at];
      if at.level == 1 {
        if e.frame == 0 || e.dmabuf {
          DropPlain(m0, m, at.level, at.table, at.index);
          DropEntry(at);
        } else if e.cow {
          DropCow(m0, m, at.level, at.table, at.index);
          DropEntry(at);
          SettleOne(e.frame);
        } else {
          DropPlain(m0, m, at.level, at.table, at.index);
          DropPage(at);
        }
      } else if e.ps && at.level < LEVELS {
        DropPlain(m0, m, at.level, at.table, at.index);
        DropEntry(at);
      } else {
        DropEntry(at);
        Detached(m, at);
        FreeTree(at.level - 1, e.frame);
        DropLink(m0, m, M(), at.level, at.table, at.index);
      }
    }

    // ------------------------------------------------------------ fork

    /** Syscall_clone_user_pt, _pdt and _pdpt, by level: a new tree that shows exactly what the
        table at `src` shows, or nothing taken at all. */
    method CloneTree(level: nat, src: Frame) returns (ok: bool, dst: Frame)
      requires Valid() && 1 <= level <= LEVELS && IsTable(M(), src, level)
      modifies this`free, this`kind, this`pte, this`bytes, this`cowRefs, this`refs, this`dma, this`owner, this`credit, this`trace
      ensures Valid() && old(trace) <= trace
      ensures ok ==> Cloned(old(M()), M(), level, src, dst)
      ensures !ok ==> Undone(old(M()), M()) && Hindered(trace, |old(trace)| - 1)
      decreases level, 1
    {
      hide SlotsInTables, Targets, OwnerInverse, PagesKept, Counted, DmaCounted, FramesOk, Tracks, Traced, PoolIs, Hindrance, Hindered;
      hide Mirrored, Cloned, Undone;
      ghost var o := M();
      dst := TakeTable(level);
      if dst == 0 {
        NothingUndone(o);
        NoFrames(trace, |old(trace)| - 1, o);
        return false, 0;
      }
      MirrorStart(o, level, src, dst);
      ghost var from := |trace| - 1;
      NonEmpty(trace, M());
      NonEmpty(old(trace), o);
      ok := CloneInto(level, src, dst, o);
      if !ok { HinderedStays(trace, trace, from, |old(trace)| - 1); }
    }

    /** The clone loop over one table, at any level; a failure frees what was built. */
    method CloneInto(level: nat, src: Frame, dst: Frame, ghost o: Mem) returns (ok: bool)
      requires Valid() && 1 <= level <= LEVELS && Inv(o) && PoolIs(pool, o)
      requires IsTable(o, src, level) && Mirrored(o, M(), level, src, dst, 0)
      modifies this`free, this`kind, this`pte, this`bytes, this`cowRefs, this`refs, this`dma, this`owner, this`credit, this`trace
      ensures Valid() && old(trace) <= trace
      ensures ok ==> Cloned(o, M(), level, src, dst)
      ensures !ok ==> Undone(o, M()) && Hindered(trace, |old(trace)| - 1)
      decreases level, 0, 1
    {
      hide SlotsInTables, Targets, OwnerInverse, PagesKept, Counted, DmaCounted, FramesOk, Tracks, Traced, PoolIs, Hindrance, Hindered;
      hide Mirrored, Cloned, Undone, Freed;
      NonEmpty(trace, M());
      for i := 0 to Width(level)
        invariant Valid() && old(trace) <= trace
        invariant Mirrored(o, M(), level, src, dst, i)
      {
        ghost var before := trace;
        var copied := CloneSlot(level, src, dst, i, o);
        if !copied {
          ghost var half, sofar := M(), trace;
          FreeTree(level, dst);
          HinderedStays(sofar, trace, |before| - 1, |old(trace)| - 1);
          PoolsAgree(pool, o, M());
          FailUndone(o, half, M(), level, dst);
          return false;
        }
      }
      MirrorEnd(o, M(), level, src, dst);
      return true;
    }

    /** One slot of the table: nothing, a page, or a whole subtree that is cloned and linked. */
    method CloneSlot(level: nat, src: Frame, dst: Frame, i: nat, ghost o: Mem) returns (copied: bool)
      requires Valid() && 1 <= level <= LEVELS && Inv(o) && PoolIs(pool, o) && i < Width(level)
      requires IsTable(o, src, level) && Mirrored(o, M(), level, src, dst, i)
      modifies this`free, this`kind, this`pte, this`bytes, this`cowRefs, this`refs, this`dma, this`owner, this`credit, this`trace
      ensures Valid() && old(trace) <= trace
      ensures copied ==> Mirrored(o, M(), level, src, dst, i + 1)
      ensures !copied ==> HalfBuilt(o, M(), level, dst) && Hindered(trace, |old(trace)| - 1)
      decreases level, 0, 0
    {
      hide SlotsInTables, Targets, OwnerInverse, PagesKept, Counted, DmaCounted, FramesOk, Tracks, Traced, PoolIs, Hindrance, Hindered;
      hide Mirrored, Cloned, Undone, HalfBuilt;
      var s, d := Slot(level, src, i), Slot(level, dst, i);
      ghost var m, from := M(), |trace| - 1;
      NonEmpty(trace, m);
      MirroredHalf(o, m, level, src, dst, i);
      if s !in pte {
        MirrorSkip(o, m, level, src, dst, i);
        return true;
      }
      var e := pte[s];
      if e.ps && level < LEVELS {
        LargePage(trace, from, m, s);
        return false;
      }
      if level == 1 {
        copied := CloneEntry(s, d, o);
        if !copied { HinderedNow(trace, from, M()); }
        return;
      }
      SourceChild(o, m, level, src, dst, i);
      var child;
      copied, child := CloneTree(level - 1, e.frame);
      if copied {
        MirrorLink(o, m, M(), level, src, dst, i, child);
        LinkTo(d, e.(frame := child));
      } else {
        ChildUndone(o, m, M(), level, src, dst, i);
      }
    }

    /** One entry of a page table: empty frames and device pages are copied, writable and COW
        pages become shared COW pages, read-only private pages are copied. */
    method CloneEntry(s: Slot, d: Slot, ghost o: Mem) returns (ok: bool)
      requires Valid() && s in pte && !pte[s].ps && s.level == d.level == 1 && s.index == d.index < ENTRIES
      requires Inv(o) && IsTable(o, s.table, 1) && Mirrored(o, M(), 1, s.table, d.table, d.index)
      modifies this`free, this`kind, this`pte, this`bytes, this`cowRefs, this`refs, this`dma, this`owner, this`trace
      ensures Valid() && old(trace) <= trace
      ensures ok ==> Mirrored(o, M(), 1, s.table, d.table, d.index + 1)
      ensures !ok ==> M() == old(M()) && Hindrance(M())
    {
      hide SlotsInTables, Targets, OwnerInverse, PagesKept, Counted, DmaCounted, FramesOk, Tracks, Traced, PoolIs, Hindrance;
      hide Mirrored;
      ghost var m := M();
      DestinationFree(o, m, 1, s.table, d.table, d.index);
      HasTarget(m, s);
      var e := pte[s];
      if e.frame == 0 {
        MirrorLeaf(o, m, CopyOpaque(d, e), s.table, d.table, d.index);
        CopyEntry(d, e);
        return true;
      }
      if e.dmabuf {
        MirrorLeaf(o, m, MapDma(d, e), s.table, d.table, d.index);
        ok := ShareDma(d, e);
        if !ok { DevicePage(m, s); }
        return;
      }
      if e.writable || e.cow {
        MirrorLeaf(o, m, ShareCow(s, d), s.table, d.table, d.index);
        ok := Share(s, d);
        return;
      }
      PageContent(m, e.frame);
      ok := MapPage(d, e, bytes[e.frame]);
      if !ok {
        NoFrame(m);
      } else {
        ghost var f :| var a := MapFresh(d, e.(frame := f), m.bytes[e.frame]); Enabled(m, a) && M() == Apply(m, a);
        MirrorLeaf(o, m, MapFresh(d, e.(frame := f), m.bytes[e.frame]), s.table, d.table, d.index);
      }
    }

    /** The kernel half of a new PML4 is the old one's, except the slot that maps itself. */
    method CreateKernelMirrored(src: Frame) returns (ok: bool, dst: Frame)
      requires Valid() && src !in free
      modifies this`free, this`kind, this`kernelHalf, this`spaces, this`trace
      ensures Valid() && old(trace) <= trace
      ensures ok <==> src != 0 && old(free) != {}
      ensures !ok ==> M() == old(M()) && kernelHalf == old(kernelHalf) && spaces == old(spaces) && trace == old(trace)
      ensures ok ==> Enabled(old(M()), NewTable(dst, LEVELS)) && M() == Apply(old(M()), NewTable(dst, LEVELS))
      ensures ok ==> MirrorsKernel(old(kernelHalf), kernelHalf, src, dst)
      ensures ok ==> spaces == old(spaces) + {dst} && (old(Rested()) ==> Rested())
    {
      hide SlotsInTables, Targets, OwnerInverse, PagesKept, Counted, DmaCounted, FramesOk, Tracks, Traced, PoolIs;
      hide MirrorsKernel;
      if src == 0 { return false, 0; }
      ghost var m := M();
      dst := TakeTable(LEVELS);
      if dst == 0 { return false, 0; }
      FreshUnnamed(m, dst);
      RootsAfter(m, NewTable(dst, LEVELS));
      kernelHalf := CopyKernelHalf(kernelHalf, src, dst);
      spaces := spaces + {dst};
      return true, dst;
    }

    /** Syscall_clone_address_space: the child shows the parent's user half at every address,
        the parent and every other space still show what they showed, and the kernel half is
        shared; or the fork fails and takes nothing. */
    method CloneAddressSpace(src: Frame) returns (ok: bool, dst: Frame)
      requires Valid() && (src != 0 ==> IsTable(M(), src, LEVELS))
      modifies this
      ensures Valid() && old(trace) <= trace
      ensures ok ==> src != 0 && Cloned(old(M()), M(), LEVELS, src, dst)
      ensures ok ==> MirrorsKernel(old(kernelHalf), kernelHalf, src, dst)
      ensures ok ==> forall path: seq<nat> | |path| == LEVELS ::
                View(M(), dst, path) == View(old(M()), src, path)
      ensures forall t: Frame, path: seq<nat> | t in Tables(old(M())) ::
                View(M(), t, path) == View(old(M()), t, path)
      ensures !ok ==> Undone(old(M()), M()) && (src == 0 || Hindered(trace, |old(trace)| - 1))
      ensures old(Rested()) ==> Rested() && spaces == if ok then old(spaces) + {dst} else old(spaces)
    {
      hide SlotsInTables, Targets, OwnerInverse, PagesKept, Counted, DmaCounted, FramesOk, Tracks, Traced, PoolIs, Hindrance, Hindered;
      hide Mirrored, Grows, Cloned, Undone, RolledBack, MirrorsKernel, View, Roots;
      ghost var o := M();
      if src != 0 { TableNotFree(o, src); } else { NullNotFree(o); }
      ok, dst := CreateKernelMirrored(src);
      if !ok {
        NothingUndone(o);
        UndoneViews(o, o);
        if src != 0 { NoFrames(trace, |old(trace)| - 1, o); }
        return;
      }
      MirrorStart(o, LEVELS, src, dst);
      NonEmpty(trace, M());
      NonEmpty(old(trace), o);
      ghost var from := |trace| - 1;
      ok := CloneInto(LEVELS, src, dst, o);
      if ok {
        ClonedViews(o, M(), src, dst);
      } else {
        HinderedStays(trace, trace, from, |old(trace)| - 1);
        UndoneViews(o, M());
        spaces := old(spaces);
      }
    }

    /** Syscall_free_address_space: what only this space used goes back to the allocator, once. */
    method FreeAddressSpace(cr3: Frame)
      requires Valid() && (cr3 != 0 ==> IsTable(M(), cr3, LEVELS))
      modifies this`free, this`kind, this`pte, this`cowRefs, this`refs, this`dma, this`owner, this`credit, this`spaces, this`trace
      ensures Valid() && old(trace) <= trace
      ensures cr3 == 0 ==> M() == old(M()) && spaces == old(spaces)
      ensures cr3 != 0 ==> forall f :: f in kind <==> StaysWithout(old(M()), cr3, f)
      ensures old(Rested()) && cr3 != 0 ==> Rested() && spaces == old(spaces) - {cr3}
    {
      hide SlotsInTables, Targets, OwnerInverse, PagesKept, Counted, DmaCounted, FramesOk, Tracks, Traced, PoolIs;
      if cr3 == 0 { return; }
      ghost var o := M();
      TopIsRoot(o, cr3);
      FreeTree(LEVELS, cr3);
      forall f ensures f in kind <==> StaysWithout(o, cr3, f) { TeardownExact(o, M(), cr3, f); }
      spaces := spaces - {cr3};
    }

    // ------------------------------------------------------------ breaking COW

    /** The count is at most 1: forget it and make the entry writable where it is. */
    method PromoteEntry(at: Slot)
      requires Valid() && Enabled(M(), Promote(at)) && pte[at].frame in refs && pte[at].frame != 0
      modifies this`pte, this`cowRefs, this`refs, this`owner, this`trace
      ensures Valid() && old(trace) <= trace && M() == Apply(old(M()), Promote(at))
    {
      hide SlotsInTables, Targets, OwnerInverse, PagesKept, Counted, DmaCounted, FramesOk, Tracks, Traced, PoolIs;
      Step(trace, pool, M(), Promote(at));
      var e := pte[at];
      var found, zero := CowRefSub(e.frame);
      pte := pte[at := WritableEntry(e, e.frame)];
      owner := owner[e.frame := at];
      trace := trace + [M()];
    }

    /** Copy the page and switch the entry to the copy; the old page's decrement is now owed. */
    method BreakEntry(at: Slot, copy: Frame)
      requires Valid() && Enabled(M(), BreakCopy(at, copy)) && at in pte && pte[at].frame in bytes
      modifies this`free, this`kind, this`pte, this`bytes, this`owner, this`credit, this`trace
      ensures Valid() && old(trace) <= trace && M() == Apply(old(M()), BreakCopy(at, copy))
    {
      hide SlotsInTables, Targets, OwnerInverse, PagesKept, Counted, DmaCounted, FramesOk, Tracks, Traced, PoolIs;
      hide Apply, Enabled;
      Step(trace, pool, M(), BreakCopy(at, copy));
      BreakIs(M(), at, copy);
      var e := pte[at];
      free, kind := free - {copy}, kind[copy := Page];
      bytes := bytes[copy := bytes[e.frame]];
      pte := pte[at := WritableEntry(e, copy)];
      owner, credit := owner[copy := at], credit + multiset{e.frame};
      trace := trace + [M()];
    }

    /** Make a COW entry writable: in place when its count is at most 1, else by a copy, whose
        old page is given up after the entry has been switched. No space sees a difference. */
    method MakeWritable(at: Slot) returns (ok: bool)
      requires Valid() && at in pte && UseOf(at, pte[at]) == Cow
      modifies this`free, this`kind, this`pte, this`bytes, this`cowRefs, this`refs, this`owner, this`credit, this`trace
      ensures Valid() && old(trace) <= trace && credit == old(credit) && Roots(M()) == Roots(old(M()))
      ensures SameViews(old(M()), M())
      ensures pte.Keys == old(pte).Keys && forall s | s in pte && s != at :: pte[s] == old(pte)[s]
      ensures ok <==> Count(old(refs), old(pte)[at].frame) <= 1 || old(free) != {}
      ensures ok ==> refs == RefsAfter(old(refs), old(pte)[at]) && |free| + CopyCost(old(refs), old(pte)[at]) == |old(free)|
      ensures ok ==> pte[at] == WritableEntry(old(pte)[at], pte[at].frame) && UseOf(at, pte[at]) == Own
      ensures !ok ==> M() == old(M())
    {
      hide SlotsInTables, Targets, OwnerInverse, PagesKept, Counted, DmaCounted, FramesOk, Tracks, Traced, PoolIs, SameViews, Roots;
      ghost var m := M();
      var f := pte[at].frame;
      PageTarget(m, at);
      HasTarget(m, at);
      var n := CowRefGet(f);
      if n <= 1 {
        InvisibleAction(m, Promote(at));
        RootsAfter(m, Promote(at));
        PromoteEntry(at);
        return true;
      }
      if free == {} {
        SameViewsSelf(m);
        return false;
      }
      var copy :| copy in free;
      NotForeign(m, copy);
      PageContent(m, f);
      InvisibleAction(m, BreakCopy(at, copy));
      RootsAfter(m, BreakCopy(at, copy));
      BreakEntry(at, copy);
      ghost var m1 := M();
      InvisibleAction(m1, Settle(f));
      RootsAfter(m1, Settle(f));
      SettleOne(f);
      SameViewsTransitive(m, m1, M());
      assert credit == old(credit);
      return true;
    }

    /** Syscall_resolve_cow_fault, for a fault on address `addr` in the space `cr3` that the
        current process says is its own. */
    method ResolveCowFault(present: bool, write: bool, cr3: Frame, procCr3: Frame, addr: nat) returns (ok: bool)
      requires Valid() && (cr3 != 0 ==> IsTable(M(), cr3, LEVELS)) && addr < UINT64
      modifies this`free, this`kind, this`pte, this`bytes, this`cowRefs, this`refs, this`owner, this`credit, this`trace
      ensures Valid() && old(trace) <= trace && credit == old(credit) && Roots(M()) == Roots(old(M()))
      ensures old(Rested()) ==> Rested()
      ensures SameViews(old(M()), M())
      ensures ok <==> && present && write && RangeInBounds(FaultPage(addr), 1) && procCr3 != 0 && procCr3 == cr3
                      && Resolvable(old(M()), cr3, FaultPage(addr))
      ensures ok ==> WritableAt(M(), cr3, FaultPage(addr))
      ensures addr < PHYS_LIMIT ==>
                (ok <==> && present && write && USER_VADDR_MIN <= addr <= USER_VADDR_MAX && procCr3 != 0 && procCr3 == cr3
                         && CanWrite(old(M()), cr3, addr / PAGE_SIZE))
      ensures ok && addr < PHYS_LIMIT ==> LeafWritable(pte, cr3, PathOf(addr / PAGE_SIZE))
      ensures !ok ==> M() == old(M())
    {
      hide SlotsInTables, Targets, OwnerInverse, PagesKept, Counted, DmaCounted, FramesOk, Tracks, Traced, PoolIs, SameViews, Roots;
      hide FindPte, PathOf;
      ghost var m := M();
      SameViewsSelf(m);
      if !present || !write { return false; }
      var page := FaultPage(addr);
      if addr < PHYS_LIMIT && cr3 != 0 { FaultAddress(m, cr3, addr); }
      if !RangeInBounds(page, 1) { return false; }
      if procCr3 == 0 || procCr3 != cr3 { return false; }
      var found := UserPte(pte, procCr3, page);
      if found == None { return false; }
      var at := found.value;
      PathLength();
      FindIsLeaf(m, cr3, PathOf(page / PAGE_SIZE));
      if at !in pte || !pte[at].user { return false; }
      var e := pte[at];
      HasTarget(m, at);
      if !e.cow { return e.writable; }
      if e.frame == 0 { return false; }
      ok := MakeWritable(at);
      FindSame(m.pte, pte, cr3, PathOf(page / PAGE_SIZE), at);
    }

    /** The part of the copy loop that finds a page of the range and makes it writable. */
    method WritablePage(cr3: Frame, page: nat) returns (ok: bool, at: Slot)
      requires Valid() && IsTable(M(), cr3, LEVELS)
      modifies this`free, this`kind, this`pte, this`bytes, this`cowRefs, this`refs, this`owner, this`credit, this`trace
      ensures Valid() && old(trace) <= trace && credit == old(credit) && Roots(M()) == Roots(old(M()))
      ensures SameViews(old(M()), M())
      ensures ok <==> CanWrite(old(M()), cr3, page)
      ensures !ok ==> M() == old(M())
      ensures ok ==> FindPte(old(pte), cr3, PathOf(page)) == Some(at) && at in old(pte)
      ensures ok ==> pte.Keys == old(pte).Keys && forall s | s in pte && s != at :: pte[s] == old(pte)[s]
      ensures ok ==> refs == RefsAfter(old(refs), old(pte)[at]) && |free| + CopyCost(old(refs), old(pte)[at]) == |old(free)|
      ensures ok ==> && FindPte(pte, cr3, PathOf(page)) == Some(at) && at in pte && at.level == 1
                     && pte[at].user && pte[at].writable
    {
      hide SlotsInTables, Targets, OwnerInverse, PagesKept, Counted, DmaCounted, FramesOk, Tracks, Traced, PoolIs, SameViews, Roots;
      at := Slot(0, 0, 0);
      ghost var m := M();
      SameViewsSelf(m);
      if !Accessible(pte, cr3, page * PAGE_SIZE) { return false, at; }
      at := FindPte(pte, cr3, PathOf(page)).value;
      FindIsLeaf(m, cr3, PathOf(page));
      HasTarget(m, at);
      if pte[at].cow {
        if pte[at].frame == 0 { return false, at; }
        ok := MakeWritable(at);
        FindSame(m.pte, pte, cr3, PathOf(page), at);
        if !ok { return; }
      }
      ok := pte[at].writable;
    }

    /** Syscall_copy_to_user on the current space: exactly the first `copied` bytes of the range
        are written, page by page, whatever COW pages have to be broken on the way. */
    method CopyToUser(cr3: Frame, dst: nat, src: seq<Byte>) returns (ok: bool, ghost copied: nat)
      requires Valid() && IsTable(M(), cr3, LEVELS) && dst < UINT64 && |src| < UINT64
      modifies this`free, this`kind, this`pte, this`bytes, this`cowRefs, this`refs, this`owner, this`credit, this`trace
      ensures Valid() && old(trace) <= trace && credit == old(credit) && Roots(M()) == Roots(old(M()))
      ensures old(Rested()) ==> Rested()
      ensures copied <= |src| && (ok <==> copied == |src|)
      ensures CopiedTo(old(M()), M(), cr3, dst, src[..copied])
      ensures ok <==> CanCopy(old(M()), cr3, dst, |src|)
    {
      hide SlotsInTables, Targets, OwnerInverse, PagesKept, Counted, DmaCounted, FramesOk, Tracks, Traced, PoolIs, Roots;
      hide CopiedTo, SameViews, FindPte, PathOf, CanWrite, Remains;
      ghost var o := M();
      CopiedNothing(o, cr3, dst);
      if |src| == 0 { return true, 0; }
      if !RangeInBounds(dst, |src|) { return false, 0; }
      ghost var last := PastPage(dst, |src|);
      CanCopyRemains(o, cr3, dst, |src|);
      var done := 0;
      while done < |src|
        invariant Valid() && old(trace) <= trace && credit == old(credit) && Roots(M()) == Roots(old(M()))
        invariant done <= |src| && CopiedTo(o, M(), cr3, dst, src[..done])
        invariant CanCopy(o, cr3, dst, |src|) <==> Remains(M(), cr3, NextPage(dst, |src|, done), last)
      {
        hide CanCopy;
        var ok, more := CopyPage(cr3, dst, src, done, o);
        if !ok { return false, done; }
        done := more;
      }
      NothingRemains(M(), cr3, last);
      assert src[..done] == src;
      return true, done;
    }

    /** The part of the copy that falls on one page. */
    method CopyPage(cr3: Frame, dst: nat, src: seq<Byte>, done: nat, ghost o: Mem) returns (ok: bool, more: nat)
      requires Valid() && Inv(o) && IsTable(o, cr3, LEVELS) && dst < UINT64 && done < |src| < UINT64 && RangeInBounds(dst, |src|)
      requires CopiedTo(o, M(), cr3, dst, src[..done])
      modifies this`free, this`kind, this`pte, this`bytes, this`cowRefs, this`refs, this`owner, this`credit, this`trace
      ensures Valid() && old(trace) <= trace && credit == old(credit) && Roots(M()) == Roots(old(M()))
      ensures !ok ==> M() == old(M()) && !Remains(M(), cr3, (dst + done) / PAGE_SIZE, PastPage(dst, |src|))
      ensures ok ==> done < more <= |src| && CopiedTo(o, M(), cr3, dst, src[..more])
      ensures ok ==> (Remains(old(M()), cr3, NextPage(dst, |src|, done), PastPage(dst, |src|)) <==>
                      Remains(M(), cr3, NextPage(dst, |src|, more), PastPage(dst, |src|)))
    {
      hide SlotsInTables, Targets, OwnerInverse, PagesKept, Counted, DmaCounted, FramesOk, Tracks, Traced, PoolIs, Roots;
      hide CopiedTo, SameViews, FindPte, PathOf, CanWrite, Remains;
      ghost var m, last := M(), PastPage(dst, |src|);
      var page, offset := (dst + done) / PAGE_SIZE, (dst + done) % PAGE_SIZE;
      PageInRange(dst, |src|, done);
      CopiedTables(o, m, cr3, dst, src[..done]);
      var writable, at := WritablePage(cr3, page);
      CopiedSameViews(o, m, M(), cr3, dst, src[..done]);
      if !writable {
        CannotRemain(m, cr3, page, last);
        return false, done;
      }
      RemainsStep(m, M(), cr3, page, last, at);
      var chunk := if |src| - done > PAGE_SIZE - offset then PAGE_SIZE - offset else |src| - done;
      EntryContent(M(), at);
      CopiedChunk(o, M(), cr3, dst, src, done, chunk, at, page, offset);
      ghost var before := M();
      RootsAfter(before, Store(at, offset, src[done..done + chunk]));
      StoreAt(at, offset, src[done..done + chunk]);
      RemainsSame(before, M(), cr3, page + 1, last);
      return true, done + chunk;
    }

    /** SYS_UNMAP on the current space: every page of the range is given up, or, when one of
        them is not a user page, nothing is. */
    method Unmap(cr3: Frame, base: nat, len: nat) returns (ok: bool)
      requires Valid() && IsTable(M(), cr3, LEVELS) && base < UINT64 && len < UINT64
      modifies this`free, this`kind, this`pte, this`cowRefs, this`refs, this`dma, this`owner, this`credit, this`trace
      ensures Valid() && old(trace) <= trace && credit == old(credit) && Roots(M()) == Roots(old(M()))
      ensures old(Rested()) ==> Rested()
      ensures ok <==> && 0 < len <= MAP_MAX_PAGES * PAGE_SIZE && base % PAGE_SIZE == 0
                      && MAP_HINT_BASE <= base && base + len <= MAP_HINT_LIMIT
                      && forall a: nat | base <= a < base + len :: Accessible(old(pte), cr3, a)
      ensures ok ==> UnmappedTo(old(M()), M(), cr3, base / PAGE_SIZE, (base + len - 1) / PAGE_SIZE + 1)
      ensures ok ==> forall a: nat | base <= a < base + len :: View(M(), cr3, PathOf(a / PAGE_SIZE)) == None
      ensures !ok ==> M() == old(M())
    {
      hide SlotsInTables, Targets, OwnerInverse, PagesKept, Counted, DmaCounted, FramesOk, Tracks, Traced, PoolIs, Roots;
      hide UnmappedTo, SameViews, FindPte, PathOf, View, AllAccessible, UnmapArgsOk, PageCount, Accessible;
      UnmapArgsIff(base, len);
      if !UnmapArgsOk(base, len) { return false; }
      UnmapRange(base, len);
      AllAccessibleNone(pte, cr3, base / PAGE_SIZE);
      var lo, n := base / PAGE_SIZE, PageCount(len);
      ghost var o := M();
      for i := 0 to n
        invariant M() == o && trace == old(trace)
        invariant AllAccessible(pte, cr3, lo, lo + i)
        modifies {}
      {
        if !Accessible(pte, cr3, (lo + i) * PAGE_SIZE) {
          PageOfRange(base, len, lo + i);
          return false;
        }
        AccessibleSoFar(pte, cr3, lo, lo + i);
      }
      AccessibleBytes(pte, cr3, base, len);
      UnmappedNothing(o, cr3, lo);
      for i := 0 to n
        invariant Valid() && old(trace) <= trace && credit == old(credit) && Roots(M()) == Roots(old(M()))
        invariant UnmappedTo(o, M(), cr3, lo, lo + i) && AllAccessible(pte, cr3, lo + i, lo + n)
      {
        UnmapPage(cr3, lo, lo + i, lo + n, o);
      }
      UnmappedBytes(o, M(), cr3, base, len);
      return true;
    }

    /** One page of the second loop; its entry is still there, so the unmap cannot fail. */
    method UnmapPage(cr3: Frame, ghost lo: nat, page: nat, ghost hi: nat, ghost o: Mem)
      requires Valid() && Inv(o) && IsTable(o, cr3, LEVELS) && lo <= page < hi <= USER_PAGES
      requires UnmappedTo(o, M(), cr3, lo, page) && AllAccessible(pte, cr3, page, hi)
      modifies this`free, this`kind, this`pte, this`cowRefs, this`refs, this`dma, this`owner, this`credit, this`trace
      ensures Valid() && old(trace) <= trace && credit == old(credit) && Roots(M()) == Roots(old(M()))
      ensures UnmappedTo(o, M(), cr3, lo, page + 1) && AllAccessible(pte, cr3, page + 1, hi)
    {
      hide SlotsInTables, Targets, OwnerInverse, PagesKept, Counted, DmaCounted, FramesOk, Tracks, Traced, PoolIs, Roots;
      hide UnmappedTo, SameViews, FindPte, PathOf, AfterDrop, AllAccessible;
      ghost var m := M();
      AllAccessibleAt(pte, cr3, page, hi);
      assert Accessible(pte, cr3, page * PAGE_SIZE);
      var at := FindPte(pte, cr3, PathOf(page)).value;
      UnmapReady(o, m, cr3, lo, page, at);
      AccessibleAfter(m, cr3, page, hi, at);
      UnmappedPage(o, m, cr3, lo, page, at);
      DropErases(m, at);
      RootsAfter(m, Drop(at));
      var e := pte[at];
      if e.frame == 0 || e.dmabuf {
        DropEntry(at);
      } else if e.cow {
        DropEntry(at);
        ghost var m1 := M();
        InvisibleAction(m1, Settle(e.frame));
        RootsAfter(m1, Settle(e.frame));
        SettleOne(e.frame);
        UnmappedSameViews(o, m1, M(), cr3, lo, page + 1);
        assert credit == old(credit);
      } else {
        DropPage(at);
      }
    }

    method StoreAt(at: Slot, offset: nat, data: seq<Byte>)
      requires Valid() && Enabled(M(), Store(at, offset, data))
      modifies this`bytes, this`trace
      ensures Valid() && old(trace) <= trace && M() == Apply(old(M()), Store(at, offset, data))
    {
      hide SlotsInTables, Targets, OwnerInverse, PagesKept, Counted, DmaCounted, FramesOk, Tracks, Traced, PoolIs;
      Step(trace, pool, M(), Store(at, offset, data));
      var f := pte[at].frame;
      bytes := bytes[f := Splice(if f in bytes then bytes[f] else [], offset, data)];
      trace := trace + [M()];
    }
  }

  /** The loop that fills the upper half of a zeroed PML4, and its recursive slot. */
  method CopyKernelHalf(half: map<Slot, Entry>, src: Frame, dst: Frame) returns (out: map<Slot, Entry>)
    requires src != dst
    ensures MirrorsKernel(half, out, src, dst)
  {
    out := map at | at in half && at.table != dst :: half[at];
    for i := USER_ROOT_ENTRIES to ENTRIES
      invariant ElsewhereSame(half, out, dst)
      invariant forall at | at in out && at.table == dst :: at.level == LEVELS && USER_ROOT_ENTRIES <= at.index < i
      invariant forall j | USER_ROOT_ENTRIES <= j < i :: SameKernelEntry(half, out, src, dst, j)
    {
      var s, d := Slot(LEVELS, src, i), Slot(LEVELS, dst, i);
      ghost var was := out;
      if s in out { out := out[d := out[s]]; }
      forall j | USER_ROOT_ENTRIES <= j < i + 1 ensures SameKernelEntry(half, out, src, dst, j) {
        assert j < i ==> SameKernelEntry(half, was, src, dst, j);
      }
    }
    ghost var copied := out;
    out := out[Slot(LEVELS, dst, RECURSIVE_INDEX) := Recursive(dst)];
    forall i | USER_ROOT_ENTRIES <= i < ENTRIES && i != RECURSIVE_INDEX
      ensures SameKernelEntry(half, out, src, dst, i)
    {
      assert SameKernelEntry(half, copied, src, dst, i);
    }
  }

  lemma PoolsAgree(pool: set<Frame>, o: Mem, m: Mem)
    requires PoolIs(pool, o) && PoolIs(pool, m)
    ensures SamePool(o, m)
  {}

  lemma SameViewsSelf(m: Mem)
    ensures SameViews(m, m)
  {}

  /** Page entries name frames below this address, 52 bits; the frame mask keeps no bit above them. */
  const PHYS_LIMIT: nat := 0x10_0000_0000_0000

  /** The page of a fault address, bits 12 to 51: the page that holds the address unless a bit above them is set. */
  function FaultPage(addr: nat): (page: nat)
    ensures page % PAGE_SIZE == 0
    ensures addr < PHYS_LIMIT ==> page <= addr < page + PAGE_SIZE
  {
    addr / PAGE_SIZE % 0x100_0000_0000 * PAGE_SIZE
  }

  /** The entry the path leads to is a present user entry that takes writes and shares nothing. */
  ghost predicate LeafWritable(pte: map<Slot, Entry>, cr3: Frame, path: seq<nat>) {
    match FindPte(pte, cr3, path)
    case None => false
    case Some(at) => at in pte && pte[at].user && pte[at].writable && !pte[at].cow
  }

  lemma FaultAddress(m: Mem, cr3: Frame, addr: nat)
    requires addr < PHYS_LIMIT && cr3 != 0
    ensures FaultPage(addr) / PAGE_SIZE == addr / PAGE_SIZE
    ensures RangeInBounds(FaultPage(addr), 1) <==> USER_VADDR_MIN <= addr <= USER_VADDR_MAX
    ensures RangeInBounds(FaultPage(addr), 1) ==>
              (Resolvable(m, cr3, FaultPage(addr)) <==> CanWrite(m, cr3, addr / PAGE_SIZE))
  {
    hide FindPte, PathOf;
    assert addr / PAGE_SIZE * PAGE_SIZE / PAGE_SIZE == addr / PAGE_SIZE;
  }

  /** A fault the kernel can resolve: a user entry that is writable already (a stale TLB), or a
      COW entry that is held alone or can be copied. */
  ghost predicate Resolvable(m: Mem, cr3: Frame, page: nat) {
    match UserPte(m.pte, cr3, page)
    case None => false
    case Some(at) =>
      && at in m.pte && m.pte[at].user
      && var e := m.pte[at];
         if e.cow then e.frame != 0 && (Count(m.refs, e.frame) <= 1 || m.free != {}) else e.writable
  }

  /** The kernel can write to the page: a user page that is writable, or can be made so. */
  ghost predicate CanWrite(m: Mem, cr3: Frame, page: nat) {
    && Accessible(m.pte, cr3, page * PAGE_SIZE)
    && var e := m.pte[FindPte(m.pte, cr3, PathOf(page)).value];
       if e.cow then e.frame != 0 && (Count(m.refs, e.frame) <= 1 || m.free != {}) else e.writable
  }

  /** The pages from `lo` to `hi` can still be made writable. */
  ghost predicate Remains(m: Mem, cr3: Frame, lo: nat, hi: nat) {
    AllWritable(m.pte, cr3, lo, hi) && CopiesNeeded(m.pte, m.refs, cr3, lo, hi) <= |m.free|
  }

  /** The page a copy is at. */
  function NextPage(dst: nat, len: nat, done: nat): nat
    requires len > 0 && done <= len
  {
    if done < len then (dst + done) / PAGE_SIZE else PastPage(dst, len)
  }

  lemma CanCopyRemains(m: Mem, cr3: Frame, dst: nat, len: nat)
    requires len > 0 && RangeInBounds(dst, len)
    ensures CanCopy(m, cr3, dst, len) <==> Remains(m, cr3, FirstPage(dst), PastPage(dst, len))
  {}

  lemma NothingRemains(m: Mem, cr3: Frame, lo: nat)
    ensures Remains(m, cr3, lo, lo)
  {}

  lemma PageInRange(dst: nat, len: nat, done: nat)
    requires 0 < len < UINT64 && dst < UINT64 && RangeInBounds(dst, len) && done < len
    ensures var page, offset := (dst + done) / PAGE_SIZE, (dst + done) % PAGE_SIZE;
      var chunk := if len - done > PAGE_SIZE - offset then PAGE_SIZE - offset else len - done;
      && FirstPage(dst) <= page < PastPage(dst, len) <= USER_PAGES
      && (if done + chunk < len then (dst + done + chunk) / PAGE_SIZE == page + 1 else page + 1 == PastPage(dst, len))
  {}

  lemma RemainsSame(m: Mem, m': Mem, cr3: Frame, lo: nat, hi: nat)
    requires m'.pte == m.pte && m'.refs == m.refs && m'.free == m.free
    ensures Remains(m', cr3, lo, hi) == Remains(m, cr3, lo, hi)
  {}

  lemma CannotRemain(m: Mem, cr3: Frame, lo: nat, hi: nat)
    requires lo < hi && !CanWrite(m, cr3, lo)
    ensures !Remains(m, cr3, lo, hi)
  {
    hide FindPte, PathOf;
    assert lo * PAGE_SIZE / PAGE_SIZE == lo;
    assert WritableOrCow(m.pte, cr3, lo) ==> CopiesNeeded(m.pte, m.refs, cr3, lo, hi) >= 1 && m.free == {};
  }

  lemma AheadSame(m: Mem, pte': map<Slot, Entry>, cr3: Frame, lo: nat, hi: nat, at: Slot)
    requires Inv(m) && IsTable(m, cr3, LEVELS) && lo < hi <= USER_PAGES && at.level == 1
    requires FindPte(m.pte, cr3, PathOf(lo)) == Some(at)
    requires pte'.Keys == m.pte.Keys && forall s | s in m.pte && s != at :: pte'[s] == m.pte[s]
    ensures SameAhead(m.pte, pte', cr3, lo + 1, hi)
  {
    hide SlotsInTables, Targets, OwnerInverse, PagesKept, Counted, DmaCounted, FramesOk, FindPte, PathOf;
    forall page: nat | lo + 1 <= page < hi
      ensures FindPte(pte', cr3, PathOf(page)) == FindPte(m.pte, cr3, PathOf(page))
      ensures FindPte(m.pte, cr3, PathOf(page)) != Some(at)
    {
      FindSame(m.pte, pte', cr3, PathOf(page), at);
      PagesApart(m, cr3, page, lo, at);
    }
  }

  lemma RemainsStep(m: Mem, m': Mem, cr3: Frame, lo: nat, hi: nat, at: Slot)
    requires Inv(m) && IsTable(m, cr3, LEVELS) && lo < hi <= USER_PAGES && at.level == 1 && CanWrite(m, cr3, lo)
    requires FindPte(m.pte, cr3, PathOf(lo)) == Some(at) && at in m.pte
    requires m'.pte.Keys == m.pte.Keys && forall s | s in m.pte && s != at :: m'.pte[s] == m.pte[s]
    requires m'.refs == RefsAfter(m.refs, m.pte[at]) && |m'.free| + CopyCost(m.refs, m.pte[at]) == |m.free|
    ensures Remains(m, cr3, lo, hi) <==> Remains(m', cr3, lo + 1, hi)
  {
    hide SlotsInTables, Targets, OwnerInverse, PagesKept, Counted, DmaCounted, FramesOk, FindPte, PathOf;
    CopiesStep(m.pte, m.refs, cr3, lo, hi, at);
    AheadSame(m, m'.pte, cr3, lo, hi, at);
    CopiesSame(m.pte, m'.pte, m'.refs, cr3, lo + 1, hi);
    WritableSame(m.pte, m'.pte, cr3, lo + 1, hi);
    assert lo * PAGE_SIZE / PAGE_SIZE == lo;
    hide CopiesNeeded, RefsAfter, CopyCost, AllWritable;
  }

  ghost predicate WritableAt(m: Mem, cr3: Frame, page: nat) {
    match UserPte(m.pte, cr3, page)
    case None => false
    case Some(at) => at in m.pte && m.pte[at].user && m.pte[at].writable && !m.pte[at].cow
  }

  /** Rewriting a leaf entry does not move where addresses lead. */
  lemma {:induction false} FindSame(pte: map<Slot, Entry>, pte': map<Slot, Entry>, t: Frame, path: seq<nat>, at: Slot)
    requires at.level == 1 && pte'.Keys == pte.Keys && forall s | s in pte && s != at :: pte'[s] == pte[s]
    ensures FindPte(pte', t, path) == FindPte(pte, t, path)
    decreases |path|
  {
    if |path| > 1 {
      var s := Slot(|path|, t, path[0]);
      assert s in pte <==> s in pte.Keys;
      assert s in pte' <==> s in pte'.Keys;
      if s in pte { FindSame(pte, pte', pte[s].frame, path[1..], at); }
    }
  }

  lemma CopiedTables(o: Mem, m: Mem, cr3: Frame, dst: nat, data: seq<Byte>)
    requires CopiedTo(o, m, cr3, dst, data) && IsTable(o, cr3, LEVELS)
    ensures IsTable(m, cr3, LEVELS)
  {
    assert cr3 in Tables(o);
  }

  lemma EntryContent(m: Mem, at: Slot)
    requires Inv(m) && at in m.pte && at.level == 1
    ensures |Content(m, m.pte[at].frame)| == PAGE_SIZE
  {
    HasTarget(m, at);
  }

  const MAP_HINT_BASE: nat := 0x5000_0000
  const MAP_HINT_LIMIT: nat := 0x6F00_0000
  const MAP_MAX_PAGES: nat := 16384

  function PageCount(len: nat): nat { (len + PAGE_SIZE - 1) / PAGE_SIZE }

  /** Syscall_mmap_window_in_bounds. */
  predicate WindowInBounds(base: nat, size: nat) {
    && RangeInBounds(base, size)
    && base >= MAP_HINT_BASE && (base + size - 1) % UINT64 < MAP_HINT_LIMIT
  }

  /** The argument checks of SYS_UNMAP before it looks at the tables. */
  predicate UnmapArgsOk(base: nat, len: nat) {
    && len != 0 && base % PAGE_SIZE == 0 && len <= UINT64 - PAGE_SIZE
    && PageCount(len) != 0 && PageCount(len) <= MAP_MAX_PAGES
    && WindowInBounds(base, PageCount(len) * PAGE_SIZE)
  }

  ghost predicate AllAccessible(pte: map<Slot, Entry>, cr3: Frame, lo: nat, hi: nat) {
    forall page: nat | lo <= page < hi :: Accessible(pte, cr3, page * PAGE_SIZE)
  }

  /** The argument checks in terms of bytes: a window of at most 64 MiB inside the mapping area. */
  lemma UnmapArgsIff(base: nat, len: nat)
    requires base < UINT64 && len < UINT64
    ensures UnmapArgsOk(base, len) <==> && 0 < len <= MAP_MAX_PAGES * PAGE_SIZE && base % PAGE_SIZE == 0
                                        && MAP_HINT_BASE <= base && base + len <= MAP_HINT_LIMIT
  {
    var n := PageCount(len);
    assert n * PAGE_SIZE <= len + PAGE_SIZE - 1 < (n + 1) * PAGE_SIZE;
    if n <= MAP_MAX_PAGES && base % PAGE_SIZE == 0 { assert base + len <= MAP_HINT_LIMIT <==> base + n * PAGE_SIZE <= MAP_HINT_LIMIT; }
  }

  /** The pages given up run from the one that holds the first byte to the one that holds the last. */
  lemma UnmapRange(base: nat, len: nat)
    requires len > 0 && base % PAGE_SIZE == 0
    ensures base / PAGE_SIZE + PageCount(len) == (base + len - 1) / PAGE_SIZE + 1
  {}

  lemma AllAccessibleNone(pte: map<Slot, Entry>, cr3: Frame, lo: nat)
    ensures AllAccessible(pte, cr3, lo, lo)
  {}

  lemma AccessibleSoFar(pte: map<Slot, Entry>, cr3: Frame, lo: nat, page: nat)
    requires AllAccessible(pte, cr3, lo, page) && Accessible(pte, cr3, page * PAGE_SIZE)
    ensures AllAccessible(pte, cr3, lo, page + 1)
  {}

  lemma PageOfRange(base: nat, len: nat, page: nat)
    requires len > 0 && base % PAGE_SIZE == 0 && base / PAGE_SIZE <= page < base / PAGE_SIZE + PageCount(len)
    ensures base <= page * PAGE_SIZE < base + len
  {}

  lemma AccessibleBytes(pte: map<Slot, Entry>, cr3: Frame, base: nat, len: nat)
    requires len > 0 && base % PAGE_SIZE == 0
    requires AllAccessible(pte, cr3, base / PAGE_SIZE, (base + len - 1) / PAGE_SIZE + 1)
    ensures forall a: nat | base <= a < base + len :: Accessible(pte, cr3, a)
  {
    hide FindPte, PathOf;
    forall a: nat | base <= a < base + len ensures Accessible(pte, cr3, a) {
      assert Accessible(pte, cr3, a / PAGE_SIZE * PAGE_SIZE);
      assert a / PAGE_SIZE * PAGE_SIZE / PAGE_SIZE == a / PAGE_SIZE;
    }
  }

  lemma UnmappedBytes(o: Mem, m: Mem, cr3: Frame, base: nat, len: nat)
    requires len > 0 && base + len <= MAP_HINT_LIMIT
    requires UnmappedTo(o, m, cr3, base / PAGE_SIZE, (base + len - 1) / PAGE_SIZE + 1)
    ensures forall a: nat | base <= a < base + len :: View(m, cr3, PathOf(a / PAGE_SIZE)) == None
  {
    hide View, PathOf;
    forall a: nat | base <= a < base + len ensures View(m, cr3, PathOf(a / PAGE_SIZE)) == None {
      assert a / PAGE_SIZE < USER_PAGES;
    }
  }

  lemma AllAccessibleAt(pte: map<Slot, Entry>, cr3: Frame, lo: nat, hi: nat)
    requires AllAccessible(pte, cr3, lo, hi) && lo < hi
    ensures Accessible(pte, cr3, lo * PAGE_SIZE)
  {}

  lemma UnmapReady(o: Mem, m: Mem, cr3: Frame, lo: nat, page: nat, at: Slot)
    requires Inv(m) && IsTable(o, cr3, LEVELS) && UnmappedTo(o, m, cr3, lo, page)
    requires Accessible(m.pte, cr3, page * PAGE_SIZE) && FindPte(m.pte, cr3, PathOf(page)) == Some(at)
    ensures IsTable(m, cr3, LEVELS) && at in m.pte && at.level == 1
    ensures TargetOk(m.kind, m.refs, m.foreign, at, m.pte[at])
  {
    hide SlotsInTables, Targets, OwnerInverse, PagesKept, Counted, DmaCounted, FramesOk;
    assert cr3 in Tables(o);
    FindIsLeaf(m, cr3, PathOf(page));
    HasTarget(m, at);
  }

  lemma AccessibleAfter(m: Mem, cr3: Frame, page: nat, hi: nat, at: Slot)
    requires Inv(m) && IsTable(m, cr3, LEVELS) && page < hi <= USER_PAGES && at.level == 1
    requires FindPte(m.pte, cr3, PathOf(page)) == Some(at) && AllAccessible(m.pte, cr3, page, hi)
    ensures AllAccessible(m.pte - {at}, cr3, page + 1, hi)
  {
    hide SlotsInTables, Targets, OwnerInverse, PagesKept, Counted, DmaCounted, FramesOk, FindPte, PathOf;
    forall p: nat | page + 1 <= p < hi ensures Accessible(m.pte - {at}, cr3, p * PAGE_SIZE) {
      assert Accessible(m.pte, cr3, p * PAGE_SIZE);
      PagesApart(m, cr3, p, page, at);
      FindErased(m.pte, at, cr3, PathOf(p));
    }
  }

  lemma UnmappedNothing(m: Mem, cr3: Frame, lo: nat)
    ensures UnmappedTo(m, m, cr3, lo, lo)
  {}

  lemma GrowsViews(o: Mem, m: Mem)
    requires Inv(o) && Grows(o, m)
    ensures forall t: Frame, path: seq<nat> | t in Tables(o) :: View(m, t, path) == View(o, t, path)
  {
    forall t: Frame, path: seq<nat> | t in Tables(o) ensures View(m, t, path) == View(o, t, path) { GrowsView(o, m, t, path); }
  }

  lemma ClonedViews(o: Mem, m: Mem, src: Frame, dst: Frame)
    requires Inv(o) && IsTable(o, src, LEVELS) && Cloned(o, m, LEVELS, src, dst)
    ensures forall t: Frame, path: seq<nat> | t in Tables(o) :: View(m, t, path) == View(o, t, path)
    ensures forall path: seq<nat> | |path| == LEVELS :: View(m, dst, path) == View(o, src, path)
    ensures Roots(m) == Roots(o) + {dst} && m.credit == o.credit
  {
    hide Inv, View, Roots;
    GrowsViews(o, m);
    assert src in Tables(o);
  }

  lemma UndoneViews(o: Mem, m: Mem)
    requires Inv(o) && Undone(o, m)
    ensures forall t: Frame, path: seq<nat> | t in Tables(o) :: View(m, t, path) == View(o, t, path)
    ensures Roots(m) == Roots(o) && m.credit == o.credit
  {
    hide Inv, View, Roots;
    GrowsViews(o, m);
  }

  lemma TableNotFree(m: Mem, t: Frame)
    requires Inv(m) && t in m.kind
    ensures t !in m.free
  {}

  lemma NullNotFree(m: Mem)
    requires Inv(m)
    ensures 0 !in m.free
  {}

  lemma BreakIs(m: Mem, at: Slot, copy: Frame)
    requires Enabled(m, BreakCopy(at, copy))
    ensures at in m.pte && Apply(m, BreakCopy(at, copy)) == AfterBreak(m, at, copy)
  {}

  lemma NothingUndone(m: Mem)
    ensures Undone(m, m)
  {}

  lemma PageContent(m: Mem, f: Frame)
    requires Inv(m) && f in m.kind && m.kind[f] == Page
    ensures f in m.bytes && |m.bytes[f]| == PAGE_SIZE
  {}

  const RECURSIVE_INDEX: nat := 510

  /** The entry that maps a PML4 into itself. */
  function Recursive(t: Frame): Entry { Entry(t, false, true, false, false, false, false, 0) }

  predicate SameKernelEntry(before: map<Slot, Entry>, after: map<Slot, Entry>, src: Frame, dst: Frame, i: nat) {
    var s, d := Slot(LEVELS, src, i), Slot(LEVELS, dst, i);
    (s in before <==> d in after) && (s in before ==> after[d] == before[s])
  }

  ghost predicate MirrorsKernel(before: map<Slot, Entry>, after: map<Slot, Entry>, src: Frame, dst: Frame) {
    && (forall i | USER_ROOT_ENTRIES <= i < ENTRIES && i != RECURSIVE_INDEX :: SameKernelEntry(before, after, src, dst, i))
    && Slot(LEVELS, dst, RECURSIVE_INDEX) in after && after[Slot(LEVELS, dst, RECURSIVE_INDEX)] == Recursive(dst)
    && ElsewhereSame(before, after, dst)
  }

  ghost predicate ElsewhereSame(before: map<Slot, Entry>, after: map<Slot, Entry>, dst: Frame) {
    forall at: Slot | at.table != dst :: (at in before <==> at in after) && (at in before ==> after[at] == before[at])
  }
}
