/** The moves of a clone's share, and of whole spaces, keep the invariant of the machine. */
module CowShares {
  import opened Common
  import opened Paging
  import opened CowSteps
  import opened CowRuns
  import opened CowMachine

  // ---------------------------------------------------------------- shares

  /** A slot of a table in the hands of a CPU with no share in flight has no late store. */
  lemma DstFree(w: World, c: Cpu, dst: Slot)
    requires Shares(w) && dst !in w.mem.pte && dst.table in w.inHand && w.inHand[dst.table] == c && !Busy(w, c)
    ensures dst !in w.late
  {
    hide LoadedOk, OwnSources, Stages;
  }

  lemma LoadShares(w: World, c: Cpu, src: Slot, dst: Slot)
    requires Shares(w) && Can(w, Load(c, src, dst)) && Calm(w, Load(c, src, dst))
    ensures Shares(Go(w, Load(c, src, dst)))
  {
    DstFree(w, c, dst);
    var sh := Share(src, dst, w.mem.pte[src]);
    assert LoadedOk(w.mem.pte, w.mem.kind, w.late, w.inHand, c, sh);
    LoadedMore(w.mem.pte, w.mem.kind, w.late, w.inHand, w.loaded, c, sh);
    hide AllLoaded, OwnSources, AllCounted, AllHalf, AllDue, LoadedOk;
  }

  lemma LoadedMore(pte: map<Slot, Entry>, kind: map<Frame, Cell>, late: map<Slot, Entry>,
                   inHand: map<Frame, Cpu>, loaded: map<Cpu, Share>, c: Cpu, sh: Share)
    requires AllLoaded(pte, kind, late, inHand, loaded) && OwnSources(loaded)
    requires LoadedOk(pte, kind, late, inHand, c, sh) && forall d | d in loaded :: loaded[d].src != sh.src
    ensures AllLoaded(pte, kind, late, inHand, loaded[c := sh]) && OwnSources(loaded[c := sh])
  {
    hide LoadedOk;
  }

  lemma LoadMInv(w: World, c: Cpu, src: Slot, dst: Slot)
    requires MInv(w) && Can(w, Load(c, src, dst)) && Calm(w, Load(c, src, dst))
    ensures MInv(Go(w, Load(c, src, dst)))
  {
    LoadShares(w, c, src, dst);
    hide Inv, Shares, Calm;
    assert Virtual(Go(w, Load(c, src, dst))) == Virtual(w);
  }

  /** The loaded entry in the memory to come. */
  lemma LoadedVirtual(w: World, c: Cpu)
    requires c in w.loaded && LoadedOk(w.mem.pte, w.mem.kind, w.late, w.inHand, c, w.loaded[c])
    ensures var sh, v := w.loaded[c], Virtual(w); sh.src in v.pte && v.pte[sh.src] == sh.entry && Enabled(v, ShareCow(sh.src, sh.dst))
  {}

  lemma CountOwner(w: World, c: Cpu)
    requires Inv(Virtual(w)) && c in w.loaded && LoadedOk(w.mem.pte, w.mem.kind, w.late, w.inHand, c, w.loaded[c])
    ensures var sh := w.loaded[c];
      OwnerAfter(w.mem.owner, sh) == if sh.entry.cow then w.mem.owner else w.mem.owner - {sh.entry.frame}
  {
    hide Inv;
    var sh := w.loaded[c];
    LoadedVirtual(w, c);
    if !sh.entry.cow { OnlyOwnName(Virtual(w), sh.src); }
  }

  /** Counting is where a share takes effect on the memory to come. */
  lemma CountVirtual(w: World, c: Cpu)
    requires Inv(Virtual(w)) && c in w.loaded && LoadedOk(w.mem.pte, w.mem.kind, w.late, w.inHand, c, w.loaded[c])
    ensures var sh := w.loaded[c]; Enabled(Virtual(w), ShareCow(sh.src, sh.dst))
    ensures var sh := w.loaded[c]; AfterShare(Virtual(w), sh.src, sh.dst) == Virtual(AfterCount(w, c))
  {
    hide Inv;
    var sh := w.loaded[c];
    LoadedVirtual(w, c);
    CountOwner(w, c);
    hide LoadedOk, OwnerAfter, Enabled;
    MergeLate(w.mem.pte, w.late, sh.src, sh.dst, CowEntry(sh.entry));
  }

  lemma MergeLate(pte: map<Slot, Entry>, late: map<Slot, Entry>, src: Slot, dst: Slot, e: Entry)
    ensures pte + late[src := e][dst := e] == (pte + late)[src := e][dst := e]
  {}

  lemma CountLoaded(pte: map<Slot, Entry>, kind: map<Frame, Cell>, late: map<Slot, Entry>,
                    inHand: map<Frame, Cpu>, loaded: map<Cpu, Share>, c: Cpu, e: Entry)
    requires AllLoaded(pte, kind, late, inHand, loaded) && OwnSources(loaded) && c in loaded
    ensures AllLoaded(pte, kind, late[loaded[c].src := e][loaded[c].dst := e], inHand, loaded - {c}) && OwnSources(loaded - {c})
  {
    var sh, late' := loaded[c], late[loaded[c].src := e][loaded[c].dst := e];
    assert LoadedOk(pte, kind, late, inHand, c, sh);
    forall d | d in loaded - {c} ensures LoadedOk(pte, kind, late', inHand, d, loaded[d]) {
      assert LoadedOk(pte, kind, late, inHand, d, loaded[d]);
    }
  }

  lemma DstLateMore(pte: map<Slot, Entry>, late: map<Slot, Entry>, inHand: map<Frame, Cpu>, c: Cpu, sh: Share, at: Slot, e: Entry)
    requires DstLate(pte, late, inHand, c, sh) && at != sh.dst
    ensures DstLate(pte, late[at := e], inHand, c, sh)
    ensures DstLate(pte[at := e], late - {at}, inHand, c, sh)
  {}

  lemma SrcLateMore(pte: map<Slot, Entry>, late: map<Slot, Entry>, sh: Share, at: Slot, e: Entry)
    requires SrcLate(pte, late, sh) && at != sh.src
    ensures SrcLate(pte, late[at := e], sh)
    ensures SrcLate(pte[at := e], late - {at}, sh)
  {}

  /** The destinations of two CPUs lie in different tables, and no source is a destination. */
  lemma CountApart(w: World, c: Cpu, d: Cpu)
    requires Shares(w) && c in w.loaded
    ensures var sh := w.loaded[c];
      && (d in w.counted ==> sh.src !in {w.counted[d].src, w.counted[d].dst} && sh.dst !in {w.counted[d].src, w.counted[d].dst})
      && (d in w.half ==> sh.src != w.half[d].dst && sh.dst != w.half[d].dst)
  {
    assert LoadedOk(w.mem.pte, w.mem.kind, w.late, w.inHand, c, w.loaded[c]);
    hide AllLoaded, AllDue, OwnSources;
  }

  lemma CountOne(w: World, c: Cpu, d: Cpu)
    requires Shares(w) && c in w.loaded && d in w.counted
    ensures DstLate(w.mem.pte, AfterCount(w, c).late, w.inHand, d, w.counted[d])
    ensures SrcLate(w.mem.pte, AfterCount(w, c).late, w.counted[d])
  {
    var sh, e := w.loaded[c], CowEntry(w.loaded[c].entry);
    CountApart(w, c, d);
    hide AllLoaded, AllHalf, AllDue, OwnSources, Stages, DstLate, SrcLate;
    DstLateMore(w.mem.pte, w.late, w.inHand, d, w.counted[d], sh.src, e);
    DstLateMore(w.mem.pte, w.late[sh.src := e], w.inHand, d, w.counted[d], sh.dst, e);
    SrcLateMore(w.mem.pte, w.late, w.counted[d], sh.src, e);
    SrcLateMore(w.mem.pte, w.late[sh.src := e], w.counted[d], sh.dst, e);
  }

  lemma CountNew(w: World, c: Cpu)
    requires c in w.loaded && LoadedOk(w.mem.pte, w.mem.kind, w.late, w.inHand, c, w.loaded[c])
    ensures DstLate(w.mem.pte, AfterCount(w, c).late, w.inHand, c, w.loaded[c])
    ensures SrcLate(w.mem.pte, AfterCount(w, c).late, w.loaded[c])
  {}

  lemma CountCounted(w: World, c: Cpu)
    requires Shares(w) && c in w.loaded
    ensures var w' := AfterCount(w, c); AllCounted(w'.mem.pte, w'.late, w'.inHand, w'.counted)
  {
    hide AllHalf, AllDue, OwnSources, Stages, DstLate, SrcLate, LoadedOk;
    var w' := AfterCount(w, c);
    CountNew(w, c);
    forall d | d in w'.counted
      ensures DstLate(w'.mem.pte, w'.late, w'.inHand, d, w'.counted[d]) && SrcLate(w'.mem.pte, w'.late, w'.counted[d])
    {
      if d != c { CountOne(w, c, d); }
    }
  }

  lemma CountHalf(w: World, c: Cpu)
    requires Shares(w) && c in w.loaded
    ensures var w' := AfterCount(w, c); AllHalf(w'.mem.pte, w'.late, w'.inHand, w'.half)
  {
    hide AllLoaded, AllCounted, AllDue, OwnSources, Stages, DstLate;
    var sh, e := w.loaded[c], CowEntry(w.loaded[c].entry);
    forall d | d in w.half ensures DstLate(w.mem.pte, w.late[sh.src := e][sh.dst := e], w.inHand, d, w.half[d]) {
      CountApart(w, c, d);
      DstLateMore(w.mem.pte, w.late, w.inHand, d, w.half[d], sh.src, e);
      DstLateMore(w.mem.pte, w.late[sh.src := e], w.inHand, d, w.half[d], sh.dst, e);
    }
  }

  lemma CountSources(w: World, c: Cpu)
    requires Shares(w) && c in w.loaded
    ensures OwnSources(w.counted[c := w.loaded[c]])
  {
    hide AllLoaded, AllCounted, AllHalf, AllDue, Stages;
    forall d | d in w.counted ensures w.counted[d].src != w.loaded[c].src { CountApart(w, c, d); }
  }

  lemma CountDue(w: World, c: Cpu)
    requires AllDue(w.counted, w.half, w.late, w.due) && c in w.loaded && c !in w.counted
    ensures var w' := AfterCount(w, c); AllDue(w'.counted, w'.half, w'.late, w'.due)
  {}

  lemma CountShares(w: World, c: Cpu)
    requires Shares(w) && c in w.loaded
    ensures Shares(AfterCount(w, c))
  {
    CountLoaded(w.mem.pte, w.mem.kind, w.late, w.inHand, w.loaded, c, CowEntry(w.loaded[c].entry));
    CountCounted(w, c);
    CountHalf(w, c);
    CountSources(w, c);
    CountDue(w, c);
    hide AllLoaded, AllCounted, AllHalf, AllDue, OwnSources;
  }

  lemma CountBooks(w: World, c: Cpu)
    requires Inv(Virtual(w)) && Books(w) && c in w.loaded && LoadedOk(w.mem.pte, w.mem.kind, w.late, w.inHand, c, w.loaded[c])
    ensures Books(AfterCount(w, c))
  {
    PageTarget(Virtual(w), w.loaded[c].src);
    hide Inv;
    assert Roots(AfterCount(w, c).mem) == Roots(w.mem);
  }

  lemma CountMInv(w: World, c: Cpu)
    requires MInv(w) && c in w.loaded
    ensures MInv(AfterCount(w, c))
  {
    hide Inv, AllCounted, AllHalf, AllDue, OwnSources, Stages, Books, LoadedOk, Enabled, AfterShare, OwnerAfter;
    var sh := w.loaded[c];
    assert LoadedOk(w.mem.pte, w.mem.kind, w.late, w.inHand, c, sh);
    hide Shares, Virtual;
    CountVirtual(w, c);
    CountShares(w, c);
    CountBooks(w, c);
    ShareCowInv(Virtual(w), sh.src, sh.dst);
  }

  /** Doing a late store leaves the memory to come as it is. */
  lemma LateStored(pte: map<Slot, Entry>, late: map<Slot, Entry>, at: Slot)
    requires at in late
    ensures pte[at := late[at]] + (late - {at}) == pte + late
  {}

  lemma LoadedOkMore(pte: map<Slot, Entry>, kind: map<Frame, Cell>, late: map<Slot, Entry>,
                     inHand: map<Frame, Cpu>, c: Cpu, sh: Share, at: Slot, e: Entry)
    requires LoadedOk(pte, kind, late, inHand, c, sh) && at != sh.src && at != sh.dst
    ensures LoadedOk(pte[at := e], kind, late - {at}, inHand, c, sh)
  {}

  /** The slots of a loaded share have no late store. */
  lemma LoadedNotLate(w: World, d: Cpu, at: Slot)
    requires Shares(w) && d in w.loaded && at in w.late
    ensures at != w.loaded[d].src && at != w.loaded[d].dst
  {
    assert LoadedOk(w.mem.pte, w.mem.kind, w.late, w.inHand, d, w.loaded[d]);
  }

  /** Doing a late store leaves the loaded shares as they are. */
  lemma LateLoaded(w: World, at: Slot, e: Entry)
    requires Shares(w) && at in w.late
    ensures AllLoaded(w.mem.pte[at := e], w.mem.kind, w.late - {at}, w.inHand, w.loaded)
  {
    hide AllCounted, AllHalf, AllDue, OwnSources, Stages, LoadedOk;
    forall d | d in w.loaded ensures LoadedOk(w.mem.pte[at := e], w.mem.kind, w.late - {at}, w.inHand, d, w.loaded[d]) {
      LoadedNotLate(w, d, at);
      LoadedOkMore(w.mem.pte, w.mem.kind, w.late, w.inHand, d, w.loaded[d], at, e);
    }
  }

  /** What a store to the source of one counted share does not touch. */
  lemma SrcApart(w: World, c: Cpu, d: Cpu)
    requires Shares(w) && c in w.counted && d != c
    ensures var sh := w.counted[c];
      && (d in w.counted ==> sh.src != w.counted[d].src && sh.src != w.counted[d].dst)
      && (d in w.half ==> sh.src != w.half[d].dst)
  {
    assert SrcLate(w.mem.pte, w.late, w.counted[c]);
    hide AllLoaded, AllDue;
  }

  lemma SrcCounted(w: World, c: Cpu)
    requires Shares(w) && c in w.counted
    ensures var w' := AfterSrc(w, c); AllCounted(w'.mem.pte, w'.late, w'.inHand, w'.counted)
  {
    hide AllLoaded, AllHalf, AllDue, Stages, OwnSources, DstLate, SrcLate;
    var sh, e := w.counted[c], CowEntry(w.counted[c].entry);
    forall d | d in w.counted && d != c
      ensures DstLate(w.mem.pte[sh.src := e], w.late - {sh.src}, w.inHand, d, w.counted[d])
      ensures SrcLate(w.mem.pte[sh.src := e], w.late - {sh.src}, w.counted[d])
    {
      SrcApart(w, c, d);
      DstLateMore(w.mem.pte, w.late, w.inHand, d, w.counted[d], sh.src, e);
      SrcLateMore(w.mem.pte, w.late, w.counted[d], sh.src, e);
    }
  }

  lemma CountedSlots(pte: map<Slot, Entry>, late: map<Slot, Entry>, inHand: map<Frame, Cpu>, counted: map<Cpu, Share>, c: Cpu)
    requires AllCounted(pte, late, inHand, counted) && c in counted
    ensures DstLate(pte, late, inHand, c, counted[c]) && counted[c].src != counted[c].dst
  {}

  lemma SrcHalf(w: World, c: Cpu)
    requires Shares(w) && c in w.counted
    ensures var w' := AfterSrc(w, c); AllHalf(w'.mem.pte, w'.late, w'.inHand, w'.half)
  {
    hide AllLoaded, AllCounted, AllDue, Stages, OwnSources, DstLate;
    var sh, e := w.counted[c], CowEntry(w.counted[c].entry);
    CountedSlots(w.mem.pte, w.late, w.inHand, w.counted, c);
    DstLateMore(w.mem.pte, w.late, w.inHand, c, sh, sh.src, e);
    forall d | d in w.half && d != c ensures DstLate(w.mem.pte[sh.src := e], w.late - {sh.src}, w.inHand, d, w.half[d]) {
      SrcApart(w, c, d);
      DstLateMore(w.mem.pte, w.late, w.inHand, d, w.half[d], sh.src, e);
    }
  }

  lemma SrcDue(w: World, c: Cpu)
    requires AllDue(w.counted, w.half, w.late, w.due) && c in w.counted && c !in w.half
    ensures var w' := AfterSrc(w, c); AllDue(w'.counted, w'.half, w'.late, w'.due)
  {
    var w' := AfterSrc(w, c);
    forall at | at in w'.late ensures at in w'.due && Owed(w'.counted, w'.half, w'.due[at], at) {
      assert Owed(w.counted, w.half, w.due[at], at);
    }
  }

  lemma SrcShares(w: World, c: Cpu)
    requires Shares(w) && c in w.counted
    ensures Shares(AfterSrc(w, c))
  {
    assert w.counted[c].src in w.late;
    LateLoaded(w, w.counted[c].src, CowEntry(w.counted[c].entry));
    SrcCounted(w, c);
    SrcHalf(w, c);
    SrcDue(w, c);
    assert OwnSources(w.counted - {c});
    hide AllLoaded, AllCounted, AllHalf, AllDue, OwnSources;
  }

  lemma SrcVirtual(w: World, c: Cpu)
    requires Shares(w) && c in w.counted
    ensures Virtual(AfterSrc(w, c)) == Virtual(w)
  {
    var sh := w.counted[c];
    assert SrcLate(w.mem.pte, w.late, sh);
    hide Shares;
    LateStored(w.mem.pte, w.late, sh.src);
  }

  lemma StoreSrcMInv(w: World, c: Cpu)
    requires MInv(w) && c in w.counted
    ensures MInv(AfterSrc(w, c))
  {
    hide Inv, Shares;
    SrcShares(w, c);
    SrcVirtual(w, c);
    VirtualRoots(w);
    VirtualRoots(AfterSrc(w, c));
    hide Virtual, Roots;
  }

  lemma DstApart(w: World, c: Cpu, d: Cpu)
    requires Shares(w) && c in w.half && d != c
    ensures var sh := w.half[c];
      && (d in w.counted ==> sh.dst != w.counted[d].src && sh.dst != w.counted[d].dst)
      && (d in w.half ==> sh.dst != w.half[d].dst)
  {
    assert DstLate(w.mem.pte, w.late, w.inHand, c, w.half[c]);
    hide AllLoaded, AllDue, OwnSources;
  }

  lemma DstCounted(w: World, c: Cpu)
    requires Shares(w) && c in w.half && c !in w.counted
    ensures var w' := AfterDst(w, c); AllCounted(w'.mem.pte, w'.late, w'.inHand, w'.counted) && AllHalf(w'.mem.pte, w'.late, w'.inHand, w'.half)
  {
    hide AllLoaded, AllDue, Stages, OwnSources, DstLate, SrcLate;
    var sh, e := w.half[c], CowEntry(w.half[c].entry);
    forall d | d in w.counted
      ensures DstLate(w.mem.pte[sh.dst := e], w.late - {sh.dst}, w.inHand, d, w.counted[d])
      ensures SrcLate(w.mem.pte[sh.dst := e], w.late - {sh.dst}, w.counted[d])
    {
      DstApart(w, c, d);
      DstLateMore(w.mem.pte, w.late, w.inHand, d, w.counted[d], sh.dst, e);
      SrcLateMore(w.mem.pte, w.late, w.counted[d], sh.dst, e);
    }
    forall d | d in w.half && d != c ensures DstLate(w.mem.pte[sh.dst := e], w.late - {sh.dst}, w.inHand, d, w.half[d]) {
      DstApart(w, c, d);
      DstLateMore(w.mem.pte, w.late, w.inHand, d, w.half[d], sh.dst, e);
    }
  }

  lemma DstDue(w: World, c: Cpu)
    requires AllDue(w.counted, w.half, w.late, w.due) && c in w.half && c !in w.counted
    ensures var w' := AfterDst(w, c); AllDue(w'.counted, w'.half, w'.late, w'.due)
  {
    var w' := AfterDst(w, c);
    forall at | at in w'.late ensures at in w'.due && Owed(w'.counted, w'.half, w'.due[at], at) {
      assert Owed(w.counted, w.half, w.due[at], at);
    }
  }

  lemma DstShares(w: World, c: Cpu)
    requires Shares(w) && c in w.half
    ensures Shares(AfterDst(w, c))
  {
    assert w.half[c].dst in w.late;
    LateLoaded(w, w.half[c].dst, CowEntry(w.half[c].entry));
    DstCounted(w, c);
    DstDue(w, c);
    hide AllLoaded, AllCounted, AllHalf, AllDue, OwnSources;
  }

  lemma DstVirtual(w: World, c: Cpu)
    requires Shares(w) && c in w.half
    ensures Virtual(AfterDst(w, c)) == Virtual(w)
  {
    var sh := w.half[c];
    assert DstLate(w.mem.pte, w.late, w.inHand, c, sh);
    hide Shares;
    LateStored(w.mem.pte, w.late, sh.dst);
  }

  lemma StoreDstMInv(w: World, c: Cpu)
    requires MInv(w) && c in w.half
    ensures MInv(AfterDst(w, c))
  {
    hide Inv, Shares;
    DstShares(w, c);
    DstVirtual(w, c);
    VirtualRoots(w);
    VirtualRoots(AfterDst(w, c));
    hide Virtual, Roots;
  }

  // ---------------------------------------------------------------- spaces

  /** A page table on its way into a clone is not a PML4. */
  lemma LateNotRoot(w: World, at: Slot, r: Frame)
    requires SlotsInTables(Virtual(w).pte, w.mem.kind) && at in w.late && at.level == 1
    requires r in w.mem.kind && w.mem.kind[r] == Table(LEVELS)
    ensures at.table != r
  {
    assert at in Virtual(w).pte;
  }

  lemma HandSame(inHand: map<Frame, Cpu>, inHand': map<Frame, Cpu>, r: Frame, t: Frame)
    requires inHand' - {r} == inHand - {r} && t in inHand && t != r
    ensures t in inHand' && inHand'[t] == inHand[t]
  {
    assert t in inHand - {r} && t in inHand' - {r};
    assert (inHand - {r})[t] == (inHand' - {r})[t];
  }

  /** A destination in another table than `r` is in the same hands as before. */
  lemma LateHands(w: World, inHand': map<Frame, Cpu>, r: Frame, d: Cpu, sh: Share)
    requires DstLate(w.mem.pte, w.late, w.inHand, d, sh) && SlotsInTables(Virtual(w).pte, w.mem.kind)
    requires r in w.mem.kind && w.mem.kind[r] == Table(LEVELS) && inHand' - {r} == w.inHand - {r}
    ensures DstLate(w.mem.pte, w.late, inHand', d, sh)
  {
    LateNotRoot(w, sh.dst, r);
    HandSame(w.inHand, inHand', r, sh.dst.table);
  }

  lemma LoadedHands(w: World, inHand': map<Frame, Cpu>, r: Frame, d: Cpu, sh: Share)
    requires LoadedOk(w.mem.pte, w.mem.kind, w.late, w.inHand, d, sh)
    requires r in w.mem.kind && w.mem.kind[r] == Table(LEVELS) && inHand' - {r} == w.inHand - {r}
    ensures LoadedOk(w.mem.pte, w.mem.kind, w.late, inHand', d, sh)
  {
    HandSame(w.inHand, inHand', r, sh.dst.table);
  }

  lemma HandsApart(w: World, inHand': map<Frame, Cpu>, r: Frame)
    requires Shares(w) && SlotsInTables(Virtual(w).pte, w.mem.kind) && r in w.mem.kind && w.mem.kind[r] == Table(LEVELS)
    requires inHand' - {r} == w.inHand - {r}
    ensures Shares(w.(inHand := inHand'))
  {
    hide LoadedOk, DstLate, SrcLate, SlotsInTables, Virtual, AllDue, Stages, OwnSources;
    forall d | d in w.loaded ensures LoadedOk(w.mem.pte, w.mem.kind, w.late, inHand', d, w.loaded[d]) {
      LoadedHands(w, inHand', r, d, w.loaded[d]);
    }
    forall d | d in w.counted ensures DstLate(w.mem.pte, w.late, inHand', d, w.counted[d]) {
      LateHands(w, inHand', r, d, w.counted[d]);
    }
    forall d | d in w.half ensures DstLate(w.mem.pte, w.late, inHand', d, w.half[d]) {
      LateHands(w, inHand', r, d, w.half[d]);
    }
  }

  /** Handing a PML4 over changes who keeps it, not what is kept. */
  lemma HandOver(w: World, inHand': map<Frame, Cpu>, r: Frame)
    requires MInv(w) && r in w.mem.kind && w.mem.kind[r] == Table(LEVELS) && inHand' - {r} == w.inHand - {r}
    ensures Inv(Virtual(w.(inHand := inHand'))) && Shares(w.(inHand := inHand'))
  {
    HandsApart(w, inHand', r);
    hide Inv, Shares, Books;
    assert Virtual(w.(inHand := inHand')) == Virtual(w);
  }

  lemma SameMInv(w: World, w': World)
    requires Inv(Virtual(w)) && Shares(w) && w' == w.(live := w'.live) && Books(w')
    ensures MInv(w')
  {
    hide Inv, AllLoaded, AllCounted, AllHalf, AllDue, OwnSources, Stages, Books;
    assert Virtual(w') == Virtual(w);
  }

  lemma PublishMInv(w: World, c: Cpu, r: Frame)
    requires MInv(w) && Can(w, Publish(c, r))
    ensures MInv(Go(w, Publish(c, r)))
  {
    hide Inv, Shares;
    assert (w.inHand - {r}) - {r} == w.inHand - {r};
    HandOver(w, w.inHand - {r}, r);
    hide Roots, Virtual;
    SameMInv(w.(inHand := w.inHand - {r}), Go(w, Publish(c, r)));
  }

  lemma RetireMInv(w: World, c: Cpu, r: Frame)
    requires MInv(w) && Can(w, Retire(c, r))
    ensures MInv(Go(w, Retire(c, r)))
  {
    hide Inv, Shares;
    assert w.inHand[r := c] - {r} == w.inHand - {r};
    HandOver(w, w.inHand[r := c], r);
    hide Roots, Virtual;
    SameMInv(w.(inHand := w.inHand[r := c]), Go(w, Retire(c, r)));
  }

  /** Whatever the CPUs do, in whatever order, the invariant survives a move that rewrites no source of
      a share in flight. */
  lemma MoveInv(w: World, mv: Move)
    requires MInv(w) && Can(w, mv) && Calm(w, mv)
    ensures MInv(Go(w, mv))
  {
    hide Inv, Shares, Books, Enabled, Apply;
    match mv
    case Act(c, a) => ActMInv(w, c, a);
    case Load(c, src, dst) => LoadMInv(w, c, src, dst);
    case CountUp(c) => CountMInv(w, c);
    case StoreSrc(c) => StoreSrcMInv(w, c);
    case StoreDst(c) => StoreDstMInv(w, c);
    case Publish(c, r) => PublishMInv(w, c, r);
    case Retire(c, r) => RetireMInv(w, c, r);
  }
}
