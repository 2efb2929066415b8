/** A clone that stores what it loaded, whatever has become of the entry since: exactly when the
    counting and ownership invariant survives, from the state of memory when the source is stored. */
module CowStale {
  import opened Common
  import opened Paging
  import opened CowSteps
  import opened CowRuns
  import opened CowMachine
  import opened CowShares
  import opened CowLive

  /** Memory after the count and both stores of a share, with the owners the entries then give. */
  function Finished(m: Mem, sh: Share, owner: map<Frame, Slot>): Mem {
    var e := CowEntry(sh.entry);
    m.(pte := m.pte[sh.src := e][sh.dst := e], owner := owner,
       refs := m.refs[e.frame := Count(m.refs, e.frame) + Delta(sh.entry)])
  }

  /** Memory after both stores of a share that has been counted. */
  function Overwritten(m: Mem, sh: Share, owner: map<Frame, Slot>): Mem {
    var e := CowEntry(sh.entry);
    m.(pte := m.pte[sh.src := e][sh.dst := e], owner := owner)
  }

  /** What the clone loop has checked when it counts. */
  ghost predicate Loadable(m: Mem, sh: Share) {
    && Shareable(sh.src, sh.entry) && (sh.entry.cow ==> !sh.entry.writable)
    && InTable(m.kind, sh.dst) && sh.dst.level == 1 && sh.dst !in m.pte && sh.src != sh.dst
  }

  /** What the count and both stores come to when they follow each other. */
  lemma ShareFinishes(w: World, c: Cpu)
    requires c in w.loaded && c !in w.half && c !in w.counted
    ensures c in AfterCount(w, c).counted && c in AfterSrc(AfterCount(w, c), c).half
    ensures AfterDst(AfterSrc(AfterCount(w, c), c), c).mem == Finished(w.mem, w.loaded[c], OwnerAfter(w.mem.owner, w.loaded[c]))
  {
    hide OwnerAfter;
  }

  /** If the source still is what was loaded, that is the single action of an uninterrupted clone. */
  lemma UninterruptedShare(m: Mem, sh: Share)
    requires Inv(m) && sh.src in m.pte && m.pte[sh.src] == sh.entry && Shareable(sh.src, sh.entry)
    ensures Finished(m, sh, OwnerAfter(m.owner, sh)) == AfterShare(m, sh.src, sh.dst)
  {
    hide Inv;
    if !sh.entry.cow { OnlyOwnName(m, sh.src); }
  }

  // ---------------------------------------------------------------- the books of a counted share

  /** The increments of a share, one for each entry that is COW only because of it. */
  function Increments(sh: Share): multiset<Frame> { multiset{}[sh.entry.frame := Delta(sh.entry)] }

  /** The share counted a page that was counted already. `n` is `m` with the increments that are not
      stored yet among the decrements still owed. */
  ghost predicate Booked(m: Mem, n: Mem, sh: Share) {
    n == m.(credit := m.credit + Increments(sh))
  }

  /** The share counted a frame that had no count. `n` is `m` without that count. */
  ghost predicate Unbooked(m: Mem, n: Mem, sh: Share) {
    var f := sh.entry.frame;
    && f !in n.refs && m == n.(refs := n.refs[f := Delta(sh.entry)], owner := m.owner)
    && m.owner - {f} == n.owner - {f} && (f in m.owner ==> f in n.owner && m.owner[f] == n.owner[f])
    && (f in n.owner && f !in m.owner ==> f in n.kind && n.kind[f] == Page)
  }

  /** Apart from the count of one share that is not stored yet, memory is in order. */
  ghost predicate Pending(m: Mem, n: Mem, sh: Share) { Inv(n) && (Booked(m, n, sh) || Unbooked(m, n, sh)) }

  /** The source holds the page as it was loaded, up to permission bits; or the page was private when
      it was loaded, its entry is gone, and the page has become one that only COW entries name. */
  ghost predicate FitsNow(m: Mem, sh: Share) {
    var f := sh.entry.frame;
    if sh.entry.cow then Holds(m.pte, sh.src, Cow, f)
    else
      || Holds(m.pte, sh.src, Own, f)
      || (&& InTable(m.kind, sh.src) && (sh.src in m.pte ==> UseOf(sh.src, m.pte[sh.src]) == Opaque)
          && f in m.kind && m.kind[f] == Page && forall at | at in m.pte :: !Holds(m.pte, at, Own, f))
  }

  // ---------------------------------------------------------------- it survives

  lemma SameUseInv(m: Mem, at: Slot, e: Entry)
    requires Inv(m) && at in m.pte && UseOf(at, e) == UseOf(at, m.pte[at]) && e.frame == m.pte[at].frame
    requires IsPage(UseOf(at, e)) && (e.cow ==> !e.writable)
    ensures Inv(m.(pte := m.pte[at := e]))
  {
    hide Targets, OwnerInverse, Counted, DmaCounted;
    HasTarget(m, at);
    PutElsewhere(m.pte, at, e);
    TargetsPut(m.pte, at, e, m.kind, m.refs, m.foreign);
    OwnerSame(m.pte, m.owner, at, e);
    CountsSame(m, m.pte[at := e], at);
  }

  /** A decrement owed may be turned into an entry: count one more, then pay. */
  lemma EntryForCredit(n: Mem, at: Slot, e: Entry)
    requires Inv(n) && InTable(n.kind, at) && at !in n.pte && UseOf(at, e) == Cow && !e.writable && e.frame in n.credit
    ensures Inv(n.(pte := n.pte[at := e], credit := n.credit - multiset{e.frame}))
  {
    hide Inv;
    OwedCount(n, e.frame);
    var j := Joined(n, at, e);
    JoinInv(n, at, e);
    SettleLessInv(j, e.frame);
    PaidBack(n, at, e);
  }

  lemma OwedCount(n: Mem, f: Frame)
    requires Inv(n) && f in n.credit
    ensures f in n.refs && n.refs[f] >= 1
  {}

  lemma PaidBack(n: Mem, at: Slot, e: Entry)
    requires e.frame in n.refs && n.refs[e.frame] >= 1
    ensures AfterSettle(Joined(n, at, e), e.frame) == n.(pte := n.pte[at := e], credit := n.credit - multiset{e.frame})
  {
    var f := e.frame;
    assert n.refs[f := n.refs[f] + 1][f := n.refs[f]] == n.refs;
  }

  lemma BookedCowFits(m: Mem, n: Mem, sh: Share)
    requires Inv(n) && Booked(m, n, sh) && Loadable(m, sh) && sh.entry.cow && Holds(m.pte, sh.src, Cow, sh.entry.frame)
    ensures Inv(Overwritten(m, sh, m.owner))
  {
    hide Inv;
    var e := CowEntry(sh.entry);
    var n1 := n.(pte := n.pte[sh.src := e]);
    SameUseInv(n, sh.src, e);
    EntryForCredit(n1, sh.dst, e);
    assert n1.credit - multiset{e.frame} == m.credit;
    assert n1.(pte := n1.pte[sh.dst := e], credit := m.credit) == Overwritten(m, sh, m.owner);
  }

  lemma BookedGoneFits(m: Mem, n: Mem, sh: Share)
    requires Inv(n) && Booked(m, n, sh) && Loadable(m, sh) && !sh.entry.cow && InTable(m.kind, sh.src)
    requires sh.src in m.pte ==> UseOf(sh.src, m.pte[sh.src]) == Opaque
    ensures Inv(Overwritten(m, sh, m.owner))
  {
    hide Inv;
    var e := CowEntry(sh.entry);
    var n0 := n.(pte := n.pte - {sh.src});
    NullGone(n, sh.src);
    EntryForCredit(n0, sh.src, e);
    var n1 := n0.(pte := n0.pte[sh.src := e], credit := n0.credit - multiset{e.frame});
    EntryForCredit(n1, sh.dst, e);
    assert n1.credit - multiset{e.frame} == m.credit;
    assert n0.pte[sh.src := e] == m.pte[sh.src := e];
    assert n1.(pte := n1.pte[sh.dst := e], credit := m.credit) == Overwritten(m, sh, m.owner);
  }

  lemma NullGone(n: Mem, at: Slot)
    requires Inv(n) && (at in n.pte ==> UseOf(at, n.pte[at]) == Opaque)
    ensures Inv(n.(pte := n.pte - {at}))
  {
    hide Inv;
    if at in n.pte {
      DropPlainInv(n, at);
      assert AfterDrop(n, at) == n.(pte := n.pte - {at});
    } else {
      assert n.pte - {at} == n.pte;
    }
  }

  lemma UnbookedFits(m: Mem, n: Mem, sh: Share)
    requires Inv(n) && Unbooked(m, n, sh) && Loadable(m, sh) && !sh.entry.cow && Holds(m.pte, sh.src, Own, sh.entry.frame)
    ensures Inv(Overwritten(m, sh, n.owner - {sh.entry.frame}))
  {
    hide Inv;
    var e := CowEntry(sh.entry);
    var n1 := n.(pte := n.pte[sh.src := sh.entry]);
    SameUseInv(n, sh.src, sh.entry);
    ShareCowInv(n1, sh.src, sh.dst);
    assert n.pte[sh.src := sh.entry][sh.src := e] == n.pte[sh.src := e];
    assert AfterShare(n1, sh.src, sh.dst) == Overwritten(m, sh, n.owner - {sh.entry.frame});
  }

  lemma FitsSurvives(m: Mem, n: Mem, sh: Share)
    requires Pending(m, n, sh) && Loadable(m, sh) && FitsNow(m, sh)
    ensures exists owner :: Inv(Overwritten(m, sh, owner))
  {
    if Booked(m, n, sh) {
      BookedPage(m, n, sh);
      hide Inv, Overwritten, InTable;
      if sh.entry.cow { BookedCowFits(m, n, sh); } else { BookedGoneFits(m, n, sh); }
    } else {
      if !Holds(m.pte, sh.src, Own, sh.entry.frame) { UnbookedPage(m, n, sh); }
      hide Inv, Overwritten, InTable;
      UnbookedFits(m, n, sh);
    }
  }

  /** What a booked share counted is a page without a private entry. */
  lemma BookedPage(m: Mem, n: Mem, sh: Share)
    requires Inv(n) && Booked(m, n, sh)
    ensures sh.entry.frame in n.refs && sh.entry.frame in n.kind && n.kind[sh.entry.frame] == Page
    ensures forall at | at in m.pte :: !Holds(m.pte, at, Own, sh.entry.frame)
  {
    assert sh.entry.frame in n.credit;
    OwedIsPage(n, sh.entry.frame);
    OwnNotShared(n, sh.entry.frame);
  }

  /** What an unbooked share counted is a page only if it has a private entry, and has no COW entry. */
  lemma UnbookedPage(m: Mem, n: Mem, sh: Share)
    requires Inv(n) && Unbooked(m, n, sh)
    ensures forall at | at in m.pte :: !Holds(m.pte, at, Cow, sh.entry.frame)
    ensures sh.entry.frame in m.kind && m.kind[sh.entry.frame] == Page ==>
              exists at :: at in m.pte && Holds(m.pte, at, Own, sh.entry.frame)
  {
    NoHolders(n, sh.entry.frame);
    forall at | at in m.pte ensures !Holds(m.pte, at, Cow, sh.entry.frame) {
      assert at !in Holders(n.pte, Cow, sh.entry.frame);
    }
    if sh.entry.frame in m.kind && m.kind[sh.entry.frame] == Page { PageOwned(n, sh.entry.frame); }
  }

  // ---------------------------------------------------------------- it does not

  lemma CountOf(m: Mem, f: Frame)
    requires Inv(m)
    ensures Count(m.refs, f) == |Holders(m.pte, Cow, f)| + m.credit[f]
  {
    if f !in m.refs { NoHolders(m, f); }
  }

  /** The holders of a use after both stores. */
  lemma StoresMove(pte: map<Slot, Entry>, src: Slot, dst: Slot, e: Entry, u: Use, g: Frame)
    requires dst !in pte && src != dst
    ensures |Holders(pte[src := e][dst := e], u, g)| ==
            |Holders(pte, u, g)| - (if Holds(pte, src, u, g) then 1 else 0)
            + (if UseOf(src, e) == u && e.frame == g then 1 else 0) + (if UseOf(dst, e) == u && e.frame == g then 1 else 0)
  {
    PutElsewhere(pte, src, e);
    PutElsewhere(pte[src := e], dst, e);
    HoldersMove(pte, pte[src := e], src, u, g);
    HoldersMove(pte[src := e], pte[src := e][dst := e], dst, u, g);
  }

  /** The count comes out right only if the source is a COW holder exactly when it was loaded as one. */
  lemma CountFits(m: Mem, n: Mem, sh: Share, owner: map<Frame, Slot>)
    requires Pending(m, n, sh) && Loadable(m, sh) && Inv(Overwritten(m, sh, owner))
    ensures sh.entry.cow <==> Holds(m.pte, sh.src, Cow, sh.entry.frame)
  {
    hide Inv, Holders;
    var f, m' := sh.entry.frame, Overwritten(m, sh, owner);
    CountOf(n, f);
    CountOf(m', f);
    StoresMove(m.pte, sh.src, sh.dst, CowEntry(sh.entry), Cow, f);
    if Unbooked(m, n, sh) && sh.src in m.pte { UnbookedPage(m, n, sh); }
  }

  /** A source that meanwhile holds another counted page, or a device page, loses a holder. */
  lemma OtherHolder(m: Mem, n: Mem, sh: Share, owner: map<Frame, Slot>)
    requires Pending(m, n, sh) && Loadable(m, sh) && Inv(Overwritten(m, sh, owner)) && sh.src in m.pte
    ensures UseOf(sh.src, m.pte[sh.src]) == Cow ==> m.pte[sh.src].frame == sh.entry.frame
    ensures UseOf(sh.src, m.pte[sh.src]) != Dma
  {
    hide Inv, Holders;
    var g, e, m' := m.pte[sh.src].frame, CowEntry(sh.entry), Overwritten(m, sh, owner);
    CountOf(n, g);
    CountOf(m', g);
    StoresMove(m.pte, sh.src, sh.dst, e, Cow, g);
    StoresMove(m.pte, sh.src, sh.dst, e, Dma, g);
    DmaIs(n, g);
    DmaIs(m', g);
  }

  lemma DmaIs(m: Mem, f: Frame)
    requires Inv(m)
    ensures m.dma[f] == |Holders(m.pte, Dma, f)|
  {}

  lemma OtherPage(m: Mem, n: Mem, sh: Share)
    requires Pending(m, n, sh) && sh.src in m.pte && UseOf(sh.src, m.pte[sh.src]) == Own && m.pte[sh.src].frame != sh.entry.frame
    ensures var g := m.pte[sh.src].frame; g in m.kind && m.kind[g] == Page && g !in m.refs
    ensures forall at | at in m.pte && at != sh.src :: !Holds(m.pte, at, Own, m.pte[sh.src].frame)
  {
    hide Inv;
    OnlyOwnName(n, sh.src);
    PageTarget(n, sh.src);
  }

  /** A source that meanwhile holds another private page loses it. */
  lemma OtherPrivate(m: Mem, n: Mem, sh: Share, owner: map<Frame, Slot>)
    requires Pending(m, n, sh) && Loadable(m, sh) && Inv(Overwritten(m, sh, owner)) && sh.src in m.pte
    ensures UseOf(sh.src, m.pte[sh.src]) == Own ==> m.pte[sh.src].frame == sh.entry.frame
  {
    hide Inv, Pending, InTable;
    if UseOf(sh.src, m.pte[sh.src]) == Own && m.pte[sh.src].frame != sh.entry.frame {
      OtherPage(m, n, sh);
      PageOwned(Overwritten(m, sh, owner), m.pte[sh.src].frame);
    }
  }

  lemma PageOwned(m: Mem, g: Frame)
    requires Inv(m) && g in m.kind && m.kind[g] == Page && g !in m.refs
    ensures g in m.owner && m.owner[g] in m.pte && m.pte[m.owner[g]].frame == g && UseOf(m.owner[g], m.pte[m.owner[g]]) == Own
  {
    HasTarget(m, m.owner[g]);
  }

  lemma PendingRefs(m: Mem, n: Mem, sh: Share)
    requires Pending(m, n, sh)
    ensures sh.entry.frame in m.refs
  {
    if Booked(m, n, sh) { BookedPage(m, n, sh); }
  }

  /** The page has no private entry beside the source. */
  lemma NoOtherOwner(m: Mem, sh: Share, owner: map<Frame, Slot>)
    requires Loadable(m, sh) && Inv(Overwritten(m, sh, owner)) && sh.entry.frame in m.refs
    ensures InTable(m.kind, sh.src) && sh.entry.frame in m.kind && m.kind[sh.entry.frame] == Page
    ensures forall at | at in m.pte && at != sh.src :: !Holds(m.pte, at, Own, sh.entry.frame)
  {
    hide Counted, DmaCounted, FramesOk, OwnerInverse;
    var f, m' := sh.entry.frame, Overwritten(m, sh, owner);
    assert sh.src in m'.pte;
    forall at | at in m.pte && at != sh.src ensures !Holds(m.pte, at, Own, f) { HasTarget(m', at); }
  }

  lemma SurvivesFits(m: Mem, n: Mem, sh: Share, owner: map<Frame, Slot>)
    requires Pending(m, n, sh) && Loadable(m, sh) && Inv(Overwritten(m, sh, owner))
    ensures FitsNow(m, sh)
  {
    hide Inv, InTable, Pending, Overwritten;
    CountFits(m, n, sh, owner);
    PendingRefs(m, n, sh);
    NoOtherOwner(m, sh, owner);
    if !sh.entry.cow && sh.src in m.pte {
      OtherHolder(m, n, sh, owner);
      OtherPrivate(m, n, sh, owner);
    }
  }

  /** Exactly when the stores of a counted share leave memory in order, whatever has happened between
      its load, its count and these stores: there are owners with which the invariant holds if and only
      if the source fits at the moment it is stored. */
  lemma CountedShareIff(m: Mem, n: Mem, sh: Share)
    requires Pending(m, n, sh) && Loadable(m, sh)
    ensures (exists owner :: Inv(Overwritten(m, sh, owner))) <==> FitsNow(m, sh)
  {
    hide Pending, Inv, FitsNow, Loadable, Overwritten;
    if owner :| Inv(Overwritten(m, sh, owner)) { SurvivesFits(m, n, sh, owner); }
    if FitsNow(m, sh) { FitsSurvives(m, n, sh); }
  }

  // ---------------------------------------------------------------- the count

  function JustCounted(m: Mem, sh: Share, owner: map<Frame, Slot>): Mem {
    m.(refs := m.refs[sh.entry.frame := Count(m.refs, sh.entry.frame) + Delta(sh.entry)], owner := owner)
  }

  lemma BookCounted(pte: map<Slot, Entry>, refs: map<Frame, nat>, credit: multiset<Frame>, sh: Share)
    requires Counted(pte, refs, credit) && sh.entry.frame in refs
    ensures Counted(pte, refs[sh.entry.frame := refs[sh.entry.frame] + Delta(sh.entry)], credit + Increments(sh))
  {}

  /** Increments and as many decrements owed cancel out. */
  lemma BookInv(m: Mem, sh: Share)
    requires Inv(m) && sh.entry.frame in m.refs
    ensures Inv(JustCounted(m, sh, m.owner).(credit := m.credit + Increments(sh)))
  {
    hide Targets, OwnerInverse, PagesKept, Counted, DmaCounted, FramesOk, SlotsInTables;
    var f := sh.entry.frame;
    RefsChange(m, f, m.refs[f] + Delta(sh.entry));
    BookCounted(m.pte, m.refs, m.credit, sh);
  }

  lemma OwnerLeaves(m: Mem, sh: Share)
    requires Inv(m) && Shareable(sh.src, sh.entry) && sh.entry.frame !in m.refs
    ensures Unbooked(JustCounted(m, sh, OwnerAfter(m.owner, sh)), m, sh)
  {
    hide SlotsInTables, Targets, PagesKept, Counted, DmaCounted, FramesOk;
    var f, o := sh.entry.frame, OwnerAfter(m.owner, sh);
    assert o - {f} == m.owner - {f};
    if f in m.owner && f !in o { HasTarget(m, sh.src); }
  }

  /** Whatever the source has become when the share is counted, memory is in order apart from it. */
  lemma CountPending(m: Mem, sh: Share) returns (n: Mem)
    requires Inv(m) && Shareable(sh.src, sh.entry)
    ensures Pending(JustCounted(m, sh, OwnerAfter(m.owner, sh)), n, sh)
    ensures n == if sh.entry.frame in m.refs then JustCounted(m, sh, m.owner).(credit := m.credit + Increments(sh)) else m
  {
    hide Inv, Unbooked;
    if sh.entry.frame in m.refs {
      BookInv(m, sh);
      RefsUnowned(m, sh.entry.frame);
      n := JustCounted(m, sh, m.owner).(credit := m.credit + Increments(sh));
    } else {
      OwnerLeaves(m, sh);
      n := m;
    }
  }

  /** The source entry still is what was loaded, up to permission bits; or the loaded page was private,
      its entry is gone, and the page has since become a counted one elsewhere. */
  ghost predicate StillFits(m: Mem, sh: Share) {
    var f := sh.entry.frame;
    if sh.entry.cow then Holds(m.pte, sh.src, Cow, f)
    else
      || Holds(m.pte, sh.src, Own, f)
      || (f in m.refs && InTable(m.kind, sh.src) && (sh.src in m.pte ==> UseOf(sh.src, m.pte[sh.src]) == Opaque))
  }

  /** The condition when nothing comes between the count and the stores. */
  lemma FitsAtCount(m: Mem, sh: Share)
    requires Inv(m) && Loadable(m, sh)
    ensures FitsNow(JustCounted(m, sh, OwnerAfter(m.owner, sh)), sh) <==> StillFits(m, sh)
  {
    hide InTable;
    var f := sh.entry.frame;
    if f in m.refs {
      OwnNotShared(m, f);
    } else if f in m.kind && m.kind[f] == Page {
      PageOwned(m, f);
    }
  }

  /** So a share whose count and stores follow each other may finish with what it loaded if and only if
      the source still fits when it is counted. */
  lemma StaleShareIff(m: Mem, sh: Share)
    requires Inv(m) && Loadable(m, sh)
    ensures (exists owner :: Inv(Finished(m, sh, owner))) <==> StillFits(m, sh)
  {
    hide Inv, StillFits, FitsNow, Pending;
    var m1 := JustCounted(m, sh, OwnerAfter(m.owner, sh));
    var n := CountPending(m, sh);
    CountedShareIff(m1, n, sh);
    FitsAtCount(m, sh);
    assert forall owner :: Overwritten(m1, sh, owner) == Finished(m, sh, owner);
  }
}
