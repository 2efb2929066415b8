/** The atomic actions that fork, copy-on-write faults, kernel copy-out, mmap, munmap and
    teardown are made of, and the proof that each keeps the memory invariant. */
module CowSteps {
  import opened Common
  import opened Paging

  datatype Action =
    | NewTable(table: Frame, level: nat)          // a zeroed frame becomes an empty table
    | LinkChild(at: Slot, entry: Entry)           // a parent entry is pointed at a finished child
    | MapFresh(at: Slot, entry: Entry, content: seq<Byte>)  // a fresh page behind a private entry
    | MapDma(at: Slot, entry: Entry)              // a device buffer page, with its map reference
    | CopyOpaque(at: Slot, entry: Entry)          // an entry that owns nothing is copied as it is
    | ShareCow(src: Slot, dst: Slot)              // fork, uninterrupted: count the page, mark both entries COW
    | Drop(at: Slot)                              // an entry is given up, with what it alone owns
    | Settle(frame: Frame)                        // an owed decrement: cow_ref_sub, dealloc at zero
    | FreeTable(table: Frame)                     // an emptied table goes back to the allocator
    | Promote(at: Slot)                           // COW with count at most 1 becomes writable
    | BreakCopy(at: Slot, copy: Frame)           // COW with more holders is copied, decrement owed
    | Store(at: Slot, offset: nat, data: seq<Byte>)  // a write through a writable entry
    | Protect(at: Slot, writable: bool, nx: bool) // mprotect of one leaf entry

  ghost predicate InTable(kind: map<Frame, Cell>, at: Slot) {
    && at.table in kind && kind[at.table] == Table(at.level)
    && 1 <= at.level <= LEVELS && at.index < Width(at.level)
  }

  /** What the code has established when it takes the action. */
  ghost predicate Enabled(m: Mem, a: Action) {
    match a
    case NewTable(t, level) => t in m.free && 1 <= level <= LEVELS
    case LinkChild(at, e) =>
      && InTable(m.kind, at) && at !in m.pte && UseOf(at, e) == Link
      && e.frame in m.kind && m.kind[e.frame] == Table(at.level - 1) && e.frame !in m.owner
    case MapFresh(at, e, content) =>
      && InTable(m.kind, at) && at !in m.pte && UseOf(at, e) == Own
      && e.frame in m.free && |content| == PAGE_SIZE
    case MapDma(at, e) =>
      InTable(m.kind, at) && at !in m.pte && UseOf(at, e) == Dma && e.frame in m.foreign && !e.cow
    case CopyOpaque(at, e) =>
      InTable(m.kind, at) && at !in m.pte && at.level == 1 && UseOf(at, e) == Opaque
    case ShareCow(src, dst) =>
      && src in m.pte && IsPage(UseOf(src, m.pte[src])) && (m.pte[src].writable || m.pte[src].cow)
      && InTable(m.kind, dst) && dst !in m.pte && dst.level == 1
    case Drop(at) => at in m.pte
    case Settle(f) => f in m.credit
    case FreeTable(t) =>
      && t in m.kind && m.kind[t].Table? && t !in m.owner
      && forall at | at in m.pte :: at.table != t
    case Promote(at) =>
      at in m.pte && UseOf(at, m.pte[at]) == Cow && Count(m.refs, m.pte[at].frame) <= 1
    case BreakCopy(at, g) =>
      at in m.pte && UseOf(at, m.pte[at]) == Cow && g in m.free
    case Store(at, offset, data) =>
      && at in m.pte && at.level == 1 && m.pte[at].writable
      && offset + |data| <= |Content(m, m.pte[at].frame)|
    case Protect(at, w, nx) =>
      at in m.pte && at.level == 1 && (m.pte[at].cow ==> !w)
  }

  function Splice(page: seq<Byte>, offset: nat, data: seq<Byte>): seq<Byte>
    requires offset + |data| <= |page|
  {
    page[..offset] + data + page[offset + |data|..]
  }

  function CowEntry(e: Entry): Entry { e.(writable := false, cow := true) }

  function WritableEntry(e: Entry, f: Frame): Entry { e.(frame := f, writable := true, cow := false) }

  /** munmap, teardown: drop the entry and whatever it was the only name of. */
  function AfterDrop(m: Mem, at: Slot): Mem
    requires at in m.pte
  {
    var f, u := m.pte[at].frame, UseOf(at, m.pte[at]);
    m.(pte := m.pte - {at},
       owner := if IsSole(u) then m.owner - {f} else m.owner,
       kind := if u == Own then m.kind - {f} else m.kind,
       free := if u == Own then m.free + {f} else m.free,
       credit := if u == Cow then m.credit + multiset{f} else m.credit,
       dma := if u == Dma then m.dma - multiset{f} else m.dma)
  }

  /** cow_ref_sub for an owed decrement, and the dealloc when the count reaches zero. */
  function AfterSettle(m: Mem, f: Frame): Mem {
    var n := Count(m.refs, f);
    m.(credit := m.credit - multiset{f},
       refs := if n <= 1 then m.refs - {f} else m.refs[f := n - 1],
       kind := if n <= 1 then m.kind - {f} else m.kind,
       free := if n <= 1 then m.free + {f} else m.free)
  }

  function AfterShare(m: Mem, src: Slot, dst: Slot): Mem
    requires src in m.pte
  {
    var e := m.pte[src];
    m.(pte := m.pte[src := CowEntry(e)][dst := CowEntry(e)],
       refs := m.refs[e.frame := Count(m.refs, e.frame) + if e.cow then 1 else 2],
       owner := if e.cow then m.owner else m.owner - {e.frame})
  }

  function AfterBreak(m: Mem, at: Slot, g: Frame): Mem
    requires at in m.pte
  {
    m.(free := m.free - {g}, kind := m.kind[g := Page],
       bytes := m.bytes[g := Content(m, m.pte[at].frame)],
       pte := m.pte[at := WritableEntry(m.pte[at], g)], owner := m.owner[g := at],
       credit := m.credit + multiset{m.pte[at].frame})
  }

  function AfterPromote(m: Mem, at: Slot): Mem
    requires at in m.pte
  {
    var f := m.pte[at].frame;
    m.(refs := m.refs - {f}, pte := m.pte[at := WritableEntry(m.pte[at], f)], owner := m.owner[f := at])
  }

  ghost function Apply(m: Mem, a: Action): Mem
    requires Enabled(m, a)
  {
    match a
    case NewTable(t, level) => m.(free := m.free - {t}, kind := m.kind[t := Table(level)])
    case LinkChild(at, e) => m.(pte := m.pte[at := e], owner := m.owner[e.frame := at])
    case MapFresh(at, e, content) =>
      m.(free := m.free - {e.frame}, kind := m.kind[e.frame := Page],
         bytes := m.bytes[e.frame := content], pte := m.pte[at := e], owner := m.owner[e.frame := at])
    case MapDma(at, e) => m.(pte := m.pte[at := e], dma := m.dma + multiset{e.frame})
    case CopyOpaque(at, e) => m.(pte := m.pte[at := e])
    case ShareCow(src, dst) => AfterShare(m, src, dst)
    case Drop(at) => AfterDrop(m, at)
    case Settle(f) => AfterSettle(m, f)
    case FreeTable(t) => m.(kind := m.kind - {t}, free := m.free + {t})
    case Promote(at) => AfterPromote(m, at)
    case BreakCopy(at, g) => AfterBreak(m, at, g)
    case Store(at, offset, data) =>
      var f := m.pte[at].frame;
      m.(bytes := m.bytes[f := Splice(Content(m, f), offset, data)])
    case Protect(at, w, nx) => m.(pte := m.pte[at := m.pte[at].(writable := w, nx := nx)])
  }

  // ---------------------------------------------------------------- counting

  lemma CardSplit<T>(s: set<T>, x: T)
    ensures |s - {x}| == |s| - (if x in s then 1 else 0)
  {
    if x in s { assert s == (s - {x}) + {x}; } else { assert s - {x} == s; }
  }

  lemma SameElsewhere(pte: map<Slot, Entry>, pte': map<Slot, Entry>, at: Slot, s: Slot)
    requires pte' - {at} == pte - {at} && s != at
    ensures s in pte <==> s in pte'
    ensures s in pte ==> pte'[s] == pte[s]
  {
    assert s in pte <==> s in pte - {at};
    assert s in pte' <==> s in pte' - {at};
    assert s in pte && s in pte' ==> pte[s] == (pte - {at})[s] && pte'[s] == (pte' - {at})[s];
  }

  lemma HoldersElsewhere(pte: map<Slot, Entry>, pte': map<Slot, Entry>, at: Slot, u: Use, f: Frame)
    requires pte' - {at} == pte - {at}
    ensures Holders(pte', u, f) - {at} == Holders(pte, u, f) - {at}
  {
    forall s | s != at ensures Holds(pte, s, u, f) <==> Holds(pte', s, u, f) {
      SameElsewhere(pte, pte', at, s);
    }
  }

  /** Rewriting or erasing one slot moves that slot, and only it, between holder sets. */
  lemma HoldersMove(pte: map<Slot, Entry>, pte': map<Slot, Entry>, at: Slot, u: Use, f: Frame)
    requires pte' - {at} == pte - {at}
    ensures |Holders(pte', u, f)| ==
            |Holders(pte, u, f)| - (if Holds(pte, at, u, f) then 1 else 0) + (if Holds(pte', at, u, f) then 1 else 0)
  {
    var h, h' := Holders(pte, u, f), Holders(pte', u, f);
    HoldersElsewhere(pte, pte', at, u, f);
    assert at in h <==> Holds(pte, at, u, f);
    assert at in h' <==> Holds(pte', at, u, f);
    hide Holders, Holds;
    CardSplit(h, at);
    CardSplit(h', at);
  }

  lemma PutElsewhere(pte: map<Slot, Entry>, at: Slot, e: Entry)
    ensures pte[at := e] - {at} == pte - {at}
  {}

  lemma EraseElsewhere(pte: map<Slot, Entry>, at: Slot)
    ensures (pte - {at}) - {at} == pte - {at}
  {}

  /** A frame outside the reference table has no COW entry and owes nothing. */
  lemma NoHolders(m: Mem, f: Frame)
    requires Inv(m) && f !in m.refs
    ensures Holders(m.pte, Cow, f) == {} && m.credit[f] == 0
  {
    forall at | at in m.pte ensures !Holds(m.pte, at, Cow, f) {
      assert TargetOk(m.kind, m.refs, m.foreign, at, m.pte[at]);
    }
    assert f !in m.credit;
  }

  ghost predicate CowAt(pte: map<Slot, Entry>, at: Slot) { at in pte && UseOf(at, pte[at]) == Cow }

  ghost predicate DmaAt(pte: map<Slot, Entry>, at: Slot) { at in pte && UseOf(at, pte[at]) == Dma }

  lemma CountedSame(pte: map<Slot, Entry>, pte': map<Slot, Entry>, at: Slot,
                    refs: map<Frame, nat>, credit: multiset<Frame>)
    requires Counted(pte, refs, credit) && pte' - {at} == pte - {at}
    requires CowAt(pte, at) <==> CowAt(pte', at)
    requires CowAt(pte, at) ==> pte'[at].frame == pte[at].frame
    ensures Counted(pte', refs, credit)
  {
    forall f ensures |Holders(pte', Cow, f)| == |Holders(pte, Cow, f)| {
      HoldersMove(pte, pte', at, Cow, f);
    }
  }

  /** One more COW entry, one more count; a first one starts the count at 1. */
  lemma CountedGain(pte: map<Slot, Entry>, at: Slot, e: Entry,
                    refs: map<Frame, nat>, credit: multiset<Frame>)
    requires Counted(pte, refs, credit) && !CowAt(pte, at) && UseOf(at, e) == Cow
    requires e.frame in refs || (Holders(pte, Cow, e.frame) == {} && credit[e.frame] == 0)
    ensures Counted(pte[at := e], refs[e.frame := Count(refs, e.frame) + 1], credit)
  {
    PutElsewhere(pte, at, e);
    forall f ensures |Holders(pte[at := e], Cow, f)| == |Holders(pte, Cow, f)| + (if f == e.frame then 1 else 0) {
      HoldersMove(pte, pte[at := e], at, Cow, f);
    }
  }

  /** A COW entry is given up before its count is: the decrement is owed. */
  lemma CountedOwe(pte: map<Slot, Entry>, pte': map<Slot, Entry>, at: Slot,
                   refs: map<Frame, nat>, credit: multiset<Frame>)
    requires Counted(pte, refs, credit) && pte' - {at} == pte - {at}
    requires CowAt(pte, at) && !CowAt(pte', at) && pte[at].frame in refs
    ensures Counted(pte', refs, credit + multiset{pte[at].frame})
  {
    forall f ensures |Holders(pte', Cow, f)| == |Holders(pte, Cow, f)| - (if f == pte[at].frame then 1 else 0) {
      HoldersMove(pte, pte', at, Cow, f);
    }
  }

  lemma CountedForget(pte: map<Slot, Entry>, at: Slot, e: Entry,
                      refs: map<Frame, nat>, credit: multiset<Frame>)
    requires Counted(pte, refs, credit) && CowAt(pte, at) && UseOf(at, e) != Cow
    requires credit[pte[at].frame] == 0
    ensures Counted(pte[at := e], refs - {pte[at].frame}, credit)
  {
    PutElsewhere(pte, at, e);
    forall f | f != pte[at].frame ensures |Holders(pte[at := e], Cow, f)| == |Holders(pte, Cow, f)| {
      HoldersMove(pte, pte[at := e], at, Cow, f);
    }
  }

  lemma CountedSettle(pte: map<Slot, Entry>, refs: map<Frame, nat>, credit: multiset<Frame>, f: Frame)
    requires Counted(pte, refs, credit) && f in credit
    requires refs[f] > 1
    ensures Counted(pte, refs[f := refs[f] - 1], credit - multiset{f})
  {}

  lemma CountedSettleLast(pte: map<Slot, Entry>, refs: map<Frame, nat>, credit: multiset<Frame>, f: Frame)
    requires Counted(pte, refs, credit) && f in credit && refs[f] <= 1
    ensures Holders(pte, Cow, f) == {} && Counted(pte, refs - {f}, credit - multiset{f})
  {
    assert refs[f] == |Holders(pte, Cow, f)| + credit[f];
  }

  lemma DmaSame(pte: map<Slot, Entry>, pte': map<Slot, Entry>, at: Slot, dma: multiset<Frame>)
    requires DmaCounted(pte, dma) && pte' - {at} == pte - {at}
    requires DmaAt(pte, at) <==> DmaAt(pte', at)
    requires DmaAt(pte, at) ==> pte'[at].frame == pte[at].frame
    ensures DmaCounted(pte', dma)
  {
    forall f ensures |Holders(pte', Dma, f)| == |Holders(pte, Dma, f)| {
      HoldersMove(pte, pte', at, Dma, f);
    }
  }

  lemma DmaGain(pte: map<Slot, Entry>, at: Slot, e: Entry, dma: multiset<Frame>)
    requires DmaCounted(pte, dma) && !DmaAt(pte, at) && UseOf(at, e) == Dma
    ensures DmaCounted(pte[at := e], dma + multiset{e.frame})
  {
    PutElsewhere(pte, at, e);
    forall f ensures |Holders(pte[at := e], Dma, f)| == |Holders(pte, Dma, f)| + (if f == e.frame then 1 else 0) {
      HoldersMove(pte, pte[at := e], at, Dma, f);
    }
  }

  lemma DmaLose(pte: map<Slot, Entry>, at: Slot, dma: multiset<Frame>)
    requires DmaCounted(pte, dma) && DmaAt(pte, at)
    ensures DmaCounted(pte - {at}, dma - multiset{pte[at].frame})
  {
    EraseElsewhere(pte, at);
    forall f ensures |Holders(pte - {at}, Dma, f)| == |Holders(pte, Dma, f)| - (if f == pte[at].frame then 1 else 0) {
      HoldersMove(pte, pte - {at}, at, Dma, f);
    }
  }

  /** An edit that changes neither kind of counted entry. */
  lemma CountsSame(m: Mem, pte': map<Slot, Entry>, at: Slot)
    requires Inv(m) && pte' - {at} == m.pte - {at}
    requires (CowAt(m.pte, at) <==> CowAt(pte', at)) && (DmaAt(m.pte, at) <==> DmaAt(pte', at))
    requires (CowAt(m.pte, at) || DmaAt(m.pte, at)) ==> pte'[at].frame == m.pte[at].frame
    ensures Counted(pte', m.refs, m.credit) && DmaCounted(pte', m.dma)
  {
    CountedSame(m.pte, pte', at, m.refs, m.credit);
    DmaSame(m.pte, pte', at, m.dma);
  }

  // ---------------------------------------------------------------- one clause, one edit

  lemma TargetsPut(pte: map<Slot, Entry>, at: Slot, e: Entry,
                   kind: map<Frame, Cell>, refs: map<Frame, nat>, foreign: set<Frame>)
    requires Targets(pte, kind, refs, foreign) && TargetOk(kind, refs, foreign, at, e)
    ensures Targets(pte[at := e], kind, refs, foreign)
  {}

  lemma TargetsErase(pte: map<Slot, Entry>, at: Slot,
                     kind: map<Frame, Cell>, refs: map<Frame, nat>, foreign: set<Frame>)
    requires Targets(pte, kind, refs, foreign)
    ensures Targets(pte - {at}, kind, refs, foreign)
  {}

  lemma TargetsKindAdd(pte: map<Slot, Entry>, kind: map<Frame, Cell>, f: Frame, c: Cell,
                       refs: map<Frame, nat>, foreign: set<Frame>)
    requires Targets(pte, kind, refs, foreign) && f !in kind
    ensures Targets(pte, kind[f := c], refs, foreign)
  {
    forall at | at in pte ensures TargetOk(kind[f := c], refs, foreign, at, pte[at]) {
      assert TargetOk(kind, refs, foreign, at, pte[at]);
    }
  }

  lemma TargetsKindDrop(pte: map<Slot, Entry>, kind: map<Frame, Cell>, f: Frame,
                        refs: map<Frame, nat>, foreign: set<Frame>)
    requires Targets(pte, kind, refs, foreign)
    requires forall at | at in pte && IsSole(UseOf(at, pte[at])) :: pte[at].frame != f
    ensures Targets(pte, kind - {f}, refs, foreign)
  {
    forall at | at in pte ensures TargetOk(kind - {f}, refs, foreign, at, pte[at]) {
      assert TargetOk(kind, refs, foreign, at, pte[at]);
    }
  }

  lemma TargetsRefs(pte: map<Slot, Entry>, kind: map<Frame, Cell>,
                    refs: map<Frame, nat>, refs': map<Frame, nat>, f: Frame, foreign: set<Frame>)
    requires Targets(pte, kind, refs, foreign)
    requires forall g | g != f :: g in refs' <==> g in refs
    requires forall at | at in pte && pte[at].frame == f ::
               && (UseOf(at, pte[at]) == Own ==> f !in refs')
               && (UseOf(at, pte[at]) == Cow ==> f in refs')
    ensures Targets(pte, kind, refs', foreign)
  {
    forall at | at in pte ensures TargetOk(kind, refs', foreign, at, pte[at]) {
      assert TargetOk(kind, refs, foreign, at, pte[at]);
    }
  }

  ghost predicate SoleAt(pte: map<Slot, Entry>, at: Slot) {
    at in pte && IsSole(UseOf(at, pte[at]))
  }

  lemma OwnerPutSole(pte: map<Slot, Entry>, owner: map<Frame, Slot>, at: Slot, e: Entry)
    requires OwnerInverse(pte, owner) && !SoleAt(pte, at)
    requires IsSole(UseOf(at, e)) && e.frame !in owner
    ensures OwnerInverse(pte[at := e], owner[e.frame := at])
  {}

  lemma OwnerPutPlain(pte: map<Slot, Entry>, owner: map<Frame, Slot>, at: Slot, e: Entry)
    requires OwnerInverse(pte, owner) && !SoleAt(pte, at) && !IsSole(UseOf(at, e))
    ensures OwnerInverse(pte[at := e], owner)
  {}

  lemma OwnerGiveUp(pte: map<Slot, Entry>, owner: map<Frame, Slot>, at: Slot, e: Entry)
    requires OwnerInverse(pte, owner) && SoleAt(pte, at) && !IsSole(UseOf(at, e))
    ensures OwnerInverse(pte[at := e], owner - {pte[at].frame})
  {
    var f := pte[at].frame;
    assert owner[f] == at;
    forall s | s in pte && s != at && SoleAt(pte, s) ensures pte[s].frame != f {
      assert owner[pte[s].frame] == s;
    }
  }

  lemma OwnerErasePlain(pte: map<Slot, Entry>, owner: map<Frame, Slot>, at: Slot)
    requires OwnerInverse(pte, owner) && !SoleAt(pte, at)
    ensures OwnerInverse(pte - {at}, owner)
  {}

  lemma OwnerEraseSole(pte: map<Slot, Entry>, owner: map<Frame, Slot>, at: Slot)
    requires OwnerInverse(pte, owner) && SoleAt(pte, at)
    ensures OwnerInverse(pte - {at}, owner - {pte[at].frame})
  {
    var f := pte[at].frame;
    assert owner[f] == at;
    forall s | s in pte && s != at && SoleAt(pte, s) ensures pte[s].frame != f {
      assert owner[pte[s].frame] == s;
    }
  }

  lemma NotNamed(pte: map<Slot, Entry>, owner: map<Frame, Slot>, f: Frame)
    requires OwnerInverse(pte, owner) && f !in owner
    ensures forall at | at in pte && IsSole(UseOf(at, pte[at])) :: pte[at].frame != f
  {}

  lemma FramesTake(free: set<Frame>, kind: map<Frame, Cell>, foreign: set<Frame>, bytes: map<Frame, seq<Byte>>,
                   f: Frame, content: seq<Byte>)
    requires FramesOk(free, kind, foreign, bytes) && f in free && |content| == PAGE_SIZE
    ensures FramesOk(free - {f}, kind[f := Page], foreign, bytes[f := content])
  {}

  lemma FramesGive(free: set<Frame>, kind: map<Frame, Cell>, foreign: set<Frame>, bytes: map<Frame, seq<Byte>>,
                   f: Frame)
    requires FramesOk(free, kind, foreign, bytes) && f in kind
    ensures FramesOk(free + {f}, kind - {f}, foreign, bytes)
  {}

  // ---------------------------------------------------------------- consequences of Inv

  lemma HasTarget(m: Mem, at: Slot)
    requires Inv(m) && at in m.pte
    ensures TargetOk(m.kind, m.refs, m.foreign, at, m.pte[at])
  {}

  lemma OwnerTarget(m: Mem, f: Frame)
    requires Inv(m) && f in m.owner
    ensures f in m.kind && f !in m.refs && m.owner[f] in m.pte
  {
    HasTarget(m, m.owner[f]);
  }

  /** A frame the allocator still holds is named by nothing. */
  lemma FreshUnnamed(m: Mem, f: Frame)
    requires Inv(m) && f in m.free
    ensures f !in m.owner && f !in m.refs && f !in m.kind
  {
    if f in m.owner { OwnerTarget(m, f); }
  }

  /** A counted page has no private entry, so it has no owner. */
  lemma RefsUnowned(m: Mem, f: Frame)
    requires Inv(m) && f in m.refs
    ensures f !in m.owner
  {
    if f in m.owner { OwnerTarget(m, f); }
  }

  lemma OwnNotShared(m: Mem, f: Frame)
    requires Inv(m) && f in m.refs
    ensures forall at | at in m.pte && m.pte[at].frame == f :: UseOf(at, m.pte[at]) != Own
  {
    forall at | at in m.pte && m.pte[at].frame == f ensures UseOf(at, m.pte[at]) != Own { HasTarget(m, at); }
  }

  lemma OnlyOwnName(m: Mem, src: Slot)
    requires Inv(m) && src in m.pte && UseOf(src, m.pte[src]) == Own
    ensures m.pte[src].frame !in m.refs && m.pte[src].frame in m.owner && m.owner[m.pte[src].frame] == src
    ensures forall at | at in m.pte && at != src && IsPage(UseOf(at, m.pte[at])) ::
              m.pte[at].frame != m.pte[src].frame
  {
    HasTarget(m, src);
    forall at | at in m.pte && at != src && IsPage(UseOf(at, m.pte[at]))
      ensures m.pte[at].frame != m.pte[src].frame
    {
      HasTarget(m, at);
    }
  }

  /** A count of at most 1 means sole ownership: no other entry names the frame, none is owed. */
  lemma SoleHolder(m: Mem, at: Slot)
    requires Inv(m) && CowAt(m.pte, at)
    requires Count(m.refs, m.pte[at].frame) <= 1
    ensures m.pte[at].frame in m.refs && m.credit[m.pte[at].frame] == 0
    ensures Holders(m.pte, Cow, m.pte[at].frame) == {at}
    ensures forall s | s in m.pte && s != at && IsPage(UseOf(s, m.pte[s])) ::
              m.pte[s].frame != m.pte[at].frame
  {
    var f := m.pte[at].frame;
    var h := Holders(m.pte, Cow, f);
    assert at in h;
    HasTarget(m, at);
    CardSplit(h, at);
    assert h - {at} == {};
    OwnNotShared(m, f);
    forall s | s in m.pte && s != at && IsPage(UseOf(s, m.pte[s])) ensures m.pte[s].frame != f {
      assert s !in h;
    }
  }

  // ---------------------------------------------------------------- every action keeps Inv

  lemma NewTableInv(m: Mem, t: Frame, level: nat)
    requires Inv(m) && Enabled(m, NewTable(t, level))
    ensures Inv(Apply(m, NewTable(t, level)))
  {
    TargetsKindAdd(m.pte, m.kind, t, Table(level), m.refs, m.foreign);
  }

  lemma LinkChildInv(m: Mem, at: Slot, e: Entry)
    requires Inv(m) && Enabled(m, LinkChild(at, e))
    ensures Inv(Apply(m, LinkChild(at, e)))
  {
    hide Targets, OwnerInverse, Counted, DmaCounted;
    PutElsewhere(m.pte, at, e);
    TargetsPut(m.pte, at, e, m.kind, m.refs, m.foreign);
    OwnerPutSole(m.pte, m.owner, at, e);
    CountsSame(m, m.pte[at := e], at);
  }

  lemma MapFreshInv(m: Mem, at: Slot, e: Entry, content: seq<Byte>)
    requires Inv(m) && Enabled(m, MapFresh(at, e, content))
    ensures Inv(Apply(m, MapFresh(at, e, content)))
  {
    hide Targets, OwnerInverse, Counted, DmaCounted;
    PutElsewhere(m.pte, at, e);
    FreshUnnamed(m, e.frame);
    TargetsKindAdd(m.pte, m.kind, e.frame, Page, m.refs, m.foreign);
    TargetsPut(m.pte, at, e, m.kind[e.frame := Page], m.refs, m.foreign);
    OwnerPutSole(m.pte, m.owner, at, e);
    CountsSame(m, m.pte[at := e], at);
    FramesTake(m.free, m.kind, m.foreign, m.bytes, e.frame, content);
  }

  lemma MapDmaInv(m: Mem, at: Slot, e: Entry)
    requires Inv(m) && Enabled(m, MapDma(at, e))
    ensures Inv(Apply(m, MapDma(at, e)))
  {
    hide Targets, OwnerInverse, Counted, DmaCounted;
    PutElsewhere(m.pte, at, e);
    TargetsPut(m.pte, at, e, m.kind, m.refs, m.foreign);
    OwnerPutPlain(m.pte, m.owner, at, e);
    CountedSame(m.pte, m.pte[at := e], at, m.refs, m.credit);
    DmaGain(m.pte, at, e, m.dma);
  }

  lemma CopyOpaqueInv(m: Mem, at: Slot, e: Entry)
    requires Inv(m) && Enabled(m, CopyOpaque(at, e))
    ensures Inv(Apply(m, CopyOpaque(at, e)))
  {
    hide Targets, OwnerInverse, Counted, DmaCounted;
    PutElsewhere(m.pte, at, e);
    TargetsPut(m.pte, at, e, m.kind, m.refs, m.foreign);
    OwnerPutPlain(m.pte, m.owner, at, e);
    CountsSame(m, m.pte[at := e], at);
  }

  /** A private writable page becomes a COW page with one holder. */
  function Downgraded(m: Mem, src: Slot): Mem
    requires src in m.pte
  {
    var e := m.pte[src];
    m.(pte := m.pte[src := CowEntry(e)], refs := m.refs[e.frame := 1], owner := m.owner - {e.frame})
  }

  lemma DowngradeInv(m: Mem, src: Slot)
    requires Inv(m) && src in m.pte && UseOf(src, m.pte[src]) == Own
    ensures Inv(Downgraded(m, src))
  {
    hide Targets, OwnerInverse, Counted, DmaCounted;
    var e := m.pte[src];
    var m' := Downgraded(m, src);
    HasTarget(m, src);
    OnlyOwnName(m, src);
    NoHolders(m, e.frame);
    PutElsewhere(m.pte, src, CowEntry(e));
    TargetsErase(m.pte, src, m.kind, m.refs, m.foreign);
    TargetsRefs(m.pte - {src}, m.kind, m.refs, m'.refs, e.frame, m.foreign);
    TargetsPut(m.pte - {src}, src, CowEntry(e), m.kind, m'.refs, m.foreign);
    assert (m.pte - {src})[src := CowEntry(e)] == m'.pte;
    OwnerGiveUp(m.pte, m.owner, src, CowEntry(e));
    CountedGain(m.pte, src, CowEntry(e), m.refs, m.credit);
    DmaSame(m.pte, m'.pte, src, m.dma);
  }

  /** One more COW entry for a page already shared. */
  function Joined(m: Mem, dst: Slot, e: Entry): Mem {
    m.(pte := m.pte[dst := e], refs := m.refs[e.frame := Count(m.refs, e.frame) + 1])
  }

  lemma JoinInv(m: Mem, dst: Slot, e: Entry)
    requires Inv(m) && InTable(m.kind, dst) && dst !in m.pte && UseOf(dst, e) == Cow
    requires e.frame in m.refs && !e.writable
    ensures Inv(Joined(m, dst, e))
  {
    hide Targets, OwnerInverse, Counted, DmaCounted;
    var m' := Joined(m, dst, e);
    PutElsewhere(m.pte, dst, e);
    RefsChange(m, e.frame, m.refs[e.frame] + 1);
    TargetsPut(m.pte, dst, e, m.kind, m'.refs, m.foreign);
    OwnerPutPlain(m.pte, m.owner, dst, e);
    CountedGain(m.pte, dst, e, m.refs, m.credit);
    DmaSame(m.pte, m.pte[dst := e], dst, m.dma);
  }

  lemma ShareSplits(m: Mem, src: Slot, dst: Slot)
    requires src in m.pte && src != dst
    ensures !m.pte[src].cow && m.pte[src].frame !in m.refs ==>
              AfterShare(m, src, dst) == Joined(Downgraded(m, src), dst, CowEntry(m.pte[src]))
    ensures m.pte[src].cow && !m.pte[src].writable ==>
              AfterShare(m, src, dst) == Joined(m, dst, CowEntry(m.pte[src]))
  {
    if m.pte[src].cow && !m.pte[src].writable {
      assert CowEntry(m.pte[src]) == m.pte[src] && m.pte[src := m.pte[src]] == m.pte;
    }
  }

  lemma ShareCowInv(m: Mem, src: Slot, dst: Slot)
    requires Inv(m) && Enabled(m, ShareCow(src, dst))
    ensures Inv(Apply(m, ShareCow(src, dst)))
  {
    hide Targets, OwnerInverse, Counted, DmaCounted;
    HasTarget(m, src);
    ShareSplits(m, src, dst);
    if UseOf(src, m.pte[src]) == Cow {
      JoinInv(m, dst, CowEntry(m.pte[src]));
    } else {
      DowngradeInv(m, src);
      JoinInv(Downgraded(m, src), dst, CowEntry(m.pte[src]));
    }
  }

  lemma DropSoleInv(m: Mem, at: Slot)
    requires Inv(m) && SoleAt(m.pte, at)
    ensures Inv(AfterDrop(m, at))
  {
    hide Targets, OwnerInverse, Counted, DmaCounted;
    var f := m.pte[at].frame;
    var m' := AfterDrop(m, at);
    EraseElsewhere(m.pte, at);
    HasTarget(m, at);
    TargetsErase(m.pte, at, m.kind, m.refs, m.foreign);
    OwnerEraseSole(m.pte, m.owner, at);
    CountsSame(m, m'.pte, at);
    if UseOf(at, m.pte[at]) == Own {
      NotNamed(m'.pte, m'.owner, f);
      TargetsKindDrop(m'.pte, m.kind, f, m.refs, m.foreign);
      FramesGive(m.free, m.kind, m.foreign, m.bytes, f);
      SlotsKindDrop(m'.pte, m.kind, f);
    }
  }

  lemma DropPlainInv(m: Mem, at: Slot)
    requires Inv(m) && at in m.pte && !SoleAt(m.pte, at)
    ensures Inv(AfterDrop(m, at))
  {
    hide Targets, OwnerInverse, Counted, DmaCounted;
    var m' := AfterDrop(m, at);
    EraseElsewhere(m.pte, at);
    HasTarget(m, at);
    TargetsErase(m.pte, at, m.kind, m.refs, m.foreign);
    OwnerErasePlain(m.pte, m.owner, at);
    if CowAt(m.pte, at) {
      CountedOwe(m.pte, m'.pte, at, m.refs, m.credit);
      DmaSame(m.pte, m'.pte, at, m.dma);
    } else if DmaAt(m.pte, at) {
      CountedSame(m.pte, m'.pte, at, m.refs, m.credit);
      DmaLose(m.pte, at, m.dma);
    } else {
      CountsSame(m, m'.pte, at);
    }
  }

  lemma SettleLastInv(m: Mem, f: Frame)
    requires Inv(m) && f in m.credit && Count(m.refs, f) <= 1
    ensures Inv(AfterSettle(m, f))
  {
    hide Targets, OwnerInverse, DmaCounted;
    var refs' := m.refs - {f};
    CountedSettleLast(m.pte, m.refs, m.credit, f);
    OwnNotShared(m, f);
    forall at | at in m.pte ensures !Holds(m.pte, at, Cow, f) {
      assert at !in Holders(m.pte, Cow, f);
    }
    RefsUnowned(m, f);
    NotNamed(m.pte, m.owner, f);
    TargetsRefs(m.pte, m.kind, m.refs, refs', f, m.foreign);
    TargetsKindDrop(m.pte, m.kind, f, refs', m.foreign);
    FramesGive(m.free, m.kind, m.foreign, m.bytes, f);
    SlotsKindDrop(m.pte, m.kind, f);
  }

  lemma PagesRefs(kind: map<Frame, Cell>, owner: map<Frame, Slot>, refs: map<Frame, nat>, f: Frame, n: nat)
    requires PagesKept(kind, owner, refs) && f in refs
    ensures PagesKept(kind, owner, refs[f := n])
  {}

  lemma SlotsKindDrop(pte: map<Slot, Entry>, kind: map<Frame, Cell>, f: Frame)
    requires SlotsInTables(pte, kind) && (f in kind ==> kind[f] == Page)
    ensures SlotsInTables(pte, kind - {f})
  {}

  lemma RefsChange(m: Mem, f: Frame, n: nat)
    requires Inv(m) && f in m.refs
    ensures Targets(m.pte, m.kind, m.refs[f := n], m.foreign) && PagesKept(m.kind, m.owner, m.refs[f := n])
  {
    OwnNotShared(m, f);
    TargetsRefs(m.pte, m.kind, m.refs, m.refs[f := n], f, m.foreign);
    PagesRefs(m.kind, m.owner, m.refs, f, n);
  }

  lemma SettleLessInv(m: Mem, f: Frame)
    requires Inv(m) && f in m.credit && Count(m.refs, f) > 1
    ensures Inv(AfterSettle(m, f))
  {
    hide Targets, OwnerInverse, DmaCounted;
    CountedSettle(m.pte, m.refs, m.credit, f);
    RefsChange(m, f, m.refs[f] - 1);
  }

  lemma FreeTableInv(m: Mem, t: Frame)
    requires Inv(m) && Enabled(m, FreeTable(t))
    ensures Inv(Apply(m, FreeTable(t)))
  {
    hide Targets, OwnerInverse, Counted, DmaCounted;
    NotNamed(m.pte, m.owner, t);
    TargetsKindDrop(m.pte, m.kind, t, m.refs, m.foreign);
  }

  lemma PromoteInv(m: Mem, at: Slot)
    requires Inv(m) && Enabled(m, Promote(at))
    ensures Inv(Apply(m, Promote(at)))
  {
    hide Targets, OwnerInverse, Counted, DmaCounted;
    var f := m.pte[at].frame;
    var e := WritableEntry(m.pte[at], f);
    var m' := AfterPromote(m, at);
    SoleHolder(m, at);
    RefsUnowned(m, f);
    PutElsewhere(m.pte, at, e);
    TargetsErase(m.pte, at, m.kind, m.refs, m.foreign);
    TargetsRefs(m.pte - {at}, m.kind, m.refs, m'.refs, f, m.foreign);
    TargetsPut(m.pte - {at}, at, e, m.kind, m'.refs, m.foreign);
    assert (m.pte - {at})[at := e] == m'.pte;
    OwnerPutSole(m.pte, m.owner, at, e);
    CountedForget(m.pte, at, e, m.refs, m.credit);
    DmaSame(m.pte, m'.pte, at, m.dma);
  }

  /** Breaking COW is giving the shared page up and mapping a private copy in its place. */
  lemma BreakSplits(m: Mem, at: Slot, g: Frame)
    requires CowAt(m.pte, at)
    ensures var m1 := AfterDrop(m, at);
            AfterBreak(m, at, g) ==
            m1.(free := m1.free - {g}, kind := m1.kind[g := Page],
                bytes := m1.bytes[g := Content(m, m.pte[at].frame)],
                pte := m1.pte[at := WritableEntry(m.pte[at], g)], owner := m1.owner[g := at])
  {
    assert (m.pte - {at})[at := WritableEntry(m.pte[at], g)] == m.pte[at := WritableEntry(m.pte[at], g)];
  }

  lemma BreakCopyInv(m: Mem, at: Slot, g: Frame)
    requires Inv(m) && Enabled(m, BreakCopy(at, g))
    ensures Inv(Apply(m, BreakCopy(at, g)))
  {
    hide Targets, OwnerInverse, Counted, DmaCounted;
    HasTarget(m, at);
    BreakSplits(m, at, g);
    DropPlainInv(m, at);
    MapFreshInv(AfterDrop(m, at), at, WritableEntry(m.pte[at], g), Content(m, m.pte[at].frame));
  }

  lemma OwnerSame(pte: map<Slot, Entry>, owner: map<Frame, Slot>, at: Slot, e: Entry)
    requires OwnerInverse(pte, owner) && at in pte
    requires UseOf(at, e) == UseOf(at, pte[at]) && e.frame == pte[at].frame
    ensures OwnerInverse(pte[at := e], owner)
  {}

  lemma ProtectInv(m: Mem, at: Slot, w: bool, nx: bool)
    requires Inv(m) && Enabled(m, Protect(at, w, nx))
    ensures Inv(Apply(m, Protect(at, w, nx)))
  {
    hide Targets, OwnerInverse, Counted, DmaCounted;
    var e := m.pte[at].(writable := w, nx := nx);
    HasTarget(m, at);
    PutElsewhere(m.pte, at, e);
    TargetsPut(m.pte, at, e, m.kind, m.refs, m.foreign);
    OwnerSame(m.pte, m.owner, at, e);
    CountsSame(m, m.pte[at := e], at);
  }

  /** Whatever one atomic action does, in whatever order actions interleave, the counting and
      ownership invariant survives it. */
  lemma ActionInv(m: Mem, a: Action)
    requires Inv(m) && Enabled(m, a)
    ensures Inv(Apply(m, a))
  {
    hide Targets, OwnerInverse, Counted, DmaCounted;
    match a
    case NewTable(t, level) => NewTableInv(m, t, level);
    case LinkChild(at, e) => LinkChildInv(m, at, e);
    case MapFresh(at, e, content) => MapFreshInv(m, at, e, content);
    case MapDma(at, e) => MapDmaInv(m, at, e);
    case CopyOpaque(at, e) => CopyOpaqueInv(m, at, e);
    case ShareCow(src, dst) => ShareCowInv(m, src, dst);
    case Drop(at) => if SoleAt(m.pte, at) { DropSoleInv(m, at); } else { DropPlainInv(m, at); }
    case Settle(f) => if Count(m.refs, f) <= 1 { SettleLastInv(m, f); } else { SettleLessInv(m, f); }
    case FreeTable(t) => FreeTableInv(m, t);
    case Promote(at) => PromoteInv(m, at);
    case BreakCopy(at, g) => BreakCopyInv(m, at, g);
    case Store(at, offset, data) =>
    case Protect(at, w, nx) => ProtectInv(m, at, w, nx);
  }
}
