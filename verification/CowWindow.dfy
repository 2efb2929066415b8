/** The whole window of a clone's share, from its load to its stores, with other CPUs doing anything to
    its source in between: exactly when memory is in order after it. The proof follows a shadow of
    the world that leaves this one share out and so stays in order whatever happens to its source. */
module CowWindow {
  import opened Common
  import opened Paging
  import opened CowSteps
  import opened CowRuns
  import opened CowMachine
  import opened CowShares
  import opened CowLive
  import opened CowStale

  /** A slot that the share of another CPU than `c` has loaded, or has counted and not stored. */
  ghost predicate OthersSlot(w: World, c: Cpu, at: Slot) {
    || (exists d :: d in w.loaded && d != c && w.loaded[d].src == at)
    || (exists d :: d in w.counted && d != c && (w.counted[d].src == at || w.counted[d].dst == at))
    || (exists d :: d in w.half && d != c && w.half[d].dst == at)
  }

  /** The move rewrites no source of a share in flight but possibly that of CPU `c`. */
  ghost predicate CalmBeside(w: World, mv: Move, c: Cpu) {
    match mv
    case Act(_, a) => forall at | at in Writes(a) :: !OthersSlot(w, c, at)
    case Load(_, src, _) => !OthersSlot(w, c, src)
    case _ => true
  }

  /** A stretch of moves of other CPUs than `c`. */
  ghost predicate Beside(ws: seq<World>, mvs: seq<Move>, c: Cpu) {
    && |ws| == |mvs| + 1
    && forall i | 0 <= i < |mvs| ::
      Can(ws[i], mvs[i]) && ws[i + 1] == Go(ws[i], mvs[i]) && mvs[i].cpu != c && CalmBeside(ws[i], mvs[i], c)
  }

  /** Memory with the late stores of all shares but one done. */
  ghost function OthersDone(w: World, sh: Share): Mem { Merged(w.mem, w.late - {sh.src, sh.dst}) }

  // ---------------------------------------------------------------- the shadow

  /** Before the count the shadow is the world without the loaded share. */
  ghost function Unloaded(w: World, c: Cpu): World { w.(loaded := w.loaded - {c}) }

  /** After the count it also books the increments as decrements owed, or leaves them out. */
  ghost predicate Shadow(w: World, v: World, c: Cpu, sh: Share) {
    && c in w.counted && w.counted[c] == sh && c !in w.loaded && c !in w.half
    && v.loaded == w.loaded && v.counted == w.counted - {c} && v.half == w.half
    && v.live == w.live && v.inHand == w.inHand && v.late - {sh.src, sh.dst} == w.late - {sh.src, sh.dst}
    && (Booked(w.mem, v.mem, sh) || Unbooked(w.mem, v.mem, sh))
  }

  /** The destination is empty, in a table that only CPU `c` knows. */
  ghost predicate Awaits(v: World, c: Cpu, dst: Slot) {
    dst !in v.mem.pte && dst.table in v.inHand && v.inHand[dst.table] == c && InTable(v.mem.kind, dst) && dst.level == 1
  }

  lemma CalmInShadow(w: World, v: World, c: Cpu, mv: Move)
    requires Shares(v) && v.loaded == w.loaded - {c} && v.counted == w.counted - {c} && v.half == w.half && c !in w.half
    requires CalmBeside(w, mv, c)
    ensures Calm(v, mv)
  {
    hide AllLoaded, AllCounted, AllHalf, OwnSources, Stages;
    forall at | Source(v, at) ensures OthersSlot(w, c, at) {
      if at in v.late {
        var d := v.due[at];
        assert Owed(v.counted, v.half, d, at);
      }
    }
  }

  // ---------------------------------------------------------------- actions beside it

  lemma BookedEnabled(m: Mem, n: Mem, sh: Share, a: Action)
    requires Booked(m, n, sh) && Enabled(m, a)
    ensures Enabled(n, a)
  {
    hide Increments;
  }

  lemma BookedDrop(m: Mem, n: Mem, sh: Share, at: Slot)
    requires Booked(m, n, sh) && at in m.pte
    ensures Booked(AfterDrop(m, at), AfterDrop(n, at), sh)
  {
    hide Increments;
    CreditPlus(m.credit, m.pte[at].frame, Increments(sh));
  }

  lemma BookedSettle(m: Mem, n: Mem, sh: Share, f: Frame)
    requires Booked(m, n, sh) && f in m.credit
    ensures Booked(AfterSettle(m, f), AfterSettle(n, f), sh)
  {
    hide Increments;
    CreditMinus(m.credit, f, Increments(sh));
  }

  lemma BookedBreak(m: Mem, n: Mem, sh: Share, at: Slot, g: Frame)
    requires Booked(m, n, sh) && at in m.pte
    ensures Booked(AfterBreak(m, at, g), AfterBreak(n, at, g), sh)
  {
    hide Increments;
    CreditPlus(m.credit, m.pte[at].frame, Increments(sh));
  }

  lemma ActBooked(m: Mem, n: Mem, sh: Share, a: Action)
    requires Booked(m, n, sh) && Enabled(m, a) && !a.ShareCow?
    ensures Enabled(n, a) && Booked(Apply(m, a), Apply(n, a), sh)
  {
    hide Increments, InTable;
    BookedEnabled(m, n, sh, a);
    match a
    case Drop(at) => BookedDrop(m, n, sh, at);
    case Settle(f) => BookedSettle(m, n, sh, f);
    case BreakCopy(at, g) => BookedBreak(m, n, sh, at, g);
    case _ =>
  }

  lemma CreditPlus(credit: multiset<Frame>, f: Frame, more: multiset<Frame>)
    ensures (credit + more) + multiset{f} == (credit + multiset{f}) + more
  {}

  lemma CreditMinus(credit: multiset<Frame>, f: Frame, more: multiset<Frame>)
    requires f in credit
    ensures (credit + more) - multiset{f} == (credit - multiset{f}) + more
  {}

  /** Nobody reads the count of a frame that has no COW entry and no decrement owed. */
  ghost predicate Unread(m: Mem, f: Frame) { f !in m.credit && forall at | CowAt(m.pte, at) :: m.pte[at].frame != f }

  lemma RefsPut(refs: map<Frame, nat>, f: Frame, g: Frame, d: nat, k: nat)
    requires f != g
    ensures refs[f := d] - {g} == (refs - {g})[f := d] && refs[f := d][g := k] == refs[g := k][f := d]
  {}

  lemma OwnersPut(owner: map<Frame, Slot>, owner': map<Frame, Slot>, f: Frame, g: Frame, at: Slot)
    requires owner - {f} == owner' - {f}
    ensures owner[g := at] - {f} == owner'[g := at] - {f} && (owner - {g}) - {f} == (owner' - {g}) - {f}
  {
    assert (owner - {g}) - {f} == (owner - {f}) - {g};
    assert (owner' - {g}) - {f} == (owner' - {f}) - {g};
    if g == f {
      assert owner[g := at] - {f} == owner - {f} && owner'[g := at] - {f} == owner' - {f};
    } else {
      assert owner[g := at] - {f} == (owner - {f})[g := at] && owner'[g := at] - {f} == (owner' - {f})[g := at];
    }
  }

  lemma OwnersSame(m: Mem, n: Mem, sh: Share, t: Frame)
    requires Unbooked(m, n, sh) && t in n.kind && n.kind[t].Table?
    ensures t in m.owner <==> t in n.owner
  {
    var f := sh.entry.frame;
    if t != f {
      assert t in m.owner <==> t in m.owner - {f};
      assert t in n.owner <==> t in n.owner - {f};
    }
  }

  lemma UnbookedEnabled(m: Mem, n: Mem, sh: Share, a: Action)
    requires Unbooked(m, n, sh) && Unread(m, sh.entry.frame) && Enabled(m, a) && !a.ShareCow?
    ensures Enabled(n, a)
  {
    match a
    case LinkChild(_, e) => OwnersSame(m, n, sh, e.frame);
    case FreeTable(t) => OwnersSame(m, n, sh, t);
    case Promote(at) => assert CowAt(m.pte, at);
    case _ =>
  }

  lemma UnbookedTables(m: Mem, n: Mem, sh: Share, a: Action)
    requires Unbooked(m, n, sh) && Enabled(m, a) && Enabled(n, a)
    requires a.NewTable? || a.LinkChild? || a.FreeTable? || a.MapFresh? || a.MapDma? || a.CopyOpaque? || a.Store? || a.Protect?
    requires a.NewTable? && a.table == sh.entry.frame ==> a.table !in n.owner
    requires a.FreeTable? ==> a.table !in n.owner
    ensures Unbooked(Apply(m, a), Apply(n, a), sh)
  {
    match a
    case LinkChild(at, e) => OwnersPut(m.owner, n.owner, sh.entry.frame, e.frame, at);
    case MapFresh(at, e, _) => OwnersPut(m.owner, n.owner, sh.entry.frame, e.frame, at);
    case _ =>
  }

  lemma UnbookedDrop(m: Mem, n: Mem, sh: Share, at: Slot)
    requires Unbooked(m, n, sh) && at in m.pte
    requires IsSole(UseOf(at, m.pte[at])) || m.pte[at].frame !in n.owner || UseOf(at, m.pte[at]) != Own
    requires UseOf(at, m.pte[at]) == Link ==> m.pte[at].frame in n.kind && n.kind[m.pte[at].frame].Table?
    ensures Unbooked(AfterDrop(m, at), AfterDrop(n, at), sh)
  {
    OwnersPut(m.owner, n.owner, sh.entry.frame, m.pte[at].frame, at);
  }

  lemma UnbookedCow(m: Mem, n: Mem, sh: Share, a: Action)
    requires Unbooked(m, n, sh) && Unread(m, sh.entry.frame) && Enabled(m, a) && Enabled(n, a)
    requires a.Settle? || a.Promote? || a.BreakCopy?
    requires a.Settle? ==> a.frame !in n.owner
    ensures Unbooked(Apply(m, a), Apply(n, a), sh)
  {
    var f, d := sh.entry.frame, Delta(sh.entry);
    match a
    case Settle(g) => RefsPut(n.refs, f, g, d, Count(n.refs, g) - (if Count(n.refs, g) <= 1 then 0 else 1));
    case Promote(at) =>
      assert CowAt(m.pte, at);
      RefsPut(n.refs, f, m.pte[at].frame, d, 0);
      OwnersPut(m.owner, n.owner, f, m.pte[at].frame, at);
    case BreakCopy(at, g) => OwnersPut(m.owner, n.owner, f, g, at);
  }

  /** A COW entry that is there names a counted page of the shadow too. */
  lemma RealCow(v: World, at: Slot)
    requires Inv(Virtual(v)) && Shares(v) && CowAt(v.mem.pte, at)
    ensures v.mem.pte[at].frame in v.mem.refs
  {
    hide Inv, Shares;
    if at in v.late { LateSlot(v, at); }
    CowTarget(Virtual(v), at);
  }

  lemma CowTarget(m: Mem, at: Slot)
    requires Inv(m) && CowAt(m.pte, at)
    ensures m.pte[at].frame in m.refs
  {
    HasTarget(m, at);
  }

  lemma UnbookedUnread(w: World, v: World, sh: Share)
    requires Inv(Virtual(v)) && Shares(v) && Unbooked(w.mem, v.mem, sh)
    ensures Unread(w.mem, sh.entry.frame)
  {
    hide Shares;
    var f := sh.entry.frame;
    NoHolders(Virtual(v), f);
    forall at | CowAt(w.mem.pte, at) ensures w.mem.pte[at].frame != f { RealCow(v, at); }
  }

  /** What an action of another CPU finds about the owners in the shadow. */
  lemma ActOwners(v: World, d: Cpu, a: Action)
    requires MInv(v) && Can(v, Act(d, a)) && Calm(v, Act(d, a)) && !a.Store?
    ensures a.NewTable? ==> a.table !in v.mem.owner
    ensures a.FreeTable? ==> a.table !in v.mem.owner
    ensures a.Settle? ==> a.frame !in v.mem.owner
    ensures a.Drop? && UseOf(a.at, v.mem.pte[a.at]) == Link ==> v.mem.pte[a.at].frame in v.mem.kind && v.mem.kind[v.mem.pte[a.at].frame].Table?
  {
    hide Inv, Shares, Books, Calm, Handy, Apply;
    ActVirtual(v, d, a);
    var n := Virtual(v);
    if a.NewTable? { FreshUnnamed(n, a.table); }
    if a.Settle? { OwedIsPage(n, a.frame); RefsUnowned(n, a.frame); }
    if a.Drop? {
      DropNotLate(v, d, a);
      if UseOf(a.at, n.pte[a.at]) == Link { LinkTarget(n, a.at); }
    }
  }

  lemma ActUnbooked(w: World, v: World, sh: Share, d: Cpu, a: Action)
    requires MInv(v) && Unbooked(w.mem, v.mem, sh) && Enabled(w.mem, a) && Can(v, Act(d, a)) && Calm(v, Act(d, a))
    ensures Unbooked(Apply(w.mem, a), Apply(v.mem, a), sh)
  {
    hide Inv, Shares, Books, Calm, Handy, Unbooked, Enabled, Apply, Unread;
    UnbookedUnread(w, v, sh);
    if a.Store? { UnbookedTables(w.mem, v.mem, sh, a); return; }
    ActOwners(v, d, a);
    if a.Drop? {
      DropIs(w.mem, a.at);
      DropIs(v.mem, a.at);
      UnbookedDrops(w, v, sh, a.at);
    } else if a.Settle? || a.Promote? || a.BreakCopy? {
      UnbookedCow(w.mem, v.mem, sh, a);
    } else {
      UnbookedTables(w.mem, v.mem, sh, a);
    }
  }

  lemma DropIs(m: Mem, at: Slot)
    requires Enabled(m, Drop(at))
    ensures at in m.pte && Apply(m, Drop(at)) == AfterDrop(m, at)
  {}

  lemma UnbookedDrops(w: World, v: World, sh: Share, at: Slot)
    requires Unbooked(w.mem, v.mem, sh) && at in w.mem.pte
    requires at in v.mem.pte && UseOf(at, v.mem.pte[at]) == Link ==> v.mem.pte[at].frame in v.mem.kind && v.mem.kind[v.mem.pte[at].frame].Table?
    ensures at in v.mem.pte && Unbooked(AfterDrop(w.mem, at), AfterDrop(v.mem, at), sh)
  {
    UnbookedDrop(w.mem, v.mem, sh, at);
  }

  /** An action of another CPU does to the shadow what it does to the world. */
  lemma ShadowAct(w: World, v: World, c: Cpu, sh: Share, d: Cpu, a: Action)
    requires MInv(v) && Shadow(w, v, c, sh) && Can(w, Act(d, a)) && d != c && Calm(v, Act(d, a))
    ensures Can(v, Act(d, a)) && Shadow(Go(w, Act(d, a)), Go(v, Act(d, a)), c, sh)
  {
    hide Inv, Shares, Books, Calm, Booked, Unbooked, Enabled, Apply, Unread;
    if Booked(w.mem, v.mem, sh) {
      ActBooked(w.mem, v.mem, sh, a);
    } else {
      UnbookedUnread(w, v, sh);
      UnbookedEnabled(w.mem, v.mem, sh, a);
    }
    SamePte(w.mem, v.mem, sh);
    assert Can(v, Act(d, a));
    if !Booked(w.mem, v.mem, sh) { ActUnbooked(w, v, sh, d, a); }
  }

  lemma SamePte(m: Mem, n: Mem, sh: Share)
    requires Booked(m, n, sh) || Unbooked(m, n, sh)
    ensures m.pte == n.pte && m.kind == n.kind
  {}

  // ---------------------------------------------------------------- shares beside it

  lemma LatePut(late: map<Slot, Entry>, late': map<Slot, Entry>, s: set<Slot>, at: Slot, e: Entry)
    requires late - s == late' - s
    ensures late[at := e] - s == late'[at := e] - s && (late - {at}) - s == (late' - {at}) - s
  {
    assert (late - {at}) - s == (late - s) - {at} && (late' - {at}) - s == (late' - s) - {at};
    if at in s {
      assert late[at := e] - s == late - s && late'[at := e] - s == late' - s;
    } else {
      assert late[at := e] - s == (late - s)[at := e] && late'[at := e] - s == (late' - s)[at := e];
    }
  }

  lemma OneLess(shares: map<Cpu, Share>, c: Cpu, d: Cpu, sh: Share)
    requires c != d
    ensures shares[d := sh] - {c} == (shares - {c})[d := sh] && (shares - {d}) - {c} == (shares - {c}) - {d}
  {}

  /** More on both sides of the books of a page. */
  function Overbooked(v: World, sh: Share): World {
    v.(mem := JustCounted(v.mem, sh, v.mem.owner).(credit := v.mem.credit + Increments(sh)))
  }

  lemma OverbookedMInv(v: World, sh: Share)
    requires MInv(v) && sh.entry.frame in v.mem.refs
    ensures MInv(Overbooked(v, sh))
  {
    hide Inv, AllLoaded, AllCounted, AllHalf, AllDue, Stages, OwnSources;
    var v' := Overbooked(v, sh);
    BookInv(Virtual(v), sh);
    assert Virtual(v') == JustCounted(Virtual(v), sh, v.mem.owner).(credit := v.mem.credit + Increments(sh));
    assert Roots(v'.mem) == Roots(v.mem);
  }

  /** A count beside it, of another frame or of a page whose count the shadow has too. */
  lemma CountBeside(m: Mem, n: Mem, sh: Share, o: Share)
    requires Booked(m, n, sh) || (Unbooked(m, n, sh) && o.entry.frame != sh.entry.frame)
    ensures var m', n' := JustCounted(m, o, OwnerAfter(m.owner, o)), JustCounted(n, o, OwnerAfter(n.owner, o));
      if Booked(m, n, sh) then Booked(m', n', sh) else Unbooked(m', n', sh)
  {
    if !Booked(m, n, sh) {
      var f, g := sh.entry.frame, o.entry.frame;
      RefsPut(n.refs, f, g, Delta(sh.entry), Count(n.refs, g) + Delta(o.entry));
      OwnersPut(m.owner, n.owner, f, g, o.src);
      assert g in m.owner <==> g in m.owner - {f};
      assert g in n.owner <==> g in n.owner - {f};
      assert g in m.owner ==> (m.owner - {f})[g] == m.owner[g] && (n.owner - {f})[g] == n.owner[g];
    }
  }

  /** A first count of the very frame: from now on the shadow has it too. */
  lemma CountSame(m: Mem, n: Mem, sh: Share, o: Share)
    requires Unbooked(m, n, sh) && o.entry.frame == sh.entry.frame && !o.entry.cow
    requires o.entry.frame in n.owner && n.owner[o.entry.frame] == o.src
    ensures var m', n' := JustCounted(m, o, OwnerAfter(m.owner, o)), JustCounted(n, o, OwnerAfter(n.owner, o));
      Booked(m', JustCounted(n', sh, n'.owner).(credit := n.credit + Increments(sh)), sh)
  {
    var f := sh.entry.frame;
    assert OwnerAfter(m.owner, o) == m.owner - {f} by { if f !in m.owner { assert m.owner - {f} == m.owner; } }
  }

  lemma ShadowCount(w: World, v: World, c: Cpu, sh: Share, d: Cpu) returns (v': World)
    requires MInv(v) && Shadow(w, v, c, sh) && d in w.loaded
    ensures MInv(v') && Shadow(AfterCount(w, d), v', c, sh)
    ensures v'.mem.pte == v.mem.pte && v'.mem.kind == v.mem.kind && v'.inHand == v.inHand
  {
    hide Inv, Shares, Books, Booked, Unbooked, OwnerAfter;
    var o, e := w.loaded[d], CowEntry(w.loaded[d].entry);
    CountMInv(v, d);
    v' := AfterCount(v, d);
    LatePut(w.late, v.late, {sh.src, sh.dst}, o.src, e);
    LatePut(w.late[o.src := e], v.late[o.src := e], {sh.src, sh.dst}, o.dst, e);
    OneLess(w.counted, c, d, o);
    if Booked(w.mem, v.mem, sh) || o.entry.frame != sh.entry.frame {
      CountBeside(w.mem, v.mem, sh, o);
    } else {
      UncountedFrame(w.mem, v.mem, sh);
      LoadedOwner(v, d);
      CountSame(w.mem, v.mem, sh, o);
      OverbookedMInv(v', sh);
      v' := Overbooked(v', sh);
    }
  }

  /** What is loaded from an uncounted frame is private. */
  lemma LoadedOwner(v: World, d: Cpu)
    requires MInv(v) && d in v.loaded && v.loaded[d].entry.frame !in v.mem.refs
    ensures var o := v.loaded[d]; !o.entry.cow && o.entry.frame in v.mem.owner && v.mem.owner[o.entry.frame] == o.src
  {
    LoadedEntry(v, d);
    hide Shares, Books, Inv;
    var o := v.loaded[d];
    if o.entry.cow { CowTarget(Virtual(v), o.src); } else { OnlyOwnName(Virtual(v), o.src); }
  }

  lemma UncountedFrame(m: Mem, n: Mem, sh: Share)
    requires Unbooked(m, n, sh)
    ensures sh.entry.frame !in n.refs
  {}

  lemma PutBeside(m: Mem, n: Mem, sh: Share, at: Slot, e: Entry)
    requires Booked(m, n, sh) || Unbooked(m, n, sh)
    ensures var m', n' := m.(pte := m.pte[at := e]), n.(pte := n.pte[at := e]);
      if Booked(m, n, sh) then Booked(m', n', sh) else Unbooked(m', n', sh)
  {}

  lemma ShadowSrc(w: World, v: World, c: Cpu, sh: Share, d: Cpu)
    requires MInv(v) && Shadow(w, v, c, sh) && d in w.counted && d != c
    ensures d in v.counted && MInv(AfterSrc(v, d)) && Shadow(AfterSrc(w, d), AfterSrc(v, d), c, sh)
  {
    hide Inv, Shares, Books, Booked, Unbooked;
    var o := w.counted[d];
    StoreSrcMInv(v, d);
    PutBeside(w.mem, v.mem, sh, o.src, CowEntry(o.entry));
    LatePut(w.late, v.late, {sh.src, sh.dst}, o.src, CowEntry(o.entry));
    OneLess(w.counted, c, d, o);
  }

  lemma ShadowDst(w: World, v: World, c: Cpu, sh: Share, d: Cpu)
    requires MInv(v) && Shadow(w, v, c, sh) && d in w.half
    ensures MInv(AfterDst(v, d)) && Shadow(AfterDst(w, d), AfterDst(v, d), c, sh)
  {
    hide Inv, Shares, Books, Booked, Unbooked;
    var o := w.half[d];
    StoreDstMInv(v, d);
    PutBeside(w.mem, v.mem, sh, o.dst, CowEntry(o.entry));
    LatePut(w.late, v.late, {sh.src, sh.dst}, o.dst, CowEntry(o.entry));
  }

  // ---------------------------------------------------------------- the destination

  lemma AwaitsAct(v: World, c: Cpu, dst: Slot, d: Cpu, a: Action)
    requires MInv(v) && Awaits(v, c, dst) && Can(v, Act(d, a)) && Calm(v, Act(d, a)) && d != c
    ensures Awaits(Go(v, Act(d, a)), c, dst)
  {
    hide MInv, Calm, Enabled, Handy, Apply, Hands, InTable;
    ShareAside(v, d, a, c, Share(dst, dst, Entry(0, false, false, false, false, false, false, 0)));
  }

  lemma AwaitsStores(v: World, c: Cpu, dst: Slot, d: Cpu)
    requires Shares(v) && Awaits(v, c, dst) && d != c
    ensures d in v.counted ==> Awaits(AfterSrc(v, d), c, dst)
    ensures d in v.half ==> Awaits(AfterDst(v, d), c, dst)
  {
    hide AllLoaded, AllDue, OwnSources, Stages, InTable;
    if d in v.counted { assert SrcLate(v.mem.pte, v.late, v.counted[d]); }
    if d in v.half { assert DstLate(v.mem.pte, v.late, v.inHand, d, v.half[d]); }
  }

  lemma AwaitsHandOver(v: World, c: Cpu, dst: Slot, mv: Move)
    requires Books(v) && Awaits(v, c, dst) && Can(v, mv) && (mv.Publish? || mv.Retire?) && mv.cpu != c
    ensures Awaits(Go(v, mv), c, dst)
  {
    hide Roots, InTable;
  }

  // ---------------------------------------------------------------- moves beside it

  lemma ShadowAction(w: World, v: World, c: Cpu, sh: Share, d: Cpu, a: Action) returns (v': World)
    requires MInv(v) && Shadow(w, v, c, sh) && Awaits(v, c, sh.dst) && Can(w, Act(d, a)) && d != c && Calm(v, Act(d, a))
    ensures MInv(v') && Shadow(Go(w, Act(d, a)), v', c, sh) && Awaits(v', c, sh.dst)
  {
    hide MInv, Shadow, Awaits, Can, Calm, Go;
    ShadowAct(w, v, c, sh, d, a);
    ActMInv(v, d, a);
    AwaitsAct(v, c, sh.dst, d, a);
    v' := Go(v, Act(d, a));
  }

  lemma ShadowLoad(w: World, v: World, c: Cpu, sh: Share, d: Cpu, src: Slot, dst: Slot) returns (v': World)
    requires MInv(v) && Shadow(w, v, c, sh) && Awaits(v, c, sh.dst) && Can(w, Load(d, src, dst)) && d != c && Calm(v, Load(d, src, dst))
    ensures MInv(v') && Shadow(Go(w, Load(d, src, dst)), v', c, sh) && Awaits(v', c, sh.dst)
  {
    hide MInv, Calm, Booked, Unbooked, InTable;
    SamePte(w.mem, v.mem, sh);
    assert Can(v, Load(d, src, dst));
    LoadMInv(v, d, src, dst);
    v' := Go(v, Load(d, src, dst));
  }

  lemma ShadowHandOver(w: World, v: World, c: Cpu, sh: Share, mv: Move) returns (v': World)
    requires MInv(v) && Shadow(w, v, c, sh) && Awaits(v, c, sh.dst) && Can(w, mv) && (mv.Publish? || mv.Retire?) && mv.cpu != c
    ensures MInv(v') && Shadow(Go(w, mv), v', c, sh) && Awaits(v', c, sh.dst)
  {
    hide Inv, Shares, Books, Booked, Unbooked, InTable;
    SamePte(w.mem, v.mem, sh);
    assert Can(v, mv);
    AwaitsHandOver(v, c, sh.dst, mv);
    v' := Go(v, mv);
    if mv.Publish? { PublishMInv(v, mv.cpu, mv.root); } else { RetireMInv(v, mv.cpu, mv.root); }
  }

  lemma ShadowStores(w: World, v: World, c: Cpu, sh: Share, mv: Move) returns (v': World)
    requires MInv(v) && Shadow(w, v, c, sh) && Awaits(v, c, sh.dst) && Can(w, mv) && (mv.StoreSrc? || mv.StoreDst?) && mv.cpu != c
    ensures MInv(v') && Shadow(Go(w, mv), v', c, sh) && Awaits(v', c, sh.dst)
  {
    hide Inv, Shares, Books, Booked, Unbooked, Awaits, AfterSrc, AfterDst;
    AwaitsStores(v, c, sh.dst, mv.cpu);
    if mv.StoreSrc? {
      ShadowSrc(w, v, c, sh, mv.cpu);
      v' := AfterSrc(v, mv.cpu);
    } else {
      ShadowDst(w, v, c, sh, mv.cpu);
      v' := AfterDst(v, mv.cpu);
    }
  }

  lemma ShadowCounts(w: World, v: World, c: Cpu, sh: Share, d: Cpu) returns (v': World)
    requires MInv(v) && Shadow(w, v, c, sh) && Awaits(v, c, sh.dst) && Can(w, CountUp(d))
    ensures MInv(v') && Shadow(Go(w, CountUp(d)), v', c, sh) && Awaits(v', c, sh.dst)
  {
    hide MInv, Shadow, InTable, AfterCount;
    v' := ShadowCount(w, v, c, sh, d);
  }

  /** Whatever other CPUs do, a shadow in order stays beside the world. */
  lemma ShadowMove(w: World, v: World, c: Cpu, sh: Share, mv: Move) returns (v': World)
    requires MInv(v) && Shadow(w, v, c, sh) && Awaits(v, c, sh.dst) && Can(w, mv) && mv.cpu != c && CalmBeside(w, mv, c)
    ensures MInv(v') && Shadow(Go(w, mv), v', c, sh) && Awaits(v', c, sh.dst)
  {
    ShadowCalm(w, v, c, sh, mv);
    hide MInv, Shadow, Awaits, Can, Calm, CalmBeside, Go;
    match mv
    case Act(d, a) => v' := ShadowAction(w, v, c, sh, d, a);
    case Load(d, src, dst) => v' := ShadowLoad(w, v, c, sh, d, src, dst);
    case CountUp(d) => v' := ShadowCounts(w, v, c, sh, d);
    case StoreSrc(_) => v' := ShadowStores(w, v, c, sh, mv);
    case StoreDst(_) => v' := ShadowStores(w, v, c, sh, mv);
    case Publish(_, _) => v' := ShadowHandOver(w, v, c, sh, mv);
    case Retire(_, _) => v' := ShadowHandOver(w, v, c, sh, mv);
  }

  lemma ShadowCalm(w: World, v: World, c: Cpu, sh: Share, mv: Move)
    requires MInv(v) && Shadow(w, v, c, sh) && CalmBeside(w, mv, c)
    ensures Calm(v, mv)
  {
    hide Inv, Shares, Books, Calm, CalmBeside, Booked, Unbooked;
    assert w.loaded - {c} == w.loaded;
    CalmInShadow(w, v, c, mv);
  }

  lemma {:induction false} ShadowRun(ws: seq<World>, mvs: seq<Move>, i: nat, v: World, c: Cpu, sh: Share) returns (v': World)
    requires Beside(ws, mvs, c) && i < |ws| && MInv(v) && Shadow(ws[0], v, c, sh) && Awaits(v, c, sh.dst)
    ensures MInv(v') && Shadow(ws[i], v', c, sh) && Awaits(v', c, sh.dst)
  {
    hide MInv, Shadow, Awaits, Can, CalmBeside, Go;
    v' := v;
    if i > 0 {
      v' := ShadowRun(ws, mvs, i - 1, v, c, sh);
      v' := ShadowMove(ws[i - 1], v', c, sh, mvs[i - 1]);
    }
  }

  // ---------------------------------------------------------------- from the load to the count

  lemma UnloadedMInv(w: World, c: Cpu)
    requires MInv(w) && c in w.loaded
    ensures MInv(Unloaded(w, c)) && Awaits(Unloaded(w, c), c, w.loaded[c].dst)
  {
    hide Inv, AllCounted, AllHalf, AllDue;
    assert LoadedOk(w.mem.pte, w.mem.kind, w.late, w.inHand, c, w.loaded[c]);
    assert Virtual(Unloaded(w, c)) == Virtual(w);
  }

  lemma UnloadedGo(w: World, c: Cpu, mv: Move)
    requires c in w.loaded && Can(w, mv) && mv.cpu != c
    ensures Can(Unloaded(w, c), mv) && Go(Unloaded(w, c), mv) == Unloaded(Go(w, mv), c)
    ensures c in Go(w, mv).loaded && Go(w, mv).loaded[c] == w.loaded[c]
  {
    hide Enabled, Apply;
    if mv.Load? { OneLess(w.loaded, c, mv.cpu, Share(mv.src, mv.dst, w.mem.pte[mv.src])); }
    if mv.CountUp? { OneLess(w.loaded, c, mv.cpu, w.loaded[c]); }
  }

  lemma UnloadedAwaits(v: World, c: Cpu, dst: Slot, mv: Move)
    requires MInv(v) && Awaits(v, c, dst) && Can(v, mv) && Calm(v, mv) && mv.cpu != c
    ensures Awaits(Go(v, mv), c, dst)
  {
    hide Inv, Enabled, Apply, Calm, InTable;
    match mv
    case Act(d, a) => AwaitsAct(v, c, dst, d, a);
    case StoreSrc(d) => AwaitsStores(v, c, dst, d);
    case StoreDst(d) => AwaitsStores(v, c, dst, d);
    case Publish(_, _) => AwaitsHandOver(v, c, dst, mv);
    case Retire(_, _) => AwaitsHandOver(v, c, dst, mv);
    case _ =>
  }

  /** CPU `c` has loaded a share, and the world without it is in order. */
  ghost predicate Adrift(w: World, c: Cpu, sh: Share) {
    && c in w.loaded && w.loaded[c] == sh && c !in w.half && c !in w.counted
    && MInv(Unloaded(w, c)) && Awaits(Unloaded(w, c), c, sh.dst)
  }

  lemma UnloadedMove(w: World, c: Cpu, sh: Share, mv: Move)
    requires Adrift(w, c, sh) && Can(w, mv) && mv.cpu != c && CalmBeside(w, mv, c)
    ensures Adrift(Go(w, mv), c, sh)
  {
    UnloadedCalm(w, c, mv);
    UnloadedGo(w, c, mv);
    hide MInv, Awaits, Calm, CalmBeside, Enabled, Apply, Handy, Hands, Unloaded;
    MoveInv(Unloaded(w, c), mv);
    UnloadedAwaits(Unloaded(w, c), c, sh.dst, mv);
  }

  lemma UnloadedCalm(w: World, c: Cpu, mv: Move)
    requires c in w.loaded && MInv(Unloaded(w, c)) && c !in w.half && c !in w.counted && CalmBeside(w, mv, c)
    ensures Calm(Unloaded(w, c), mv)
  {
    hide Inv, Shares, Books, Calm, CalmBeside;
    assert w.counted - {c} == w.counted;
    CalmInShadow(w, Unloaded(w, c), c, mv);
  }

  /** What the clone loop checked when it loaded. */
  predicate Sound(sh: Share) { Shareable(sh.src, sh.entry) && (sh.entry.cow ==> !sh.entry.writable) && sh.src != sh.dst }

  lemma LoadedAdrift(w: World, c: Cpu)
    requires MInv(w) && c in w.loaded
    ensures Adrift(w, c, w.loaded[c]) && Sound(w.loaded[c])
  {
    UnloadedMInv(w, c);
    LoadedEntry(w, c);
    hide Inv, AllCounted, AllHalf, AllDue, OwnSources, Awaits, Unloaded, Books;
    assert LoadedOk(w.mem.pte, w.mem.kind, w.late, w.inHand, c, w.loaded[c]);
  }

  lemma {:induction false} UnloadedRun(ws: seq<World>, mvs: seq<Move>, i: nat, c: Cpu, sh: Share)
    requires Beside(ws, mvs, c) && i < |ws| && Adrift(ws[0], c, sh)
    ensures Adrift(ws[i], c, sh)
  {
    hide Adrift, Can, CalmBeside, Go;
    if i > 0 {
      UnloadedRun(ws, mvs, i - 1, c, sh);
      UnloadedMove(ws[i - 1], c, sh, mvs[i - 1]);
    }
  }

  // ---------------------------------------------------------------- the count

  lemma PteBeside(m: Mem, n: Mem, sh: Share, pte: map<Slot, Entry>)
    ensures Booked(m, n, sh) ==> Booked(m.(pte := pte), n.(pte := pte), sh)
    ensures Unbooked(m, n, sh) ==> Unbooked(m.(pte := pte), n.(pte := pte), sh)
  {}

  lemma CountBooks(v: World, sh: Share)
    requires Inv(Virtual(v)) && Shareable(sh.src, sh.entry)
    ensures var m := JustCounted(v.mem, sh, OwnerAfter(v.mem.owner, sh));
      if sh.entry.frame in v.mem.refs then Booked(m, Overbooked(v, sh).mem, sh) else Unbooked(m, v.mem, sh)
  {
    hide Inv, Unbooked;
    if sh.entry.frame in v.mem.refs {
      RefsUnowned(Virtual(v), sh.entry.frame);
    } else {
      var V := Virtual(v);
      OwnerLeaves(V, sh);
      PteBeside(JustCounted(V, sh, OwnerAfter(V.owner, sh)), V, sh, v.mem.pte);
      assert V.(pte := v.mem.pte) == v.mem;
      assert JustCounted(V, sh, OwnerAfter(V.owner, sh)).(pte := v.mem.pte) == JustCounted(v.mem, sh, OwnerAfter(v.mem.owner, sh));
    }
  }

  lemma ShadowStart(w: World, c: Cpu, sh: Share) returns (v: World)
    requires Adrift(w, c, sh) && Sound(sh)
    ensures MInv(v) && Shadow(AfterCount(w, c), v, c, sh) && Awaits(v, c, sh.dst)
  {
    hide Inv, Shares, Books, Booked, Unbooked, InTable, OwnerAfter;
    v := Unloaded(w, c);
    CountBooks(v, sh);
    LatePut(w.late, w.late, {sh.src, sh.dst}, sh.src, CowEntry(sh.entry));
    CountLate(w.late, sh);
    assert (w.counted[c := sh]) - {c} == w.counted;
    if sh.entry.frame in v.mem.refs {
      OverbookedMInv(v, sh);
      v := Overbooked(v, sh);
    }
  }

  lemma CountLate(late: map<Slot, Entry>, sh: Share)
    ensures var e := CowEntry(sh.entry); late[sh.src := e][sh.dst := e] - {sh.src, sh.dst} == late - {sh.src, sh.dst}
  {}

  // ---------------------------------------------------------------- the stores

  /** Every late store of the shadow is one of another share. */
  lemma LateIsOthers(w: World, v: World, c: Cpu, at: Slot)
    requires AllDue(v.counted, v.half, v.late, v.due) && v.counted == w.counted - {c} && v.half == w.half && c !in w.half && at in v.late
    ensures OthersSlot(w, c, at)
  {
    var d := v.due[at];
    assert Owed(v.counted, v.half, d, at);
    if d in v.counted { assert d in w.counted && d != c; }
  }

  lemma OthersLate(w: World, v: World, c: Cpu, sh: Share)
    requires Shares(v) && Shadow(w, v, c, sh) && Awaits(v, c, sh.dst) && !OthersSlot(w, c, sh.src)
    ensures v.late == w.late - {sh.src, sh.dst} && sh.src !in v.late && sh.dst !in v.late
  {
    hide AllLoaded, AllCounted, AllHalf, AllDue, OwnSources, Stages, Booked, Unbooked, InTable, OthersSlot;
    DstFree(v, c, sh.dst);
    if sh.src in v.late { LateIsOthers(w, v, c, sh.src); }
    assert v.late - {sh.src, sh.dst} == v.late;
  }

  lemma StoresDone(w: World, c: Cpu, sh: Share)
    requires c in w.counted && w.counted[c] == sh && c !in w.half && sh.src != sh.dst
    ensures c in AfterSrc(w, c).half
    ensures var v := Virtual(AfterDst(AfterSrc(w, c), c)); v == Overwritten(OthersDone(w, sh), sh, w.mem.owner)
  {
    var e := CowEntry(sh.entry);
    assert w.mem.pte[sh.src := e][sh.dst := e] + ((w.late - {sh.src}) - {sh.dst})
        == (w.mem.pte + (w.late - {sh.src, sh.dst}))[sh.src := e][sh.dst := e];
  }

  lemma PendingHere(w: World, v: World, c: Cpu, sh: Share)
    requires MInv(v) && Shadow(w, v, c, sh) && Awaits(v, c, sh.dst) && Sound(sh) && !OthersSlot(w, c, sh.src)
    ensures Pending(OthersDone(w, sh), Virtual(v), sh) && Loadable(OthersDone(w, sh), sh)
  {
    OthersLate(w, v, c, sh);
    SamePte(w.mem, v.mem, sh);
    PteBeside(w.mem, v.mem, sh, v.mem.pte + v.late);
    hide Inv, Shares, Books, Booked, Unbooked, InTable;
    assert OthersDone(w, sh) == w.mem.(pte := v.mem.pte + v.late);
    assert Virtual(v) == v.mem.(pte := v.mem.pte + v.late);
  }

  /** Exactly when a share that CPU `c` loaded in a calm run leaves memory in order, with any moves of
      other CPUs, even on its source, between its load, its count and its stores: there are owners
      with which the invariant holds, all other shares finished, if and only if the source fits at the
      moment it is stored. */
  lemma WindowIff(ws: seq<World>, mvs: seq<Move>, ws': seq<World>, mvs': seq<Move>, c: Cpu, sh: Share)
    requires Beside(ws, mvs, c) && MInv(ws[0]) && c in ws[0].loaded && ws[0].loaded[c] == sh
    requires c in ws[|mvs|].loaded && Beside(ws', mvs', c) && ws'[0] == AfterCount(ws[|mvs|], c)
    requires !OthersSlot(ws'[|mvs'|], c, sh.src)
    ensures var w := ws'[|mvs'|]; c in w.counted && c in AfterSrc(w, c).half
    ensures var w := ws'[|mvs'|];
      (exists owner :: Inv(Virtual(AfterDst(AfterSrc(w, c), c)).(owner := owner))) <==> FitsNow(OthersDone(w, sh), sh)
  {
    LoadedAdrift(ws[0], c);
    UnloadedRun(ws, mvs, |mvs|, c, sh);
    hide MInv, Adrift, Awaits, Can, Go, CalmBeside, OthersSlot;
    var v := ShadowStart(ws[|mvs|], c, sh);
    v := ShadowRun(ws', mvs', |mvs'|, v, c, sh);
    StoresIff(ws'[|mvs'|], v, c, sh);
  }

  lemma StoresIff(w: World, v: World, c: Cpu, sh: Share)
    requires MInv(v) && Shadow(w, v, c, sh) && Awaits(v, c, sh.dst) && Sound(sh) && !OthersSlot(w, c, sh.src)
    ensures c in w.counted && c in AfterSrc(w, c).half
    ensures (exists owner :: Inv(Virtual(AfterDst(AfterSrc(w, c), c)).(owner := owner))) <==> FitsNow(OthersDone(w, sh), sh)
  {
    PendingHere(w, v, c, sh);
    StoresDone(w, c, sh);
    hide MInv, Inv, Pending, Loadable, FitsNow, Virtual, OthersDone, Booked, Unbooked, OthersSlot, Awaits;
    CountedShareIff(OthersDone(w, sh), Virtual(v), sh);
    var v', m := Virtual(AfterDst(AfterSrc(w, c), c)), OthersDone(w, sh);
    assert forall owner :: v'.(owner := owner) == Overwritten(m, sh, owner);
  }
}
