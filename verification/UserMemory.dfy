/** User addresses: how they index the tables, what a write through one entry does to the view,
    and the byte-level meaning of copying a range. */
module UserMemory {
  import opened Common
  import opened Paging
  import opened CowSteps
  import opened CowRuns

  const USER_VADDR_MIN: nat := 0x2000_0000
  const USER_VADDR_MAX: nat := 0x7FFF_FFFF_FFFF
  const CANONICAL_LOW_MAX: nat := 0x8000_0000_0000
  const UINT64: nat := 0x1_0000_0000_0000_0000

  /** Syscall_user_range_in_bounds, with the 64-bit wrap of the end address. */
  predicate RangeInBounds(start: nat, size: nat) {
    && size != 0 && USER_VADDR_MIN <= start <= USER_VADDR_MAX
    && var end := (start + size - 1) % UINT64;
       start <= end <= USER_VADDR_MAX
  }

  predicate IsUserAddress(a: nat) { USER_VADDR_MIN <= a <= USER_VADDR_MAX }

  /** The check, for all its wrap, admits exactly the ranges whose every byte is a user address. */
  lemma RangeIff(start: nat, size: nat)
    requires start < UINT64 && size < UINT64
    ensures RangeInBounds(start, size) <==> size > 0 && forall a: nat | start <= a < start + size :: IsUserAddress(a)
  {
    if size > 0 { assert IsUserAddress(start) && IsUserAddress(start + size - 1) ==> RangeInBounds(start, size); }
  }

  /** The four table indices of a page number. */
  function PathOf(page: nat): seq<nat> {
    [page / 0x800_0000 % ENTRIES, page / 0x4_0000 % ENTRIES, page / ENTRIES % ENTRIES, page % ENTRIES]
  }

  lemma PathInjective(p: nat, q: nat)
    requires PathOf(p) == PathOf(q) && p < 0x10_0000_0000 && q < 0x10_0000_0000
    ensures p == q
  {
    PathDigits(p);
    PathDigits(q);
    assert PathOf(p)[0] == PathOf(q)[0] && PathOf(p)[1] == PathOf(q)[1];
    assert PathOf(p)[2] == PathOf(q)[2] && PathOf(p)[3] == PathOf(q)[3];
  }

  lemma PathDigits(p: nat)
    requires p < 0x10_0000_0000
    ensures var d := PathOf(p); p == d[0] * 0x800_0000 + d[1] * 0x4_0000 + d[2] * ENTRIES + d[3]
    ensures |PathOf(p)| == LEVELS && forall i | 0 <= i < LEVELS :: 0 <= PathOf(p)[i] < ENTRIES
  {
    var a := p / 512;
    var b := a / 512;
    assert b == p / 0x4_0000;
    assert b / 512 == p / 0x800_0000;
  }

  /** Syscall_get_user_pte_ptr: the leaf slot, through present user tables. */
  function FindPte(pte: map<Slot, Entry>, t: Frame, path: seq<nat>): Option<Slot>
    decreases |path|
  {
    if path == [] then None
    else if |path| == 1 then Some(Slot(1, t, path[0]))
    else
      var at := Slot(|path|, t, path[0]);
      if at in pte && pte[at].user && UseOf(at, pte[at]) == Link
      then FindPte(pte, pte[at].frame, path[1..]) else None
  }

  function UserPte(pte: map<Slot, Entry>, cr3: Frame, virt: nat): Option<Slot> {
    if cr3 == 0 || virt >= CANONICAL_LOW_MAX || virt < USER_VADDR_MIN then None
    else FindPte(pte, cr3, PathOf(virt / PAGE_SIZE))
  }

  /** VMM_is_user_accessible: present and user at every level. */
  predicate Accessible(pte: map<Slot, Entry>, cr3: Frame, virt: nat) {
    match FindPte(pte, cr3, PathOf(virt / PAGE_SIZE))
    case None => false
    case Some(at) => at in pte && pte[at].user
  }

  /** The entry at a level is present, allows user access and leads to a table. */
  predicate Leads(pte: map<Slot, Entry>, at: Slot) {
    at in pte && pte[at].user && UseOf(at, pte[at]) == Link
  }

  /** An address is accessible exactly when the three upper entries on its path lead on and the leaf is a
      present user entry. */
  lemma AccessibleIff(pte: map<Slot, Entry>, cr3: Frame, virt: nat)
    ensures Accessible(pte, cr3, virt) <==>
            var d := PathOf(virt / PAGE_SIZE);
            var s4 := Slot(4, cr3, d[0]);
            && Leads(pte, s4)
            && var s3 := Slot(3, pte[s4].frame, d[1]);
               && Leads(pte, s3)
               && var s2 := Slot(2, pte[s3].frame, d[2]);
                  && Leads(pte, s2)
                  && var s1 := Slot(1, pte[s2].frame, d[3]);
                     s1 in pte && pte[s1].user
  {
    var d := PathOf(virt / PAGE_SIZE);
    FindStep(pte, cr3, d);
    var s4 := Slot(4, cr3, d[0]);
    if Leads(pte, s4) {
      FindStep(pte, pte[s4].frame, d[1..]);
      var s3 := Slot(3, pte[s4].frame, d[1]);
      if Leads(pte, s3) {
        FindStep(pte, pte[s3].frame, d[1..][1..]);
        var s2 := Slot(2, pte[s3].frame, d[2]);
        assert d[1..][1..][1..] == [d[3]];
      }
    }
  }

  lemma FindStep(pte: map<Slot, Entry>, t: Frame, path: seq<nat>)
    requires |path| > 1
    ensures var at := Slot(|path|, t, path[0]);
            FindPte(pte, t, path) == if Leads(pte, at) then FindPte(pte, pte[at].frame, path[1..]) else None
  {}

  lemma {:induction false} FindIsLeaf(m: Mem, t: Frame, path: seq<nat>)
    requires Inv(m) && path != [] && IsTable(m, t, |path|) && FindPte(m.pte, t, path).Some?
    ensures var at := FindPte(m.pte, t, path).value;
            && at.level == 1 && at.index == path[|path| - 1] && LeafTable(m, t, path) == Some(at.table)
            && IsTable(m, at.table, 1) && Up(m, at.table, |path|) == t
    decreases |path|
  {
    if |path| > 1 {
      LinkTarget(m, Slot(|path|, t, path[0]));
      FindIsLeaf(m, m.pte[Slot(|path|, t, path[0])].frame, path[1..]);
    }
    LeafTableUp(m, t, path);
  }

  // ---------------------------------------------------------------- a store through one entry

  ghost predicate IsAt(m: Mem, t: Frame, path: seq<nat>, at: Slot) {
    path != [] && LeafTable(m, t, path) == Some(at.table) && path[|path| - 1] == at.index
  }

  function WithContents(v: Option<Translation>, b: seq<Byte>): Option<Translation> {
    match v
    case Some(Leaf(p, w, a, Contents(_))) => Some(Leaf(p, w, a, Contents(b)))
    case _ => v
  }

  lemma StoreLeaf(m: Mem, a: Action, s: Slot)
    requires Inv(m) && a.Store? && Enabled(m, a) && s in m.pte
    ensures Some(LeafView(Apply(m, a), s, m.pte[s])) ==
            if s == a.at
            then WithContents(Some(LeafView(m, s, m.pte[s])), Splice(Content(m, m.pte[s].frame), a.offset, a.data))
            else Some(LeafView(m, s, m.pte[s]))
  {
    hide SlotsInTables, Targets, OwnerInverse, PagesKept, Counted, DmaCounted, FramesOk;
    if s != a.at && IsPage(UseOf(s, m.pte[s])) { StoreElsewhere(m, a.at, s); }
  }

  /** A store is seen on the paths that end in its entry, and on no other. */
  lemma {:induction false} StoreView(m: Mem, a: Action, t: Frame, path: seq<nat>)
    requires Inv(m) && a.Store? && Enabled(m, a) && path != [] && IsTable(m, t, |path|)
    ensures View(Apply(m, a), t, path) ==
            if IsAt(m, t, path, a.at)
            then WithContents(View(m, t, path), Splice(Content(m, m.pte[a.at].frame), a.offset, a.data))
            else View(m, t, path)
    decreases |path|
  {
    hide SlotsInTables, Targets, OwnerInverse, PagesKept, Counted, DmaCounted, FramesOk;
    var s := Slot(|path|, t, path[0]);
    if s in m.pte {
      if |path| > 1 && UseOf(s, m.pte[s]) == Link {
        LinkTarget(m, s);
        StoreView(m, a, m.pte[s].frame, path[1..]);
      } else if |path| == 1 {
        StoreLeaf(m, a, s);
        if s != a.at { assert !IsAt(m, t, path, a.at); }
      }
    }
  }

  // ---------------------------------------------------------------- copying a range

  /** Page `page` after the bytes `data` are written at address `dst` of the space. */
  function Patch(b: seq<Byte>, page: nat, dst: nat, data: seq<Byte>): seq<Byte> {
    seq(|b|, k requires 0 <= k < |b| =>
      var addr := page * PAGE_SIZE + k;
      if dst <= addr < dst + |data| then data[addr - dst] else b[k])
  }

  function Patched(v: Option<Translation>, page: nat, dst: nat, data: seq<Byte>): Option<Translation> {
    match v
    case Some(Leaf(_, _, _, Contents(b))) => WithContents(v, Patch(b, page, dst, data))
    case _ => v
  }

  lemma PatchNothing(b: seq<Byte>, page: nat, dst: nat)
    ensures Patch(b, page, dst, []) == b
  {}

  /** Writing the next chunk inside one page completes the patch of that page. */
  lemma PatchChunk(b: seq<Byte>, page: nat, dst: nat, data: seq<Byte>, done: nat, n: nat, offset: nat)
    requires |b| == PAGE_SIZE && done + n <= |data| && offset + n <= PAGE_SIZE
    requires dst + done == page * PAGE_SIZE + offset
    ensures Splice(Patch(b, page, dst, data[..done]), offset, data[done..done + n])
            == Patch(b, page, dst, data[..done + n])
  {
    var x := Splice(Patch(b, page, dst, data[..done]), offset, data[done..done + n]);
    var y := Patch(b, page, dst, data[..done + n]);
    forall k | 0 <= k < PAGE_SIZE ensures x[k] == y[k] {
      if offset <= k < offset + n {
        assert x[k] == data[done..done + n][k - offset];
      }
    }
  }

  /** A chunk inside one page leaves the patch of every other page as it is. */
  lemma PatchElsewhere(b: seq<Byte>, page: nat, other: nat, dst: nat, data: seq<Byte>, done: nat, n: nat, offset: nat)
    requires |b| == PAGE_SIZE && done + n <= |data| && offset + n <= PAGE_SIZE && other != page
    requires dst + done == page * PAGE_SIZE + offset
    ensures Patch(b, other, dst, data[..done + n]) == Patch(b, other, dst, data[..done])
  {
    var x, y := Patch(b, other, dst, data[..done + n]), Patch(b, other, dst, data[..done]);
    forall k | 0 <= k < PAGE_SIZE ensures x[k] == y[k] {
      var addr := other * PAGE_SIZE + k;
      assert addr < page * PAGE_SIZE || addr >= (page + 1) * PAGE_SIZE;
    }
  }

  // ---------------------------------------------------------------- views of two states

  /** Nothing a program could see has changed, in any space, and every table is still there. */
  ghost predicate SameViews(m: Mem, m': Mem) {
    && (forall t | t in Tables(m) :: t in m'.kind && m'.kind[t] == m.kind[t])
    && forall t: Frame, path: seq<nat> | path != [] && IsTable(m, t, |path|) :: View(m', t, path) == View(m, t, path)
  }

  /** COW resolution and owed decrements touch no table, so they are invisible everywhere. */
  lemma InvisibleAction(m: Mem, a: Action)
    requires Inv(m) && Enabled(m, a) && (a.Promote? || a.BreakCopy? || a.Settle?)
    ensures SameViews(m, Apply(m, a))
  {
    hide SlotsInTables, Targets, OwnerInverse, PagesKept, Counted, DmaCounted, FramesOk;
    if a.Settle? { OwedIsPage(m, a.frame); }
    if a.BreakCopy? { FreshUnnamed(m, a.copy); }
    forall t: Frame, path: seq<nat> | path != [] && IsTable(m, t, |path|)
      ensures View(Apply(m, a), t, path) == View(m, t, path)
    {
      Isolation(m, a, t, path);
    }
  }

  lemma SameViewsTransitive(m0: Mem, m1: Mem, m2: Mem)
    requires SameViews(m0, m1) && SameViews(m1, m2)
    ensures SameViews(m0, m2)
  {
    forall t: Frame, path: seq<nat> | path != [] && IsTable(m0, t, |path|)
      ensures View(m2, t, path) == View(m0, t, path)
    {
      assert t in Tables(m0) && IsTable(m1, t, |path|);
    }
  }

  /** What a copy of the first bytes of `data` to `dst` has done to the space `cr3`, and that
      it has done nothing to any other space. */
  ghost predicate CopiedTo(o: Mem, m: Mem, cr3: Frame, dst: nat, data: seq<Byte>) {
    && (forall t | t in Tables(o) :: t in m.kind && m.kind[t] == o.kind[t])
    && (forall page: nat | page < USER_PAGES ::
          View(m, cr3, PathOf(page)) == Patched(View(o, cr3, PathOf(page)), page, dst, data))
    && (forall r: Frame, path: seq<nat> | IsTable(o, r, LEVELS) && r != cr3 && |path| == LEVELS ::
          View(m, r, path) == View(o, r, path))
  }

  const USER_PAGES: nat := 0x8_0000_0000

  lemma CopiedNothing(m: Mem, cr3: Frame, dst: nat)
    ensures CopiedTo(m, m, cr3, dst, [])
  {
    forall page: nat | page < USER_PAGES
      ensures View(m, cr3, PathOf(page)) == Patched(View(m, cr3, PathOf(page)), page, dst, [])
    {
      match View(m, cr3, PathOf(page))
      case Some(Leaf(_, _, _, Contents(b))) => PatchNothing(b, page, dst);
      case _ =>
    }
  }

  lemma CopiedSameViews(o: Mem, m: Mem, m': Mem, cr3: Frame, dst: nat, data: seq<Byte>)
    requires CopiedTo(o, m, cr3, dst, data) && SameViews(m, m') && IsTable(o, cr3, LEVELS)
    ensures CopiedTo(o, m', cr3, dst, data)
  {
    assert cr3 in Tables(o) && IsTable(m, cr3, LEVELS);
    forall r: Frame, path: seq<nat> | IsTable(o, r, LEVELS) && r != cr3 && |path| == LEVELS
      ensures View(m', r, path) == View(o, r, path)
    {
      assert r in Tables(o) && IsTable(m, r, |path|);
    }
  }

  /** A stored page shows the contents its entry names. */
  lemma {:induction false} LeafContents(m: Mem, t: Frame, path: seq<nat>, at: Slot)
    requires Inv(m) && path != [] && IsTable(m, t, |path|) && IsAt(m, t, path, at) && at in m.pte && at.level == 1
    ensures View(m, t, path).Some? && View(m, t, path).value.Leaf?
    ensures View(m, t, path).value.target.Contents? ==> View(m, t, path).value.target.bytes == Content(m, m.pte[at].frame)
    decreases |path|
  {
    hide SlotsInTables, Targets, OwnerInverse, PagesKept, Counted, DmaCounted, FramesOk;
    if |path| > 1 {
      var s := Slot(|path|, t, path[0]);
      LinkTarget(m, s);
      LeafContents(m, m.pte[s].frame, path[1..], at);
    }
  }

  /** One chunk: the bytes of one page, written through its entry. */
  lemma CopiedChunk(o: Mem, m: Mem, cr3: Frame, dst: nat, data: seq<Byte>, done: nat, n: nat, at: Slot, page: nat, offset: nat)
    requires done + n <= |data| && offset + n <= PAGE_SIZE && dst + done == page * PAGE_SIZE + offset
    requires Inv(o) && Inv(m) && IsTable(o, cr3, LEVELS) && CopiedTo(o, m, cr3, dst, data[..done])
    requires page < USER_PAGES && at in m.pte && FindPte(m.pte, cr3, PathOf(page)) == Some(at)
    requires Enabled(m, Store(at, offset, data[done..done + n]))
    ensures CopiedTo(o, Apply(m, Store(at, offset, data[done..done + n])), cr3, dst, data[..done + n])
  {
    hide SlotsInTables, Targets, OwnerInverse, PagesKept, Counted, DmaCounted, FramesOk;
    hide Patch, Splice;
    var a := Store(at, offset, data[done..done + n]);
    assert IsTable(m, cr3, LEVELS) by { assert cr3 in Tables(o); }
    FindIsLeaf(m, cr3, PathOf(page));
    forall p: nat | p < USER_PAGES
      ensures View(Apply(m, a), cr3, PathOf(p)) == Patched(View(o, cr3, PathOf(p)), p, dst, data[..done + n])
    {
      ChunkPage(o, m, cr3, dst, data, done, n, at, page, offset, p);
    }
    forall r: Frame, path: seq<nat> | IsTable(o, r, LEVELS) && r != cr3 && |path| == LEVELS
      ensures View(Apply(m, a), r, path) == View(o, r, path)
    {
      assert r in Tables(o);
      Isolation(m, a, r, path);
    }
  }

  /** A write by the program itself, through a page it may write to: its own view changes in exactly
      those bytes and no other space sees anything. */
  lemma UserWriteIsolated(m: Mem, cr3: Frame, page: nat, offset: nat, data: seq<Byte>)
    requires Inv(m) && IsTable(m, cr3, LEVELS) && page < USER_PAGES && offset + |data| <= PAGE_SIZE
    requires FindPte(m.pte, cr3, PathOf(page)).Some?
    requires var at := FindPte(m.pte, cr3, PathOf(page)).value; at in m.pte && Enabled(m, Store(at, offset, data))
    ensures var at := FindPte(m.pte, cr3, PathOf(page)).value;
      CopiedTo(m, Apply(m, Store(at, offset, data)), cr3, page * PAGE_SIZE + offset, data)
  {
    hide SlotsInTables, Targets, OwnerInverse, PagesKept, Counted, DmaCounted, FramesOk;
    hide CopiedTo, Enabled, Apply, FindPte, PathOf;
    var dst := page * PAGE_SIZE + offset;
    var at := FindPte(m.pte, cr3, PathOf(page)).value;
    CopiedNothing(m, cr3, dst);
    assert data[..0] == [] && data[0..|data|] == data && data[..|data|] == data;
    CopiedChunk(m, m, cr3, dst, data, 0, |data|, at, page, offset);
  }

  lemma {:induction false} ViewBytes(m: Mem, t: Frame, path: seq<nat>)
    requires Inv(m) && path != [] && IsTable(m, t, |path|)
    ensures View(m, t, path).Some? && View(m, t, path).value.Leaf? && View(m, t, path).value.target.Contents? ==>
              |View(m, t, path).value.target.bytes| == PAGE_SIZE
    decreases |path|
  {
    hide SlotsInTables, Targets, OwnerInverse, PagesKept, Counted, DmaCounted;
    var s := Slot(|path|, t, path[0]);
    if s in m.pte {
      if |path| > 1 && UseOf(s, m.pte[s]) == Link {
        LinkTarget(m, s);
        ViewBytes(m, m.pte[s].frame, path[1..]);
      } else if IsPage(UseOf(s, m.pte[s])) {
        PageTarget(m, s);
      }
    }
  }

  lemma ChunkPage(o: Mem, m: Mem, cr3: Frame, dst: nat, data: seq<Byte>, done: nat, n: nat, at: Slot, page: nat, offset: nat, p: nat)
    requires done + n <= |data| && offset + n <= PAGE_SIZE && dst + done == page * PAGE_SIZE + offset
    requires Inv(o) && Inv(m) && IsTable(o, cr3, LEVELS) && IsTable(m, cr3, LEVELS)
    requires CopiedTo(o, m, cr3, dst, data[..done])
    requires page < USER_PAGES && p < USER_PAGES && at in m.pte && FindPte(m.pte, cr3, PathOf(page)) == Some(at)
    requires Enabled(m, Store(at, offset, data[done..done + n]))
    ensures View(Apply(m, Store(at, offset, data[done..done + n])), cr3, PathOf(p))
            == Patched(View(o, cr3, PathOf(p)), p, dst, data[..done + n])
  {
    hide SlotsInTables, Targets, OwnerInverse, PagesKept, Counted, DmaCounted, FramesOk;
    hide Patch, Splice;
    var a := Store(at, offset, data[done..done + n]);
    FindIsLeaf(m, cr3, PathOf(page));
    StoreView(m, a, cr3, PathOf(p));
    ViewBytes(o, cr3, PathOf(p));
    var v := View(o, cr3, PathOf(p));
    if p == page {
      LeafContents(m, cr3, PathOf(p), at);
      if v.Some? && v.value.Leaf? && v.value.target.Contents? {
        var b := v.value.target.bytes;
        PatchChunk(b, page, dst, data, done, n, offset);
      }
    } else {
      if IsAt(m, cr3, PathOf(p), at) {
        PathUnique(m, cr3, PathOf(p), PathOf(page));
        PathInjective(p, page);
      }
      if v.Some? && v.value.Leaf? && v.value.target.Contents? {
        var b := v.value.target.bytes;
        PatchElsewhere(b, page, p, dst, data, done, n, offset);
      }
    }
  }

  // ---------------------------------------------------------------- giving up a page

  lemma DropErases(m: Mem, at: Slot)
    requires at in m.pte
    ensures AfterDrop(m, at).pte == m.pte - {at} && AfterDrop(m, at).bytes == m.bytes
    ensures AfterDrop(m, at).credit ==
            m.credit + if UseOf(at, m.pte[at]) == Cow then multiset{m.pte[at].frame} else multiset{}
  {}

  /** Dropping a leaf entry empties the paths that end in it, and no other. */
  lemma {:induction false} DropView(m: Mem, at: Slot, t: Frame, path: seq<nat>)
    requires Inv(m) && at in m.pte && at.level == 1 && path != [] && IsTable(m, t, |path|)
    ensures View(AfterDrop(m, at), t, path) == if IsAt(m, t, path, at) then None else View(m, t, path)
    decreases |path|
  {
    hide SlotsInTables, Targets, OwnerInverse, PagesKept, Counted, DmaCounted, FramesOk, AfterDrop;
    DropErases(m, at);
    var s := Slot(|path|, t, path[0]);
    if s in m.pte {
      if |path| > 1 && UseOf(s, m.pte[s]) == Link {
        LinkTarget(m, s);
        DropView(m, at, m.pte[s].frame, path[1..]);
      } else if |path| == 1 && s != at {
        assert !IsAt(m, t, path, at);
      }
    }
  }

  /** The pages from `lo` up to `hi` of the space are gone; everything else is as it was. */
  ghost predicate UnmappedTo(o: Mem, m: Mem, cr3: Frame, lo: nat, hi: nat) {
    && (forall t | t in Tables(o) :: t in m.kind && m.kind[t] == o.kind[t])
    && (forall page: nat | page < USER_PAGES ::
          View(m, cr3, PathOf(page)) == if lo <= page < hi then None else View(o, cr3, PathOf(page)))
    && (forall r: Frame, path: seq<nat> | IsTable(o, r, LEVELS) && r != cr3 && |path| == LEVELS ::
          View(m, r, path) == View(o, r, path))
  }

  lemma UnmappedSameViews(o: Mem, m: Mem, m': Mem, cr3: Frame, lo: nat, hi: nat)
    requires UnmappedTo(o, m, cr3, lo, hi) && SameViews(m, m') && IsTable(o, cr3, LEVELS)
    ensures UnmappedTo(o, m', cr3, lo, hi)
  {
    assert cr3 in Tables(o) && IsTable(m, cr3, LEVELS);
    forall r: Frame, path: seq<nat> | IsTable(o, r, LEVELS) && r != cr3 && |path| == LEVELS
      ensures View(m', r, path) == View(o, r, path)
    {
      assert r in Tables(o) && IsTable(m, r, |path|);
    }
  }

  /** The leaf entries of two pages of a space are different entries. */
  lemma PagesApart(m: Mem, cr3: Frame, p: nat, q: nat, at: Slot)
    requires Inv(m) && IsTable(m, cr3, LEVELS) && p != q && p < USER_PAGES && q < USER_PAGES
    requires FindPte(m.pte, cr3, PathOf(q)) == Some(at)
    ensures !IsAt(m, cr3, PathOf(p), at)
    ensures FindPte(m.pte, cr3, PathOf(p)) != Some(at)
  {
    hide SlotsInTables, Targets, OwnerInverse, PagesKept, Counted, DmaCounted, FramesOk;
    FindIsLeaf(m, cr3, PathOf(q));
    if IsAt(m, cr3, PathOf(p), at) {
      PathUnique(m, cr3, PathOf(p), PathOf(q));
      PathInjective(p, q);
    }
    if FindPte(m.pte, cr3, PathOf(p)) == Some(at) { FindIsLeaf(m, cr3, PathOf(p)); }
  }

  lemma UnmappedPage(o: Mem, m: Mem, cr3: Frame, lo: nat, page: nat, at: Slot)
    requires Inv(o) && Inv(m) && IsTable(o, cr3, LEVELS) && lo <= page < USER_PAGES
    requires UnmappedTo(o, m, cr3, lo, page)
    requires at in m.pte && FindPte(m.pte, cr3, PathOf(page)) == Some(at)
    ensures UnmappedTo(o, AfterDrop(m, at), cr3, lo, page + 1)
  {
    hide SlotsInTables, Targets, OwnerInverse, PagesKept, Counted, DmaCounted, FramesOk, PathOf;
    assert cr3 in Tables(o) && IsTable(m, cr3, LEVELS);
    PathLength();
    FindIsLeaf(m, cr3, PathOf(page));
    HasTarget(m, at);
    forall p: nat | p < USER_PAGES
      ensures View(AfterDrop(m, at), cr3, PathOf(p)) == if lo <= p < page + 1 then None else View(o, cr3, PathOf(p))
    {
      DropView(m, at, cr3, PathOf(p));
      if p != page { PagesApart(m, cr3, p, page, at); }
    }
    forall r: Frame, path: seq<nat> | IsTable(o, r, LEVELS) && r != cr3 && |path| == LEVELS
      ensures View(AfterDrop(m, at), r, path) == View(o, r, path)
    {
      assert r in Tables(o);
      Isolation(m, Drop(at), r, path);
    }
  }

  lemma PathLength()
    ensures forall p: nat {:trigger PathOf(p)} :: |PathOf(p)| == LEVELS
  {}

  /** Dropping leaf entries does not move where addresses lead. */
  lemma {:induction false} FindErased(pte: map<Slot, Entry>, at: Slot, t: Frame, path: seq<nat>)
    requires at.level == 1
    ensures FindPte(pte - {at}, t, path) == FindPte(pte, t, path)
    decreases |path|
  {
    if |path| > 1 {
      var s := Slot(|path|, t, path[0]);
      if s in pte { FindErased(pte, at, pte[s].frame, path[1..]); }
    }
  }

  // ---------------------------------------------------------------- whether a copy can succeed

  /** The page is a user page that is writable, or a COW page. */
  predicate WritableOrCow(pte: map<Slot, Entry>, cr3: Frame, page: nat) {
    Accessible(pte, cr3, page * PAGE_SIZE) &&
    var e := pte[FindPte(pte, cr3, PathOf(page)).value];
    if e.cow then e.frame != 0 else e.writable
  }

  ghost predicate AllWritable(pte: map<Slot, Entry>, cr3: Frame, lo: nat, hi: nat) {
    forall page: nat | lo <= page < hi :: WritableOrCow(pte, cr3, page)
  }

  /** What writing through an entry costs: a frame if it is a COW page with other holders, */
  function CopyCost(refs: map<Frame, nat>, e: Entry): nat {
    if e.cow && Count(refs, e.frame) > 1 then 1 else 0
  }

  /** and one count, if it is a COW page. */
  function RefsAfter(refs: map<Frame, nat>, e: Entry): map<Frame, nat> {
    if !e.cow then refs
    else if Count(refs, e.frame) <= 1 then refs - {e.frame}
    else refs[e.frame := Count(refs, e.frame) - 1]
  }

  /** The frames it takes to make the pages from `lo` to `hi` writable, one after the other. */
  function CopiesNeeded(pte: map<Slot, Entry>, refs: map<Frame, nat>, cr3: Frame, lo: nat, hi: nat): nat
    decreases hi - lo
  {
    if lo >= hi then 0 else
    match FindPte(pte, cr3, PathOf(lo))
    case None => CopiesNeeded(pte, refs, cr3, lo + 1, hi)
    case Some(at) =>
      if at !in pte then CopiesNeeded(pte, refs, cr3, lo + 1, hi)
      else CopyCost(refs, pte[at]) + CopiesNeeded(pte, RefsAfter(refs, pte[at]), cr3, lo + 1, hi)
  }

  function FirstPage(dst: nat): nat { dst / PAGE_SIZE }

  function PastPage(dst: nat, len: nat): nat
    requires len > 0
  {
    (dst + len - 1) / PAGE_SIZE + 1
  }

  /** Exactly when a copy of `len` bytes to `dst` succeeds, told from the state before it. */
  ghost predicate CanCopy(m: Mem, cr3: Frame, dst: nat, len: nat) {
    len == 0 ||
    (&& RangeInBounds(dst, len) && AllWritable(m.pte, cr3, FirstPage(dst), PastPage(dst, len))
     && CopiesNeeded(m.pte, m.refs, cr3, FirstPage(dst), PastPage(dst, len)) <= |m.free|)
  }

  /** An entry rewritten behind us does not matter to the pages ahead. */
  ghost predicate SameAhead(pte: map<Slot, Entry>, pte': map<Slot, Entry>, cr3: Frame, lo: nat, hi: nat) {
    forall page: nat | lo <= page < hi ::
      && FindPte(pte', cr3, PathOf(page)) == FindPte(pte, cr3, PathOf(page))
      && (FindPte(pte, cr3, PathOf(page)).Some? ==>
            var at := FindPte(pte, cr3, PathOf(page)).value;
            (at in pte' <==> at in pte) && (at in pte ==> pte'[at] == pte[at]))
  }

  lemma {:induction false} CopiesSame(pte: map<Slot, Entry>, pte': map<Slot, Entry>, refs: map<Frame, nat>, cr3: Frame, lo: nat, hi: nat)
    requires SameAhead(pte, pte', cr3, lo, hi)
    ensures CopiesNeeded(pte', refs, cr3, lo, hi) == CopiesNeeded(pte, refs, cr3, lo, hi)
    decreases hi - lo
  {
    hide FindPte, PathOf;
    if lo < hi {
      match FindPte(pte, cr3, PathOf(lo))
      case None => CopiesSame(pte, pte', refs, cr3, lo + 1, hi);
      case Some(at) =>
        if at in pte { CopiesSame(pte, pte', RefsAfter(refs, pte[at]), cr3, lo + 1, hi); }
        else { CopiesSame(pte, pte', refs, cr3, lo + 1, hi); }
    }
  }

  lemma WritableSame(pte: map<Slot, Entry>, pte': map<Slot, Entry>, cr3: Frame, lo: nat, hi: nat)
    requires SameAhead(pte, pte', cr3, lo, hi)
    ensures AllWritable(pte', cr3, lo, hi) == AllWritable(pte, cr3, lo, hi)
  {
    hide FindPte, PathOf;
    forall page: nat | lo <= page < hi ensures WritableOrCow(pte', cr3, page) == WritableOrCow(pte, cr3, page) {
      assert page * PAGE_SIZE / PAGE_SIZE == page;
    }
  }

  /** One page done: what is left to need. */
  lemma CopiesStep(pte: map<Slot, Entry>, refs: map<Frame, nat>, cr3: Frame, lo: nat, hi: nat, at: Slot)
    requires lo < hi && FindPte(pte, cr3, PathOf(lo)) == Some(at) && at in pte
    ensures CopiesNeeded(pte, refs, cr3, lo, hi) == CopyCost(refs, pte[at]) + CopiesNeeded(pte, RefsAfter(refs, pte[at]), cr3, lo + 1, hi)
    ensures AllWritable(pte, cr3, lo, hi) <==> WritableOrCow(pte, cr3, lo) && AllWritable(pte, cr3, lo + 1, hi)
  {
    hide FindPte, PathOf, WritableOrCow;
  }
}
