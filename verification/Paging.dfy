/** User address spaces as the kernel keeps them: four levels of 512-entry page tables, pages,
    the copy-on-write reference table and the frames the physical allocator still holds.
    Layout: section 4.5 of the Intel SDM, volume 3A; bits 9 and 10 of a leaf entry are the
    kernel's own COW and DMABUF marks. */
module Paging {
  import opened Common

  const ENTRIES: nat := 512
  const USER_ROOT_ENTRIES: nat := 256
  const PAGE_SIZE: nat := 4096
  const LEVELS: nat := 4

  type Frame = nat
  /** A present page-table entry. A zero (not present) entry is an absent slot. */
  datatype Entry = Entry(frame: Frame, user: bool, writable: bool, ps: bool,
                         cow: bool, dmabuf: bool, nx: bool, attributes: nat)

  /** One entry position: `level` 4 is the PML4, 1 a page table. */
  datatype Slot = Slot(level: nat, table: Frame, index: nat)

  /** What a frame taken from the physical allocator is used for. */
  datatype Cell = Table(level: nat) | Page

  /** What an entry means to the clone and free walks. */
  datatype Use = Link | Own | Cow | Dma | Opaque

  function UseOf(at: Slot, e: Entry): Use {
    if at.level > 1 then
      if e.ps && at.level < LEVELS then Opaque else Link
    else if e.frame == 0 then Opaque
    else if e.dmabuf then Dma
    else if e.cow then Cow
    else Own
  }

  predicate IsPage(u: Use) { u == Own || u == Cow }

  /** An entry of this use is the only one that may name its frame. */
  predicate IsSole(u: Use) { u == Link || u == Own }

  function Width(level: nat): nat {
    if level == LEVELS then USER_ROOT_ENTRIES else ENTRIES
  }

  /** The memory state. `owner` and `credit` are bookkeeping of the specification: the slot
      that solely names a table or private page, and the reference decrements that a fault
      handler or unmap still owes after it has already switched the entry. */
  datatype Mem = Mem(
    free: set<Frame>,
    kind: map<Frame, Cell>,
    pte: map<Slot, Entry>,
    bytes: map<Frame, seq<Byte>>,
    refs: map<Frame, nat>,
    dma: multiset<Frame>,
    foreign: set<Frame>,
    owner: map<Frame, Slot>,
    credit: multiset<Frame>)

  predicate Holds(pte: map<Slot, Entry>, at: Slot, u: Use, f: Frame) {
    at in pte && UseOf(at, pte[at]) == u && pte[at].frame == f
  }

  /** The entries of use `u` that name frame `f`. */
  function Holders(pte: map<Slot, Entry>, u: Use, f: Frame): set<Slot> {
    set at | at in pte && Holds(pte, at, u, f)
  }

  /** cow_ref_get: a frame outside the table counts 0. */
  function Count(refs: map<Frame, nat>, f: Frame): nat { if f in refs then refs[f] else 0 }

  // ---------------------------------------------------------------- invariant

  /** Every slot lies inside an allocated table of its own level. */
  ghost predicate SlotsInTables(pte: map<Slot, Entry>, kind: map<Frame, Cell>) {
    forall at | at in pte ::
      && at.table in kind && kind[at.table] == Table(at.level)
      && 1 <= at.level <= LEVELS && at.index < Width(at.level)
  }

  ghost predicate TargetOk(kind: map<Frame, Cell>, refs: map<Frame, nat>, foreign: set<Frame>, at: Slot, e: Entry) {
    match UseOf(at, e)
    case Link => e.frame in kind && kind[e.frame] == Table(at.level - 1)
    case Own => e.frame in kind && kind[e.frame] == Page && e.frame !in refs
    case Cow => e.frame in refs && !e.writable
    case Dma => e.frame in foreign && !e.cow
    case Opaque => at.level == 1 ==> e.frame == 0
  }

  /** Every entry names a frame of the kind its use calls for. */
  ghost predicate Targets(pte: map<Slot, Entry>, kind: map<Frame, Cell>, refs: map<Frame, nat>, foreign: set<Frame>) {
    forall at | at in pte :: TargetOk(kind, refs, foreign, at, pte[at])
  }

  /** `owner` is the inverse of the sole entries: no two Link or Own entries name one frame. */
  ghost predicate OwnerInverse(pte: map<Slot, Entry>, owner: map<Frame, Slot>) {
    && (forall at | at in pte && IsSole(UseOf(at, pte[at])) ::
          pte[at].frame in owner && owner[pte[at].frame] == at)
    && (forall f | f in owner ::
          && owner[f] in pte && pte[owner[f]].frame == f
          && IsSole(UseOf(owner[f], pte[owner[f]])))
  }

  /** No page is lost: it has a private entry or a reference count. */
  ghost predicate PagesKept(kind: map<Frame, Cell>, owner: map<Frame, Slot>, refs: map<Frame, nat>) {
    && (forall f | f in kind && kind[f] == Page :: f in owner || f in refs)
    && (forall f | f in refs :: f in kind && kind[f] == Page)
  }

  /** The counting invariant: a COW count is the number of live COW entries naming the frame
      plus the decrements still owed. */
  ghost predicate Counted(pte: map<Slot, Entry>, refs: map<Frame, nat>, credit: multiset<Frame>) {
    && (forall f | f in refs :: refs[f] == |Holders(pte, Cow, f)| + credit[f] && refs[f] >= 1)
    && (forall f | f in credit :: f in refs)
  }

  /** The map count of a device page is the number of entries that name it. */
  ghost predicate DmaCounted(pte: map<Slot, Entry>, dma: multiset<Frame>) {
    forall f :: dma[f] == |Holders(pte, Dma, f)|
  }

  ghost predicate FramesOk(free: set<Frame>, kind: map<Frame, Cell>, foreign: set<Frame>, bytes: map<Frame, seq<Byte>>) {
    && free !! kind.Keys && free !! foreign && kind.Keys !! foreign
    && 0 in foreign
    && (forall f | f in foreign || (f in kind && kind[f] == Page) ::
          f in bytes && |bytes[f]| == PAGE_SIZE)
  }

  ghost predicate Inv(m: Mem) {
    match m
    case Mem(free, kind, pte, bytes, refs, dma, foreign, owner, credit) =>
      && SlotsInTables(pte, kind)
      && Targets(pte, kind, refs, foreign)
      && OwnerInverse(pte, owner)
      && PagesKept(kind, owner, refs)
      && Counted(pte, refs, credit)
      && DmaCounted(pte, dma)
      && FramesOk(free, kind, foreign, bytes)
  }

  function Tables(m: Mem): set<Frame> { set t | t in m.kind && m.kind[t].Table? }

  /** Tables no entry names: the PML4s of live spaces and tables under construction. */
  function Roots(m: Mem): set<Frame> { set t | t in m.kind && m.kind[t].Table? && t !in m.owner }

  // ---------------------------------------------------------------- the abstract view

  /** What a leaf entry gives the program: a private page is its contents, a dmabuf or null
      frame is an alias and so is the frame itself. */
  datatype Target = Contents(bytes: seq<Byte>) | Alias(frame: Frame)

  datatype Translation =
    | Huge(entry: Entry)
    | Leaf(path: seq<Entry>, mayWrite: bool, attributes: Entry, target: Target)

  /** The permission bits of an entry, without its frame. */
  function Bits(e: Entry): Entry { e.(frame := 0) }

  function Content(m: Mem, f: Frame): seq<Byte> { if f in m.bytes then m.bytes[f] else [] }

  function LeafView(m: Mem, at: Slot, e: Entry): Translation {
    Leaf([], e.writable || e.cow, Bits(e).(writable := false, cow := false),
         if IsPage(UseOf(at, e)) then Contents(Content(m, e.frame)) else Alias(e.frame))
  }

  function Prefixed(e: Entry, v: Option<Translation>): Option<Translation> {
    match v
    case Some(Leaf(p, w, a, t)) => Some(Leaf([Bits(e)] + p, w, a, t))
    case _ => v
  }

  /** The translation of a table-index path from table `t`; a whole user address is a path of
      four indices from a PML4. "Writable" means writable now or after resolving COW. */
  function View(m: Mem, t: Frame, path: seq<nat>): Option<Translation>
    decreases |path|
  {
    if path == [] then None else
    var at := Slot(|path|, t, path[0]);
    if at !in m.pte then None else
    var e := m.pte[at];
    if |path| == 1 then Some(LeafView(m, at, e))
    else if UseOf(at, e) == Link then Prefixed(e, View(m, e.frame, path[1..]))
    else Some(Huge(e))
  }

  // ---------------------------------------------------------------- what keeps a view

  /** Equal, or a private page entry whose write permission moved between WRITABLE and COW. */
  ghost predicate SameEntry(at: Slot, e: Entry, e': Entry) {
    e' == e ||
    (IsPage(UseOf(at, e)) && (e.writable || e.cow) && (e'.writable || e'.cow)
     && e' == e.(writable := e'.writable, cow := e'.cow))
  }

  /** Over the tables `ts`, closed under links, `m'` shows what `m` shows. */
  ghost predicate Keeps(m: Mem, m': Mem, ts: set<Frame>) {
    forall at: Slot | at.table in ts ::
      && (at in m.pte <==> at in m'.pte)
      && (at in m.pte ==>
            && SameEntry(at, m.pte[at], m'.pte[at])
            && (UseOf(at, m.pte[at]) == Link ==> m.pte[at].frame in ts)
            && (IsPage(UseOf(at, m.pte[at])) ==>
                  Content(m', m.pte[at].frame) == Content(m, m.pte[at].frame)))
  }

  lemma {:induction false} KeepsView(m: Mem, m': Mem, ts: set<Frame>, t: Frame, path: seq<nat>)
    requires Keeps(m, m', ts) && t in ts
    ensures View(m', t, path) == View(m, t, path)
    decreases |path|
  {
    if path != [] {
      var at := Slot(|path|, t, path[0]);
      if at in m.pte && |path| > 1 && UseOf(at, m.pte[at]) == Link {
        KeepsView(m, m', ts, m.pte[at].frame, path[1..]);
      }
    }
  }
}
