/** Many CPUs on one memory, access by access where the kernel takes no lock. The clone walk of fork
    loads an entry, adds to the page's count, stores the source entry and stores the destination
    entry; other CPUs act between any two of these. Faults, copy-out and unmap hold the vm lock and
    stay single actions. The machine also keeps the books on tables: which PML4s are live spaces and
    which tables each CPU is building or tearing down. */
module CowMachine {
  import opened Common
  import opened Paging
  import opened CowSteps
  import opened CowRuns

  type Cpu = nat

  /** One entry on its way into a clone: what was loaded from `src`, to be stored in both. */
  datatype Share = Share(src: Slot, dst: Slot, entry: Entry)

  /** How far each CPU is with its share: the entry is loaded, the page is counted, the source is
      stored. `late` are the stores that counted shares still have to do, `due` the CPUs to do them. */
  datatype World = World(mem: Mem, loaded: map<Cpu, Share>, counted: map<Cpu, Share>, half: map<Cpu, Share>,
                         late: map<Slot, Entry>, due: map<Slot, Cpu>, live: set<Frame>, inHand: map<Frame, Cpu>)

  datatype Move =
    | Act(cpu: Cpu, action: Action)
    | Load(cpu: Cpu, src: Slot, dst: Slot)
    | CountUp(cpu: Cpu)
    | StoreSrc(cpu: Cpu)
    | StoreDst(cpu: Cpu)
    | Publish(cpu: Cpu, root: Frame)   // a finished PML4 becomes a live space
    | Retire(cpu: Cpu, root: Frame)    // a live space is taken for teardown

  /** The slots an action writes. */
  function Writes(a: Action): set<Slot> {
    match a
    case LinkChild(at, _) => {at}
    case MapFresh(at, _, _) => {at}
    case MapDma(at, _) => {at}
    case CopyOpaque(at, _) => {at}
    case ShareCow(src, dst) => {src, dst}
    case Drop(at) => {at}
    case Promote(at) => {at}
    case BreakCopy(at, _) => {at}
    case Protect(at, _, _) => {at}
    case _ => {}
  }

  predicate Busy(w: World, c: Cpu) { c in w.loaded || c in w.counted || c in w.half }

  predicate Shareable(at: Slot, e: Entry) { IsPage(UseOf(at, e)) && (e.writable || e.cow) }

  /** A table in a CPU's hands is known to that CPU alone. */
  ghost predicate Handy(w: World, c: Cpu, a: Action) {
    && (forall at | at in Writes(a) && at.table in w.inHand :: w.inHand[at.table] == c)
    && (a.LinkChild? ==> a.entry.frame in w.inHand && w.inHand[a.entry.frame] == c)
    && (a.FreeTable? ==> a.table in w.inHand && w.inHand[a.table] == c)
  }

  ghost predicate Can(w: World, mv: Move) {
    match mv
    case Act(c, a) => !Busy(w, c) && !a.ShareCow? && Enabled(w.mem, a) && Handy(w, c, a)
    case Load(c, src, dst) =>
      && !Busy(w, c) && src in w.mem.pte && Shareable(src, w.mem.pte[src])
      && InTable(w.mem.kind, dst) && dst !in w.mem.pte && dst.level == 1 && dst.table in w.inHand && w.inHand[dst.table] == c
    case CountUp(c) => c in w.loaded
    case StoreSrc(c) => c in w.counted
    case StoreDst(c) => c in w.half
    case Publish(c, r) => r in w.inHand && w.inHand[r] == c && r in w.mem.kind && w.mem.kind[r] == Table(LEVELS)
    case Retire(c, r) => r in w.live
  }

  /** What an action does to the tables in the CPU's hands. */
  function Hands(inHand: map<Frame, Cpu>, c: Cpu, m: Mem, a: Action): map<Frame, Cpu> {
    match a
    case NewTable(t, _) => inHand[t := c]
    case LinkChild(_, e) => inHand - {e.frame}
    case Drop(at) => if at in m.pte && UseOf(at, m.pte[at]) == Link then inHand[m.pte[at].frame := c] else inHand
    case FreeTable(t) => inHand - {t}
    case _ => inHand
  }

  function Delta(e: Entry): nat { if e.cow then 1 else 2 }

  /** A page that is counted for the first time is no longer its source's own. */
  function OwnerAfter(owner: map<Frame, Slot>, sh: Share): map<Frame, Slot> {
    var f := sh.entry.frame;
    if !sh.entry.cow && f in owner && owner[f] == sh.src then owner - {f} else owner
  }

  /** cow_ref_add for a loaded entry: one more holder, or the first two. Both stores are now late. */
  function AfterCount(w: World, c: Cpu): World
    requires c in w.loaded
  {
    var sh := w.loaded[c];
    var f, e := sh.entry.frame, CowEntry(sh.entry);
    w.(mem := w.mem.(refs := w.mem.refs[f := Count(w.mem.refs, f) + Delta(sh.entry)],
                     owner := OwnerAfter(w.mem.owner, sh)),
       loaded := w.loaded - {c}, counted := w.counted[c := sh],
       late := w.late[sh.src := e][sh.dst := e], due := w.due[sh.src := c][sh.dst := c])
  }

  function AfterSrc(w: World, c: Cpu): World
    requires c in w.counted
  {
    var sh := w.counted[c];
    w.(mem := w.mem.(pte := w.mem.pte[sh.src := CowEntry(sh.entry)]), late := w.late - {sh.src}, due := w.due - {sh.src},
       counted := w.counted - {c}, half := w.half[c := sh])
  }

  function AfterDst(w: World, c: Cpu): World
    requires c in w.half
  {
    var sh := w.half[c];
    w.(mem := w.mem.(pte := w.mem.pte[sh.dst := CowEntry(sh.entry)]), late := w.late - {sh.dst}, due := w.due - {sh.dst},
       half := w.half - {c})
  }

  ghost function Go(w: World, mv: Move): World
    requires Can(w, mv)
  {
    match mv
    case Act(c, a) => w.(mem := Apply(w.mem, a), inHand := Hands(w.inHand, c, w.mem, a))
    case Load(c, src, dst) => w.(loaded := w.loaded[c := Share(src, dst, w.mem.pte[src])])
    case CountUp(c) => AfterCount(w, c)
    case StoreSrc(c) => AfterSrc(w, c)
    case StoreDst(c) => AfterDst(w, c)
    case Publish(c, r) => w.(live := w.live + {r}, inHand := w.inHand - {r})
    case Retire(c, r) => w.(live := w.live - {r}, inHand := w.inHand[r := c])
  }

  // ---------------------------------------------------------------- calm moves

  ghost predicate Loads(w: World, at: Slot) { exists c :: c in w.loaded && w.loaded[c].src == at }

  /** The entry of a share in flight that is loaded and not yet stored again. */
  ghost predicate Source(w: World, at: Slot) { Loads(w, at) || at in w.late }

  /** The move rewrites no source entry of a share in flight. */
  ghost predicate Calm(w: World, mv: Move) {
    match mv
    case Act(_, a) => forall at | at in Writes(a) :: !Source(w, at)
    case Load(_, src, _) => !Source(w, src)
    case _ => true
  }

  // ---------------------------------------------------------------- the invariant

  /** Memory as it will be when the late stores are done. */
  ghost function Virtual(w: World): Mem { w.mem.(pte := w.mem.pte + w.late) }

  ghost predicate LoadedOk(pte: map<Slot, Entry>, kind: map<Frame, Cell>, late: map<Slot, Entry>,
                           inHand: map<Frame, Cpu>, c: Cpu, sh: Share) {
    && sh.src in pte && pte[sh.src] == sh.entry && Shareable(sh.src, sh.entry) && sh.src !in late
    && sh.dst !in pte && sh.dst !in late && InTable(kind, sh.dst) && sh.dst.level == 1
    && sh.dst.table in inHand && inHand[sh.dst.table] == c
  }

  ghost predicate DstLate(pte: map<Slot, Entry>, late: map<Slot, Entry>, inHand: map<Frame, Cpu>, c: Cpu, sh: Share) {
    && sh.dst in late && late[sh.dst] == CowEntry(sh.entry) && sh.dst !in pte && Shareable(sh.dst, sh.entry)
    && sh.dst.table in inHand && inHand[sh.dst.table] == c
  }

  ghost predicate SrcLate(pte: map<Slot, Entry>, late: map<Slot, Entry>, sh: Share) {
    sh.src in late && late[sh.src] == CowEntry(sh.entry) && sh.src in pte && pte[sh.src] == sh.entry && Shareable(sh.src, sh.entry)
  }

  ghost predicate AllLoaded(pte: map<Slot, Entry>, kind: map<Frame, Cell>, late: map<Slot, Entry>,
                            inHand: map<Frame, Cpu>, loaded: map<Cpu, Share>) {
    forall c | c in loaded :: LoadedOk(pte, kind, late, inHand, c, loaded[c])
  }

  ghost predicate AllCounted(pte: map<Slot, Entry>, late: map<Slot, Entry>, inHand: map<Frame, Cpu>, counted: map<Cpu, Share>) {
    forall c | c in counted :: DstLate(pte, late, inHand, c, counted[c]) && SrcLate(pte, late, counted[c])
  }

  ghost predicate AllHalf(pte: map<Slot, Entry>, late: map<Slot, Entry>, inHand: map<Frame, Cpu>, half: map<Cpu, Share>) {
    forall c | c in half :: DstLate(pte, late, inHand, c, half[c])
  }

  ghost predicate Stages(loaded: map<Cpu, Share>, counted: map<Cpu, Share>, half: map<Cpu, Share>) {
    loaded.Keys !! counted.Keys && loaded.Keys !! half.Keys && counted.Keys !! half.Keys
  }

  /** No two of these shares have the same source. */
  ghost predicate OwnSources(shares: map<Cpu, Share>) {
    forall c, d | c in shares && d in shares && c != d :: shares[c].src != shares[d].src
  }

  /** The late store to `at` belongs to the counted share of CPU `c`. */
  ghost predicate Owed(counted: map<Cpu, Share>, half: map<Cpu, Share>, c: Cpu, at: Slot) {
    || (c in counted && (counted[c].dst == at || counted[c].src == at))
    || (c in half && half[c].dst == at)
  }

  ghost predicate AllDue(counted: map<Cpu, Share>, half: map<Cpu, Share>, late: map<Slot, Entry>, due: map<Slot, Cpu>) {
    forall at | at in late :: at in due && Owed(counted, half, due[at], at)
  }

  ghost predicate Shares(w: World) {
    && Stages(w.loaded, w.counted, w.half)
    && AllLoaded(w.mem.pte, w.mem.kind, w.late, w.inHand, w.loaded) && OwnSources(w.loaded)
    && AllCounted(w.mem.pte, w.late, w.inHand, w.counted) && OwnSources(w.counted)
    && AllHalf(w.mem.pte, w.late, w.inHand, w.half)
    && AllDue(w.counted, w.half, w.late, w.due)
  }

  /** The tables no entry names are exactly the live PML4s and the tables in some CPU's hands. */
  ghost predicate Books(w: World) {
    && Roots(w.mem) == w.live + w.inHand.Keys && w.live !! w.inHand.Keys
    && forall r | r in w.live :: r in w.mem.kind && w.mem.kind[r] == Table(LEVELS)
  }

  ghost predicate MInv(w: World) { Inv(Virtual(w)) && Shares(w) && Books(w) }

  // ---------------------------------------------------------------- actions

  /** A slot that another CPU's late store goes to is one that no calm action writes. */
  lemma WritesNotLate(w: World, c: Cpu, a: Action, at: Slot)
    requires Shares(w) && Can(w, Act(c, a)) && Calm(w, Act(c, a)) && at in Writes(a)
    ensures at !in w.late && !Loads(w, at)
  {}

  lemma MergePut(pte: map<Slot, Entry>, late: map<Slot, Entry>, at: Slot, e: Entry)
    requires at !in late
    ensures pte[at := e] + late == (pte + late)[at := e]
  {}

  lemma MergeErase(pte: map<Slot, Entry>, late: map<Slot, Entry>, at: Slot)
    requires at !in late
    ensures (pte - {at}) + late == (pte + late) - {at}
  {}

  /** An emptied table in one CPU's hands is not one that another CPU's late store goes to. */
  lemma LateElsewhere(w: World, c: Cpu, t: Frame)
    requires Shares(w) && !Busy(w, c) && t in w.inHand && w.inHand[t] == c && forall at | at in w.mem.pte :: at.table != t
    ensures forall at | at in w.late :: at.table != t
  {
    hide LoadedOk, OwnSources, Stages;
    forall at | at in w.late ensures at.table != t { assert Owed(w.counted, w.half, w.due[at], at); }
  }

  ghost function Merged(m: Mem, late: map<Slot, Entry>): Mem { m.(pte := m.pte + late) }

  ghost predicate Aside(late: map<Slot, Entry>, a: Action) {
    && (forall at | at in Writes(a) :: at !in late)
    && (a.FreeTable? ==> forall at | at in late :: at.table != a.table)
  }

  lemma PutsMerged(m: Mem, late: map<Slot, Entry>, a: Action)
    requires Enabled(m, a) && Aside(late, a) && (a.LinkChild? || a.MapFresh? || a.MapDma? || a.CopyOpaque?)
    ensures Enabled(Merged(m, late), a) && Apply(Merged(m, late), a) == Merged(Apply(m, a), late)
  {
    assert a.at in Writes(a);
    MergePut(m.pte, late, a.at, a.entry);
  }

  lemma EditsMerged(m: Mem, late: map<Slot, Entry>, a: Action)
    requires Enabled(m, a) && Aside(late, a) && (a.Promote? || a.BreakCopy? || a.Protect?)
    ensures Enabled(Merged(m, late), a) && Apply(Merged(m, late), a) == Merged(Apply(m, a), late)
  {
    assert a.at in Writes(a);
    var at, e := a.at, m.pte[a.at];
    match a
    case Promote(_) => MergePut(m.pte, late, at, WritableEntry(e, e.frame));
    case BreakCopy(_, g) => MergePut(m.pte, late, at, WritableEntry(e, g));
    case Protect(_, wr, nx) => MergePut(m.pte, late, at, e.(writable := wr, nx := nx));
  }

  lemma DropMerged(m: Mem, late: map<Slot, Entry>, a: Action)
    requires Enabled(m, a) && Aside(late, a) && a.Drop?
    ensures Enabled(Merged(m, late), a) && Apply(Merged(m, late), a) == Merged(Apply(m, a), late)
  {
    assert a.at in Writes(a);
    MergeErase(m.pte, late, a.at);
  }

  /** An action that keeps clear of the late stores does the same before and after them. */
  lemma ActMerged(m: Mem, late: map<Slot, Entry>, a: Action)
    requires Enabled(m, a) && Aside(late, a) && !a.ShareCow? && !a.Store?
    ensures Enabled(Merged(m, late), a) && Apply(Merged(m, late), a) == Merged(Apply(m, a), late)
  {
    if a.LinkChild? || a.MapFresh? || a.MapDma? || a.CopyOpaque? { PutsMerged(m, late, a); }
    else if a.Promote? || a.BreakCopy? || a.Protect? { EditsMerged(m, late, a); }
    else if a.Drop? { DropMerged(m, late, a); }
  }

  /** A calm action does to the memory to come what it does to the memory that is there. */
  lemma ActVirtual(w: World, c: Cpu, a: Action)
    requires Shares(w) && Can(w, Act(c, a)) && Calm(w, Act(c, a)) && !a.Store?
    ensures Aside(w.late, a) && Enabled(Virtual(w), a) && Apply(Virtual(w), a) == Virtual(Go(w, Act(c, a)))
  {
    forall at | at in Writes(a) ensures at !in w.late { WritesNotLate(w, c, a, at); }
    if a.FreeTable? { LateElsewhere(w, c, a.table); }
    hide Enabled, Apply, Shares, Calm;
    ActMerged(w.mem, w.late, a);
  }

  lemma BytesInv(m: Mem, f: Frame, b: seq<Byte>)
    requires Inv(m) && |b| == PAGE_SIZE
    ensures Inv(m.(bytes := m.bytes[f := b]))
  {
    hide SlotsInTables, Targets, OwnerInverse, PagesKept, Counted, DmaCounted;
  }

  /** A store through a slot, even one that is about to become read-only, changes bytes alone. */
  lemma StoreVirtual(w: World, c: Cpu, a: Action)
    requires Inv(Virtual(w)) && Shares(w) && Can(w, Act(c, a)) && a.Store?
    ensures Inv(Virtual(Go(w, Act(c, a))))
  {
    hide SlotsInTables, Targets, OwnerInverse, PagesKept, Counted, DmaCounted, Shares;
    var v, f := Virtual(w), w.mem.pte[a.at].frame;
    StoreFrame(w, a.at);
    LeafContent(v, a.at);
    BytesInv(v, f, Splice(Content(w.mem, f), a.offset, a.data));
  }

  lemma LeafContent(m: Mem, at: Slot)
    requires Inv(m) && at in m.pte && at.level == 1
    ensures |Content(m, m.pte[at].frame)| == PAGE_SIZE
  {
    HasTarget(m, at);
  }

  lemma StoreFrame(w: World, at: Slot)
    requires Shares(w) && at in w.mem.pte
    ensures at in Virtual(w).pte && Virtual(w).pte[at].frame == w.mem.pte[at].frame
    ensures at in w.late ==> Virtual(w).pte[at] == CowEntry(w.mem.pte[at])
  {
    hide LoadedOk, OwnSources, Stages;
    if at in w.late { assert Owed(w.counted, w.half, w.due[at], at); }
  }

  // ---------------------------------------------------------------- the books

  lemma ActPte(m: Mem, a: Action, at: Slot)
    requires Enabled(m, a) && at !in Writes(a)
    ensures at in Apply(m, a).pte <==> at in m.pte
    ensures at in m.pte ==> Apply(m, a).pte[at] == m.pte[at]
  {}

  lemma KindKeeps(m: Mem, a: Action, t: Frame)
    requires Inv(m) && Enabled(m, a) && t in m.kind && m.kind[t].Table? && a != FreeTable(t)
    ensures t in Apply(m, a).kind && Apply(m, a).kind[t] == m.kind[t]
  {
    hide SlotsInTables, Targets, OwnerInverse, PagesKept, Counted, DmaCounted;
    match a
    case NewTable(_, _) => FreshUnnamedFree(m, t);
    case MapFresh(_, _, _) => FreshUnnamedFree(m, t);
    case BreakCopy(_, _) => FreshUnnamedFree(m, t);
    case Drop(at) => HasTarget(m, at);
    case Settle(f) => OwedIsPage(m, f);
    case _ =>
  }

  lemma FreshUnnamedFree(m: Mem, t: Frame)
    requires Inv(m) && t in m.kind
    ensures t !in m.free
  {}

  /** The memory to come after an action, told by the action on the memory to come. */
  lemma ActKind(w: World, c: Cpu, a: Action, t: Frame)
    requires MInv(w) && Can(w, Act(c, a)) && Calm(w, Act(c, a)) && t in w.mem.kind && w.mem.kind[t].Table? && a != FreeTable(t)
    ensures t in Go(w, Act(c, a)).mem.kind && Go(w, Act(c, a)).mem.kind[t] == w.mem.kind[t]
  {
    hide Shares, Books, SlotsInTables, Targets, OwnerInverse, PagesKept, Counted, DmaCounted, FramesOk, Calm, Handy;
    if !a.Store? {
      ActVirtual(w, c, a);
      KindKeeps(Virtual(w), a, t);
      hide Enabled, Apply;
      assert Virtual(Go(w, Act(c, a))).kind == Go(w, Act(c, a)).mem.kind;
    }
  }

  /** Roots do not depend on entries, so they are those of the memory to come. */
  lemma VirtualRoots(w: World)
    ensures Roots(Virtual(w)) == Roots(w.mem)
  {}

  lemma ActRoots(w: World, c: Cpu, a: Action)
    requires MInv(w) && Can(w, Act(c, a)) && Calm(w, Act(c, a))
    ensures Roots(Go(w, Act(c, a)).mem) == RootsThen(Roots(w.mem), w.mem, a)
  {
    hide Shares, Books, Inv, Calm, Handy;
    if !a.Store? {
      ActVirtual(w, c, a);
      if a.Drop? { DropNotLate(w, c, a); }
      VirtualRoots(w);
      VirtualRoots(Go(w, Act(c, a)));
      hide Apply, Roots, Virtual;
      RootsAfter(Virtual(w), a);
    }
  }

  /** The frames an action takes into or out of hands are of the kind the books expect. */
  lemma HandFrames(w: World, c: Cpu, a: Action)
    requires MInv(w) && Can(w, Act(c, a)) && Calm(w, Act(c, a))
    ensures a.NewTable? ==> a.table !in Roots(w.mem)
    ensures a.Drop? && UseOf(a.at, w.mem.pte[a.at]) == Link ==> w.mem.pte[a.at].frame !in Roots(w.mem)
  {
    hide SlotsInTables, Targets, PagesKept, Counted, DmaCounted, Shares;
    if a.NewTable? { FreshUnnamed(Virtual(w), a.table); }
    if a.Drop? && UseOf(a.at, w.mem.pte[a.at]) == Link {
      DropNotLate(w, c, a);
      LinkTarget(Virtual(w), a.at);
    }
  }

  lemma DropNotLate(w: World, c: Cpu, a: Action)
    requires Shares(w) && Can(w, Act(c, a)) && Calm(w, Act(c, a)) && a.Drop?
    ensures a.at in Virtual(w).pte && Virtual(w).pte[a.at] == w.mem.pte[a.at]
  {
    assert a.at in Writes(a);
    WritesNotLate(w, c, a, a.at);
  }

  /** The books on sets of frames alone. */
  lemma BooksSets(w: World, c: Cpu, a: Action, roots: set<Frame>)
    requires Roots(w.mem) == w.live + w.inHand.Keys && w.live !! w.inHand.Keys && Handy(w, c, a)
    requires a.Drop? ==> a.at in w.mem.pte
    requires a.NewTable? ==> a.table !in Roots(w.mem)
    requires a.Drop? && UseOf(a.at, w.mem.pte[a.at]) == Link ==> w.mem.pte[a.at].frame !in Roots(w.mem)
    requires roots == RootsThen(Roots(w.mem), w.mem, a)
    ensures var hands := Hands(w.inHand, c, w.mem, a); roots == w.live + hands.Keys && w.live !! hands.Keys
  {
    hide Roots;
  }

  lemma BooksAct(w: World, c: Cpu, a: Action)
    requires MInv(w) && Can(w, Act(c, a)) && Calm(w, Act(c, a))
    ensures Books(Go(w, Act(c, a)))
  {
    ActRoots(w, c, a);
    HandFrames(w, c, a);
    var w' := Go(w, Act(c, a));
    BooksSets(w, c, a, Roots(w'.mem));
    hide Shares, Inv, Apply, Roots, Calm, Hands;
    forall r | r in w'.live ensures r in w'.mem.kind && w'.mem.kind[r] == Table(LEVELS) {
      LiveNotHeld(w, c, a, r);
      ActKind(w, c, a, r);
    }
  }

  lemma LiveNotHeld(w: World, c: Cpu, a: Action, r: Frame)
    requires Books(w) && Can(w, Act(c, a)) && r in w.live
    ensures a != FreeTable(r) && r in w.mem.kind && w.mem.kind[r].Table?
  {}

  lemma HandKeeps(w: World, c: Cpu, a: Action, t: Frame, d: Cpu)
    requires MInv(w) && Can(w, Act(c, a)) && Calm(w, Act(c, a)) && t in w.inHand && w.inHand[t] == d && d != c
    ensures t in Go(w, Act(c, a)).inHand && Go(w, Act(c, a)).inHand[t] == d
  {
    HandFrames(w, c, a);
    hide Shares, Inv, Apply, Enabled, Calm;
  }

  /** A share in flight of another CPU is not touched by a calm action. */
  lemma ShareAside(w: World, c: Cpu, a: Action, d: Cpu, sh: Share)
    requires MInv(w) && Can(w, Act(c, a)) && Calm(w, Act(c, a)) && d != c
    requires sh.dst.table in w.inHand && w.inHand[sh.dst.table] == d && sh.dst !in w.mem.pte
    ensures var w' := Go(w, Act(c, a));
      && sh.dst !in w'.mem.pte && sh.dst.table in w'.inHand && w'.inHand[sh.dst.table] == d
      && (InTable(w.mem.kind, sh.dst) ==> InTable(w'.mem.kind, sh.dst))
      && (sh.src in w.mem.pte && Source(w, sh.src) ==> sh.src in w'.mem.pte && w'.mem.pte[sh.src] == w.mem.pte[sh.src])
  {
    HandKeeps(w, c, a, sh.dst.table, d);
    assert sh.dst !in Writes(a);
    ActPte(w.mem, a, sh.dst);
    if InTable(w.mem.kind, sh.dst) { ActKind(w, c, a, sh.dst.table); }
    if sh.src in w.mem.pte && Source(w, sh.src) { ActPte(w.mem, a, sh.src); }
  }

  lemma LoadedAct(w: World, c: Cpu, a: Action)
    requires MInv(w) && Can(w, Act(c, a)) && Calm(w, Act(c, a))
    ensures var w' := Go(w, Act(c, a)); AllLoaded(w'.mem.pte, w'.mem.kind, w'.late, w'.inHand, w'.loaded)
  {
    hide Inv, Books, Enabled, Apply, Calm, AllCounted, AllHalf, AllDue, OwnSources, Handy, Hands;
    var w' := Go(w, Act(c, a));
    forall d | d in w.loaded ensures LoadedOk(w'.mem.pte, w'.mem.kind, w'.late, w'.inHand, d, w'.loaded[d]) {
      assert Loads(w, w.loaded[d].src);
      ShareAside(w, c, a, d, w.loaded[d]);
    }
  }

  lemma CountedAct(w: World, c: Cpu, a: Action)
    requires MInv(w) && Can(w, Act(c, a)) && Calm(w, Act(c, a))
    ensures var w' := Go(w, Act(c, a)); AllCounted(w'.mem.pte, w'.late, w'.inHand, w'.counted) && AllHalf(w'.mem.pte, w'.late, w'.inHand, w'.half)
  {
    hide Inv, Books, Enabled, Apply, Calm, AllLoaded, AllDue, OwnSources, Handy, Hands;
    var w' := Go(w, Act(c, a));
    forall d | d in w.counted
      ensures DstLate(w'.mem.pte, w'.late, w'.inHand, d, w'.counted[d]) && SrcLate(w'.mem.pte, w'.late, w'.counted[d])
    {
      ShareAside(w, c, a, d, w.counted[d]);
    }
    forall d | d in w.half ensures DstLate(w'.mem.pte, w'.late, w'.inHand, d, w'.half[d]) {
      ShareAside(w, c, a, d, w.half[d]);
    }
  }

  lemma SharesAct(w: World, c: Cpu, a: Action)
    requires MInv(w) && Can(w, Act(c, a)) && Calm(w, Act(c, a))
    ensures Shares(Go(w, Act(c, a)))
  {
    LoadedAct(w, c, a);
    CountedAct(w, c, a);
    hide Inv, Books, Enabled, Apply, Calm, AllLoaded, AllCounted, AllHalf, AllDue, OwnSources, Stages, Handy, Hands;
  }

  lemma ActMInv(w: World, c: Cpu, a: Action)
    requires MInv(w) && Can(w, Act(c, a)) && Calm(w, Act(c, a))
    ensures MInv(Go(w, Act(c, a)))
  {
    BooksAct(w, c, a);
    SharesAct(w, c, a);
    if a.Store? {
      StoreVirtual(w, c, a);
    } else {
      ActVirtual(w, c, a);
      hide Inv, Shares, Books;
      ActionInv(Virtual(w), a);
    }
  }
}
