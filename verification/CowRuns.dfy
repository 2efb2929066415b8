/** Runs of the memory system's actions: the invariant in every reachable state, the trees of tables,
    what is allocated, and isolation between address spaces. */
module CowRuns {
  import opened Common
  import opened Paging
  import opened CowSteps

  ghost predicate Next(m: Mem, m': Mem) {
    exists a :: Enabled(m, a) && m' == Apply(m, a)
  }

  /** Syscall_init: no table, no count, nothing owed. */
  ghost predicate Boot(m: Mem) {
    && m.kind == map[] && m.pte == map[] && m.refs == map[] && m.owner == map[]
    && m.dma == multiset{} && m.credit == multiset{}
    && FramesOk(m.free, m.kind, m.foreign, m.bytes)
  }

  /** Actions one after the other; `CowMachine` also splits the ones no lock makes atomic. */
  ghost predicate IsRun(run: seq<Mem>) {
    |run| > 0 && forall i | 0 < i < |run| :: Next(run[i - 1], run[i])
  }

  lemma BootInv(m: Mem)
    requires Boot(m)
    ensures Inv(m)
  {
    forall u, f ensures Holders(m.pte, u, f) == {} {}
  }

  lemma {:induction false} RunInv(run: seq<Mem>, i: nat)
    requires IsRun(run) && Inv(run[0]) && i < |run|
    ensures Inv(run[i])
  {
    if i > 0 {
      RunInv(run, i - 1);
      assert Next(run[i - 1], run[i]);
      var a :| Enabled(run[i - 1], a) && run[i] == Apply(run[i - 1], a);
      ActionInv(run[i - 1], a);
    }
  }

  /** A writable private page is the only mapping of its frame, in any table of any space. */
  lemma WritableIsAlone(m: Mem, at: Slot, other: Slot)
    requires Inv(m) && at in m.pte && other in m.pte && at != other
    requires at.level == 1 && m.pte[at].writable && IsPage(UseOf(at, m.pte[at]))
    ensures UseOf(at, m.pte[at]) == Own
    ensures m.pte[other].frame == m.pte[at].frame ==> UseOf(other, m.pte[other]) == Opaque && other.level > 1
  {
    HasTarget(m, at);
    HasTarget(m, other);
    OnlyOwnName(m, at);
  }

  lemma UnallocatedUnnamed(m: Mem, f: Frame, at: Slot)
    requires Inv(m) && f !in m.kind && f !in m.foreign
    requires at in m.pte && UseOf(at, m.pte[at]) != Opaque
    ensures m.pte[at].frame != f && m.credit[f] == 0
  {
    HasTarget(m, at);
    NoHolders(m, f);
  }

  lemma OwedIsPage(m: Mem, f: Frame)
    requires Inv(m) && f in m.credit
    ensures f in m.refs && f in m.kind && m.kind[f] == Page && f != 0
  {}

  /** What an action hands out or takes back: nothing else moves in or out of the pool. */
  lemma PoolMoves(m: Mem, a: Action)
    requires Enabled(m, a)
    ensures var m' := Apply(m, a);
            match a
            case NewTable(t, level) => m'.free == m.free - {t} && m'.kind == m.kind[t := Table(level)]
            case MapFresh(_, e, _) => m'.free == m.free - {e.frame} && m'.kind == m.kind[e.frame := Page]
            case BreakCopy(_, g) => m'.free == m.free - {g} && m'.kind == m.kind[g := Page]
            case FreeTable(t) => m'.free == m.free + {t} && m'.kind == m.kind - {t}
            case Drop(at) => at in m.pte && m' == AfterDrop(m, at)
            case Settle(f) => m' == AfterSettle(m, f)
            case _ => m'.free == m.free && m'.kind == m.kind
    ensures Apply(m, a).foreign == m.foreign
  {}

  /** Frames only ever move between the allocator and the tables and pages. */
  lemma PoolConstant(m: Mem, a: Action, f: Frame)
    requires Inv(m) && Enabled(m, a)
    ensures f in Apply(m, a).free || f in Apply(m, a).kind <==> f in m.free || f in m.kind
    ensures Apply(m, a).foreign == m.foreign
  {
    hide SlotsInTables, Targets, OwnerInverse, PagesKept, Counted, DmaCounted, FramesOk, Apply;
    PoolMoves(m, a);
    match a
    case Drop(at) => HasTarget(m, at);
    case Settle(g) => OwedIsPage(m, g);
    case _ =>
  }

  /** A step frees a frame only when no entry of any table names it any more. */
  lemma FreedUnnamed(m: Mem, a: Action, f: Frame, at: Slot)
    requires Inv(m) && Enabled(m, a) && f in m.kind && f !in Apply(m, a).kind
    requires at in Apply(m, a).pte && UseOf(at, Apply(m, a).pte[at]) != Opaque
    ensures Apply(m, a).pte[at].frame != f && Apply(m, a).credit[f] == 0
  {
    hide SlotsInTables, Targets, OwnerInverse, PagesKept, Counted, DmaCounted;
    ActionInv(m, a);
    PoolConstant(m, a, f);
    UnallocatedUnnamed(Apply(m, a), f, at);
  }

  // ---------------------------------------------------------------- the tree above a table

  /** The ancestor of table `t` at `level`, or the root of its tree if that is lower. */
  ghost function Up(m: Mem, t: Frame, level: nat): Frame
    requires Inv(m) && t in m.kind && m.kind[t].Table?
    decreases LEVELS - m.kind[t].level
  {
    if m.kind[t].level >= level || t !in m.owner then t
    else
      OwnerLink(m, t);
      Up(m, m.owner[t].table, level)
  }

  /** The entry that links a table lies one level above it. */
  lemma OwnerLink(m: Mem, t: Frame)
    requires Inv(m) && t in m.owner && t in m.kind && m.kind[t].Table?
    ensures var at := m.owner[t];
            && at in m.pte && UseOf(at, m.pte[at]) == Link && m.pte[at].frame == t
            && at.table in m.kind && m.kind[at.table] == Table(at.level)
            && at.level == m.kind[t].level + 1 && at.level <= LEVELS
  {
    HasTarget(m, m.owner[t]);
  }

  lemma LinkTarget(m: Mem, at: Slot)
    requires Inv(m) && at in m.pte && UseOf(at, m.pte[at]) == Link
    ensures var t := m.pte[at].frame;
            t in m.kind && m.kind[t] == Table(at.level - 1) && t in m.owner && m.owner[t] == at
    ensures at.table in m.kind && m.kind[at.table] == Table(at.level)
  {
    HasTarget(m, at);
  }

  /** All tables of the space or unfinished subtree with root `r`. */
  ghost function Tree(m: Mem, r: Frame): set<Frame>
    requires Inv(m)
  {
    set t | t in m.kind && m.kind[t].Table? && Up(m, t, LEVELS) == r
  }

  lemma TreeClosed(m: Mem, r: Frame, at: Slot)
    requires Inv(m) && at in m.pte && UseOf(at, m.pte[at]) == Link
    ensures at.table in Tree(m, r) <==> m.pte[at].frame in Tree(m, r)
  {
    LinkTarget(m, at);
    LinkUp(m, at);
  }

  /** The two ends of a link are in the same tree. */
  lemma LinkUp(m: Mem, at: Slot)
    requires Inv(m) && at in m.pte && UseOf(at, m.pte[at]) == Link
    requires m.pte[at].frame in m.kind && m.kind[m.pte[at].frame].Table?
    requires at.table in m.kind && m.kind[at.table].Table?
    ensures Up(m, m.pte[at].frame, LEVELS) == Up(m, at.table, LEVELS)
  {
    LinkTarget(m, at);
  }

  /** A PML4 is the root of its tree. */
  lemma TopIsRoot(m: Mem, r: Frame)
    requires Inv(m) && IsTable(m, r, LEVELS)
    ensures r !in m.owner && Up(m, r, LEVELS) == r
  {
    if r in m.owner { OwnerLink(m, r); }
  }

  /** The table that holds the leaf entry of a path, if the links of the path are there. */
  ghost function LeafTable(m: Mem, t: Frame, path: seq<nat>): Option<Frame>
    decreases |path|
  {
    if path == [] then None
    else if |path| == 1 then Some(t)
    else
      var at := Slot(|path|, t, path[0]);
      if at in m.pte && UseOf(at, m.pte[at]) == Link then LeafTable(m, m.pte[at].frame, path[1..]) else None
  }

  ghost predicate IsTable(m: Mem, t: Frame, level: nat) { t in m.kind && m.kind[t] == Table(level) }

  lemma {:induction false} LeafTableUp(m: Mem, t: Frame, path: seq<nat>)
    requires Inv(m) && path != [] && IsTable(m, t, |path|) && LeafTable(m, t, path).Some?
    ensures IsTable(m, LeafTable(m, t, path).value, 1)
    ensures Up(m, LeafTable(m, t, path).value, |path|) == t
    decreases |path|
  {
    if |path| > 1 {
      var at := Slot(|path|, t, path[0]);
      LinkTarget(m, at);
      LeafTableUp(m, m.pte[at].frame, path[1..]);
      UpStep(m, LeafTable(m, t, path).value, |path|);
    }
  }

  /** One more level up goes through the owner of the ancestor. */
  lemma {:induction false} UpStep(m: Mem, x: Frame, level: nat)
    requires Inv(m) && x in m.kind && m.kind[x].Table? && level > 1
    requires m.kind[x].level < level
    requires IsTable(m, Up(m, x, level - 1), level - 1) && Up(m, x, level - 1) in m.owner
    ensures Up(m, x, level) == m.owner[Up(m, x, level - 1)].table
    decreases LEVELS - m.kind[x].level
  {
    if m.kind[x].level < level - 1 {
      OwnerLink(m, x);
      UpStep(m, m.owner[x].table, level);
    } else {
      OwnerLink(m, x);
    }
  }

  /** Two user addresses never share a leaf entry. */
  lemma {:induction false} PathUnique(m: Mem, t: Frame, p: seq<nat>, q: seq<nat>)
    requires Inv(m) && p != [] && |p| == |q| && IsTable(m, t, |p|)
    requires LeafTable(m, t, p).Some? && LeafTable(m, t, q) == LeafTable(m, t, p)
    requires p[|p| - 1] == q[|q| - 1]
    ensures p == q
    decreases |p|
  {
    if |p| > 1 {
      var a, b := Slot(|p|, t, p[0]), Slot(|q|, t, q[0]);
      LinkTarget(m, a);
      LinkTarget(m, b);
      LeafTableUp(m, m.pte[a].frame, p[1..]);
      LeafTableUp(m, m.pte[b].frame, q[1..]);
      assert m.pte[a].frame == m.pte[b].frame;
      PathUnique(m, m.pte[a].frame, p[1..], q[1..]);
      assert p == [p[0]] + p[1..] && q == [q[0]] + q[1..];
    }
  }

  // ---------------------------------------------------------------- conservation

  /** A table that a chain of entries from some root leads to. */
  ghost predicate Rooted(m: Mem, t: Frame)
    requires Inv(m)
  {
    exists r :: r in Roots(m) && t in Tree(m, r)
  }

  /** A frame a live structure still names: a rooted table, or a page behind an entry of one. */
  ghost predicate Named(m: Mem, f: Frame)
    requires Inv(m)
  {
    || Rooted(m, f)
    || exists at :: at in m.pte && IsPage(UseOf(at, m.pte[at])) && m.pte[at].frame == f && Rooted(m, at.table)
  }

  lemma {:induction false} UpIsRoot(m: Mem, t: Frame)
    requires Inv(m) && t in m.kind && m.kind[t].Table?
    ensures Up(m, t, LEVELS) in Roots(m)
    decreases LEVELS - m.kind[t].level
  {
    if t in m.owner {
      OwnerLink(m, t);
      if m.kind[t].level < LEVELS { UpIsRoot(m, m.owner[t].table); }
    }
  }

  lemma TablesRooted(m: Mem, t: Frame)
    requires Inv(m) && t in m.kind && m.kind[t].Table?
    ensures Rooted(m, t)
  {
    UpIsRoot(m, t);
    assert t in Tree(m, Up(m, t, LEVELS));
  }

  lemma EntryNames(m: Mem, at: Slot)
    requires Inv(m) && at in m.pte && IsPage(UseOf(at, m.pte[at]))
    ensures Named(m, m.pte[at].frame)
  {
    TablesRooted(m, at.table);
  }

  /** No leak and no stale frame: what is allocated is exactly the rooted tables, the pages
      behind their entries, and the pages whose last decrement is still owed. */
  lemma Conservation(m: Mem, f: Frame)
    requires Inv(m)
    ensures f in m.kind <==> Named(m, f) || f in m.credit
  {
    if f in m.kind {
      if m.kind[f].Table? {
        TablesRooted(m, f);
      } else if f in m.owner {
        HasTarget(m, m.owner[f]);
        EntryNames(m, m.owner[f]);
      } else if f !in m.credit {
        assert |Holders(m.pte, Cow, f)| >= 1;
        var at :| at in Holders(m.pte, Cow, f);
        assert Holds(m.pte, at, Cow, f);
        EntryNames(m, at);
      }
    }
    if at :| at in m.pte && IsPage(UseOf(at, m.pte[at])) && m.pte[at].frame == f { HasTarget(m, at); }
  }

  /** An entry that names page `f`. */
  ghost predicate PageAt(pte: map<Slot, Entry>, at: Slot, f: Frame) {
    at in pte && IsPage(UseOf(at, pte[at])) && pte[at].frame == f
  }

  /** A table of the tree with root `r`, or a page an entry of it names. */
  ghost predicate InSpace(m: Mem, r: Frame, f: Frame)
    requires Inv(m)
  {
    f in Tree(m, r) || exists at :: PageAt(m.pte, at, f) && at.table in Tree(m, r)
  }

  lemma NamedInSpace(m: Mem, f: Frame)
    requires Inv(m)
    ensures Named(m, f) <==> exists r :: r in Roots(m) && InSpace(m, r, f)
  {
    hide Inv, Roots, Tree;
    if Rooted(m, f) {
      var r :| r in Roots(m) && f in Tree(m, r);
      assert InSpace(m, r, f);
    } else if at :| at in m.pte && IsPage(UseOf(at, m.pte[at])) && m.pte[at].frame == f && Rooted(m, at.table) {
      var r :| r in Roots(m) && at.table in Tree(m, r);
      assert PageAt(m.pte, at, f);
      assert InSpace(m, r, f);
    }
    if r :| r in Roots(m) && InSpace(m, r, f) {
      if f !in Tree(m, r) {
        var at :| PageAt(m.pte, at, f) && at.table in Tree(m, r);
        assert Rooted(m, at.table);
      }
    }
  }

  /** When the tables no entry names are known, the allocated frames are exactly those of their spaces
      and the pages with a decrement owed. */
  lemma SpacesExact(m: Mem, roots: set<Frame>, f: Frame)
    requires Inv(m) && Roots(m) == roots
    ensures f in m.kind <==> (exists r :: r in roots && InSpace(m, r, f)) || f in m.credit
  {
    Conservation(m, f);
    NamedInSpace(m, f);
  }

  /** What an action does to the tables no entry names. */
  function RootsThen(roots: set<Frame>, m: Mem, a: Action): set<Frame> {
    match a
    case NewTable(t, _) => roots + {t}
    case LinkChild(_, e) => roots - {e.frame}
    case Drop(at) => if at in m.pte && UseOf(at, m.pte[at]) == Link then roots + {m.pte[at].frame} else roots
    case FreeTable(t) => roots - {t}
    case _ => roots
  }

  lemma RootsOfTables(m: Mem, a: Action)
    requires Inv(m) && Enabled(m, a) && (a.NewTable? || a.LinkChild? || a.FreeTable?)
    ensures Roots(Apply(m, a)) == RootsThen(Roots(m), m, a)
  {
    hide SlotsInTables, Targets, OwnerInverse, PagesKept, Counted, DmaCounted;
    if a.NewTable? { FreshUnnamed(m, a.table); }
  }

  lemma RootsOfDrop(m: Mem, at: Slot)
    requires Inv(m) && at in m.pte
    ensures Roots(AfterDrop(m, at)) == RootsThen(Roots(m), m, Drop(at))
  {
    hide SlotsInTables, Targets, OwnerInverse, PagesKept, Counted, DmaCounted, FramesOk;
    HasTarget(m, at);
  }

  lemma RootsOfCow(m: Mem, a: Action)
    requires Inv(m) && Enabled(m, a) && (a.Settle? || a.Promote? || a.BreakCopy? || a.MapFresh?)
    ensures Roots(Apply(m, a)) == Roots(m)
  {
    hide SlotsInTables, Targets, OwnerInverse, PagesKept, Counted, DmaCounted;
    match a
    case Settle(f) => OwedIsPage(m, f);
    case Promote(at) => PageTarget(m, at);
    case BreakCopy(at, g) => FreshUnnamed(m, g);
    case MapFresh(_, e, _) => FreshUnnamed(m, e.frame);
  }

  lemma RootsAfter(m: Mem, a: Action)
    requires Inv(m) && Enabled(m, a) && !a.ShareCow?
    ensures Roots(Apply(m, a)) == RootsThen(Roots(m), m, a)
  {
    hide Inv;
    if a.NewTable? || a.LinkChild? || a.FreeTable? { RootsOfTables(m, a); }
    else if a.Settle? || a.Promote? || a.BreakCopy? || a.MapFresh? { RootsOfCow(m, a); }
    else if a.Drop? { RootsOfDrop(m, a.at); }
  }

  // ---------------------------------------------------------------- isolation

  /** The table an action writes an entry of, or writes a page through. */
  function Touches(a: Action): set<Frame> {
    match a
    case NewTable(_, _) => {}
    case LinkChild(at, _) => {at.table}
    case MapFresh(at, _, _) => {at.table}
    case MapDma(at, _) => {at.table}
    case CopyOpaque(at, _) => {at.table}
    case ShareCow(src, dst) => {dst.table}
    case Drop(at) => {at.table}
    case Settle(_) => {}
    case FreeTable(t) => {t}
    case Promote(at) => {}
    case BreakCopy(at, _) => {}
    case Store(at, _, _) => {at.table}
    case Protect(at, _, _) => {at.table}
  }

  /** Away from the touched table an entry stays, except that COW resolution may move the
      write permission of a private page, or point its entry at a fresh copy. */
  lemma EntryStays(m: Mem, a: Action, at: Slot)
    requires Enabled(m, a) && at.table !in Touches(a)
    ensures at in Apply(m, a).pte <==> at in m.pte
    ensures at in m.pte ==>
              var e' := Apply(m, a).pte[at];
              || SameEntry(at, m.pte[at], e')
              || (a.BreakCopy? && a.at == at && e' == WritableEntry(m.pte[at], a.copy))
  {
    match a
    case NewTable(t, level) =>
    case LinkChild(_, _) =>
    case MapFresh(_, _, _) =>
    case MapDma(_, _) =>
    case CopyOpaque(_, _) =>
    case ShareCow(src, dst) =>
    case Drop(_) =>
    case Settle(_) =>
    case FreeTable(_) =>
    case Promote(_) =>
    case BreakCopy(_, _) =>
    case Store(_, _, _) =>
    case Protect(_, _, _) =>
  }

  /** The contents of a page change only by a store through one of its entries. */
  lemma ContentStays(m: Mem, a: Action, f: Frame)
    requires Inv(m) && Enabled(m, a) && f in m.kind && m.kind[f] == Page
    requires a.Store? ==> m.pte[a.at].frame != f
    ensures Content(Apply(m, a), f) == Content(m, f)
  {
    hide SlotsInTables, Targets, OwnerInverse, PagesKept, Counted, DmaCounted;
  }

  lemma PageTarget(m: Mem, at: Slot)
    requires Inv(m) && at in m.pte && IsPage(UseOf(at, m.pte[at]))
    ensures m.pte[at].frame in m.kind && m.kind[m.pte[at].frame] == Page && m.pte[at].frame != 0
  {
    HasTarget(m, at);
  }

  lemma SlotTable(m: Mem, at: Slot)
    requires Inv(m) && at in m.pte
    ensures at.table in m.kind && m.kind[at.table].Table?
  {}

  lemma StoreElsewhere(m: Mem, s: Slot, at: Slot)
    requires Inv(m) && s in m.pte && s.level == 1 && m.pte[s].writable && at in m.pte && at != s
    requires IsPage(UseOf(at, m.pte[at]))
    ensures m.pte[s].frame != m.pte[at].frame
  {
    HasTarget(m, s);
    PageTarget(m, at);
    if UseOf(s, m.pte[s]) == Own { OnlyOwnName(m, s); }
  }

  /** So away from the touched table the view of every entry stays. */
  lemma LeafStays(m: Mem, a: Action, at: Slot)
    requires Inv(m) && Enabled(m, a) && at.table !in Touches(a) && at in m.pte
    ensures at in Apply(m, a).pte
    ensures LeafView(Apply(m, a), at, Apply(m, a).pte[at]) == LeafView(m, at, m.pte[at])
  {
    hide SlotsInTables, Targets, OwnerInverse, PagesKept, Counted, DmaCounted, FramesOk;
    EntryStays(m, a, at);
    if IsPage(UseOf(at, m.pte[at])) {
      PageTarget(m, at);
      if a.Store? { StoreElsewhere(m, a.at, at); }
      ContentStays(m, a, m.pte[at].frame);
      if a.BreakCopy? { FreshUnnamed(m, a.copy); NotForeign(m, a.copy); }
    }
  }

  lemma NotForeign(m: Mem, f: Frame)
    requires Inv(m) && f in m.free
    ensures f != 0
  {}

  /** Isolation: an action that touches no table of the space with root `r` changes nothing
      that space can see. COW resolution of its own pages is invisible to it as well. */
  lemma {:induction false} Isolation(m: Mem, a: Action, t: Frame, path: seq<nat>)
    requires Inv(m) && Enabled(m, a) && path != [] && IsTable(m, t, |path|)
    requires Up(m, t, LEVELS) !in Touched(m, a)
    ensures View(Apply(m, a), t, path) == View(m, t, path)
    decreases |path|
  {
    hide SlotsInTables, Targets, OwnerInverse, PagesKept, Counted, DmaCounted, FramesOk;
    var at := Slot(|path|, t, path[0]);
    EntryStays(m, a, at);
    if at in m.pte { LeafStays(m, a, at); }
    if at in m.pte && |path| > 1 && UseOf(at, m.pte[at]) == Link {
      LinkTarget(m, at);
      LinkUp(m, at);
      Isolation(m, a, m.pte[at].frame, path[1..]);
    }
  }

  /** The roots of the spaces whose tables an action touches. */
  ghost function Touched(m: Mem, a: Action): set<Frame>
    requires Inv(m)
  {
    set t | t in Touches(a) && t in m.kind && m.kind[t].Table? :: Up(m, t, LEVELS)
  }

  lemma RootStays(m: Mem, a: Action, r: Frame)
    requires Inv(m) && Enabled(m, a) && IsTable(m, r, LEVELS) && r !in Touched(m, a)
    ensures Up(m, r, LEVELS) == r && IsTable(Apply(m, a), r, LEVELS)
  {
    hide SlotsInTables, Targets, OwnerInverse, PagesKept, Counted, DmaCounted, Apply;
    PoolMoves(m, a);
    match a
    case Drop(at) => HasTarget(m, at);
    case Settle(g) => OwedIsPage(m, g);
    case FreeTable(t) => assert t in Touches(a);
    case _ =>
  }
}
