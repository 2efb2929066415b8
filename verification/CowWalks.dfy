/** The loop arguments of the clone and free walks, one entry at a time. */
module CowWalks {
  import opened Paging
  import opened CowSteps
  import opened CowRuns
  import opened CowEffects

  // ---------------------------------------------------------------- trees and forests

  /** Every table outside the tree of root `t`. */
  ghost function Others(m: Mem, t: Frame): set<Frame>
    requires Inv(m)
  {
    Tables(m) - Tree(m, t)
  }

  lemma OthersForest(m: Mem, t: Frame)
    requires Inv(m)
    ensures Forest(m, Others(m, t))
  {
    forall at | at in m.pte && UseOf(at, m.pte[at]) == Link
      ensures at.table in Others(m, t) <==> m.pte[at].frame in Others(m, t)
    {
      LinkTarget(m, at);
      TreeClosed(m, t, at);
    }
  }

  lemma {:induction false} ForestUp(m: Mem, ts: set<Frame>, x: Frame)
    requires Inv(m) && Forest(m, ts) && x in ts && x in m.kind && m.kind[x].Table?
    ensures Up(m, x, LEVELS) in ts
    decreases LEVELS - m.kind[x].level
  {
    if m.kind[x].level < LEVELS && x in m.owner {
      OwnerLink(m, x);
      ForestUp(m, ts, m.owner[x].table);
    }
  }

  lemma ForestInOthers(m: Mem, ts: set<Frame>, c: Frame)
    requires Inv(m) && Forest(m, ts) && c !in ts
    ensures ts <= Others(m, c)
  {
    forall x | x in ts ensures x in Others(m, c) {
      assert x in Tables(m);
      ForestUp(m, ts, x);
    }
  }

  lemma RootInOthers(m: Mem, r: Frame, c: Frame)
    requires Inv(m) && r in Roots(m) && r != c
    ensures r in Others(m, c)
  {
    assert Up(m, r, LEVELS) == r;
  }

  lemma ShrinksFewer(m: Mem, m': Mem, ts: set<Frame>, fewer: set<Frame>)
    requires Shrinks(m, m', ts) && fewer <= ts
    ensures Shrinks(m, m', fewer)
  {}

  // ---------------------------------------------------------------- the free walk

  /** What freeing the tree of root `t` leaves: all other trees untouched, the root gone. */
  ghost predicate Freed(m: Mem, m': Mem, t: Frame)
    requires Inv(m)
  {
    Shrinks(m, m', Others(m, t)) && Roots(m') == Roots(m) - {t} && m'.credit == m.credit
  }

  /** The walk over table `t` has dropped the entries below index `i`. */
  ghost predicate Dropped(m0: Mem, m: Mem, level: nat, t: Frame, i: nat)
    requires Inv(m0)
  {
    && Shrinks(m0, m, Others(m0, t)) && Roots(m) == Roots(m0) && m.credit == m0.credit
    && IsTable(m, t, level) && t in Roots(m) && t !in Others(m0, t)
    && NoneBelow(m, t, i)
  }

  ghost predicate NoneBelow(m: Mem, t: Frame, i: nat) {
    forall at | at in m.pte && at.table == t :: at.index >= i
  }

  lemma DropShrinks(m: Mem, at: Slot, ts: set<Frame>)
    requires Inv(m) && at in m.pte && at.table !in ts && ts <= Tables(m)
    ensures Shrinks(m, AfterDrop(m, at), ts)
  {
    hide SlotsInTables, Targets, OwnerInverse, PagesKept, Counted, DmaCounted, FramesOk;
    HasTarget(m, at);
  }

  lemma DropAdvances(m: Mem, level: nat, t: Frame, i: nat)
    requires Inv(m) && Slot(level, t, i) in m.pte && NoneBelow(m, t, i)
    ensures NoneBelow(AfterDrop(m, Slot(level, t, i)), t, i + 1)
  {
    forall at | at in m.pte && at.table == t && at != Slot(level, t, i) ensures at.index >= i + 1 {
      assert m.kind[t] == Table(at.level) && m.kind[t] == Table(level);
    }
  }

  lemma DropRoots(m: Mem, at: Slot)
    requires Inv(m) && at in m.pte
    ensures Roots(AfterDrop(m, at)) ==
            Roots(m) + (if UseOf(at, m.pte[at]) == Link then {m.pte[at].frame} else {})
    ensures forall t | t in Tables(m) :: t in AfterDrop(m, at).kind && AfterDrop(m, at).kind[t] == m.kind[t]
  {
    hide SlotsInTables, Targets, OwnerInverse, PagesKept, Counted, DmaCounted, FramesOk;
    HasTarget(m, at);
  }

  lemma SettleShrinks(m: Mem, f: Frame, ts: set<Frame>)
    requires Inv(m) && f in m.credit && ts <= Tables(m)
    ensures Shrinks(m, AfterSettle(m, f), ts)
  {
    hide SlotsInTables, Targets, OwnerInverse, PagesKept, Counted, DmaCounted, FramesOk;
    OwedIsPage(m, f);
  }

  lemma SettleRoots(m: Mem, f: Frame)
    requires Inv(m) && f in m.credit
    ensures Roots(AfterSettle(m, f)) == Roots(m)
    ensures forall t | t in Tables(m) :: t in AfterSettle(m, f).kind && AfterSettle(m, f).kind[t] == m.kind[t]
  {
    OwedIsPage(m, f);
  }

  /** A page entry, a device entry or an empty one: dropping it is all there is to do. */
  lemma DropPlain(m0: Mem, m: Mem, level: nat, t: Frame, i: nat)
    requires Inv(m0) && Inv(m) && Dropped(m0, m, level, t, i) && Slot(level, t, i) in m.pte
    requires var u := UseOf(Slot(level, t, i), m.pte[Slot(level, t, i)]); u != Link && u != Cow
    ensures Dropped(m0, AfterDrop(m, Slot(level, t, i)), level, t, i + 1)
  {
    hide SlotsInTables, Targets, OwnerInverse, PagesKept, Counted, DmaCounted, FramesOk;
    var at := Slot(level, t, i);
    DroppedTables(m0, m, level, t, i);
    DropShrinks(m, at, Others(m0, t));
    ShrinksTransitive(m0, m, AfterDrop(m, at), Others(m0, t));
    DropAdvances(m, level, t, i);
    DropRoots(m, at);
  }

  lemma DroppedTables(m0: Mem, m: Mem, level: nat, t: Frame, i: nat)
    requires Inv(m0) && Dropped(m0, m, level, t, i)
    ensures Others(m0, t) <= Tables(m) && Forest(m, Others(m0, t))
  {
    OthersForest(m0, t);
    ShrinksForest(m0, m, Others(m0, t));
  }

  /** A COW entry: drop it, then settle its count. */
  lemma DropCow(m0: Mem, m: Mem, level: nat, t: Frame, i: nat)
    requires Inv(m0) && Inv(m) && Dropped(m0, m, level, t, i) && Slot(level, t, i) in m.pte
    requires UseOf(Slot(level, t, i), m.pte[Slot(level, t, i)]) == Cow
    ensures var f := m.pte[Slot(level, t, i)].frame; var m1 := AfterDrop(m, Slot(level, t, i));
            f in m1.credit && Dropped(m0, AfterSettle(m1, f), level, t, i + 1)
  {
    hide SlotsInTables, Targets, OwnerInverse, PagesKept, Counted, DmaCounted, FramesOk;
    var at := Slot(level, t, i);
    var f, m1 := m.pte[at].frame, AfterDrop(m, at);
    var ts := Others(m0, t);
    ActionInv(m, Drop(at));
    DroppedTables(m0, m, level, t, i);
    DropShrinks(m, at, ts);
    DropAdvances(m, level, t, i);
    DropRoots(m, at);
    SettleShrinks(m1, f, ts);
    SettleRoots(m1, f);
    ShrinksTransitive(m0, m, m1, ts);
    ShrinksTransitive(m0, m1, AfterSettle(m1, f), ts);
    assert AfterSettle(m1, f).credit == m.credit;
  }

  /** A link: detach the child, free its tree, and go on. */
  lemma DropLink(m0: Mem, m: Mem, m2: Mem, level: nat, t: Frame, i: nat)
    requires Inv(m0) && Inv(m) && Inv(m2) && Dropped(m0, m, level, t, i) && Slot(level, t, i) in m.pte
    requires UseOf(Slot(level, t, i), m.pte[Slot(level, t, i)]) == Link
    requires var m1 := AfterDrop(m, Slot(level, t, i)); Inv(m1) && Freed(m1, m2, m.pte[Slot(level, t, i)].frame)
    ensures Dropped(m0, m2, level, t, i + 1)
  {
    hide SlotsInTables, Targets, OwnerInverse, PagesKept, Counted, DmaCounted, FramesOk;
    var at := Slot(level, t, i);
    var c, m1 := m.pte[at].frame, AfterDrop(m, at);
    var ts := Others(m0, t);
    DroppedTables(m0, m, level, t, i);
    assert c !in ts;
    DropShrinks(m, at, ts);
    DropAdvances(m, level, t, i);
    DropRoots(m, at);
    ShrinksForest(m, m1, ts);
    ForestInOthers(m1, ts, c);
    LinkTarget(m, at);
    RootInOthers(m1, t, c);
    ShrinksFewer(m1, m2, Others(m1, c), ts);
    ShrinksTransitive(m0, m, m1, ts);
    ShrinksTransitive(m0, m1, m2, ts);
    NotRoot(m, c);
    assert Roots(m2) == Roots(m);
  }

  lemma DropStart(m: Mem, level: nat, t: Frame)
    requires Inv(m) && IsTable(m, t, level) && t in Roots(m)
    ensures Dropped(m, m, level, t, 0)
  {
    RootNotOther(m, t);
  }

  lemma RootNotOther(m: Mem, t: Frame)
    requires Inv(m) && t in Roots(m)
    ensures t !in Others(m, t)
  {
    assert Up(m, t, LEVELS) == t;
  }

  lemma DropSkip(m0: Mem, m: Mem, level: nat, t: Frame, i: nat)
    requires Inv(m0) && Inv(m) && Dropped(m0, m, level, t, i) && Slot(level, t, i) !in m.pte
    ensures Dropped(m0, m, level, t, i + 1)
  {
    forall at | at in m.pte && at.table == t ensures at.index >= i + 1 {
      assert m.kind[t] == Table(at.level) && m.kind[t] == Table(level);
    }
  }

  /** A detached child is the root of its own tree. */
  lemma Detached(m: Mem, at: Slot)
    requires Inv(m) && at in m.pte && UseOf(at, m.pte[at]) == Link && Inv(AfterDrop(m, at))
    ensures var c := m.pte[at].frame; var m1 := AfterDrop(m, at);
            IsTable(m1, c, at.level - 1) && c in Roots(m1) && 1 <= at.level - 1 < LEVELS
  {
    LinkTarget(m, at);
    DropRoots(m, at);
  }

  lemma NotRoot(m: Mem, c: Frame)
    requires c in m.owner
    ensures c !in Roots(m)
  {}

  lemma EmptyTable(m: Mem, level: nat, t: Frame)
    requires Inv(m) && IsTable(m, t, level) && NoneBelow(m, t, Width(level)) && t in Roots(m)
    ensures Enabled(m, FreeTable(t))
  {
    forall at | at in m.pte ensures at.table != t {
      assert at.table == t ==> at.level == level;
    }
  }

  lemma FreeTableEffect(m: Mem, t: Frame, ts: set<Frame>)
    requires Inv(m) && Enabled(m, FreeTable(t)) && t !in ts && ts <= Tables(m)
    ensures Shrinks(m, Apply(m, FreeTable(t)), ts)
    ensures Roots(Apply(m, FreeTable(t))) == Roots(m) - {t}
  {
    hide SlotsInTables, Targets, OwnerInverse, PagesKept, Counted, DmaCounted, FramesOk;
  }

  /** Every entry dropped, the table itself goes back. */
  lemma FreeEmptied(m0: Mem, m: Mem, level: nat, t: Frame)
    requires Inv(m0) && Inv(m) && Dropped(m0, m, level, t, Width(level))
    ensures Enabled(m, FreeTable(t)) && Freed(m0, Apply(m, FreeTable(t)), t)
  {
    hide SlotsInTables, Targets, OwnerInverse, PagesKept, Counted, DmaCounted, FramesOk;
    EmptyTable(m, level, t);
    DroppedTables(m0, m, level, t, Width(level));
    FreeTableEffect(m, t, Others(m0, t));
    ShrinksTransitive(m0, m, Apply(m, FreeTable(t)), Others(m0, t));
  }

  /** A table that is left after the walk was outside the freed tree. */
  lemma {:induction false} LeftIsOther(m: Mem, m': Mem, t: Frame, x: Frame)
    requires Inv(m) && Inv(m') && Freed(m, m', t) && x in m'.kind && m'.kind[x].Table?
    ensures x in Others(m, t)
    decreases LEVELS - m'.kind[x].level
  {
    hide SlotsInTables, Targets, PagesKept, Counted, DmaCounted, FramesOk, Up;
    if x in m'.owner {
      OwnerLink(m', x);
      var at := m'.owner[x];
      LeftIsOther(m, m', t, at.table);
      TreeClosed(m, t, at);
    } else {
      assert x in Roots(m');
      RootInOthers(m, x, t);
    }
  }

  /** An entry of another space names the frame. */
  ghost predicate NamedElsewhere(m: Mem, t: Frame, f: Frame)
    requires Inv(m)
  {
    exists at | at in m.pte :: at.table in Others(m, t) && IsPage(UseOf(at, m.pte[at])) && m.pte[at].frame == f
  }

  /** What is still needed without the space of root `t`. */
  ghost predicate StaysWithout(m: Mem, t: Frame, f: Frame)
    requires Inv(m)
  {
    f in Others(m, t) || NamedElsewhere(m, t, f) || f in m.credit
  }

  /** Teardown gives back exactly what only the freed space used: a frame stays if and only if it is
      another space's table, a page another space names, or a page with a decrement still owed. */
  lemma TeardownExact(m: Mem, m': Mem, t: Frame, f: Frame)
    requires Inv(m) && Inv(m') && Freed(m, m', t)
    ensures f in m'.kind <==> StaysWithout(m, t, f)
  {
    hide SlotsInTables, Targets, OwnerInverse, PagesKept, Counted, DmaCounted, FramesOk, Up, Tree;
    Conservation(m', f);
    if f in m'.kind && f !in m.credit {
      if m'.kind[f].Table? {
        LeftIsOther(m, m', t, f);
      } else {
        StillNamed(m', f);
        var at :| at in m'.pte && IsPage(UseOf(at, m'.pte[at])) && m'.pte[at].frame == f;
        SlotTable(m', at);
        LeftIsOther(m, m', t, at.table);
      }
    }
    if NamedElsewhere(m, t, f) {
      var at :| at in m.pte && at.table in Others(m, t) && IsPage(UseOf(at, m.pte[at])) && m.pte[at].frame == f;
      PageTarget(m', at);
    }
  }

  lemma StillNamed(m: Mem, f: Frame)
    requires Inv(m) && f in m.kind && m.kind[f] == Page && f !in m.credit
    ensures exists at | at in m.pte :: IsPage(UseOf(at, m.pte[at])) && m.pte[at].frame == f
  {
    if f in m.owner {
      HasTarget(m, m.owner[f]);
    } else {
      HolderExists(m, f);
      var at :| Holds(m.pte, at, Cow, f);
    }
  }

  // ---------------------------------------------------------------- the clone walk

  /** A finished clone of table `src`: a new tree that shows what `src` shows. */
  ghost predicate Cloned(o: Mem, m: Mem, level: nat, src: Frame, dst: Frame) {
    && Grows(o, m) && dst !in o.kind && IsTable(m, dst, level) && Roots(m) == Roots(o) + {dst}
    && forall path: seq<nat> | |path| == level :: View(m, dst, path) == View(m, src, path)
  }

  /** A failed clone: nothing taken, nothing lost, nothing changed but COW downgrades. */
  ghost predicate Undone(o: Mem, m: Mem) {
    && Grows(o, m) && m.kind == o.kind && m.free == o.free && Roots(m) == Roots(o)
    && RolledBack(o, m)
  }

  /** The walk has mirrored the entries below index `i`. */
  ghost predicate Mirrored(o: Mem, m: Mem, level: nat, src: Frame, dst: Frame, i: nat) {
    && Grows(o, m) && dst !in o.kind && IsTable(m, dst, level) && Roots(m) == Roots(o) + {dst}
    && NoneFrom(m, dst, i)
    && forall path: seq<nat> | path != [] && |path| == level && path[0] < i :: View(m, dst, path) == View(m, src, path)
  }

  ghost predicate NoneFrom(m: Mem, t: Frame, i: nat) {
    forall at | at in m.pte && at.table == t :: at.index < i
  }

  lemma MirrorStart(o: Mem, level: nat, src: Frame, dst: Frame)
    requires Inv(o) && Enabled(o, NewTable(dst, level)) && IsTable(o, src, level)
    ensures Mirrored(o, Apply(o, NewTable(dst, level)), level, src, dst, 0)
  {
    FreshUnnamed(o, dst);
    var m := Apply(o, NewTable(dst, level));
    assert forall at | at in m.pte :: at.table in o.kind;
    assert Roots(m) == Roots(o) + {dst};
  }

  lemma MirrorSkip(o: Mem, m: Mem, level: nat, src: Frame, dst: Frame, i: nat)
    requires Mirrored(o, m, level, src, dst, i) && Slot(level, src, i) !in m.pte
    ensures Mirrored(o, m, level, src, dst, i + 1)
  {
    forall path: seq<nat> | path != [] && |path| == level && path[0] < i + 1
      ensures View(m, dst, path) == View(m, src, path)
    {
      if path[0] == i {
        assert Slot(level, dst, i) !in m.pte;
      }
    }
  }

  lemma MirrorEnd(o: Mem, m: Mem, level: nat, src: Frame, dst: Frame)
    requires Inv(m) && Mirrored(o, m, level, src, dst, Width(level)) && level > 0
    ensures Cloned(o, m, level, src, dst)
  {
    forall path: seq<nat> | |path| == level ensures View(m, dst, path) == View(m, src, path) {
      if path[0] >= Width(level) {
        assert Slot(level, dst, path[0]) !in m.pte && Slot(level, src, path[0]) !in m.pte;
      }
    }
  }

  /** The entry an action of the clone walk writes. */
  ghost predicate WritesNew(m: Mem, a: Action, d: Slot) {
    && d !in m.pte
    && match a
       case CopyOpaque(at, _) => at == d
       case MapDma(at, _) => at == d
       case ShareCow(_, dst) => dst == d
       case MapFresh(at, _, _) => at == d
       case LinkChild(at, _) => at == d
       case _ => false
  }

  lemma WriteNewEntry(m: Mem, a: Action, d: Slot, at: Slot)
    requires Inv(m) && Enabled(m, a) && WritesNew(m, a, d) && at != d
    ensures at in Apply(m, a).pte <==> at in m.pte
    ensures at in m.pte ==> SameOrDowngraded(at, m.pte[at], Apply(m, a).pte[at])
  {
    hide SlotsInTables, OwnerInverse, PagesKept, Counted, DmaCounted, FramesOk;
    if a.ShareCow? { HasTarget(m, a.src); }
  }

  lemma WriteNewFrames(m: Mem, a: Action, d: Slot, f: Frame)
    requires Inv(m) && Enabled(m, a) && WritesNew(m, a, d) && f in m.kind
    ensures f in Apply(m, a).kind && Apply(m, a).kind[f] == m.kind[f] && Content(Apply(m, a), f) == Content(m, f)
  {
    hide SlotsInTables, Targets, OwnerInverse, PagesKept, Counted, DmaCounted;
  }

  lemma WriteNewRoots(m: Mem, a: Action, d: Slot)
    requires Inv(m) && Enabled(m, a) && WritesNew(m, a, d)
    ensures Roots(Apply(m, a)) == Roots(m) - (if a.LinkChild? then {a.entry.frame} else {})
    ensures Apply(m, a).credit == m.credit && Apply(m, a).foreign == m.foreign
  {
    hide SlotsInTables, OwnerInverse, PagesKept, Counted, DmaCounted;
    if a.ShareCow? { PageTarget(m, a.src); }
  }

  /** Filling in an entry of the new table leaves what was there before as it was. */
  lemma GrowsWrite(o: Mem, m: Mem, a: Action, d: Slot)
    requires Inv(m) && Grows(o, m) && Enabled(m, a) && WritesNew(m, a, d) && d.table !in o.kind
    ensures Grows(o, Apply(m, a))
  {
    hide SlotsInTables, Targets, OwnerInverse, PagesKept, Counted, DmaCounted, FramesOk;
    var m' := Apply(m, a);
    WriteNewRoots(m, a, d);
    forall f | f in o.kind ensures f in m'.kind && m'.kind[f] == o.kind[f] && Content(m', f) == Content(o, f) {
      WriteNewFrames(m, a, d, f);
    }
    forall at: Slot | at.table in o.kind
      ensures && (at in o.pte <==> at in m'.pte)
              && (at in o.pte ==> SameOrDowngraded(at, o.pte[at], m'.pte[at]))
    {
      WriteNewEntry(m, a, d, at);
    }
  }

  lemma WriteNewKeeps(m: Mem, a: Action, d: Slot)
    requires Inv(m) && Enabled(m, a) && WritesNew(m, a, d) && d.table in Roots(m)
    ensures Keeps(m, Apply(m, a), Tables(m) - {d.table})
  {
    hide SlotsInTables, Targets, OwnerInverse, PagesKept, Counted, DmaCounted, FramesOk;
    var ts := Tables(m) - {d.table};
    forall at: Slot | at.table in ts
      ensures at in m.pte <==> at in Apply(m, a).pte
      ensures at in m.pte ==>
                && SameEntry(at, m.pte[at], Apply(m, a).pte[at])
                && (UseOf(at, m.pte[at]) == Link ==> m.pte[at].frame in ts)
                && (IsPage(UseOf(at, m.pte[at])) ==>
                      Content(Apply(m, a), m.pte[at].frame) == Content(m, m.pte[at].frame))
    {
      WriteNewEntry(m, a, d, at);
      if at in m.pte && UseOf(at, m.pte[at]) == Link { LinkTarget(m, at); }
      if at in m.pte && IsPage(UseOf(at, m.pte[at])) {
        PageTarget(m, at);
        WriteNewFrames(m, a, d, m.pte[at].frame);
      }
    }
  }

  /** Views that do not go through the new entry stay as they were. */
  lemma WriteNewView(m: Mem, a: Action, d: Slot, t: Frame, path: seq<nat>)
    requires Inv(m) && Enabled(m, a) && WritesNew(m, a, d) && d.table in Roots(m)
    requires t in Tables(m) && path != [] && Slot(|path|, t, path[0]) != d
    ensures View(Apply(m, a), t, path) == View(m, t, path)
  {
    hide SlotsInTables, Targets, OwnerInverse, PagesKept, Counted, DmaCounted, FramesOk;
    var at := Slot(|path|, t, path[0]);
    WriteNewKeeps(m, a, d);
    WriteNewEntry(m, a, d, at);
    if at in m.pte {
      if |path| > 1 && UseOf(at, m.pte[at]) == Link {
        LinkTarget(m, at);
        assert m.pte[at].frame in Tables(m) - {d.table};
        KeepsView(m, Apply(m, a), Tables(m) - {d.table}, m.pte[at].frame, path[1..]);
      } else if IsPage(UseOf(at, m.pte[at])) {
        PageTarget(m, at);
        WriteNewFrames(m, a, d, m.pte[at].frame);
      }
    }
  }

  /** The four ways the walk over a page table copies an entry. */
  ghost predicate CopiesLeaf(m: Mem, a: Action, s: Slot, d: Slot) {
    && s in m.pte && s.level == 1 && d.level == 1
    && var e := m.pte[s];
       || a == CopyOpaque(d, e)
       || a == MapDma(d, e)
       || a == ShareCow(s, d)
       || (a.MapFresh? && a.at == d && a.entry == e.(frame := a.entry.frame)
           && UseOf(s, e) == Own && a.content == Content(m, e.frame))
  }

  lemma CopiedLeafView(m: Mem, a: Action, s: Slot, d: Slot)
    requires Inv(m) && Enabled(m, a) && CopiesLeaf(m, a, s, d) && d !in m.pte
    ensures s in Apply(m, a).pte && d in Apply(m, a).pte
    ensures LeafView(Apply(m, a), d, Apply(m, a).pte[d]) == LeafView(Apply(m, a), s, Apply(m, a).pte[s])
  {
    hide SlotsInTables, Targets, OwnerInverse, PagesKept, Counted, DmaCounted, FramesOk;
    if IsPage(UseOf(s, m.pte[s])) { PageTarget(m, s); }
    if a.MapFresh? { FreshUnnamed(m, a.entry.frame); NotForeign(m, a.entry.frame); }
  }

  lemma MirrorLeaf(o: Mem, m: Mem, a: Action, src: Frame, dst: Frame, i: nat)
    requires Inv(o) && Inv(m) && Mirrored(o, m, 1, src, dst, i) && IsTable(o, src, 1) && Enabled(m, a)
    requires CopiesLeaf(m, a, Slot(1, src, i), Slot(1, dst, i))
    ensures Mirrored(o, Apply(m, a), 1, src, dst, i + 1)
  {
    hide SlotsInTables, Targets, OwnerInverse, PagesKept, Counted, DmaCounted, FramesOk;
    var s, d, m' := Slot(1, src, i), Slot(1, dst, i), Apply(m, a);
    assert d !in m.pte && WritesNew(m, a, d);
    GrowsWrite(o, m, a, d);
    WriteNewRoots(m, a, d);
    WriteNewFrames(m, a, d, dst);
    CopiedLeafView(m, a, s, d);
    forall at | at in m'.pte && at.table == dst ensures at.index < i + 1 {
      if at != d { WriteNewEntry(m, a, d, at); }
    }
    forall path: seq<nat> | path != [] && |path| == 1 && path[0] < i + 1
      ensures View(m', dst, path) == View(m', src, path)
    {
      if path[0] < i {
        WriteNewView(m, a, d, src, path);
        WriteNewView(m, a, d, dst, path);
      }
    }
  }

  /** The state in which a cloned child hangs loose, about to be linked. */
  ghost predicate ChildReady(o: Mem, m: Mem, m1: Mem, level: nat, src: Frame, dst: Frame, i: nat, c: Frame) {
    && Mirrored(o, m, level, src, dst, i) && IsTable(o, src, level) && 1 < level <= LEVELS && i < Width(level)
    && var s := Slot(level, src, i);
       && s in m.pte && UseOf(s, m.pte[s]) == Link
       && Cloned(m, m1, level - 1, m.pte[s].frame, c)
  }

  lemma LinkEnabled(o: Mem, m: Mem, m1: Mem, level: nat, src: Frame, dst: Frame, i: nat, c: Frame)
    requires Inv(o) && Inv(m) && Inv(m1) && ChildReady(o, m, m1, level, src, dst, i, c)
    ensures var s, d := Slot(level, src, i), Slot(level, dst, i);
            && s in m1.pte && m1.pte[s] == m.pte[s] && d !in m1.pte
            && Enabled(m1, LinkChild(d, m.pte[s].(frame := c)))
            && Roots(m1) - {c} == Roots(o) + {dst} && dst in m1.kind && IsTable(m1, dst, level)
            && Grows(o, m1) && c != dst
            && NoneFrom(m1, dst, i)
  {
    hide SlotsInTables, Targets, OwnerInverse, PagesKept, Counted, DmaCounted, FramesOk;
    GrowsTransitive(o, m, m1);
    var s, d := Slot(level, src, i), Slot(level, dst, i);
    assert s.table in m.kind;
    assert SameOrDowngraded(s, m.pte[s], m1.pte[s]);
    assert d.table in m.kind && d !in m.pte;
    assert c in Roots(m1);
    assert dst in Roots(m);
    forall at | at in m1.pte && at.table == dst ensures at.index < i { assert at.table in m.kind; }
  }

  lemma LinkViews(o: Mem, m: Mem, m1: Mem, level: nat, src: Frame, dst: Frame, i: nat, c: Frame, path: seq<nat>)
    requires Inv(o) && Inv(m) && Inv(m1) && ChildReady(o, m, m1, level, src, dst, i, c)
    requires |path| == level && path[0] < i + 1
    requires Enabled(m1, LinkChild(Slot(level, dst, i), m.pte[Slot(level, src, i)].(frame := c)))
    ensures var m2 := Apply(m1, LinkChild(Slot(level, dst, i), m.pte[Slot(level, src, i)].(frame := c)));
            View(m2, dst, path) == View(m2, src, path)
  {
    hide SlotsInTables, Targets, OwnerInverse, PagesKept, Counted, DmaCounted, FramesOk;
    LinkEnabled(o, m, m1, level, src, dst, i, c);
    var s, d := Slot(level, src, i), Slot(level, dst, i);
    var e := m.pte[s];
    var a := LinkChild(d, e.(frame := c));
    assert dst in Roots(m1) && dst != src;
    WriteNewView(m1, a, d, src, path);
    if path[0] < i {
      WriteNewView(m1, a, d, dst, path);
      GrowsView(m, m1, src, path);
      GrowsView(m, m1, dst, path);
    } else {
      LinkTarget(m1, s);
      WriteNewView(m1, a, d, c, path[1..]);
      WriteNewView(m1, a, d, e.frame, path[1..]);
      assert View(m1, c, path[1..]) == View(m1, e.frame, path[1..]);
    }
  }

  lemma MirrorLink(o: Mem, m: Mem, m1: Mem, level: nat, src: Frame, dst: Frame, i: nat, c: Frame)
    requires Inv(o) && Inv(m) && Inv(m1) && ChildReady(o, m, m1, level, src, dst, i, c)
    ensures var a := LinkChild(Slot(level, dst, i), m.pte[Slot(level, src, i)].(frame := c));
            Enabled(m1, a) && Mirrored(o, Apply(m1, a), level, src, dst, i + 1)
  {
    hide SlotsInTables, Targets, OwnerInverse, PagesKept, Counted, DmaCounted, FramesOk;
    LinkEnabled(o, m, m1, level, src, dst, i, c);
    var d := Slot(level, dst, i);
    var a := LinkChild(d, m.pte[Slot(level, src, i)].(frame := c));
    GrowsWrite(o, m1, a, d);
    WriteNewRoots(m1, a, d);
    forall path: seq<nat> | path != [] && |path| == level && path[0] < i + 1
      ensures View(Apply(m1, a), dst, path) == View(Apply(m1, a), src, path)
    {
      LinkViews(o, m, m1, level, src, dst, i, c, path);
    }
  }

  // ---------------------------------------------------------------- failure

  lemma OldTablesForest(o: Mem, m: Mem, dst: Frame)
    requires Inv(o) && Inv(m) && Grows(o, m) && Roots(m) == Roots(o) + {dst}
    ensures Forest(m, Tables(o))
  {
    hide SlotsInTables, Targets, PagesKept, Counted, DmaCounted, FramesOk;
    forall at | at in m.pte && UseOf(at, m.pte[at]) == Link
      ensures at.table in Tables(o) <==> m.pte[at].frame in Tables(o)
    {
      LinkTarget(m, at);
      var t := m.pte[at].frame;
      if at.table in Tables(o) {
        assert SameOrDowngraded(at, o.pte[at], m.pte[at]);
        LinkTarget(o, at);
      }
      if t in Tables(o) {
        assert t !in Roots(m) && t in o.kind;
        OwnerLink(o, t);
        assert SameOrDowngraded(o.owner[t], o.pte[o.owner[t]], m.pte[o.owner[t]]);
      }
    }
  }

  /** A clone that has not been finished: all that was there is still there, and one new root. */
  ghost predicate HalfBuilt(o: Mem, m: Mem, level: nat, dst: Frame) {
    && Grows(o, m) && Roots(m) == Roots(o) + {dst} && dst !in o.kind
    && IsTable(m, dst, level) && dst in Roots(m)
  }

  /** Nested rollback: freeing the half-built tree restores the frames exactly. */
  lemma FailUndone(o: Mem, m: Mem, m': Mem, level: nat, dst: Frame)
    requires Inv(o) && Inv(m) && Inv(m') && HalfBuilt(o, m, level, dst)
    requires Freed(m, m', dst) && SamePool(o, m')
    ensures Undone(o, m')
  {
    hide SlotsInTables, Targets, OwnerInverse, PagesKept, Counted, DmaCounted;
    OldTablesForest(o, m, dst);
    ForestInOthers(m, Tables(o), dst);
    ShrinksFewer(m, m', Others(m, dst), Tables(o));
    assert Roots(m') == Roots(o);
    GrowThenShrink(o, m, m');
    RollbackExact(o, m');
    assert m'.free == o.free;
    assert forall f | f in o.kind :: Content(m', f) == Content(o, f);
  }

  /** No frame enters or leaves the pool. */
  ghost predicate SamePool(o: Mem, m: Mem) {
    forall f :: f in m.free || f in m.kind <==> f in o.free || f in o.kind
  }

  /** A half-built clone whose child failed: the child left no trace, so the table can be freed
      as it stands. */
  lemma ChildUndone(o: Mem, m: Mem, m1: Mem, level: nat, src: Frame, dst: Frame, i: nat)
    requires Inv(o) && Inv(m) && Inv(m1) && Mirrored(o, m, level, src, dst, i) && Undone(m, m1)
    ensures HalfBuilt(o, m1, level, dst)
  {
    GrowsTransitive(o, m, m1);
  }

  lemma MirroredHalf(o: Mem, m: Mem, level: nat, src: Frame, dst: Frame, i: nat)
    requires Mirrored(o, m, level, src, dst, i)
    ensures HalfBuilt(o, m, level, dst)
  {}

  /** The source table is still there and its unvisited entry names a child of the next level. */
  lemma SourceChild(o: Mem, m: Mem, level: nat, src: Frame, dst: Frame, i: nat)
    requires Inv(m) && Mirrored(o, m, level, src, dst, i) && IsTable(o, src, level)
    requires Slot(level, src, i) in m.pte && UseOf(Slot(level, src, i), m.pte[Slot(level, src, i)]) == Link
    ensures IsTable(m, m.pte[Slot(level, src, i)].frame, level - 1)
  {
    LinkTarget(m, Slot(level, src, i));
  }

  /** The destination slot of the walk is free and inside the new table. */
  lemma DestinationFree(o: Mem, m: Mem, level: nat, src: Frame, dst: Frame, i: nat)
    requires Mirrored(o, m, level, src, dst, i) && 1 <= level <= LEVELS && i < Width(level)
    ensures InTable(m.kind, Slot(level, dst, i)) && Slot(level, dst, i) !in m.pte
  {}
}
