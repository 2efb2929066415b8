/** Runs from boot in which another CPU rewrites the source of a clone's share: a fault between the
    load and the count, after which two spaces write one page, and an unmap between the count and the
    stores, after which a page has more holders than counts. */
module CowRace {
  import opened Common
  import opened Paging
  import opened CowSteps
  import opened CowRuns
  import opened CowMachine
  import opened CowLive
  import opened CowStale

  function Full(f: Frame): Entry { Entry(f, true, true, false, false, false, false, 0) }

  function Shared(f: Frame): Entry { CowEntry(Full(f)) }

  function Zeros(): (z: seq<Byte>)
    ensures |z| == PAGE_SIZE
  {
    seq(PAGE_SIZE, _ => 0)
  }

  // The parent: PML4 1, tables 2, 3 and 4, page 5. The clone: PML4 9, tables 8, 7 and 6.
  const ROOT_SLOT := Slot(4, 1, 0)
  const UPPER_SLOT := Slot(3, 2, 0)
  const LOWER_SLOT := Slot(2, 3, 0)
  const SOURCE := Slot(1, 4, 0)
  const COPY := Slot(1, 6, 0)
  const PAGE: Frame := 5
  const PARENT: Frame := 1
  const CHILD: Frame := 9

  function Empty(): World {
    World(Mem({1, 2, 3, 4, 5, 6, 7, 8, 9}, map[], map[], map[0 := Zeros()], map[], multiset{}, {0}, map[], multiset{}),
          map[], map[], map[], map[], map[], {}, map[])
  }

  ghost predicate Arrives(run: seq<World>, moves: seq<Move>, w: World) {
    IsWorldRun(run, moves) && run[|moves|] == w
  }

  lemma Then(run: seq<World>, moves: seq<Move>, w: World, mv: Move)
    returns (run': seq<World>, moves': seq<Move>)
    requires Arrives(run, moves, w) && Can(w, mv)
    ensures Arrives(run', moves', Go(w, mv)) && run' == run + [Go(w, mv)] && moves' == moves + [mv]
  {
    hide Can, Go, BootWorld;
    run', moves' := run + [Go(w, mv)], moves + [mv];
    forall i | 0 <= i < |moves'| ensures Can(run'[i], moves'[i]) && run'[i + 1] == Go(run'[i], moves'[i]) {
      assert i < |moves| ==> run'[i] == run[i] && run'[i + 1] == run[i + 1] && moves'[i] == moves[i];
    }
  }

  // ---------------------------------------------------------------- building tables

  function WithTable(w: World, t: Frame, level: nat): World {
    w.(mem := w.mem.(free := w.mem.free - {t}, kind := w.mem.kind[t := Table(level)]), inHand := w.inHand[t := 0])
  }

  function WithLink(w: World, at: Slot, t: Frame): World {
    w.(mem := w.mem.(pte := w.mem.pte[at := Full(t)], owner := w.mem.owner[t := at]), inHand := w.inHand - {t})
  }

  function WithoutTable(w: World, t: Frame): World {
    w.(mem := w.mem.(free := w.mem.free + {t}, kind := w.mem.kind - {t}), inHand := w.inHand - {t})
  }

  lemma TakeTable(run: seq<World>, moves: seq<Move>, w: World, t: Frame, level: nat)
    returns (run': seq<World>, moves': seq<Move>)
    requires Arrives(run, moves, w) && !Busy(w, 0) && t in w.mem.free && 1 <= level <= LEVELS
    ensures Arrives(run', moves', WithTable(w, t, level))
  {
    run', moves' := Then(run, moves, w, Act(0, NewTable(t, level)));
  }

  lemma LinkTable(run: seq<World>, moves: seq<Move>, w: World, at: Slot, t: Frame)
    returns (run': seq<World>, moves': seq<Move>)
    requires Arrives(run, moves, w) && !Busy(w, 0) && 1 < at.level && Enabled(w.mem, LinkChild(at, Full(t)))
    requires t in w.inHand && w.inHand[t] == 0 && at.table in w.inHand && w.inHand[at.table] == 0
    ensures Arrives(run', moves', WithLink(w, at, t))
  {
    run', moves' := Then(run, moves, w, Act(0, LinkChild(at, Full(t))));
  }

  lemma GiveTable(run: seq<World>, moves: seq<Move>, w: World, t: Frame)
    returns (run': seq<World>, moves': seq<Move>)
    requires Arrives(run, moves, w) && !Busy(w, 0) && Enabled(w.mem, FreeTable(t)) && t in w.inHand && w.inHand[t] == 0
    ensures Arrives(run', moves', WithoutTable(w, t))
  {
    run', moves' := Then(run, moves, w, Act(0, FreeTable(t)));
  }

  /** Four tables of one space, PML4 first. */
  function FourTables(w: World, root: Frame, upper: Frame, lower: Frame, leaf: Frame): World {
    WithTable(WithTable(WithTable(WithTable(w, root, 4), upper, 3), lower, 2), leaf, 1)
  }

  function Linked(w: World, root: Frame, upper: Frame, lower: Frame, leaf: Frame): World {
    WithLink(WithLink(WithLink(w, Slot(2, lower, 0), leaf), Slot(3, upper, 0), lower), Slot(4, root, 0), upper)
  }

  lemma TakeFour(run: seq<World>, moves: seq<Move>, w: World, root: Frame, upper: Frame, lower: Frame, leaf: Frame)
    returns (run': seq<World>, moves': seq<Move>)
    requires Arrives(run, moves, w) && !Busy(w, 0) && {root, upper, lower, leaf} <= w.mem.free
    requires root !in {upper, lower, leaf} && upper !in {lower, leaf} && lower != leaf
    ensures Arrives(run', moves', FourTables(w, root, upper, lower, leaf))
  {
    hide Arrives;
    run', moves' := TakeTable(run, moves, w, root, 4);
    var w1 := WithTable(w, root, 4);
    run', moves' := TakeTable(run', moves', w1, upper, 3);
    var w2 := WithTable(w1, upper, 3);
    run', moves' := TakeTable(run', moves', w2, lower, 2);
    run', moves' := TakeTable(run', moves', WithTable(w2, lower, 2), leaf, 1);
  }

  /** Four tables in the hands of CPU 0, of one space, and with no link yet. */
  ghost predicate Loose(w: World, root: Frame, upper: Frame, lower: Frame, leaf: Frame) {
    && {root, upper, lower, leaf} <= w.mem.kind.Keys && {root, upper, lower, leaf} <= w.inHand.Keys
    && w.mem.kind[root] == Table(4) && w.mem.kind[upper] == Table(3) && w.mem.kind[lower] == Table(2) && w.mem.kind[leaf] == Table(1)
    && w.inHand[root] == w.inHand[upper] == w.inHand[lower] == w.inHand[leaf] == 0
    && {root, upper, lower, leaf} !! w.mem.owner.Keys
    && Slot(4, root, 0) !in w.mem.pte && Slot(3, upper, 0) !in w.mem.pte && Slot(2, lower, 0) !in w.mem.pte
  }

  lemma LinkFour(run: seq<World>, moves: seq<Move>, w: World, root: Frame, upper: Frame, lower: Frame, leaf: Frame)
    returns (run': seq<World>, moves': seq<Move>)
    requires Arrives(run, moves, w) && !Busy(w, 0) && Loose(w, root, upper, lower, leaf)
    ensures Arrives(run', moves', Linked(w, root, upper, lower, leaf))
  {
    hide Arrives;
    run', moves' := LinkTable(run, moves, w, Slot(2, lower, 0), leaf);
    var w1 := WithLink(w, Slot(2, lower, 0), leaf);
    run', moves' := LinkTable(run', moves', w1, Slot(3, upper, 0), lower);
    run', moves' := LinkTable(run', moves', WithLink(w1, Slot(3, upper, 0), lower), Slot(4, root, 0), upper);
  }

  // ---------------------------------------------------------------- one space with one page

  ghost predicate Quiet(w: World) {
    w.loaded == map[] && w.counted == map[] && w.half == map[] && w.late == map[] && w.due == map[]
  }

  /** The parent is a live space with one page; `e` is the entry of the page. */
  ghost predicate Parent(w: World, e: Entry) {
    && Quiet(w) && PARENT in w.live && w.inHand.Keys !! {1, 2, 3, 4} && InTable(w.mem.kind, SOURCE)
    && {ROOT_SLOT, UPPER_SLOT, LOWER_SLOT, SOURCE} <= w.mem.pte.Keys
    && w.mem.pte[ROOT_SLOT] == Full(2) && w.mem.pte[UPPER_SLOT] == Full(3) && w.mem.pte[LOWER_SLOT] == Full(4)
    && w.mem.pte[SOURCE] == e && w.mem.credit == multiset{}
  }

  ghost predicate NoSlots(pte: map<Slot, Entry>) { forall at | at in pte :: at.table < 6 }

  /** The clone's frames are free. */
  ghost predicate Before(w: World, e: Entry, n: nat) {
    && Parent(w, e) && Count(w.mem.refs, PAGE) == n && {6, 7, 8, 9} <= w.mem.free && {6, 7, 8, 9} !! w.mem.owner.Keys
    && NoSlots(w.mem.pte) && !Busy(w, 0)
  }

  /** CPU 0 has taken the clone's tables. */
  ghost predicate During(w: World, e: Entry, n: nat) {
    && Parent(w, e) && Count(w.mem.refs, PAGE) == n && Loose(w, 9, 8, 7, 6) && NoSlots(w.mem.pte)
  }

  lemma FirstTables()
    ensures var w := FourTables(Empty(), 1, 2, 3, 4);
      && Quiet(w) && Loose(w, 1, 2, 3, 4) && w.mem.pte == map[] && w.mem.owner == map[] && w.mem.refs == map[]
      && w.mem.credit == multiset{} && {5, 6, 7, 8, 9} <= w.mem.free && w.inHand.Keys == {1, 2, 3, 4}
  {}

  lemma FirstLinks(w: World)
    requires Quiet(w) && Loose(w, 1, 2, 3, 4) && w.mem.pte == map[] && w.mem.owner == map[] && w.inHand.Keys == {1, 2, 3, 4}
    ensures var w' := Linked(w, 1, 2, 3, 4);
      && Quiet(w') && w'.inHand.Keys == {1} && w'.inHand[1] == 0 && w'.mem.owner.Keys == {2, 3, 4}
      && w'.mem.pte == map[LOWER_SLOT := Full(4), UPPER_SLOT := Full(3), ROOT_SLOT := Full(2)]
      && w'.mem == w.mem.(pte := w'.mem.pte, owner := w'.mem.owner)
  {}

  lemma BuildParent() returns (run: seq<World>, moves: seq<Move>, w: World)
    ensures Arrives(run, moves, w) && Quiet(w) && Loose(w, 1, 2, 3, 4) && w.mem.pte == map[] && w.mem.owner == map[]
    ensures w.mem.refs == map[] && w.mem.credit == multiset{} && {5, 6, 7, 8, 9} <= w.mem.free && w.inHand.Keys == {1, 2, 3, 4}
  {
    run, moves := [Empty()], [];
    assert Arrives(run, moves, Empty());
    assert {1, 2, 3, 4} <= Empty().mem.free && !Busy(Empty(), 0);
    FirstTables();
    hide Arrives, Empty, FourTables, Loose;
    run, moves := TakeFour(run, moves, Empty(), 1, 2, 3, 4);
    w := FourTables(Empty(), 1, 2, 3, 4);
  }

  lemma PublishParent() returns (run: seq<World>, moves: seq<Move>, w: World)
    ensures Arrives(run, moves, w) && Quiet(w) && PARENT in w.live && w.inHand == map[] && InTable(w.mem.kind, SOURCE)
    ensures w.mem.pte == map[LOWER_SLOT := Full(4), UPPER_SLOT := Full(3), ROOT_SLOT := Full(2)]
    ensures {5, 6, 7, 8, 9} <= w.mem.free && {6, 7, 8, 9} !! w.mem.owner.Keys && w.mem.refs == map[] && w.mem.credit == multiset{}
  {
    hide Arrives, Linked;
    run, moves, w := BuildParent();
    run, moves := LinkFour(run, moves, w, 1, 2, 3, 4);
    FirstLinks(w);
    w := Linked(w, 1, 2, 3, 4);
    run, moves := Then(run, moves, w, Publish(0, 1));
    w := w.(live := w.live + {1}, inHand := w.inHand - {1});
  }

  lemma MapOnePage() returns (run: seq<World>, moves: seq<Move>, w: World)
    ensures Arrives(run, moves, w) && Before(w, Full(PAGE), 0)
  {
    hide Arrives;
    run, moves, w := PublishParent();
    var mv := Act(0, MapFresh(SOURCE, Full(PAGE), Zeros()));
    run, moves := Then(run, moves, w, mv);
    w := Go(w, mv);
  }

  lemma BeginClone(run: seq<World>, moves: seq<Move>, w: World, e: Entry, n: nat)
    returns (run': seq<World>, moves': seq<Move>, w': World)
    requires Arrives(run, moves, w) && Before(w, e, n)
    ensures Arrives(run', moves', w') && During(w', e, n)
  {
    hide Arrives;
    run', moves' := TakeFour(run, moves, w, 9, 8, 7, 6);
    w' := FourTables(w, 9, 8, 7, 6);
  }

  // ---------------------------------------------------------------- a share

  function Stored(m: Mem, sh: Share): Mem { Finished(m, sh, OwnerAfter(m.owner, sh)) }

  /** The count and both stores of CPU 0, whatever has become of the source since its load. */
  lemma Finish(run: seq<World>, moves: seq<Move>, w: World, sh: Share)
    returns (run': seq<World>, moves': seq<Move>)
    requires Quiet(w) && sh.src != sh.dst && Arrives(run, moves, w.(loaded := map[0 := sh]))
    ensures Arrives(run', moves', w.(mem := Stored(w.mem, sh)))
  {
    hide Arrives;
    var a := w.(loaded := map[0 := sh]);
    var b := AfterCount(a, 0);
    run', moves' := Then(run, moves, a, CountUp(0));
    run', moves' := Then(run', moves', b, StoreSrc(0));
    run', moves' := Then(run', moves', AfterSrc(b, 0), StoreDst(0));
    AfterFinish(w, sh);
  }

  lemma AfterFinish(w: World, sh: Share)
    requires Quiet(w) && sh.src != sh.dst
    ensures AfterDst(AfterSrc(AfterCount(w.(loaded := map[0 := sh]), 0), 0), 0) == w.(mem := Stored(w.mem, sh))
  {
    hide OwnerAfter;
  }

  lemma LoadShare(run: seq<World>, moves: seq<Move>, w: World, e: Entry, n: nat)
    returns (run': seq<World>, moves': seq<Move>)
    requires During(w, e, n) && (e == Full(PAGE) || e == Shared(PAGE)) && Arrives(run, moves, w)
    ensures Arrives(run', moves', w.(loaded := map[0 := Share(SOURCE, COPY, e)]))
  {
    hide Arrives;
    run', moves' := Then(run, moves, w, Load(0, SOURCE, COPY));
    assert w.loaded[0 := Share(SOURCE, COPY, e)] == map[0 := Share(SOURCE, COPY, e)];
  }

  lemma StoredIs(w: World, e: Entry, n: nat, e': Entry, n': nat)
    requires During(w, e, n) && (e' == Full(PAGE) || e' == Shared(PAGE)) && n' == n + Delta(e')
    ensures var m := Stored(w.mem, Share(SOURCE, COPY, e'));
      && COPY in m.pte && m.pte[COPY] == Shared(PAGE)
      && During(w.(mem := m.(pte := m.pte - {COPY})), Shared(PAGE), n')
  {}

  /** The rollback of a failed fork: the clone's entry is dropped and its tables freed. */
  lemma DropCopy(run: seq<World>, moves: seq<Move>, w: World)
    returns (run': seq<World>, moves': seq<Move>, w': World)
    requires Arrives(run, moves, w) && COPY in w.mem.pte && w.mem.pte[COPY] == Shared(PAGE)
    requires During(w.(mem := w.mem.(pte := w.mem.pte - {COPY})), Shared(PAGE), 2)
    ensures Arrives(run', moves', w') && During(w', Shared(PAGE), 1)
  {
    hide Arrives;
    assert UseOf(COPY, Shared(PAGE)) == Cow;
    run', moves' := Then(run, moves, w, Act(0, Drop(COPY)));
    w' := w.(mem := AfterDrop(w.mem, COPY));
    run', moves' := Then(run', moves', w', Act(0, Settle(PAGE)));
    w' := w'.(mem := AfterSettle(w'.mem, PAGE));
  }

  /** The first `k` of the clone's tables, from the leaf up, have been freed. */
  ghost predicate Partly(w: World, e: Entry, n: nat, k: nat) {
    && Parent(w, e) && Count(w.mem.refs, PAGE) == n && {6, 7, 8, 9} !! w.mem.owner.Keys && NoSlots(w.mem.pte)
    && (forall t | 6 <= t < 6 + k :: t in w.mem.free)
    && (forall t | 6 + k <= t < 10 :: t in w.mem.kind && w.mem.kind[t].Table? && t in w.inHand && w.inHand[t] == 0)
  }

  lemma FreeNext(run: seq<World>, moves: seq<Move>, w: World, e: Entry, n: nat, k: nat)
    returns (run': seq<World>, moves': seq<Move>, w': World)
    requires Arrives(run, moves, w) && Partly(w, e, n, k) && k < 4
    ensures Arrives(run', moves', w') && Partly(w', e, n, k + 1)
  {
    hide Arrives;
    run', moves' := GiveTable(run, moves, w, 6 + k);
    w' := WithoutTable(w, 6 + k);
  }

  lemma FreeTables(run: seq<World>, moves: seq<Move>, w: World, e: Entry, n: nat)
    returns (run': seq<World>, moves': seq<Move>, w': World)
    requires Arrives(run, moves, w) && During(w, e, n)
    ensures Arrives(run', moves', w') && Before(w', e, n)
  {
    assert Partly(w, e, n, 0);
    hide Arrives, Partly;
    run', moves', w' := FreeNext(run, moves, w, e, n, 0);
    run', moves', w' := FreeNext(run', moves', w', e, n, 1);
    run', moves', w' := FreeNext(run', moves', w', e, n, 2);
    run', moves', w' := FreeNext(run', moves', w', e, n, 3);
    AllFreed(w', e, n);
  }

  lemma AllFreed(w: World, e: Entry, n: nat)
    requires Partly(w, e, n, 4)
    ensures Before(w, e, n)
  {}

  /** A fork that fails after it has shared the page: a COW page with one holder. */
  lemma FailedFork() returns (run: seq<World>, moves: seq<Move>, w: World)
    ensures Arrives(run, moves, w) && Before(w, Shared(PAGE), 1)
  {
    hide Arrives, Before, During;
    run, moves, w := MapOnePage();
    run, moves, w := BeginClone(run, moves, w, Full(PAGE), 0);
    run, moves := LoadShare(run, moves, w, Full(PAGE), 0);
    DuringQuiet(w, Full(PAGE), 0);
    run, moves := Finish(run, moves, w, Share(SOURCE, COPY, Full(PAGE)));
    StoredIs(w, Full(PAGE), 0, Full(PAGE), 2);
    w := w.(mem := Stored(w.mem, Share(SOURCE, COPY, Full(PAGE))));
    run, moves, w := DropCopy(run, moves, w);
    run, moves, w := FreeTables(run, moves, w, Shared(PAGE), 1);
  }

  lemma DuringQuiet(w: World, e: Entry, n: nat)
    requires During(w, e, n)
    ensures Quiet(w)
  {}

  // ---------------------------------------------------------------- a fault before the count

  /** CPU 0 has loaded the entry for its clone; CPU 1 takes a write fault in the same space. */
  lemma FaultBetween() returns (run: seq<World>, moves: seq<Move>, w: World)
    ensures Arrives(run, moves, w.(loaded := map[0 := Share(SOURCE, COPY, Shared(PAGE))]))
    ensures During(w, Full(PAGE), 0)
  {
    hide Arrives;
    run, moves, w := FailedFork();
    run, moves, w := BeginClone(run, moves, w, Shared(PAGE), 1);
    run, moves := LoadShare(run, moves, w, Shared(PAGE), 1);
    run, moves := Fault(run, moves, w);
    FaultIs(w);
    w := w.(mem := AfterPromote(w.mem, SOURCE));
  }

  lemma Fault(run: seq<World>, moves: seq<Move>, w: World) returns (run': seq<World>, moves': seq<Move>)
    requires During(w, Shared(PAGE), 1) && Arrives(run, moves, w.(loaded := map[0 := Share(SOURCE, COPY, Shared(PAGE))]))
    ensures SOURCE in w.mem.pte
    ensures Arrives(run', moves', w.(loaded := map[0 := Share(SOURCE, COPY, Shared(PAGE))], mem := AfterPromote(w.mem, SOURCE)))
  {
    hide Arrives;
    assert UseOf(SOURCE, Shared(PAGE)) == Cow;
    run', moves' := Then(run, moves, w.(loaded := map[0 := Share(SOURCE, COPY, Shared(PAGE))]), Act(1, Promote(SOURCE)));
  }

  lemma FaultIs(w: World)
    requires During(w, Shared(PAGE), 1)
    ensures During(w.(mem := AfterPromote(w.mem, SOURCE)), Full(PAGE), 0)
  {}

  /** The count is 1 and two entries hold the page. */
  lemma Undercounts() returns (run: seq<World>, moves: seq<Move>, w: World)
    ensures Arrives(run, moves, w) && COPY in w.mem.pte && w.mem.pte[COPY] == Shared(PAGE)
    ensures During(w.(mem := w.mem.(pte := w.mem.pte - {COPY})), Shared(PAGE), 1)
    ensures Holds(w.mem.pte, SOURCE, Cow, PAGE) && Holds(w.mem.pte, COPY, Cow, PAGE) && Count(w.mem.refs, PAGE) == 1
  {
    hide Arrives;
    run, moves, w := FaultBetween();
    DuringQuiet(w, Full(PAGE), 0);
    StoredIs(w, Full(PAGE), 0, Shared(PAGE), 1);
    hide Stored;
    run, moves := Finish(run, moves, w, Share(SOURCE, COPY, Shared(PAGE)));
    w := w.(mem := Stored(w.mem, Share(SOURCE, COPY, Shared(PAGE))));
    assert w.mem.pte[SOURCE] == (w.mem.pte - {COPY})[SOURCE];
  }

  /** A path of four indices from PML4 `r` to a writable entry for page `f`. */
  ghost predicate MayWrite(m: Mem, r: Frame, path: seq<nat>, f: Frame) {
    && |path| == LEVELS && LeafTable(m, r, path).Some?
    && var at := Slot(1, LeafTable(m, r, path).value, path[3]);
       at in m.pte && m.pte[at].writable && m.pte[at].frame == f
  }

  lemma PathTo(m: Mem, root: Frame, upper: Frame, lower: Frame, leaf: Frame)
    requires Slot(4, root, 0) in m.pte && m.pte[Slot(4, root, 0)] == Full(upper)
    requires Slot(3, upper, 0) in m.pte && m.pte[Slot(3, upper, 0)] == Full(lower)
    requires Slot(2, lower, 0) in m.pte && m.pte[Slot(2, lower, 0)] == Full(leaf)
    ensures LeafTable(m, root, [0, 0, 0, 0]) == Some(leaf)
  {
    assert [0, 0, 0, 0][1..] == [0, 0, 0] && [0, 0, 0][1..] == [0, 0] && [0, 0][1..] == [0];
    assert LeafTable(m, leaf, [0]) == Some(leaf);
    assert LeafTable(m, lower, [0, 0]) == Some(leaf);
    assert LeafTable(m, upper, [0, 0, 0]) == Some(leaf);
  }

  /** The clone is finished and published: a second live space. */
  lemma PublishChild() returns (run: seq<World>, moves: seq<Move>, w: World)
    ensures Arrives(run, moves, w) && Quiet(w) && PARENT in w.live && CHILD in w.live && w.inHand.Keys !! {4, 6}
    ensures Count(w.mem.refs, PAGE) == 1 && SOURCE in w.mem.pte && COPY in w.mem.pte
    ensures w.mem.pte[SOURCE] == w.mem.pte[COPY] == Shared(PAGE)
    ensures LeafTable(w.mem, PARENT, [0, 0, 0, 0]) == Some(4) && LeafTable(w.mem, CHILD, [0, 0, 0, 0]) == Some(6)
  {
    hide Arrives;
    run, moves, w := Undercounts();
    UnderLoose(w);
    run, moves := LinkFour(run, moves, w, 9, 8, 7, 6);
    LinkedIs(w);
    w := Linked(w, 9, 8, 7, 6);
    hide Linked, LeafTable;
    run, moves := Then(run, moves, w, Publish(0, 9));
    w := w.(live := w.live + {9}, inHand := w.inHand - {9});
  }

  lemma UnderLoose(w: World)
    requires COPY in w.mem.pte && During(w.(mem := w.mem.(pte := w.mem.pte - {COPY})), Shared(PAGE), 1)
    ensures Quiet(w) && !Busy(w, 0) && Loose(w, 9, 8, 7, 6)
  {
    var pte := w.mem.pte - {COPY};
    forall at | at in w.mem.pte && at != COPY ensures at.table < 6 { assert at in pte; }
  }

  lemma LinkedIs(w: World)
    requires COPY in w.mem.pte && w.mem.pte[COPY] == Shared(PAGE) && Loose(w, 9, 8, 7, 6)
    requires During(w.(mem := w.mem.(pte := w.mem.pte - {COPY})), Shared(PAGE), 1)
    ensures var w' := Linked(w, 9, 8, 7, 6); var m := w'.mem;
      && Quiet(w') && PARENT in w'.live && w'.inHand.Keys !! {4, 6} && 9 in w'.inHand && w'.inHand[9] == 0
      && 9 in m.kind && m.kind[9] == Table(4) && Count(m.refs, PAGE) == 1 && SOURCE in m.pte && COPY in m.pte
      && m.pte[SOURCE] == Shared(PAGE) && m.pte[COPY] == Shared(PAGE)
      && LeafTable(m, PARENT, [0, 0, 0, 0]) == Some(4) && LeafTable(m, CHILD, [0, 0, 0, 0]) == Some(6)
  {
    var m, pte := Linked(w, 9, 8, 7, 6).mem, w.mem.pte - {COPY};
    assert {ROOT_SLOT, UPPER_SLOT, LOWER_SLOT, SOURCE} <= pte.Keys;
    assert pte[ROOT_SLOT] == w.mem.pte[ROOT_SLOT] && pte[UPPER_SLOT] == w.mem.pte[UPPER_SLOT];
    assert pte[LOWER_SLOT] == w.mem.pte[LOWER_SLOT] && pte[SOURCE] == w.mem.pte[SOURCE];
    hide LeafTable;
    PathTo(m, 1, 2, 3, 4);
    PathTo(m, 9, 8, 7, 6);
  }

  lemma PromoteKeepsPaths(m: Mem, at: Slot, r: Frame, leaf: Frame)
    requires at in m.pte && at.level == 1 && LeafTable(m, r, [0, 0, 0, 0]) == Some(leaf)
    ensures LeafTable(AfterPromote(m, at), r, [0, 0, 0, 0]) == Some(leaf)
  {
    LeafTableSame(m, AfterPromote(m, at), r, [0, 0, 0, 0]);
  }

  lemma {:induction false} LeafTableSame(m: Mem, m': Mem, t: Frame, path: seq<nat>)
    requires forall at: Slot | at.level > 1 :: (at in m.pte <==> at in m'.pte) && (at in m.pte ==> m'.pte[at] == m.pte[at])
    ensures LeafTable(m', t, path) == LeafTable(m, t, path)
    decreases |path|
  {
    if |path| > 1 {
      var at := Slot(|path|, t, path[0]);
      if at in m.pte { LeafTableSame(m, m', m.pte[at].frame, path[1..]); }
    }
  }

  /** A write fault in each of two live spaces, and both may write the same page. */
  lemma TwoWriters() returns (run: seq<World>, moves: seq<Move>)
    ensures IsWorldRun(run, moves) && !CalmRun(run, moves)
    ensures var w := run[|moves|];
      && PARENT in w.live && CHILD in w.live && PARENT != CHILD
      && MayWrite(w.mem, PARENT, [0, 0, 0, 0], PAGE) && MayWrite(w.mem, CHILD, [0, 0, 0, 0], PAGE)
  {
    var w;
    run, moves, w := PublishChild();
    hide LeafTable, BootWorld;
    var m := w.mem;
    PromoteKeepsPaths(m, SOURCE, PARENT, 4);
    PromoteKeepsPaths(m, SOURCE, CHILD, 6);
    run, moves := FaultIn(run, moves, w, 1, SOURCE);
    w := w.(mem := AfterPromote(m, SOURCE));
    PromoteKeepsPaths(w.mem, COPY, PARENT, 4);
    PromoteKeepsPaths(w.mem, COPY, CHILD, 6);
    run, moves := FaultIn(run, moves, w, 2, COPY);
    hide IsWorldRun, CalmRun;
    if CalmRun(run, moves) { RunWritableAlone(run, moves, |moves|, SOURCE, COPY); }
  }

  lemma FaultIn(run: seq<World>, moves: seq<Move>, w: World, c: Cpu, at: Slot) returns (run': seq<World>, moves': seq<Move>)
    requires Arrives(run, moves, w) && Quiet(w) && at.table !in w.inHand && CowAt(w.mem.pte, at) && Count(w.mem.refs, w.mem.pte[at].frame) <= 1
    ensures Arrives(run', moves', w.(mem := AfterPromote(w.mem, at)))
  {
    run', moves' := Then(run, moves, w, Act(c, Promote(at)));
  }

  // ---------------------------------------------------------------- an unmap before the stores

  /** The page is counted for the clone while the source still holds it. */
  lemma CountedInTime() returns (run: seq<World>, moves: seq<Move>, w: World)
    ensures Arrives(run, moves, w) && w.counted == map[0 := Share(SOURCE, COPY, Shared(PAGE))]
    ensures During(w.(counted := map[], late := map[], due := map[]), Shared(PAGE), 2)
    ensures FitsNow(w.mem, Share(SOURCE, COPY, Shared(PAGE))) && |moves| > 0 && moves[|moves| - 1] == CountUp(0)
  {
    hide Arrives;
    run, moves, w := FailedFork();
    run, moves, w := BeginClone(run, moves, w, Shared(PAGE), 1);
    run, moves := LoadShare(run, moves, w, Shared(PAGE), 1);
    w := w.(loaded := map[0 := Share(SOURCE, COPY, Shared(PAGE))]);
    run, moves := Then(run, moves, w, CountUp(0));
    w := AfterCount(w, 0);
    assert map[0 := Share(SOURCE, COPY, Shared(PAGE))] - {0} == map[];
  }

  /** Move `k` is the count of CPU 0, and the source fitted then. */
  ghost predicate FittedAt(run: seq<World>, moves: seq<Move>, k: nat) {
    k < |moves| < |run| && moves[k] == CountUp(0) && FitsNow(run[k + 1].mem, Share(SOURCE, COPY, Shared(PAGE)))
  }

  lemma FittedStill(run: seq<World>, moves: seq<Move>, k: nat, w: World, mv: Move)
    requires FittedAt(run, moves, k) && |run| == |moves| + 1
    ensures FittedAt(run + [w], moves + [mv], k)
  {
    hide FitsNow;
  }

  function Unmapped(w: World): World
    requires SOURCE in w.mem.pte
  {
    w.(mem := AfterDrop(w.mem, SOURCE))
  }

  function Settled(w: World): World { w.(mem := AfterSettle(w.mem, PAGE)) }

  lemma UnmapIs(w: World)
    requires w.counted == map[0 := Share(SOURCE, COPY, Shared(PAGE))]
    requires During(w.(counted := map[], late := map[], due := map[]), Shared(PAGE), 2)
    ensures SOURCE in w.mem.pte && Can(w, Act(1, Drop(SOURCE))) && Go(w, Act(1, Drop(SOURCE))) == Unmapped(w)
    ensures var w1 := Unmapped(w);
      && SOURCE !in w1.mem.pte && COPY !in w1.mem.pte && w1.mem.credit == multiset{PAGE}
      && Count(w1.mem.refs, PAGE) == 2 && w1 == w.(mem := w1.mem)
  {
    assert UseOf(SOURCE, Shared(PAGE)) == Cow;
  }

  lemma SettleIs(w: World)
    requires w.counted == map[0 := Share(SOURCE, COPY, Shared(PAGE))] && w.loaded == map[] && w.half == map[]
    requires w.mem.credit == multiset{PAGE} && Count(w.mem.refs, PAGE) == 2
    ensures Can(w, Act(1, Settle(PAGE))) && Go(w, Act(1, Settle(PAGE))) == Settled(w)
    ensures var w1 := Settled(w);
      && w1.mem.credit == multiset{} && Count(w1.mem.refs, PAGE) == 1 && w1 == w.(mem := w1.mem) && w1.mem.pte == w.mem.pte
  {}

  /** CPU 1 unmaps the page before CPU 0 has stored anything. */
  lemma UnmapBetween() returns (run: seq<World>, moves: seq<Move>, w: World, k: nat)
    ensures Arrives(run, moves, w) && w.counted == map[0 := Share(SOURCE, COPY, Shared(PAGE))] && w.loaded == map[] && w.half == map[]
    ensures SOURCE !in w.mem.pte && COPY !in w.mem.pte && Count(w.mem.refs, PAGE) == 1 && w.mem.credit == multiset{}
    ensures FittedAt(run, moves, k)
  {
    run, moves, w := CountedInTime();
    k := |moves| - 1;
    assert FittedAt(run, moves, k) && |run| == |moves| + 1;
    UnmapIs(w);
    hide Arrives, FittedAt, Can, Go, Unmapped, Settled;
    FittedStill(run, moves, k, Unmapped(w), Act(1, Drop(SOURCE)));
    run, moves := Then(run, moves, w, Act(1, Drop(SOURCE)));
    w := Unmapped(w);
    SettleIs(w);
    FittedStill(run, moves, k, Settled(w), Act(1, Settle(PAGE)));
    run, moves := Then(run, moves, w, Act(1, Settle(PAGE)));
    w := Settled(w);
  }

  /** The source fitted when the page was counted, and yet two entries hold it with count 1. */
  lemma LateUndercounts() returns (run: seq<World>, moves: seq<Move>, k: nat)
    ensures IsWorldRun(run, moves) && FittedAt(run, moves, k)
    ensures var w := run[|moves|];
      && w.loaded == map[] && w.counted == map[] && w.half == map[] && w.mem.credit == multiset{}
      && Holds(w.mem.pte, SOURCE, Cow, PAGE) && Holds(w.mem.pte, COPY, Cow, PAGE) && Count(w.mem.refs, PAGE) == 1
  {
    var w;
    run, moves, w, k := UnmapBetween();
    hide FittedAt, BootWorld;
    FittedStill(run, moves, k, AfterSrc(w, 0), StoreSrc(0));
    run, moves := Then(run, moves, w, StoreSrc(0));
    w := AfterSrc(w, 0);
    FittedStill(run, moves, k, AfterDst(w, 0), StoreDst(0));
    run, moves := Then(run, moves, w, StoreDst(0));
    w := AfterDst(w, 0);
    assert map[0 := Share(SOURCE, COPY, Shared(PAGE))] - {0} == map[];
  }
}
