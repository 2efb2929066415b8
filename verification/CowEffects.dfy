/** What fork's clone walk and the free walk do to memory as a whole: relations between the
    state before and after, and what follows from them. */
module CowEffects {
  import opened Paging
  import opened CowSteps
  import opened CowRuns

  // ---------------------------------------------------------------- clone

  /** Unchanged, or a private writable page turned into a COW page. */
  ghost predicate SameOrDowngraded(at: Slot, e: Entry, e': Entry) {
    e' == e || (UseOf(at, e) == Own && e.writable && e' == CowEntry(e))
  }

  ghost predicate EntriesGrow(m: Mem, m': Mem) {
    forall at: Slot | at.table in m.kind ::
      && (at in m.pte <==> at in m'.pte)
      && (at in m.pte ==> SameOrDowngraded(at, m.pte[at], m'.pte[at]))
  }

  /** All that existed before is still there; its entries were at most downgraded. */
  ghost predicate Grows(m: Mem, m': Mem) {
    && (forall f | f in m.kind :: f in m'.kind && m'.kind[f] == m.kind[f] && Content(m', f) == Content(m, f))
    && EntriesGrow(m, m')
    && m'.credit == m.credit && m'.foreign == m.foreign
  }

  lemma GrowsTransitive(m0: Mem, m1: Mem, m2: Mem)
    requires Grows(m0, m1) && Grows(m1, m2)
    ensures Grows(m0, m2)
  {
    forall at: Slot | at.table in m0.kind
      ensures && (at in m0.pte <==> at in m2.pte)
              && (at in m0.pte ==> SameOrDowngraded(at, m0.pte[at], m2.pte[at]))
    {
      assert at.table in m1.kind;
    }
  }

  /** Whatever grows keeps the view of every table that was there. */
  lemma GrowsKeeps(m: Mem, m': Mem)
    requires Inv(m) && Grows(m, m')
    ensures Keeps(m, m', Tables(m))
  {
    forall at: Slot | at.table in Tables(m) && at in m.pte
      ensures SameEntry(at, m.pte[at], m'.pte[at])
      ensures UseOf(at, m.pte[at]) == Link ==> m.pte[at].frame in Tables(m)
      ensures IsPage(UseOf(at, m.pte[at])) ==> Content(m', m.pte[at].frame) == Content(m, m.pte[at].frame)
    {
      HasTarget(m, at);
      assert SameOrDowngraded(at, m.pte[at], m'.pte[at]);
    }
  }

  lemma GrowsView(m: Mem, m': Mem, t: Frame, path: seq<nat>)
    requires Inv(m) && Grows(m, m') && t in Tables(m)
    ensures View(m', t, path) == View(m, t, path)
  {
    GrowsKeeps(m, m');
    KeepsView(m, m', Tables(m), t, path);
  }

  // ---------------------------------------------------------------- free

  /** Whole trees: a link stays on one side of `ts`. */
  ghost predicate Forest(m: Mem, ts: set<Frame>) {
    && ts <= Tables(m)
    && forall at | at in m.pte && UseOf(at, m.pte[at]) == Link :: at.table in ts <==> m.pte[at].frame in ts
  }

  /** Frames are only given back, and the tables `ts` keep every entry as it is. */
  ghost predicate Shrinks(m: Mem, m': Mem, ts: set<Frame>) {
    && (forall f | f in m'.kind :: f in m.kind && m'.kind[f] == m.kind[f])
    && (forall t | t in ts :: t in m'.kind)
    && (forall at: Slot | at.table in ts :: (at in m.pte <==> at in m'.pte) && (at in m.pte ==> m'.pte[at] == m.pte[at]))
    && (forall at | at in m'.pte :: at in m.pte && m'.pte[at] == m.pte[at])
    && m'.bytes == m.bytes && m'.foreign == m.foreign
  }

  lemma ShrinksTransitive(m0: Mem, m1: Mem, m2: Mem, ts: set<Frame>)
    requires Shrinks(m0, m1, ts) && Shrinks(m1, m2, ts)
    ensures Shrinks(m0, m2, ts)
  {}

  lemma ShrinksForest(m: Mem, m': Mem, ts: set<Frame>)
    requires Forest(m, ts) && Shrinks(m, m', ts)
    ensures Forest(m', ts)
  {}

  // ---------------------------------------------------------------- rollback

  /** A clone that grew `o` was undone: the new trees are freed, the old tables kept. */
  ghost predicate RolledBack(o: Mem, m: Mem) {
    && EntriesGrow(o, m) && m.credit == o.credit && m.foreign == o.foreign && Roots(m) == Roots(o)
    && forall t | t in Tables(o) :: t in m.kind && m.kind[t] == o.kind[t]
  }

  lemma GrowThenShrink(o: Mem, g: Mem, m: Mem)
    requires Grows(o, g) && Shrinks(g, m, Tables(o)) && m.credit == g.credit && Roots(m) == Roots(o)
    requires SlotsInTables(o.pte, o.kind)
    requires SlotsInTables(g.pte, g.kind)
    ensures RolledBack(o, m)
  {
    forall at: Slot | at.table in o.kind
      ensures && (at in o.pte <==> at in m.pte)
              && (at in o.pte ==> SameOrDowngraded(at, o.pte[at], m.pte[at]))
    {
      if at in o.pte || at in m.pte { assert at.table in Tables(o); }
    }
  }

  lemma {:induction false} NoNewTable(o: Mem, m: Mem, x: Frame)
    requires Inv(o) && Inv(m) && RolledBack(o, m) && x in m.kind && m.kind[x].Table?
    ensures x in o.kind && o.kind[x] == m.kind[x]
    decreases LEVELS - m.kind[x].level
  {
    if x in m.owner {
      OwnerLink(m, x);
      var at := m.owner[x];
      NoNewTable(o, m, at.table);
      HasTarget(o, at);
    } else {
      assert x in Roots(m);
    }
  }

  /** After a rollback every entry lies in an old table and names what it named before. */
  lemma OldEntry(o: Mem, m: Mem, at: Slot)
    requires Inv(o) && Inv(m) && RolledBack(o, m) && at in m.pte
    ensures at in o.pte && SameOrDowngraded(at, o.pte[at], m.pte[at])
  {
    NoNewTable(o, m, at.table);
  }

  lemma NoNewPage(o: Mem, m: Mem, f: Frame)
    requires Inv(o) && Inv(m) && RolledBack(o, m) && f in m.kind && m.kind[f] == Page
    ensures f in o.kind && o.kind[f] == Page
  {
    if f in m.owner {
      OldEntry(o, m, m.owner[f]);
      HasTarget(m, m.owner[f]);
      HasTarget(o, m.owner[f]);
    } else if f in m.credit {
      OwedIsPage(o, f);
    } else {
      HolderExists(m, f);
      var at :| Holds(m.pte, at, Cow, f);
      OldEntry(o, m, at);
      HasTarget(o, at);
    }
  }

  lemma HolderExists(m: Mem, f: Frame)
    requires Inv(m) && f in m.kind && m.kind[f] == Page && f !in m.owner && f !in m.credit
    ensures exists at :: Holds(m.pte, at, Cow, f)
  {
    assert |Holders(m.pte, Cow, f)| >= 1;
    var at :| at in Holders(m.pte, Cow, f);
    assert Holds(m.pte, at, Cow, f);
  }

  lemma NoLostPage(o: Mem, m: Mem, f: Frame)
    requires Inv(o) && Inv(m) && RolledBack(o, m) && f in o.kind && o.kind[f] == Page
    ensures f in m.kind && m.kind[f] == Page
  {
    if f in o.owner {
      HasTarget(o, o.owner[f]);
      HasTarget(m, o.owner[f]);
    } else if f in o.credit {
      OwedIsPage(m, f);
    } else {
      HolderExists(o, f);
      var at :| Holds(o.pte, at, Cow, f);
      HasTarget(m, at);
    }
  }

  /** Failed fork returns exactly the frames it took and frees none twice. */
  lemma RollbackExact(o: Mem, m: Mem)
    requires Inv(o) && Inv(m) && RolledBack(o, m)
    ensures m.kind == o.kind
  {
    forall f ensures f in m.kind <==> f in o.kind {
      if f in m.kind { if m.kind[f].Table? { NoNewTable(o, m, f); } else { NoNewPage(o, m, f); } }
      if f in o.kind { if o.kind[f].Page? { NoLostPage(o, m, f); } else { assert f in Tables(o); } }
    }
    forall f | f in m.kind ensures m.kind[f] == o.kind[f] {
      if m.kind[f].Table? { NoNewTable(o, m, f); } else { NoNewPage(o, m, f); }
    }
  }

  /** After a failed fork a downgraded page has count 1, so the next write fault makes it
      writable again without a copy; every page shared before keeps its count. */
  lemma RollbackCounts(o: Mem, m: Mem, at: Slot)
    requires Inv(o) && Inv(m) && RolledBack(o, m) && at in o.pte && IsPage(UseOf(at, o.pte[at]))
    ensures at in m.pte && m.pte[at].frame == o.pte[at].frame
    ensures UseOf(at, o.pte[at]) == Own && m.pte[at] != o.pte[at] ==>
              Count(m.refs, m.pte[at].frame) == 1 && Enabled(m, Promote(at))
    ensures UseOf(at, o.pte[at]) == Cow ==>
              m.pte[at] == o.pte[at] && Count(m.refs, o.pte[at].frame) == Count(o.refs, o.pte[at].frame)
  {
    hide SlotsInTables, Targets, OwnerInverse, PagesKept, Counted, DmaCounted, FramesOk;
    var f := o.pte[at].frame;
    InOldTable(o, at);
    assert SameOrDowngraded(at, o.pte[at], m.pte[at]);
    HasTarget(o, at);
    HasTarget(m, at);
    CountIs(m, f);
    if UseOf(at, o.pte[at]) == Own {
      OnlyOwnName(o, at);
      NoHolders(o, f);
      if m.pte[at] != o.pte[at] {
        forall s | s in Holders(m.pte, Cow, f) ensures s == at { OldEntry(o, m, s); }
        assert Holders(m.pte, Cow, f) == {at};
      }
    } else {
      CountIs(o, f);
      SharedHolders(o, m, f);
    }
  }

  lemma InOldTable(o: Mem, at: Slot)
    requires Inv(o) && at in o.pte
    ensures at.table in o.kind
  {}

  lemma CountIs(m: Mem, f: Frame)
    requires Inv(m)
    ensures Count(m.refs, f) == |Holders(m.pte, Cow, f)| + m.credit[f]
  {
    if f !in m.refs { NoHolders(m, f); }
  }

  lemma SharedHolders(o: Mem, m: Mem, f: Frame)
    requires Inv(o) && Inv(m) && RolledBack(o, m) && f in o.refs
    ensures Holders(m.pte, Cow, f) == Holders(o.pte, Cow, f)
  {
    hide SlotsInTables, Targets, OwnerInverse, PagesKept, Counted, DmaCounted, FramesOk;
    OwnNotShared(o, f);
    forall s ensures s in Holders(m.pte, Cow, f) <==> s in Holders(o.pte, Cow, f) {
      if s in m.pte { OldEntry(o, m, s); }
      if s in o.pte { InOldTable(o, s); }
    }
  }
}
