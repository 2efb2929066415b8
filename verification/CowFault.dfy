/** The fault resolver's section, split where clone can come between: it reads the entry and the count,
    and later, having decided, takes the count away and stores, or stores a copy. Clone does not
    take the lock this section holds. Exactly when the resolver may finish with what it has read. */
module CowFault {
  import opened Common
  import opened Paging
  import opened CowSteps
  import opened CowRuns
  import opened CowMachine
  import opened CowStale

  /** cow_ref_sub on the counts alone. */
  function Less(refs: map<Frame, nat>, f: Frame): map<Frame, nat> {
    if Count(refs, f) <= 1 then refs - {f} else refs[f := refs[f] - 1]
  }

  /** The resolver has read `e` and a count of at most 1, and makes the entry writable in place. */
  function Promoted(m: Mem, at: Slot, e: Entry, owner: map<Frame, Slot>): Mem {
    m.(refs := Less(m.refs, e.frame), pte := m.pte[at := WritableEntry(e, e.frame)], owner := owner)
  }

  /** The resolver has read `e` and a larger count, and stores an entry for its copy; the decrement of the
      old page is then owed. */
  function Copied(m: Mem, at: Slot, e: Entry, g: Frame, content: seq<Byte>, owner: map<Frame, Slot>): Mem {
    m.(free := m.free - {g}, kind := m.kind[g := Page], bytes := m.bytes[g := content],
       pte := m.pte[at := WritableEntry(e, g)], owner := owner, credit := m.credit + multiset{e.frame})
  }

  /** What the resolver has checked when it reads. */
  predicate Resolves(at: Slot, e: Entry) { UseOf(at, e) == Cow && !e.writable }

  /** Finishing at once is the single action. */
  lemma UninterruptedFault(m: Mem, at: Slot, g: Frame)
    requires at in m.pte && Count(m.refs, m.pte[at].frame) <= 1
    ensures Promoted(m, at, m.pte[at], m.owner[m.pte[at].frame := at]) == AfterPromote(m, at)
    ensures Copied(m, at, m.pte[at], g, Content(m, m.pte[at].frame), m.owner[g := at]) == AfterBreak(m, at, g)
  {}

  // ---------------------------------------------------------------- in place

  ghost predicate MayPromote(m: Mem, at: Slot, f: Frame) {
    (Holds(m.pte, at, Cow, f) && Count(m.refs, f) == 1) || Holds(m.pte, at, Own, f)
  }

  lemma PrivateSurvives(m: Mem, at: Slot, e: Entry)
    requires Inv(m) && Resolves(at, e) && Holds(m.pte, at, Own, e.frame)
    ensures Inv(Promoted(m, at, e, m.owner))
  {
    hide Inv;
    OnlyOwnName(m, at);
    SameUseInv(m, at, WritableEntry(e, e.frame));
    assert m.refs - {e.frame} == m.refs;
  }

  lemma SoleSurvives(m: Mem, at: Slot, e: Entry)
    requires Inv(m) && Resolves(at, e) && Holds(m.pte, at, Cow, e.frame) && Count(m.refs, e.frame) == 1
    ensures Inv(Promoted(m, at, e, m.owner[e.frame := at]))
  {
    hide Inv;
    var f := e.frame;
    SameUseInv(m, at, e);
    var m1 := m.(pte := m.pte[at := e]);
    PromoteInv(m1, at);
    assert m.pte[at := e][at := WritableEntry(e, f)] == m.pte[at := WritableEntry(e, f)];
    assert AfterPromote(m1, at) == Promoted(m, at, e, m.owner[f := at]);
  }

  lemma PromoteSurvives(m: Mem, at: Slot, e: Entry)
    requires Inv(m) && Resolves(at, e) && MayPromote(m, at, e.frame)
    ensures exists owner :: Inv(Promoted(m, at, e, owner))
  {
    hide Inv, Promoted;
    if Holds(m.pte, at, Own, e.frame) { PrivateSurvives(m, at, e); } else { SoleSurvives(m, at, e); }
  }

  /** The page is private afterwards, so no count, no debt and no other COW entry of it is left. */
  lemma PromotedAlone(m: Mem, at: Slot, e: Entry, owner: map<Frame, Slot>)
    requires Resolves(at, e) && Inv(Promoted(m, at, e, owner))
    ensures Count(m.refs, e.frame) <= 1 && m.credit[e.frame] == 0 && e.frame in m.kind && m.kind[e.frame] == Page
    ensures forall x | x in m.pte && x != at && IsPage(UseOf(x, m.pte[x])) :: m.pte[x].frame != e.frame
  {
    var m' := Promoted(m, at, e, owner);
    OnlyOwnName(m', at);
    PageTarget(m', at);
    NoHolders(m', e.frame);
    hide Inv;
    forall x | x in m.pte && x != at && IsPage(UseOf(x, m.pte[x])) ensures m.pte[x].frame != e.frame {
      assert m'.pte[x] == m.pte[x];
    }
  }

  lemma PromotedFits(m: Mem, at: Slot, e: Entry, owner: map<Frame, Slot>)
    requires Inv(m) && Resolves(at, e) && Inv(Promoted(m, at, e, owner))
    ensures MayPromote(m, at, e.frame)
  {
    var f := e.frame;
    PromotedAlone(m, at, e, owner);
    CountOf(m, f);
    hide Inv, Promoted;
    if f in m.refs {
      CountAtLeast(m, f);
      var x :| x in Holders(m.pte, Cow, f);
      assert Holds(m.pte, x, Cow, f);
    } else {
      PageOwned(m, f);
    }
  }

  lemma CountAtLeast(m: Mem, f: Frame)
    requires Inv(m) && f in m.refs
    ensures m.refs[f] >= 1
  {}

  /** A fault that decided to promote leaves memory in order, for some owners, if and only if, when it takes
      the count away and stores, its entry is the page's one COW entry, or has been made private. */
  lemma StalePromoteIff(m: Mem, at: Slot, e: Entry)
    requires Inv(m) && Resolves(at, e)
    ensures (exists owner :: Inv(Promoted(m, at, e, owner))) <==> MayPromote(m, at, e.frame)
  {
    hide Inv, Promoted, MayPromote;
    if owner :| Inv(Promoted(m, at, e, owner)) { PromotedFits(m, at, e, owner); }
    if MayPromote(m, at, e.frame) { PromoteSurvives(m, at, e); }
  }

  lemma SharedSole(m: Mem, at: Slot, dst: Slot)
    requires Inv(m) && Enabled(m, Promote(at)) && Enabled(m, ShareCow(at, dst))
    ensures var m' := Apply(m, ShareCow(at, dst));
      Resolves(at, m.pte[at]) && Count(m'.refs, m.pte[at].frame) == 2 && Holds(m'.pte, at, Cow, m.pte[at].frame)
  {
    hide Inv;
    SoleHolder(m, at);
    CountAtLeast(m, m.pte[at].frame);
    HasTarget(m, at);
  }

  /** A clone of the entry in between always breaks it. */
  lemma CloneBreaksPromote(m: Mem, at: Slot, dst: Slot)
    requires Inv(m) && Enabled(m, Promote(at)) && Enabled(m, ShareCow(at, dst))
    ensures forall owner :: !Inv(Promoted(Apply(m, ShareCow(at, dst)), at, m.pte[at], owner))
  {
    ShareCowInv(m, at, dst);
    SharedSole(m, at, dst);
    hide Inv, Promoted, Apply, Enabled, Resolves;
    StalePromoteIff(Apply(m, ShareCow(at, dst)), at, m.pte[at]);
  }

  // ---------------------------------------------------------------- by a copy

  lemma CopySurvives(m: Mem, at: Slot, e: Entry, g: Frame, content: seq<Byte>)
    requires Inv(m) && Resolves(at, e) && g in m.free && |content| == PAGE_SIZE && Holds(m.pte, at, Cow, e.frame)
    ensures exists owner :: Inv(Copied(m, at, e, g, content, owner))
  {
    hide Inv;
    SameUseInv(m, at, e);
    var m1 := m.(pte := m.pte[at := e]);
    BreakCopyInv(m1, at, g);
    var m2 := AfterBreak(m1, at, g);
    BytesInv(m2, g, content);
    CopiedIs(m, at, e, g, content);
  }

  lemma CopiedIs(m: Mem, at: Slot, e: Entry, g: Frame, content: seq<Byte>)
    requires at in m.pte && e.frame == m.pte[at].frame
    ensures var m2 := AfterBreak(m.(pte := m.pte[at := e]), at, g);
      m2.(bytes := m2.bytes[g := content]) == Copied(m, at, e, g, content, m.owner[g := at])
  {
    assert m.pte[at := e][at := WritableEntry(e, g)] == m.pte[at := WritableEntry(e, g)];
    var c := Content(m, e.frame);
    assert m.bytes[g := c][g := content] == m.bytes[g := content];
  }

  lemma CopiedFits(m: Mem, at: Slot, e: Entry, g: Frame, content: seq<Byte>, owner: map<Frame, Slot>)
    requires Inv(m) && Resolves(at, e) && Inv(Copied(m, at, e, g, content, owner))
    ensures Holds(m.pte, at, Cow, e.frame)
  {
    hide Inv, Holders;
    var m', f := Copied(m, at, e, g, content, owner), e.frame;
    CountOf(m, f);
    CountOf(m', f);
    PutElsewhere(m.pte, at, WritableEntry(e, g));
    HoldersMove(m.pte, m'.pte, at, Cow, f);
  }

  /** A fault that stores a copy leaves memory in order, for some owners, if and only if its entry still
      is a COW entry of the page when it stores. */
  lemma StaleCopyIff(m: Mem, at: Slot, e: Entry, g: Frame, content: seq<Byte>)
    requires Inv(m) && Resolves(at, e) && g in m.free && |content| == PAGE_SIZE
    ensures (exists owner :: Inv(Copied(m, at, e, g, content, owner))) <==> Holds(m.pte, at, Cow, e.frame)
  {
    hide Inv, Copied;
    if owner :| Inv(Copied(m, at, e, g, content, owner)) { CopiedFits(m, at, e, g, content, owner); }
    if Holds(m.pte, at, Cow, e.frame) { CopySurvives(m, at, e, g, content); }
  }
}
