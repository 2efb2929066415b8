/** The fixed table of COW reference counts, searched linearly, and the map it stands for. */
module CowTable {
  import opened Paging

  const COW_MAX_REFS: nat := 32768
  const UINT32_MAX: nat := 0xFFFF_FFFF

  datatype CowRef = CowRef(used: bool, phys: Frame, refs: nat)

  const EMPTY := CowRef(false, 0, 0)

  ghost predicate UsedAt(t: seq<CowRef>, i: int, f: Frame) { 0 <= i < |t| && t[i].used && t[i].phys == f }

  /** Used slots carry distinct frames and 32-bit counts, and are exactly the map `r`. */
  ghost predicate Tracks(t: seq<CowRef>, r: map<Frame, nat>) {
    && |t| == COW_MAX_REFS
    && (forall i | 0 <= i < |t| && t[i].used ::
          1 <= t[i].refs <= UINT32_MAX && t[i].phys in r && r[t[i].phys] == t[i].refs)
    && (forall i, j | 0 <= i < j < |t| && t[i].used && t[j].used :: t[i].phys != t[j].phys)
    && (forall f | f in r :: exists i :: UsedAt(t, i, f))
  }

  /** The table stands for one map only, so the map is nothing the specification adds to it. */
  lemma TracksUnique(t: seq<CowRef>, r: map<Frame, nat>, r': map<Frame, nat>)
    requires Tracks(t, r) && Tracks(t, r')
    ensures r == r'
  {
    forall f ensures f in r <==> f in r' {
      if f in r { var i :| UsedAt(t, i, f); }
      if f in r' { var i :| UsedAt(t, i, f); }
    }
    forall f | f in r ensures r[f] == r'[f] { var i :| UsedAt(t, i, f); }
  }

  lemma TracksRecount(t: seq<CowRef>, r: map<Frame, nat>, i: nat, n: nat)
    requires Tracks(t, r) && i < |t| && t[i].used && 1 <= n <= UINT32_MAX
    ensures Tracks(t[i := t[i].(refs := n)], r[t[i].phys := n])
  {
    var t' := t[i := t[i].(refs := n)];
    forall f | f in r ensures exists j :: UsedAt(t', j, f) {
      var j :| UsedAt(t, j, f);
      assert UsedAt(t', j, f);
    }
  }

  lemma TracksInsert(t: seq<CowRef>, r: map<Frame, nat>, i: nat, f: Frame, n: nat)
    requires Tracks(t, r) && i < |t| && !t[i].used && f !in r && 1 <= n <= UINT32_MAX
    ensures Tracks(t[i := CowRef(true, f, n)], r[f := n])
  {
    var t' := t[i := CowRef(true, f, n)];
    assert UsedAt(t', i, f);
    forall g | g in r ensures exists j :: UsedAt(t', j, g) {
      var j :| UsedAt(t, j, g);
      assert UsedAt(t', j, g);
    }
  }

  lemma TracksRemove(t: seq<CowRef>, r: map<Frame, nat>, i: nat)
    requires Tracks(t, r) && i < |t| && t[i].used
    ensures Tracks(t[i := EMPTY], r - {t[i].phys})
  {
    var t' := t[i := EMPTY];
    forall g | g in r - {t[i].phys} ensures exists j :: UsedAt(t', j, g) {
      var j :| UsedAt(t, j, g);
      assert UsedAt(t', j, g);
    }
  }

  /** The frames of the used slots below `n`. */
  ghost function UsedFrames(t: seq<CowRef>, n: nat): set<Frame>
    requires n <= |t|
  {
    if n == 0 then {} else UsedFrames(t, n - 1) + if t[n - 1].used then {t[n - 1].phys} else {}
  }

  ghost predicate Listed(t: seq<CowRef>, n: nat, f: Frame) { exists i :: i < n && UsedAt(t, i, f) }

  lemma {:induction false} UsedFramesIs(t: seq<CowRef>, n: nat, f: Frame)
    requires n <= |t|
    ensures f in UsedFrames(t, n) <==> Listed(t, n, f)
  {
    if n > 0 {
      UsedFramesIs(t, n - 1, f);
      if Listed(t, n - 1, f) { var i :| i < n - 1 && UsedAt(t, i, f); }
      if Listed(t, n, f) {
        var i :| i < n && UsedAt(t, i, f);
        assert i < n - 1 ==> Listed(t, n - 1, f);
      }
      assert t[n - 1].used && t[n - 1].phys == f ==> UsedAt(t, n - 1, f);
    }
  }

  lemma {:induction false} UsedFramesCount(t: seq<CowRef>, n: nat)
    requires n <= |t|
    requires forall i, j | 0 <= i < j < |t| && t[i].used && t[j].used :: t[i].phys != t[j].phys
    ensures |UsedFrames(t, n)| <= n && (|UsedFrames(t, n)| == n <==> forall i | 0 <= i < n :: t[i].used)
  {
    if n > 0 {
      UsedFramesCount(t, n - 1);
      var last := t[n - 1];
      if last.used {
        UsedFramesIs(t, n - 1, last.phys);
        assert last.phys !in UsedFrames(t, n - 1);
      }
    }
  }

  /** The table is full exactly when the map it stands for has as many frames as it has slots. */
  lemma FullTable(t: seq<CowRef>, r: map<Frame, nat>)
    requires Tracks(t, r)
    ensures |r| <= COW_MAX_REFS
    ensures |r| == COW_MAX_REFS <==> forall i | 0 <= i < |t| :: t[i].used
  {
    UsedFramesCount(t, |t|);
    forall f ensures f in UsedFrames(t, |t|) <==> f in r.Keys {
      UsedFramesIs(t, |t|, f);
      if f in r { var i :| UsedAt(t, i, f); }
    }
    assert UsedFrames(t, |t|) == r.Keys;
  }

  lemma SlotCount(t: seq<CowRef>, r: map<Frame, nat>, i: int, f: Frame)
    requires Tracks(t, r) && UsedAt(t, i, f)
    ensures f in r && r[f] == t[i].refs && 1 <= r[f] <= UINT32_MAX
  {}

  method CowRefFind(t: seq<CowRef>, ghost r: map<Frame, nat>, phys: Frame) returns (slot: int)
    requires Tracks(t, r)
    ensures slot == -1 <==> phys !in r
    ensures slot != -1 ==> UsedAt(t, slot, phys)
  {
    for i := 0 to COW_MAX_REFS
      invariant forall j | 0 <= j < i && t[j].used :: t[j].phys != phys
    {
      if t[i].used && t[i].phys == phys { return i; }
    }
    assert forall i :: !UsedAt(t, i, phys);
    return -1;
  }

  method CowRefAlloc(t: seq<CowRef>, ghost r: map<Frame, nat>) returns (slot: int)
    requires Tracks(t, r)
    ensures slot == -1 <==> |r| == COW_MAX_REFS
    ensures slot != -1 ==> 0 <= slot < |t| && !t[slot].used
  {
    FullTable(t, r);
    for i := 0 to COW_MAX_REFS
      invariant forall j | 0 <= j < i :: t[j].used
    {
      if !t[i].used { return i; }
    }
    return -1;
  }
}
