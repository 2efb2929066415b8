/** Loading a program and the shared objects it needs: reading off the extent of a file's loadable
    segments, placing it, and working through the DT_NEEDED entries of everything loaded so far
    (compare chapter 5, Dynamic Linking, of the System V gABI). */
module ExecLoader {
  import opened Common

  const WORD: nat := 0x1_0000_0000_0000_0000
  const PAGE: nat := 4096
  const PATH_MAX: nat := 256
  const MAX_MODULES: nat := 8
  const MAX_NEEDED: nat := 32
  const DYN_BASE: nat := 0x4000_0000
  const DSO_BASE: nat := 0x4800_0000
  const DSO_LIMIT: nat := 0x4F00_0000
  const DSO_ALIGN: nat := 0x20_0000
  const USER_MIN: nat := 0x2000_0000
  const CANONICAL_LOW_MAX: nat := 0x8000_0000_0000

  type Word = w: int | 0 <= w < WORD

  /** A PT_LOAD header; `good` says that its file bounds, protections and mapping are accepted. */
  datatype Segment = Segment(vaddr: Word, memsz: Word, good: bool)

  /** What the loader reads from a file it accepts as an ELF image; a needed entry is None when
      its string-table offset is invalid. */
  datatype Elf = Elf(shared: bool, entry: Word, segments: seq<Segment>, hasDynamic: bool,
                     soname: string, needed: seq<Option<string>>)

  datatype Module = Module(path: string, soname: string, needed: seq<Option<string>>,
                           bias: Word, mapStart: Word, mapEnd: Word, entry: Word)

  /** 64-bit addition. */
  function Add(a: Word, b: Word): Word { if a + b < WORD then a + b else a + b - WORD }

  function AlignDownPage(x: Word): Word { x / PAGE * PAGE }

  /** Wraps to zero at the top of the address space. */
  function AlignUpPage(x: Word): Word { Add(x, PAGE - 1) / PAGE * PAGE }

  /** Syscall_align_up_pow2 for the fixed power-of-two alignment: zero when it would overflow. */
  function AlignUp(x: Word): Word {
    if x > WORD - 1 - (DSO_ALIGN - 1) then 0 else (x + (DSO_ALIGN - 1)) / DSO_ALIGN * DSO_ALIGN
  }

  function Truncated(s: string): string { if |s| >= PATH_MAX then s[..PATH_MAX - 1] else s }

  // ---------------------------------------------------------------- extents

  predicate SegmentFits(g: Segment) {
    g.memsz == 0 || (g.vaddr + g.memsz < WORD && AlignDownPage(g.vaddr) < AlignUpPage(g.vaddr + g.memsz))
  }

  /** The pages from `lo` to `hi` cover every byte of the segment. */
  predicate Covered(g: Segment, lo: int, hi: int) {
    g.memsz > 0 ==> lo <= g.vaddr && g.vaddr + g.memsz <= hi
  }

  function First(g: Segment): Word { AlignDownPage(g.vaddr) }

  function Past(g: Segment): Word { AlignUpPage(Add(g.vaddr, g.memsz)) }

  /** The lowest page of any segment that has bytes, and the end of the highest. */
  function Lowest(segments: seq<Segment>): Word {
    if segments == [] then WORD - 1 else
    var rest, g := Lowest(segments[..|segments| - 1]), segments[|segments| - 1];
    if g.memsz != 0 && First(g) < rest then First(g) else rest
  }

  function Highest(segments: seq<Segment>): Word {
    if segments == [] then 0 else
    var rest, g := Highest(segments[..|segments| - 1]), segments[|segments| - 1];
    if g.memsz != 0 && Past(g) > rest then Past(g) else rest
  }

  predicate AllFit(segments: seq<Segment>) {
    forall i | 0 <= i < |segments| :: SegmentFits(segments[i])
  }

  /** Some segment has bytes, and none wraps around the address space. */
  predicate HasExtent(segments: seq<Segment>) {
    AllFit(segments) && exists i | 0 <= i < |segments| :: segments[i].memsz > 0
  }

  lemma SegmentPages(g: Segment)
    requires SegmentFits(g) && g.memsz > 0
    ensures First(g) <= g.vaddr && First(g) % PAGE == 0 && First(g) < WORD - 1
    ensures g.vaddr + g.memsz <= Past(g) && Past(g) % PAGE == 0 && First(g) < Past(g)
  {}

  /** A segment fits exactly when it ends a page before the top of the address space. */
  lemma SegmentFitsIff(g: Segment)
    ensures SegmentFits(g) <==> g.memsz == 0 || g.vaddr + g.memsz <= WORD - PAGE
  {}

  /** The ends are tight: some segment begins in the first page, and some ends in the last. */
  lemma {:induction false} ExtentTight(segments: seq<Segment>) returns (first: nat, last: nat)
    requires HasExtent(segments)
    ensures first < |segments| && segments[first].memsz > 0 && segments[first].vaddr < Lowest(segments) + PAGE
    ensures last < |segments| && segments[last].memsz > 0 && segments[last].vaddr + segments[last].memsz > Highest(segments) - PAGE
  {
    var n := |segments| - 1;
    var rest, g := segments[..n], segments[n];
    first, last := n, n;
    ExtentStep(rest);
    if g.memsz > 0 {
      SegmentPages(g);
      EndsInPages(g);
    }
    hide First, Past, SegmentFits;
    if exists i | 0 <= i < |rest| :: rest[i].memsz > 0 {
      var f, l := ExtentTight(rest);
      if g.memsz == 0 || First(g) >= Lowest(rest) { first := f; }
      if g.memsz == 0 || Past(g) <= Highest(rest) { last := l; }
    }
  }

  lemma EndsInPages(g: Segment)
    requires SegmentFits(g) && g.memsz > 0
    ensures g.vaddr < First(g) + PAGE && g.vaddr + g.memsz > Past(g) - PAGE
  {}

  lemma {:induction false} ExtentStep(segments: seq<Segment>)
    requires AllFit(segments)
    ensures (forall i | 0 <= i < |segments| :: segments[i].memsz == 0) ==> Lowest(segments) == WORD - 1 && Highest(segments) == 0
    ensures HasExtent(segments) ==> Lowest(segments) < Highest(segments) && Lowest(segments) < WORD - 1
    ensures HasExtent(segments) ==> Lowest(segments) % PAGE == 0 && Highest(segments) % PAGE == 0
    ensures forall i | 0 <= i < |segments| :: Covered(segments[i], Lowest(segments), Highest(segments))
  {
    if segments != [] {
      var rest, g := segments[..|segments| - 1], segments[|segments| - 1];
      ExtentStep(rest);
      assert forall i | 0 <= i < |rest| :: segments[i] == rest[i];
      if g.memsz > 0 { SegmentPages(g); }
      hide First, Past, SegmentFits;
      assert HasExtent(segments) ==> HasExtent(rest) || g.memsz > 0;
    }
  }

  method SegmentSpan(g: Segment) returns (ok: bool, first: Word, past: Word)
    requires g.memsz > 0
    ensures ok <==> SegmentFits(g)
    ensures first == First(g) && past == Past(g)
  {
    var end := Add(g.vaddr, g.memsz);
    first, past := AlignDownPage(g.vaddr), AlignUpPage(end);
    ok := end >= g.vaddr && past > first;
  }

  /** The loop over the program headers. */
  method FindExtent(segments: seq<Segment>) returns (ok: bool, lo: Word, hi: Word)
    ensures ok <==> HasExtent(segments)
    ensures ok ==> lo == Lowest(segments) && hi == Highest(segments)
  {
    hide First, Past;
    var hasLoad := false;
    lo, hi := WORD - 1, 0;
    for i := 0 to |segments|
      invariant hasLoad == (i > 0)
      invariant AllFit(segments[..i]) && lo == Lowest(segments[..i]) && hi == Highest(segments[..i])
    {
      hide SegmentFits;
      var g := segments[i];
      hasLoad := true;
      assert segments[..i + 1][..i] == segments[..i];
      if g.memsz != 0 {
        var fits, first, past := SegmentSpan(g);
        if !fits {
          return false, 0, 0;
        }
        lo, hi := if first < lo then first else lo, if past > hi then past else hi;
      } else {
        EmptyFits(g);
      }
    }
    assert segments[..|segments|] == segments;
    ExtentStep(segments);
    ok := hasLoad && lo != WORD - 1 && hi > lo;
  }

  lemma EmptyFits(g: Segment)
    requires g.memsz == 0
    ensures SegmentFits(g)
  {}

  // ---------------------------------------------------------------- placing a file

  predicate Canonical(x: Word) { x < CANONICAL_LOW_MAX }

  /** Where the segment lands, and whether the loader takes it there. */
  predicate SegmentLoads(g: Segment, bias: Word) {
    g.memsz == 0 ||
    var base := Add(bias, g.vaddr);
    var end := Add(base, g.memsz);
    && g.good && base >= bias && Canonical(base) && base >= USER_MIN
    && end >= base && end > 0 && Canonical(end - 1) && AlignUpPage(end) > AlignDownPage(base)
  }

  /** A segment with bytes is taken exactly when they all land in user space, without wrapping. */
  lemma SegmentLoadsIff(g: Segment, bias: Word)
    requires g.memsz > 0
    ensures SegmentLoads(g, bias) <==>
            g.good && USER_MIN <= bias + g.vaddr && bias + g.vaddr + g.memsz <= CANONICAL_LOW_MAX
  {
    var base := Add(bias, g.vaddr);
    if base >= bias && base < CANONICAL_LOW_MAX {
      assert base == bias + g.vaddr;
      var end := Add(base, g.memsz);
      if end >= base && end <= CANONICAL_LOW_MAX { assert AlignUpPage(end) >= end > base >= AlignDownPage(base); }
    }
  }

  method LoadSegments(segments: seq<Segment>, bias: Word) returns (ok: bool)
    ensures ok <==> forall i | 0 <= i < |segments| :: SegmentLoads(segments[i], bias)
  {
    for i := 0 to |segments|
      invariant forall k | 0 <= k < i :: SegmentLoads(segments[k], bias)
    {
      if !SegmentLoads(segments[i], bias) { return false; }
    }
    return true;
  }

  /** The next free place for a shared object that spans `lo` to `hi`: its bias and the new cursor.
      From an aligned cursor in the window it is taken exactly when the object fits. */
  function PlaceShared(lo: Word, hi: Word, cursor: Word): (placed: Option<(Word, Word)>)
    requires lo < hi
    ensures placed.Some? ==>
      var (bias, next) := placed.value;
      var base := bias + lo;
      && base % DSO_ALIGN == 0 && DSO_BASE <= base && cursor <= base
      && base < bias + hi <= next <= DSO_LIMIT && next % DSO_ALIGN == 0
    ensures CursorOk(cursor) ==>
      (placed.Some? <==> lo <= cursor && cursor + (hi - lo) <= DSO_LIMIT) && (placed.Some? ==> placed.value.0 + lo == cursor)
  {
    var from := if cursor < DSO_BASE then DSO_BASE else cursor;
    var base := AlignUp(from);
    if base == 0 || lo > base then None else
    var bias: Word := base - lo;
    var top := Add(bias, hi);
    if top < bias || top > DSO_LIMIT || top == 0 || !Canonical(top - 1) then None else
    var next := AlignUp(top);
    if next == 0 || next > DSO_LIMIT then None else Some((bias, next))
  }

  predicate CursorOk(cursor: Word) { DSO_BASE <= cursor <= DSO_LIMIT && cursor % DSO_ALIGN == 0 }

  /** The main program: a fixed image stays where it is linked, a position-independent one goes to
      its own base. */
  function PlaceMain(elf: Elf, lo: Word, hi: Word): (bias: Option<Word>)
    requires lo < hi
    ensures bias.Some? && elf.shared ==> bias.value + lo == DYN_BASE && bias.value + hi < WORD
    ensures bias.Some? && !elf.shared ==> bias.value == 0
    ensures elf.shared ==> (bias.Some? <==> && lo <= DYN_BASE && DYN_BASE + (hi - lo) <= CANONICAL_LOW_MAX
                                            && USER_MIN <= DYN_BASE - lo + elf.entry < CANONICAL_LOW_MAX)
    ensures !elf.shared ==> (bias.Some? <==> USER_MIN <= elf.entry < CANONICAL_LOW_MAX)
  {
    if !elf.shared then
      if Canonical(elf.entry) && elf.entry >= USER_MIN then Some(0) else None
    else if lo > DYN_BASE then None else
    var bias: Word := DYN_BASE - lo;
    var top := Add(bias, hi);
    var entry := Add(bias, elf.entry);
    if top < bias || top == 0 || !Canonical(top - 1) then None else
    if entry < bias || !Canonical(entry) || entry < USER_MIN then None else Some(bias)
  }

  /** Where a file goes, and the cursor after it. */
  function Place(elf: Elf, isMain: bool, cursor: Word): (placed: Option<(Word, Word)>)
    requires HasExtent(elf.segments)
  {
    ExtentStep(elf.segments);
    var lo, hi := Lowest(elf.segments), Highest(elf.segments);
    if !isMain then PlaceShared(lo, hi, cursor) else
    match PlaceMain(elf, lo, hi)
    case None => None
    case Some(bias) => Some((bias, cursor))
  }

  predicate Loads(elf: Elf, isMain: bool, cursor: Word) {
    && (isMain || (elf.shared && elf.hasDynamic))
    && HasExtent(elf.segments) && Place(elf, isMain, cursor).Some?
    && (forall i | 0 <= i < |elf.segments| :: SegmentLoads(elf.segments[i], Place(elf, isMain, cursor).value.0))
    && (elf.hasDynamic ==> |elf.needed| <= MAX_NEEDED)
  }

  function ModuleOf(elf: Elf, path: string, bias: Word): Module {
    Module(Truncated(path),
           if elf.hasDynamic then Truncated(elf.soname) else "",
           if elf.hasDynamic then elf.needed else [],
           bias, Add(bias, Lowest(elf.segments)), Add(bias, Highest(elf.segments)), Add(bias, elf.entry))
  }

  /** The module holds the whole image: every segment's bytes land between its two ends. */
  predicate HoldsImage(m: Module, elf: Elf) {
    forall i | 0 <= i < |elf.segments| :: Covered(elf.segments[i], m.mapStart - m.bias, m.mapEnd - m.bias)
  }

  predicate InWindow(m: Module) {
    DSO_BASE <= m.mapStart < m.mapEnd <= DSO_LIMIT && m.mapStart % DSO_ALIGN == 0
  }

  predicate PlacedOk(m: Module, shared: bool, isMain: bool, cursor: Word, next: Word) {
    && m.mapStart < m.mapEnd
    && (!isMain ==> InWindow(m) && cursor <= m.mapStart && m.mapEnd <= next && CursorOk(next))
    && (!isMain && CursorOk(cursor) ==> m.mapStart == cursor)
    && (isMain && shared ==> m.mapStart == DYN_BASE)
    && (isMain ==> next == cursor)
    && (isMain ==> USER_MIN <= m.entry < CANONICAL_LOW_MAX)
  }

  lemma Told(elf: Elf, path: string, bias: Word)
    ensures TellsOf(ModuleOf(elf, path, bias), path, elf)
  {
    hide Lowest, Highest;
  }

  /** The entry point of a program lands where its bias says, in user space. */
  lemma MainEntry(elf: Elf, cursor: Word)
    requires HasExtent(elf.segments) && Place(elf, true, cursor).Some?
    ensures var bias := Place(elf, true, cursor).value.0;
      USER_MIN <= bias + elf.entry < CANONICAL_LOW_MAX && Add(bias, elf.entry) == bias + elf.entry
  {
    ExtentStep(elf.segments);
    hide Lowest, Highest, HasExtent;
  }

  lemma NoWrap(elf: Elf, isMain: bool, cursor: Word)
    requires HasExtent(elf.segments) && Place(elf, isMain, cursor).Some?
    ensures var bias := Place(elf, isMain, cursor).value.0;
      bias + Lowest(elf.segments) < bias + Highest(elf.segments) < WORD
  {
    ExtentStep(elf.segments);
    hide PlaceShared, PlaceMain, Lowest, Highest, HasExtent, CursorOk;
  }

  lemma ImageHeld(elf: Elf, path: string, bias: Word)
    requires HasExtent(elf.segments) && bias + Lowest(elf.segments) < bias + Highest(elf.segments) < WORD
    ensures HoldsImage(ModuleOf(elf, path, bias), elf)
  {
    ExtentStep(elf.segments);
    hide Lowest, Highest, HasExtent, Truncated;
  }

  lemma ModulePlaced(elf: Elf, path: string, isMain: bool, cursor: Word)
    requires Loads(elf, isMain, cursor)
    ensures var (bias, next) := Place(elf, isMain, cursor).value;
      && HoldsImage(ModuleOf(elf, path, bias), elf) && PlacedOk(ModuleOf(elf, path, bias), elf.shared, isMain, cursor, next)
      && TellsOf(ModuleOf(elf, path, bias), path, elf)
      && (isMain ==> ModuleOf(elf, path, bias).entry == bias + elf.entry)
  {
    var (bias, next) := Place(elf, isMain, cursor).value;
    Told(elf, path, bias);
    if isMain { MainEntry(elf, cursor); }
    NoWrap(elf, isMain, cursor);
    ImageHeld(elf, path, bias);
    hide Lowest, Highest, HasExtent, Truncated, HoldsImage, SegmentLoads, PlaceShared, PlaceMain, TellsOf;
  }

  /** What loading a file adds to the modules, and the cursor after it. */
  function Added(files: map<string, Elf>, path: string, isMain: bool, cursor: Word): (Module, Word)
    requires path in files && Loads(files[path], isMain, cursor)
  {
    var (bias, next) := Place(files[path], isMain, cursor).value;
    (ModuleOf(files[path], path, bias), next)
  }

  /** Syscall_exec_load_module_current. */
  method LoadModule(files: map<string, Elf>, path: string, isMain: bool, cursor: Word, modules: seq<Module>)
    returns (ok: bool, next: Word, modules': seq<Module>)
    ensures ok <==> |modules| < MAX_MODULES && path in files && Loads(files[path], isMain, cursor)
    ensures ok ==> (modules', next) == (modules + [Added(files, path, isMain, cursor).0], Added(files, path, isMain, cursor).1)
    ensures !ok ==> modules' == modules
  {
    next, modules' := cursor, modules;
    if |modules| >= MAX_MODULES || path !in files { return false, next, modules'; }
    var elf := files[path];
    if !isMain && !elf.shared { return false, next, modules'; }
    var has, lo, hi := FindExtent(elf.segments);
    if !has { return false, next, modules'; }
    hide HasExtent, SegmentLoads, ModuleOf, Place;
    var placed := Place(elf, isMain, cursor);
    if placed == None { return false, next, modules'; }
    var bias := placed.value.0;
    next := placed.value.1;
    var loaded := LoadSegments(elf.segments, bias);
    if !loaded || (elf.hasDynamic && |elf.needed| > MAX_NEEDED) || (!isMain && !elf.hasDynamic) {
      return false, next, modules';
    }
    modules' := modules + [ModuleOf(elf, path, bias)];
    ok := true;
  }

  // ---------------------------------------------------------------- the worklist

  /** Syscall_exec_build_needed_path. */
  function NeededPath(name: string): (path: Option<string>)
    ensures path.Some? ==> |path.value| < PATH_MAX && path.value != "" && path.value[0] == '/'
    ensures path.Some? ==> path.value == name || path.value == "/lib/" + name
    ensures path.Some? <==> |name| < if name != "" && name[0] == '/' then PATH_MAX else PATH_MAX - 5
  {
    if name != "" && name[0] == '/' then (if |name| + 1 > PATH_MAX then None else Some(name))
    else if 5 + |name| + 1 > PATH_MAX then None else Some("/lib/" + name)
  }

  predicate Satisfies(m: Module, name: string, path: string) {
    m.path == path || (m.soname != "" && m.soname == name)
  }

  /** The entry names a module that is loaded, by its path or by its soname. */
  predicate Met(modules: seq<Module>, entry: Option<string>) {
    entry.Some? && NeededPath(entry.value).Some? &&
    exists m | 0 <= m < |modules| :: Satisfies(modules[m], entry.value, NeededPath(entry.value).value)
  }

  predicate ClosedBefore(modules: seq<Module>, i: nat, n: nat) {
    && (forall k, e | 0 <= k < i && k < |modules| && 0 <= e < |modules[k].needed| :: Met(modules, modules[k].needed[e]))
    && (i < |modules| ==> forall e | 0 <= e < n && e < |modules[i].needed| :: Met(modules, modules[i].needed[e]))
  }

  predicate DistinctPaths(modules: seq<Module>) {
    forall i, j | 0 <= i < j < |modules| :: modules[i].path != modules[j].path
  }

  predicate Requires(m: Module, path: string) {
    exists e | 0 <= e < |m.needed| :: m.needed[e].Some? && NeededPath(m.needed[e].value) == Some(path)
  }

  /** Every module but the first is there because an earlier one needs it. */
  predicate Justified(modules: seq<Module>) {
    forall j | 0 < j < |modules| :: RequiredBefore(modules, j)
  }

  predicate RequiredBefore(modules: seq<Module>, j: nat)
    requires j < |modules|
  {
    exists i | 0 <= i < j :: Requires(modules[i], modules[j].path)
  }

  /** Entry `e` of module `i` names module `j`, and nothing loaded before `j` provides what it names. */
  predicate WantedBy(modules: seq<Module>, i: nat, e: nat, j: nat)
    requires i < j < |modules| && e < |modules[i].needed|
  {
    && Provides(modules[j].path, modules[j].soname, modules[i].needed[e])
    && forall m | 0 <= m < j :: !Provides(modules[m].path, modules[m].soname, modules[i].needed[e])
  }

  /** A module with this path and soname is what the entry asks for: the path is the name itself if that
      is absolute and the name under /lib if not, or the soname is the name. */
  predicate Provides(path: string, soname: string, entry: Option<string>) {
    entry.Some? &&
    var name := entry.value;
    var asked := if name != "" && name[0] == '/' then name else "/lib/" + name;
    |asked| < PATH_MAX && (path == asked || (name != "" && soname == name))
  }

  /** Nothing is loaded that an earlier module could have stood for. */
  predicate Economical(modules: seq<Module>) {
    forall j: nat | 0 < j < |modules| :: Wanted(modules, j)
  }

  predicate Wanted(modules: seq<Module>, j: nat)
    requires j < |modules|
  {
    exists i: nat, e: nat | i < j && e < |modules[i].needed| :: WantedBy(modules, i, e, j)
  }

  /** Shared objects lie in the window, one after the other. */
  predicate Laid(modules: seq<Module>, cursor: Word) {
    && CursorOk(cursor)
    && (forall j | 0 < j < |modules| :: InWindow(modules[j]) && modules[j].mapEnd <= cursor)
    && (forall i, j | 0 < i < j < |modules| :: modules[i].mapEnd <= modules[j].mapStart)
    && (if |modules| > 1 then modules[1].mapStart == DSO_BASE else cursor == DSO_BASE)
  }

  /** Each module is the image of a file, the first the program itself, the rest shared objects. */
  predicate FromFiles(files: map<string, Elf>, path: string, modules: seq<Module>) {
    forall j | 0 <= j < |modules| :: FromFile(files, if j == 0 then path else modules[j].path, j == 0, modules[j])
  }

  predicate FromFile(files: map<string, Elf>, path: string, isMain: bool, m: Module) {
    && path in files && m == ModuleOf(files[path], path, m.bias) && HoldsImage(m, files[path])
    && TellsOf(m, path, files[path])
    && (!isMain ==> files[path].shared && files[path].hasDynamic)
    && (isMain && files[path].shared ==> m.mapStart == DYN_BASE)
    && (isMain ==> m.entry == m.bias + files[path].entry && USER_MIN <= m.entry < CANONICAL_LOW_MAX)
  }

  /** What the module says about its file: the path and the soname, cut at the limit, every needed entry
      in its order, and where the entry point landed. */
  predicate TellsOf(m: Module, path: string, elf: Elf) {
    && m.path <= path && (|path| < PATH_MAX ==> m.path == path)
    && m.soname <= elf.soname && (elf.hasDynamic && |elf.soname| < PATH_MAX ==> m.soname == elf.soname)
    && m.needed == (if elf.hasDynamic then elf.needed else [])
    && m.entry == (m.bias + elf.entry) % WORD
  }

  predicate Linked(files: map<string, Elf>, path: string, modules: seq<Module>, cursor: Word) {
    && 0 < |modules| <= MAX_MODULES
    && FromFiles(files, path, modules) && DistinctPaths(modules) && Justified(modules) && Economical(modules)
    && Laid(modules, cursor)
  }

  /** The entry cannot be met: a bad name, or a file that cannot be added. */
  predicate Unmeetable(files: map<string, Elf>, modules: seq<Module>, cursor: Word, entry: Option<string>) {
    || entry.None? || NeededPath(entry.value).None?
    || (!Met(modules, entry) &&
        var p := NeededPath(entry.value).value;
        |modules| >= MAX_MODULES || p !in files || !Loads(files[p], false, cursor))
  }

  /** Some loaded module has an entry that cannot be met. */
  predicate Stuck(files: map<string, Elf>, modules: seq<Module>, cursor: Word) {
    exists k, e | 0 <= k < |modules| && 0 <= e < |modules[k].needed| :: Unmeetable(files, modules, cursor, modules[k].needed[e])
  }

  method IsLoaded(modules: seq<Module>, name: string, path: string) returns (found: bool)
    ensures found <==> exists m | 0 <= m < |modules| :: Satisfies(modules[m], name, path)
  {
    for m := 0 to |modules|
      invariant forall k | 0 <= k < m :: !Satisfies(modules[k], name, path)
    {
      if Satisfies(modules[m], name, path) { return true; }
    }
    return false;
  }

  lemma AddDistinct(modules: seq<Module>, m: Module)
    requires DistinctPaths(modules) && forall k | 0 <= k < |modules| :: modules[k].path != m.path
    ensures DistinctPaths(modules + [m])
  {}

  lemma AddJustified(modules: seq<Module>, m: Module, needer: nat)
    requires Justified(modules) && needer < |modules| && Requires(modules[needer], m.path)
    ensures Justified(modules + [m])
  {
    var modules' := modules + [m];
    forall j | 0 < j < |modules'| ensures RequiredBefore(modules', j) {
      if j < |modules| {
        assert RequiredBefore(modules, j);
        var i :| 0 <= i < j && Requires(modules[i], modules[j].path);
        assert Requires(modules'[i], modules'[j].path);
      } else {
        assert Requires(modules'[needer], modules'[j].path);
      }
    }
  }

  lemma AddEconomical(modules: seq<Module>, m: Module, i: nat, e: nat)
    requires Economical(modules) && i < |modules| && e < |modules[i].needed| && Provides(m.path, m.soname, modules[i].needed[e])
    requires forall k | 0 <= k < |modules| :: !Provides(modules[k].path, modules[k].soname, modules[i].needed[e])
    ensures Economical(modules + [m])
  {
    hide Provides;
    var modules' := modules + [m];
    forall j: nat | 0 < j < |modules'| ensures Wanted(modules', j) {
      if j < |modules| {
        assert Wanted(modules, j);
        var a: nat, b: nat :| a < j && b < |modules[a].needed| && WantedBy(modules, a, b, j);
        assert WantedBy(modules', a, b, j);
      } else {
        assert WantedBy(modules', i, e, j);
      }
    }
  }

  lemma SatisfiesIs(m: Module, name: string)
    requires NeededPath(name).Some?
    ensures Satisfies(m, name, NeededPath(name).value) <==> Provides(m.path, m.soname, Some(name))
  {}

  lemma AddLaid(modules: seq<Module>, m: Module, cursor: Word, next: Word)
    requires modules != [] && Laid(modules, cursor) && PlacedOk(m, true, false, cursor, next)
    ensures Laid(modules + [m], next)
  {}

  lemma AddFromFiles(files: map<string, Elf>, path: string, modules: seq<Module>, m: Module)
    requires modules != [] && FromFiles(files, path, modules)
    requires FromFile(files, m.path, false, m)
    ensures FromFiles(files, path, modules + [m])
  {
    hide FromFile;
  }

  lemma AddLinked(files: map<string, Elf>, path: string, modules: seq<Module>, cursor: Word, needer: nat, e: nat, name: string)
    requires Linked(files, path, modules, cursor) && |modules| < MAX_MODULES && needer < |modules|
    requires e < |modules[needer].needed| && modules[needer].needed[e] == Some(name)
    requires NeededPath(name).Some? && Requires(modules[needer], NeededPath(name).value)
    requires forall m | 0 <= m < |modules| :: !Satisfies(modules[m], name, NeededPath(name).value)
    requires var p := NeededPath(name).value; p in files && Loads(files[p], false, cursor)
    ensures var (m, next) := Added(files, NeededPath(name).value, false, cursor);
      Linked(files, path, modules + [m], next) && Met(modules + [m], Some(name))
  {
    var p := NeededPath(name).value;
    ModulePlaced(files[p], p, false, cursor);
    var (m, next) := Added(files, p, false, cursor);
    assert m.path == p && FromFile(files, p, false, m);
    forall k | 0 <= k < |modules| ensures !Provides(modules[k].path, modules[k].soname, Some(name)) { SatisfiesIs(modules[k], name); }
    SatisfiesIs(m, name);
    hide FromFile, ModuleOf, Place, Loads, HoldsImage, PlacedOk, Laid, FromFiles, DistinctPaths, Justified, Requires, Added;
    hide Economical, Provides, TellsOf;
    AddEconomical(modules, m, needer, e);
    AddDistinct(modules, m);
    AddJustified(modules, m, needer);
    AddLaid(modules, m, cursor, next);
    AddFromFiles(files, path, modules, m);
    assert Satisfies((modules + [m])[|modules|], name, p);
  }

  lemma MetStays(modules: seq<Module>, m: Module, entry: Option<string>)
    requires Met(modules, entry)
    ensures Met(modules + [m], entry)
  {
    var k :| 0 <= k < |modules| && Satisfies(modules[k], entry.value, NeededPath(entry.value).value);
    assert Satisfies((modules + [m])[k], entry.value, NeededPath(entry.value).value);
  }

  lemma ClosedStays(modules: seq<Module>, m: Module, i: nat, n: nat)
    requires ClosedBefore(modules, i, n) && i < |modules|
    ensures ClosedBefore(modules + [m], i, n)
  {
    forall entry | Met(modules, entry) ensures Met(modules + [m], entry) {
      MetStays(modules, m, entry);
    }
  }

  lemma ClosedStep(modules: seq<Module>, i: nat, n: nat)
    requires ClosedBefore(modules, i, n) && i < |modules| && n < |modules[i].needed| && Met(modules, modules[i].needed[n])
    ensures ClosedBefore(modules, i, n + 1)
  {}

  lemma StuckAt(files: map<string, Elf>, modules: seq<Module>, cursor: Word, i: nat, n: nat)
    requires i < |modules| && n < |modules[i].needed| && Unmeetable(files, modules, cursor, modules[i].needed[n])
    ensures Stuck(files, modules, cursor)
  {}

  /** One DT_NEEDED entry of the module the worklist is at. */
  method MeetEntry(files: map<string, Elf>, path: string, modules: seq<Module>, cursor: Word, i: nat, n: nat)
    returns (ok: bool, cursor': Word, modules': seq<Module>)
    requires Linked(files, path, modules, cursor) && ClosedBefore(modules, i, n)
    requires i < |modules| && n < |modules[i].needed|
    ensures Linked(files, path, modules', cursor') && modules <= modules' && |modules'| <= MAX_MODULES
    ensures ok ==> ClosedBefore(modules', i, n + 1)
    ensures !ok ==> modules' == modules && Stuck(files, modules', cursor')
  {
    cursor', modules' := cursor, modules;
    var entry := modules[i].needed[n];
    if entry == None || NeededPath(entry.value) == None {
      StuckAt(files, modules, cursor, i, n);
      return false, cursor', modules';
    }
    var name, needed := entry.value, NeededPath(entry.value).value;
    assert Requires(modules[i], needed);
    hide Linked, Loads, Requires, NeededPath, Satisfies, Added, Place, ClosedBefore, Stuck;
    var found := IsLoaded(modules, name, needed);
    if found {
      ClosedStep(modules, i, n);
      return true, cursor', modules';
    }
    var loaded, next, more := LoadModule(files, needed, false, cursor, modules);
    if !loaded {
      StuckAt(files, modules, cursor, i, n);
      return false, cursor', modules';
    }
    AddLinked(files, path, modules, cursor, i, n, name);
    ClosedStays(modules, more[|modules|], i, n);
    ClosedStep(more, i, n);
    return true, next, more;
  }

  lemma StartLinked(files: map<string, Elf>, path: string)
    requires path in files && Loads(files[path], true, DSO_BASE)
    ensures var (m, next) := Added(files, path, true, DSO_BASE);
      Linked(files, path, [m], next) && ClosedBefore([m], 0, 0)
  {
    ModulePlaced(files[path], path, true, DSO_BASE);
    hide Place, HoldsImage, ModuleOf, Loads;
  }

  lemma ClosedNext(modules: seq<Module>, i: nat)
    requires i < |modules| && ClosedBefore(modules, i, |modules[i].needed|)
    ensures ClosedBefore(modules, i + 1, 0)
  {}

  /** The file module `j` came from. */
  function FileOf(files: map<string, Elf>, path: string, modules: seq<Module>, j: nat): Elf
    requires j < |modules| && FromFiles(files, path, modules)
  {
    var from := if j == 0 then path else modules[j].path;
    assert FromFile(files, from, j == 0, modules[j]);
    files[from]
  }

  predicate Provided(modules: seq<Module>, entry: Option<string>) {
    exists m | 0 <= m < |modules| :: Provides(modules[m].path, modules[m].soname, entry)
  }

  /** Every entry of the dynamic section of every loaded file is provided by a loaded file. */
  predicate FilesClosed(files: map<string, Elf>, path: string, modules: seq<Module>)
    requires FromFiles(files, path, modules)
  {
    forall j: nat, e: nat | j < |modules| && FileOf(files, path, modules, j).hasDynamic && e < |FileOf(files, path, modules, j).needed| ::
      Provided(modules, FileOf(files, path, modules, j).needed[e])
  }

  lemma MetIs(modules: seq<Module>, entry: Option<string>)
    requires Met(modules, entry)
    ensures Provided(modules, entry)
  {
    var k :| 0 <= k < |modules| && Satisfies(modules[k], entry.value, NeededPath(entry.value).value);
    SatisfiesIs(modules[k], entry.value);
  }

  lemma ClosedFiles(files: map<string, Elf>, path: string, modules: seq<Module>)
    requires FromFiles(files, path, modules) && ClosedBefore(modules, |modules|, 0)
    ensures FilesClosed(files, path, modules)
  {
    hide Met, Provided, ModuleOf, HoldsImage;
    forall j: nat, e: nat | j < |modules| && FileOf(files, path, modules, j).hasDynamic && e < |FileOf(files, path, modules, j).needed|
      ensures Provided(modules, FileOf(files, path, modules, j).needed[e])
    {
      assert FromFile(files, if j == 0 then path else modules[j].path, j == 0, modules[j]);
      assert modules[j].needed == FileOf(files, path, modules, j).needed;
      MetIs(modules, modules[j].needed[e]);
    }
  }

  /** The dependency part of Syscall_load_elf_current. */
  method LoadProgram(files: map<string, Elf>, path: string)
    returns (ok: bool, modules: seq<Module>, cursor: Word)
    ensures ok ==> Linked(files, path, modules, cursor) && ClosedBefore(modules, |modules|, 0)
    ensures ok ==> FilesClosed(files, path, modules)
    ensures !ok && modules == [] ==> path !in files || !Loads(files[path], true, DSO_BASE)
    ensures !ok && modules != [] ==> Linked(files, path, modules, cursor) && Stuck(files, modules, cursor)
  {
    modules, cursor := [], DSO_BASE;
    ok, cursor, modules := LoadModule(files, path, true, DSO_BASE, []);
    if !ok { return; }
    StartLinked(files, path);
    assert modules == [Added(files, path, true, DSO_BASE).0];
    hide Linked, ClosedBefore, Added, Loads, Stuck, FilesClosed;
    var i := 0;
    while i < |modules|
      invariant 0 <= i <= |modules| <= MAX_MODULES && ok
      invariant Linked(files, path, modules, cursor) && ClosedBefore(modules, i, 0)
      decreases MAX_MODULES - i
    {
      var n := 0;
      while n < |modules[i].needed|
        invariant 0 <= i < |modules| <= MAX_MODULES && ok && 0 <= n <= |modules[i].needed|
        invariant Linked(files, path, modules, cursor) && ClosedBefore(modules, i, n)
        decreases |modules[i].needed| - n
      {
        ok, cursor, modules := MeetEntry(files, path, modules, cursor, i, n);
        if !ok { return; }
        n := n + 1;
      }
      ClosedNext(modules, i);
      i := i + 1;
    }
    LinkedFiles(files, path, modules, cursor);
    ClosedFiles(files, path, modules);
  }

  lemma LinkedFiles(files: map<string, Elf>, path: string, modules: seq<Module>, cursor: Word)
    requires Linked(files, path, modules, cursor)
    ensures FromFiles(files, path, modules)
  {}

  // ---------------------------------------------------------------- what follows for a loaded program

  lemma SharedDisjoint(files: map<string, Elf>, path: string, modules: seq<Module>, cursor: Word, i: nat, j: nat)
    requires Linked(files, path, modules, cursor) && 0 < i < |modules| && 0 < j < |modules| && i != j
    ensures modules[i].mapEnd <= modules[j].mapStart || modules[j].mapEnd <= modules[i].mapStart
  {}

  /** A chain of needs from the program to module `j`. */
  predicate Chain(modules: seq<Module>, chain: seq<nat>, j: nat) {
    && chain != [] && chain[0] == 0 && chain[|chain| - 1] == j
    && (forall k | 0 <= k < |chain| :: chain[k] < |modules|)
    && forall k | 0 <= k < |chain| - 1 :: Requires(modules[chain[k]], modules[chain[k + 1]].path)
  }

  lemma {:induction false} Reachable(modules: seq<Module>, j: nat) returns (chain: seq<nat>)
    requires Justified(modules) && j < |modules|
    ensures Chain(modules, chain, j)
  {
    if j == 0 {
      chain := [0];
    } else {
      assert RequiredBefore(modules, j);
      var i :| 0 <= i < j && Requires(modules[i], modules[j].path);
      var rest := Reachable(modules, i);
      chain := rest + [j];
    }
  }

  predicate Apart(a: Module, b: Module) { a.mapEnd <= b.mapStart || b.mapEnd <= a.mapStart }

  /** The program lies between two neighbouring shared objects. */
  predicate InGap(modules: seq<Module>) {
    exists k | 0 < k < |modules| - 1 :: modules[k].mapEnd <= modules[0].mapStart && modules[0].mapEnd <= modules[k + 1].mapStart
  }

  lemma {:induction false} GapFound(modules: seq<Module>, cursor: Word, k: nat)
    requires Laid(modules, cursor) && 0 < k < |modules| && modules[k].mapEnd <= modules[0].mapStart
    requires forall j | 0 < j < |modules| :: Apart(modules[0], modules[j])
    ensures modules[|modules| - 1].mapEnd <= modules[0].mapStart || InGap(modules)
    decreases |modules| - k
  {
    if k + 1 < |modules| && modules[k + 1].mapEnd <= modules[0].mapStart { GapFound(modules, cursor, k + 1); }
  }

  lemma GapClear(modules: seq<Module>, cursor: Word, k: nat, j: nat)
    requires Laid(modules, cursor) && 0 < k < |modules| - 1 && 0 < j < |modules|
    requires modules[k].mapEnd <= modules[0].mapStart && modules[0].mapEnd <= modules[k + 1].mapStart
    ensures Apart(modules[0], modules[j])
  {
    assert j < k ==> modules[j].mapEnd <= modules[k].mapStart && InWindow(modules[k]);
    assert j > k + 1 ==> modules[k + 1].mapEnd <= modules[j].mapStart && InWindow(modules[k + 1]);
  }

  lemma LastClear(modules: seq<Module>, cursor: Word, j: nat)
    requires Laid(modules, cursor) && 0 < j < |modules| && modules[|modules| - 1].mapEnd <= modules[0].mapStart
    ensures Apart(modules[0], modules[j])
  {
    var last := |modules| - 1;
    assert j < last ==> modules[j].mapEnd <= modules[last].mapStart && InWindow(modules[last]);
  }

  /** A program keeps clear of its shared objects exactly when it ends before their window, begins after
      the last of them, or fits between two of them. Only a fixed image can do the last two: nothing in
      the loader bounds the size of a position-independent one, or the place of a fixed one. */
  lemma ProgramClear(files: map<string, Elf>, path: string, modules: seq<Module>, cursor: Word)
    requires Linked(files, path, modules, cursor) && |modules| > 1
    ensures (forall j | 0 < j < |modules| :: Apart(modules[0], modules[j])) <==>
            || modules[0].mapEnd <= DSO_BASE || modules[|modules| - 1].mapEnd <= modules[0].mapStart || InGap(modules)
    ensures path in files && files[path].shared ==> !InGap(modules) && modules[|modules| - 1].mapEnd > modules[0].mapStart
  {
    assert FromFile(files, path, true, modules[0]) && InWindow(modules[1]) && InWindow(modules[|modules| - 1]);
    hide FromFiles, HoldsImage, ModuleOf, DistinctPaths, Justified;
    if forall j | 0 < j < |modules| :: Apart(modules[0], modules[j]) {
      assert Apart(modules[0], modules[1]);
      if modules[1].mapEnd <= modules[0].mapStart { GapFound(modules, cursor, 1); }
    }
    if k :| 0 < k < |modules| - 1 && modules[k].mapEnd <= modules[0].mapStart && modules[0].mapEnd <= modules[k + 1].mapStart {
      assert InWindow(modules[k]);
      forall j | 0 < j < |modules| ensures Apart(modules[0], modules[j]) { GapClear(modules, cursor, k, j); }
    } else if modules[|modules| - 1].mapEnd <= modules[0].mapStart {
      forall j | 0 < j < |modules| ensures Apart(modules[0], modules[j]) { LastClear(modules, cursor, j); }
    } else if modules[0].mapEnd <= DSO_BASE {
      forall j | 0 < j < |modules| ensures Apart(modules[0], modules[j]) { assert InWindow(modules[j]); }
    }
  }

  // ---------------------------------------------------------------- a program that overlaps its library

  const BIG := Elf(true, 0, [Segment(0, 0x1000_0000, true)], true, "", [Some("x")])
  const TINY := Elf(true, 0, [Segment(0, 1, true)], true, "", [])

  function OverlapFiles(): map<string, Elf> { map["/app" := BIG, "/lib/x" := TINY] }

  lemma OneSegment(g: Segment)
    requires g.vaddr == 0 && 0 < g.memsz <= 0x1000_0000
    ensures HasExtent([g]) && Lowest([g]) == 0 && Highest([g]) == AlignUpPage(g.memsz)
    ensures g.memsz <= AlignUpPage(g.memsz) <= 0x1000_0000
  {
    assert [g][..0] == [] && Lowest([]) == WORD - 1 && Highest([]) == 0;
    assert SegmentFits(g) && First(g) == 0 && Past(g) == AlignUpPage(g.memsz);
    assert [g][0].memsz > 0;
  }

  lemma BigLoads()
    ensures Loads(BIG, true, DSO_BASE)
  {
    OneSegment(BIG.segments[0]);
    var bias := Place(BIG, true, DSO_BASE);
    assert bias == Some((DYN_BASE, DSO_BASE));
    assert SegmentLoads(BIG.segments[0], DYN_BASE);
  }

  lemma TinyLoads()
    ensures Loads(TINY, false, DSO_BASE)
  {
    OneSegment(TINY.segments[0]);
    var placed := Place(TINY, false, DSO_BASE);
    assert placed.Some? && placed.value.0 == DSO_BASE;
    assert SegmentLoads(TINY.segments[0], DSO_BASE);
  }

  lemma LibPath()
    ensures NeededPath("x") == Some("/lib/x")
  {
    assert "/lib/" + "x" == "/lib/x";
  }

  function PathAt(modules: seq<Module>, i: nat): string { if i < |modules| then modules[i].path else "" }

  /** What is linked at any moment: the program, and behind it at most its one library. */
  lemma OverlapModules(modules: seq<Module>, cursor: Word)
    requires Linked(OverlapFiles(), "/app", modules, cursor)
    ensures modules[0].needed == [Some("x")] && modules[0].mapStart == DYN_BASE && modules[0].mapEnd == DYN_BASE + 0x1000_0000
    ensures |modules| <= 2 && (|modules| == 2 ==> modules[1].path == "/lib/x" && modules[1].needed == [])
  {
    var files := OverlapFiles();
    assert FromFile(files, "/app", true, modules[0]);
    OneSegment(BIG.segments[0]);
    assert AlignUpPage(0x1000_0000) == 0x1000_0000;
    assert modules[0].mapStart == Add(modules[0].bias, 0);
    forall j | 0 < j < |modules| ensures modules[j].path == "/lib/x" && modules[j].needed == [] {
      assert FromFile(files, modules[j].path, false, modules[j]);
      assert RequiredBefore(modules, j);
      NotApp(modules, cursor, j);
    }
    assert |modules| > 2 ==> PathAt(modules, 1) == PathAt(modules, 2);
  }

  lemma NotApp(modules: seq<Module>, cursor: Word, j: nat)
    requires Linked(OverlapFiles(), "/app", modules, cursor) && 0 < j < |modules|
    ensures modules[j].path == "/lib/x"
  {
    assert FromFile(OverlapFiles(), modules[j].path, false, modules[j]);
    assert FromFile(OverlapFiles(), "/app", true, modules[0]);
    assert modules[0].path == "/app" && modules[0].path != modules[j].path;
  }

  /** A program of 256 MiB with one library: it loads, and the two images overlap. */
  method OverlapExample() returns (modules: seq<Module>)
    ensures |modules| == 2 && !Apart(modules[0], modules[1])
  {
    BigLoads();
    TinyLoads();
    LibPath();
    var ok, cursor;
    ok, modules, cursor := LoadProgram(OverlapFiles(), "/app");
    assert modules != [];
    OverlapModules(modules, cursor);
    OverlapDone(modules, cursor, ok);
  }

  lemma OverlapDone(modules: seq<Module>, cursor: Word, ok: bool)
    requires Linked(OverlapFiles(), "/app", modules, cursor)
    requires if ok then ClosedBefore(modules, |modules|, 0) else Stuck(OverlapFiles(), modules, cursor)
    ensures |modules| == 2 && !Apart(modules[0], modules[1])
  {
    TinyLoads();
    LibPath();
    OverlapModules(modules, cursor);
    hide Loads, HoldsImage;
    assert modules[0].path == "/app" by { assert FromFile(OverlapFiles(), "/app", true, modules[0]); }
    assert modules[0].soname == "" by { assert FromFile(OverlapFiles(), "/app", true, modules[0]); }
    var entry := modules[0].needed[0];
    assert ok ==> Met(modules, entry);
    assert |modules| == 1 ==> !Met(modules, entry) && !Unmeetable(OverlapFiles(), modules, cursor, entry);
  }
}
