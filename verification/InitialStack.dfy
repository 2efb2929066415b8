/** The stack a new program starts on: argc, the argv pointers, the envp pointers and the strings
    they point to (the argc/argv/envp part of section 3.4.1 of the System V AMD64 psABI). */
module InitialStack {
  import opened Common

  const STACK_TOP: nat := 0x7000_0000
  const STACK_SIZE: nat := 0x20_0000
  const BOTTOM: nat := STACK_TOP - STACK_SIZE
  const MAX_ARGS: nat := 64
  const MAX_ENVP: nat := 64
  const WORD: nat := 0x1_0000_0000_0000_0000

  /** A string without its terminator. */
  type Text = seq<Byte>

  /** The bytes of the stack area, the first at BOTTOM. */
  type Memory = m: seq<Byte> | |m| == STACK_SIZE witness seq(STACK_SIZE, _ => 0)

  // ---------------------------------------------------------------- memory

  predicate Inside(at: nat, n: nat) { BOTTOM <= at && at + n <= STACK_TOP }

  function Get(mem: Memory, at: nat, n: nat): seq<Byte>
    requires Inside(at, n)
  {
    mem[at - BOTTOM..at - BOTTOM + n]
  }

  function Put(mem: Memory, at: nat, bytes: seq<Byte>): Memory
    requires Inside(at, |bytes|)
  {
    mem[..at - BOTTOM] + bytes + mem[at - BOTTOM + |bytes|..]
  }

  lemma GetPut(mem: Memory, at: nat, bytes: seq<Byte>, from: nat, n: nat)
    requires Inside(at, |bytes|) && at <= from && from + n <= at + |bytes|
    ensures Get(Put(mem, at, bytes), from, n) == bytes[from - at..from - at + n]
  {}

  /** Writing just below what was written before. */
  lemma PutBelow(mem: Memory, at: nat, low: seq<Byte>, high: seq<Byte>)
    requires Inside(at, |low| + |high|)
    ensures Put(Put(mem, at + |low|, high), at, low) == Put(mem, at, low + high)
  {
    var a, b := Put(Put(mem, at + |low|, high), at, low), Put(mem, at, low + high);
    forall k | 0 <= k < STACK_SIZE ensures a[k] == b[k] {}
  }

  // ---------------------------------------------------------------- words

  function Pow256(n: nat): nat { if n == 0 then 1 else 256 * Pow256(n - 1) }

  /** The `n` low bytes of `w`, least significant first. */
  function Encode(w: nat, n: nat): (bytes: seq<Byte>)
    ensures |bytes| == n
  {
    if n == 0 then [] else [w % 256] + Encode(w / 256, n - 1)
  }

  function Decode(bytes: seq<Byte>): nat {
    if bytes == [] then 0 else bytes[0] + 256 * Decode(bytes[1..])
  }

  lemma {:induction false} DecodeEncode(w: nat, n: nat)
    requires w < Pow256(n)
    ensures Decode(Encode(w, n)) == w
  {
    if n > 0 {
      DecodeEncode(w / 256, n - 1);
      assert Encode(w, n)[1..] == Encode(w / 256, n - 1);
    }
  }

  function WordBytes(w: nat): seq<Byte> { Encode(w, 8) }

  function WordAt(mem: Memory, at: nat): nat
    requires Inside(at, 8)
  {
    Decode(Get(mem, at, 8))
  }

  function Words(ws: seq<nat>): (bytes: seq<Byte>)
    ensures |bytes| == 8 * |ws|
  {
    if ws == [] then [] else WordBytes(ws[0]) + Words(ws[1..])
  }

  lemma {:induction false} WordsAt(ws: seq<nat>, k: nat)
    requires k < |ws|
    ensures Words(ws)[8 * k..8 * k + 8] == WordBytes(ws[k])
  {
    if k > 0 { WordsAt(ws[1..], k - 1); }
  }

  lemma {:induction false} WordsConcat(a: seq<nat>, b: seq<nat>)
    ensures Words(a + b) == Words(a) + Words(b)
  {
    if a == [] {
      assert a + b == b;
    } else {
      hide WordBytes;
      WordsConcat(a[1..], b);
      assert (a + b)[1..] == a[1..] + b && (a + b)[0] == a[0];
      assert WordBytes(a[0]) + (Words(a[1..]) + Words(b)) == (WordBytes(a[0]) + Words(a[1..])) + Words(b);
    }
  }

  // ---------------------------------------------------------------- strings

  /** The strings one after the other, each with its terminator. */
  function Block(items: seq<Text>): seq<Byte> {
    if items == [] then [] else items[0] + [0] + Block(items[1..])
  }

  /** Where the `k`-th string of a block at `at` starts. */
  function Start(items: seq<Text>, at: nat, k: nat): nat
    requires k <= |items|
  {
    if k == 0 then at else Start(items[1..], at + |items[0]| + 1, k - 1)
  }

  lemma {:induction false} StringAtStart(items: seq<Text>, at: nat, k: nat)
    requires k < |items|
    ensures at <= Start(items, at, k) && Start(items, at, k) + |items[k]| + 1 == Start(items, at, k + 1) <= at + |Block(items)|
    ensures Block(items)[Start(items, at, k) - at..Start(items, at, k + 1) - at] == items[k] + [0]
  {
    if k == 0 {
      assert Start(items, at, 1) == Start(items[1..], at + |items[0]| + 1, 0);
    } else {
      var head := items[0] + [0];
      StringAtStart(items[1..], at + |head|, k - 1);
      assert Block(items) == head + Block(items[1..]);
    }
  }

  lemma {:induction false} StartOrder(items: seq<Text>, at: nat, i: nat, j: nat)
    requires i < j <= |items|
    ensures Start(items, at, i) + |items[i]| + 1 <= Start(items, at, j)
  {
    if i == 0 {
      StartFrom(items[1..], at + |items[0]| + 1, j - 1);
    } else {
      StartOrder(items[1..], at + |items[0]| + 1, i - 1, j - 1);
    }
  }

  lemma {:induction false} StartFrom(items: seq<Text>, at: nat, k: nat)
    requires k <= |items|
    ensures at <= Start(items, at, k)
  {
    if k > 0 { StartFrom(items[1..], at + |items[0]| + 1, k - 1); }
  }

  lemma {:induction false} BlockStep(items: seq<Text>, i: nat)
    requires i < |items|
    ensures Block(items[i..]) == items[i] + [0] + Block(items[i + 1..])
  {
    assert items[i..][1..] == items[i + 1..];
  }

  function Starts(items: seq<Text>, at: nat): seq<nat> { seq(|items|, k requires 0 <= k < |items| => Start(items, at, k)) }

  lemma StartsStep(items: seq<Text>, i: nat, at: nat)
    requires i < |items|
    ensures Starts(items[i..], at) == [at] + Starts(items[i + 1..], at + |items[i]| + 1)
  {
    assert items[i..][1..] == items[i + 1..];
  }

  // ---------------------------------------------------------------- building

  /** The loop that copies strings down from `sp`, the last one first. */
  method PushStrings(mem: Memory, sp: nat, items: seq<Text>)
    returns (ok: bool, mem': Memory, sp': nat, ptrs: seq<nat>)
    requires BOTTOM <= sp <= STACK_TOP
    ensures ok <==> |Block(items)| <= sp - BOTTOM
    ensures ok ==> sp' == sp - |Block(items)| && ptrs == Starts(items, sp')
    ensures ok ==> mem' == Put(mem, sp', Block(items))
  {
    var i := |items|;
    mem', sp', ptrs := mem, sp, [];
    assert Put(mem, sp, []) == mem;
    assert items[i..] == [];
    while i > 0
      invariant 0 <= i <= |items|
      invariant |Block(items[i..])| <= sp - BOTTOM && sp' == sp - |Block(items[i..])|
      invariant mem' == Put(mem, sp', Block(items[i..])) && ptrs == Starts(items[i..], sp')
    {
      i := i - 1;
      var text := items[i] + [0];
      BlockStep(items, i);
      if sp' < BOTTOM + |text| {
        SuffixShorter(items, i);
        return false, mem', sp', ptrs;
      }
      PutBelow(mem, sp' - |text|, text, Block(items[i + 1..]));
      StartsStep(items, i, sp' - |text|);
      sp' := sp' - |text|;
      mem' := Put(mem', sp', text);
      ptrs := [sp'] + ptrs;
    }
    assert items[0..] == items;
    ok := true;
  }

  lemma {:induction false} SuffixShorter(items: seq<Text>, i: nat)
    requires i <= |items|
    ensures |Block(items[i..])| <= |Block(items)|
  {
    if i > 0 {
      SuffixShorter(items, i - 1);
      BlockStep(items, i - 1);
    } else {
      assert items[0..] == items;
    }
  }

  method PushWord(mem: Memory, sp: nat, w: nat) returns (ok: bool, mem': Memory, sp': nat)
    requires BOTTOM <= sp <= STACK_TOP
    ensures ok <==> sp >= BOTTOM + 8
    ensures ok ==> sp' == sp - 8 && mem' == Put(mem, sp', WordBytes(w))
  {
    if sp < BOTTOM + 8 { return false, mem, sp; }
    return true, Put(mem, sp - 8, WordBytes(w)), sp - 8;
  }

  /** The loop that pushes pointers, the last one first. */
  method PushWords(mem: Memory, sp: nat, ws: seq<nat>) returns (ok: bool, mem': Memory, sp': nat)
    requires BOTTOM <= sp <= STACK_TOP
    ensures ok <==> 8 * |ws| <= sp - BOTTOM
    ensures ok ==> sp' == sp - 8 * |ws| && mem' == Put(mem, sp', Words(ws))
  {
    var i := |ws|;
    mem', sp' := mem, sp;
    assert Put(mem, sp, []) == mem;
    while i > 0
      invariant 0 <= i <= |ws| && 8 * (|ws| - i) <= sp - BOTTOM && sp' == sp - 8 * (|ws| - i)
      invariant mem' == Put(mem, sp', Words(ws[i..]))
    {
      i := i - 1;
      var pushed;
      ghost var before := mem';
      pushed, mem', sp' := PushWord(mem', sp', ws[i]);
      if !pushed { return false, mem', sp'; }
      assert ws[i..][1..] == ws[i + 1..];
      PutBelow(mem, sp', WordBytes(ws[i]), Words(ws[i + 1..]));
    }
    assert ws[0..] == ws;
    ok := true;
  }

  /** The argument vector that is installed: the caller's, or the path alone when that is empty. */
  function Effective(argv: seq<Text>, path: Text): seq<Text> { if argv == [] then [path] else argv }

  predicate ArgsOk(argv: seq<Text>, path: Text, envp: seq<Text>) {
    && |argv| <= MAX_ARGS && |envp| <= MAX_ENVP
    && (forall i | 0 <= i < |argv| :: argv[i] != []) && (argv == [] ==> path != [])
  }

  /** The words at the final stack top, from argc up, with a pad word if their number is odd. */
  function Vector(args: seq<Text>, argsAt: nat, envp: seq<Text>, envAt: nat): seq<nat> {
    [|args|] + Starts(args, argsAt) + [0] + Starts(envp, envAt) + [0] + Pad(|args| + |envp| + 3)
  }

  function Pad(words: nat): seq<nat> { if words % 2 != 0 then [0] else [] }

  function ArgsAt(rsp: nat, args: seq<Text>, envp: seq<Text>): int { rsp - |Block(envp)| - |Block(args)| }

  /** The final stack pointer, if there is room. */
  function FinalRsp(rsp: nat, args: seq<Text>, envp: seq<Text>): int {
    ArgsAt(rsp, args, envp) / 16 * 16 - 8 * (|args| + |envp| + 3 + |Pad(|args| + |envp| + 3)|)
  }

  predicate Fits(rsp: nat, args: seq<Text>, envp: seq<Text>) {
    ArgsAt(rsp, args, envp) >= BOTTOM && FinalRsp(rsp, args, envp) >= BOTTOM
  }

  /** The memory that is left: the words, untouched bytes up to the strings, the strings. */
  function Image(mem: Memory, rsp: nat, args: seq<Text>, envp: seq<Text>): Memory
    requires BOTTOM <= rsp <= STACK_TOP && Fits(rsp, args, envp)
  {
    var at := ArgsAt(rsp, args, envp);
    Put(Put(mem, at, Block(args) + Block(envp)), FinalRsp(rsp, args, envp),
        Words(Vector(args, at, envp, rsp - |Block(envp)|)))
  }

  method CheckArgs(path: Text, argv: seq<Text>, envp: seq<Text>) returns (ok: bool)
    ensures ok <==> ArgsOk(argv, path, envp)
  {
    if |argv| > MAX_ARGS || |envp| > MAX_ENVP { return false; }
    for i := 0 to |argv|
      invariant forall k | 0 <= k < i :: argv[k] != []
    {
      if argv[i] == [] { return false; }
    }
    return argv != [] || path != [];
  }

  /** The environment strings, then the argument strings below them. */
  method CopyStrings(mem: Memory, rsp: nat, args: seq<Text>, envp: seq<Text>)
    returns (ok: bool, mem': Memory, sp: nat, argPtrs: seq<nat>, envPtrs: seq<nat>)
    requires BOTTOM <= rsp <= STACK_TOP
    ensures ok <==> ArgsAt(rsp, args, envp) >= BOTTOM
    ensures ok ==> sp == ArgsAt(rsp, args, envp) && mem' == Put(mem, sp, Block(args) + Block(envp))
    ensures ok ==> argPtrs == Starts(args, sp) && envPtrs == Starts(envp, rsp - |Block(envp)|)
  {
    hide Put, Block, Starts;
    argPtrs := [];
    ok, mem', sp, envPtrs := PushStrings(mem, rsp, envp);
    if !ok { return; }
    ok, mem', sp, argPtrs := PushStrings(mem', sp, args);
    if !ok { return; }
    PutBelow(mem, sp, Block(args), Block(envp));
  }

  /** Syscall_exec_build_initial_stack. */
  method BuildInitialStack(mem: Memory, rsp: nat, path: Text, argv: seq<Text>, envp: seq<Text>)
    returns (ok: bool, mem': Memory, rsp': nat)
    requires BOTTOM <= rsp <= STACK_TOP
    ensures ok <==> ArgsOk(argv, path, envp) && Fits(rsp, Effective(argv, path), envp)
    ensures ok ==> rsp' == FinalRsp(rsp, Effective(argv, path), envp)
    ensures ok ==> mem' == Image(mem, rsp, Effective(argv, path), envp)
    ensures ok && argv != [] ==> AbiStack(mem', rsp', argv, envp)
    ensures ok && argv == [] ==> AbiStack(mem', rsp', [path], envp)
  {
    hide Put, Block, Words, ArgsOk, AbiStack, NoOverlap;
    mem', rsp' := mem, rsp;
    ok := CheckArgs(path, argv, envp);
    if !ok { return; }
    var args := if argv == [] then [path] else argv;
    var sp, argPtrs, envPtrs;
    ok, mem', sp, argPtrs, envPtrs := CopyStrings(mem, rsp, args, envp);
    if ok {
      hide Starts, ArgsAt;
      ok, mem', rsp' := PushVector(mem', sp / 16 * 16, |args|, argPtrs, envPtrs);
      if ok { ImageIsAbi(mem, rsp, args, envp); }
    }
  }

  method PushVector(mem: Memory, start: nat, argc: nat, argPtrs: seq<nat>, envPtrs: seq<nat>)
    returns (ok: bool, mem': Memory, sp: nat)
    requires BOTTOM <= start <= STACK_TOP
    ensures var ws := [argc] + argPtrs + [0] + envPtrs + [0] + Pad(argc + |envPtrs| + 3);
      && (ok <==> 8 * |ws| <= start - BOTTOM)
      && (ok ==> sp == start - 8 * |ws| && mem' == Put(mem, sp, Words(ws)))
  {
    hide Put, Words, WordBytes;
    mem', sp := mem, start;
    ghost var ws: seq<nat> := [];
    PushedNone(mem, start);
    if (argc + |envPtrs| + 3) % 2 != 0 {
      ok, mem', sp := PushWord(mem', sp, 0);
      if !ok { return; }
      ws := Below(mem, sp, [0], ws);
    }
    assert ws == Pad(argc + |envPtrs| + 3);
    ok, mem', sp := PushNull(mem', sp, envPtrs);
    if !ok { return; }
    ws := Below(mem, sp, envPtrs + [0], ws);
    ok, mem', sp := PushNull(mem', sp, argPtrs);
    if !ok { return; }
    ws := Below(mem, sp, argPtrs + [0], ws);
    ok, mem', sp := PushWord(mem', sp, argc);
    if !ok { return; }
    ws := Below(mem, sp, [argc], ws);
    assert ws == [argc] + argPtrs + [0] + envPtrs + [0] + Pad(argc + |envPtrs| + 3);
  }

  /** A pointer vector with its NULL above it. */
  method PushNull(mem: Memory, start: nat, ptrs: seq<nat>) returns (ok: bool, mem': Memory, sp: nat)
    requires BOTTOM <= start <= STACK_TOP
    ensures ok <==> 8 * (|ptrs| + 1) <= start - BOTTOM
    ensures ok ==> sp == start - 8 * (|ptrs| + 1) && mem' == Put(mem, sp, Words(ptrs + [0]))
  {
    hide Put, Words, WordBytes;
    ok, mem', sp := PushWord(mem, start, 0);
    if !ok { return; }
    OneWord(0);
    ok, mem', sp := PushWords(mem', sp, ptrs);
    if !ok { return; }
    ghost var ws := Below(mem, sp, ptrs, [0]);
  }

  lemma PushedNone(mem: Memory, at: nat)
    requires Inside(at, 0)
    ensures Put(mem, at, Words([])) == mem
  {}

  lemma OneWord(w: nat)
    ensures Words([w]) == WordBytes(w)
  {
    assert [w][1..] == [];
  }

  lemma Below(mem: Memory, sp: nat, low: seq<nat>, high: seq<nat>) returns (ws: seq<nat>)
    requires Inside(sp, 8 * |low| + 8 * |high|)
    ensures ws == low + high
    ensures Put(Put(mem, sp + 8 * |low|, Words(high)), sp, Words(low)) == Put(mem, sp, Words(ws))
    ensures |low| == 1 ==> Words(low) == WordBytes(low[0])
  {
    hide Put, Words, WordBytes;
    ws := low + high;
    WordsConcat(low, high);
    PutBelow(mem, sp, Words(low), Words(high));
    if |low| == 1 {
      OneWord(low[0]);
      assert low == [low[0]];
    }
  }

  // ---------------------------------------------------------------- what the program sees

  /** An intact copy of the string, terminator included. */
  predicate StringAt(mem: Memory, at: nat, text: Text) {
    Inside(at, |text| + 1) && Get(mem, at, |text| + 1) == text + [0]
  }

  /** The pointers as read from memory: those of argv, and above their NULL those of envp. */
  function PointerAt(mem: Memory, rsp: nat, args: seq<Text>, envp: seq<Text>, k: nat): nat
    requires Inside(rsp, 8 * (|args| + |envp| + 3)) && k < |args| + |envp|
  {
    WordAt(mem, rsp + 8 * (if k < |args| then 1 + k else 2 + k))
  }

  predicate PointsTo(mem: Memory, rsp: nat, args: seq<Text>, envp: seq<Text>)
    requires Inside(rsp, 8 * (|args| + |envp| + 3))
  {
    forall k | 0 <= k < |args| + |envp| :: StringAt(mem, PointerAt(mem, rsp, args, envp, k), (args + envp)[k])
  }

  /** The stack as the psABI describes it, read from memory: argc, the argv pointers, NULL, the envp
      pointers, NULL. */
  predicate AbiStack(mem: Memory, rsp: nat, args: seq<Text>, envp: seq<Text>) {
    && rsp % 16 == 0 && Inside(rsp, 8 * (|args| + |envp| + 3))
    && WordAt(mem, rsp) == |args|
    && WordAt(mem, rsp + 8 * (1 + |args|)) == 0
    && WordAt(mem, rsp + 8 * (2 + |args| + |envp|)) == 0
    && PointsTo(mem, rsp, args, envp)
  }

  /** The strings lie above the words, in order and without overlap, below the old stack pointer. */
  predicate NoOverlap(mem: Memory, rsp: nat, args: seq<Text>, envp: seq<Text>, top: nat)
    requires Inside(rsp, 8 * (|args| + |envp| + 3))
  {
    var all := args + envp;
    && (forall k | 0 <= k < |all| ::
          && rsp + 8 * (|all| + 3) <= PointerAt(mem, rsp, args, envp, k)
          && PointerAt(mem, rsp, args, envp, k) + |all[k]| + 1 <= top)
    && (forall i, k | 0 <= i < k < |all| ::
          PointerAt(mem, rsp, args, envp, i) + |all[i]| + 1 <= PointerAt(mem, rsp, args, envp, k))
  }

  lemma Pow256Eight()
    ensures Pow256(8) == WORD
  {
    assert Pow256(4) == 0x1_0000_0000;
  }

  /** Word `k` of the vector reads back as written. */
  lemma VectorWord(mem: Memory, rsp: nat, ws: seq<nat>, k: nat)
    requires Inside(rsp, 8 * |ws|) && k < |ws| && ws[k] < WORD
    ensures WordAt(Put(mem, rsp, Words(ws)), rsp + 8 * k) == ws[k]
  {
    hide Put, Words, Get, Decode, Encode, Pow256;
    GetPut(mem, rsp, Words(ws), rsp + 8 * k, 8);
    WordsAt(ws, k);
    Pow256Eight();
    DecodeEncode(ws[k], 8);
  }

  lemma GetAway(mem: Memory, at: nat, bytes: seq<Byte>, from: nat, n: nat)
    requires Inside(at, |bytes|) && Inside(from, n) && (at + |bytes| <= from || from + n <= at)
    ensures Get(Put(mem, at, bytes), from, n) == Get(mem, from, n)
  {}

  lemma VectorAt(args: seq<Text>, argsAt: nat, envp: seq<Text>, envAt: nat)
    ensures var ws := Vector(args, argsAt, envp, envAt);
      && |ws| == |args| + |envp| + 3 + |Pad(|args| + |envp| + 3)|
      && ws[0] == |args| && ws[1 + |args|] == 0 && ws[2 + |args| + |envp|] == 0
      && (forall i | 0 <= i < |args| :: ws[1 + i] == Start(args, argsAt, i))
      && (forall j | 0 <= j < |envp| :: ws[2 + |args| + j] == Start(envp, envAt, j))
  {
    hide Start, Pad;
  }

  /** The pieces of the final image: sixteen-byte alignment, room for the words below the strings. */
  lemma Alignment(rsp: nat, args: seq<Text>, envp: seq<Text>)
    requires BOTTOM <= rsp <= STACK_TOP && Fits(rsp, args, envp)
    ensures var r, at := FinalRsp(rsp, args, envp), ArgsAt(rsp, args, envp);
      r % 16 == 0 && BOTTOM <= r && r + 8 * (|args| + |envp| + 3 + |Pad(|args| + |envp| + 3)|) <= at
  {}

  /** Every word of the image reads back. */
  lemma ImageWord(mem: Memory, rsp: nat, args: seq<Text>, envp: seq<Text>, k: nat)
    requires BOTTOM <= rsp <= STACK_TOP && Fits(rsp, args, envp)
    requires k < |args| + |envp| + 3
    ensures var ws := Vector(args, ArgsAt(rsp, args, envp), envp, rsp - |Block(envp)|);
      var r := FinalRsp(rsp, args, envp);
      k < |ws| && (ws[k] < WORD ==> WordAt(Image(mem, rsp, args, envp), r + 8 * k) == ws[k])
  {
    hide Put, Words, Block, Starts, Decode, Get;
    var at := ArgsAt(rsp, args, envp);
    var ws := Vector(args, at, envp, rsp - |Block(envp)|);
    Alignment(rsp, args, envp);
    VectorAt(args, at, envp, rsp - |Block(envp)|);
    if ws[k] < WORD {
      VectorWord(Put(mem, at, Block(args) + Block(envp)), FinalRsp(rsp, args, envp), ws, k);
    }
  }

  /** Where string `k` lies among the copied strings. */
  lemma TextSlice(rsp: nat, args: seq<Text>, envp: seq<Text>, k: nat)
    requires BOTTOM <= rsp <= STACK_TOP && Fits(rsp, args, envp) && k < |args| + |envp|
    ensures var at, p, n := ArgsAt(rsp, args, envp), TextAt(rsp, args, envp, k), |(args + envp)[k]| + 1;
      && at <= p && p + n <= rsp
      && (Block(args) + Block(envp))[p - at..p - at + n] == (args + envp)[k] + [0]
  {
    hide FinalRsp, Block, Start;
    var at, n := ArgsAt(rsp, args, envp), |(args + envp)[k]| + 1;
    if k < |args| {
      StringAtStart(args, at, k);
      SliceLeft(Block(args), Block(envp), Start(args, at, k) - at, n);
    } else {
      var envAt := rsp - |Block(envp)|;
      StringAtStart(envp, envAt, k - |args|);
      SliceRight(Block(args), Block(envp), Start(envp, envAt, k - |args|) - envAt, n);
    }
  }

  lemma SliceLeft(a: seq<Byte>, b: seq<Byte>, from: nat, n: nat)
    requires from + n <= |a|
    ensures (a + b)[from..from + n] == a[from..from + n]
  {}

  lemma SliceRight(a: seq<Byte>, b: seq<Byte>, from: nat, n: nat)
    requires from + n <= |b|
    ensures (a + b)[|a| + from..|a| + from + n] == b[from..from + n]
  {}

  /** Every string of the image is intact. */
  lemma ImageText(mem: Memory, rsp: nat, args: seq<Text>, envp: seq<Text>, k: nat)
    requires BOTTOM <= rsp <= STACK_TOP && Fits(rsp, args, envp) && k < |args| + |envp|
    ensures var p := TextAt(rsp, args, envp, k);
      && ArgsAt(rsp, args, envp) <= p && p + |(args + envp)[k]| + 1 <= rsp
      && StringAt(Image(mem, rsp, args, envp), p, (args + envp)[k])
  {
    hide Block, Start, Words, Put, Get, TextAt;
    var at, p, n := ArgsAt(rsp, args, envp), TextAt(rsp, args, envp, k), |(args + envp)[k]| + 1;
    var both := Block(args) + Block(envp);
    TextSlice(rsp, args, envp, k);
    Alignment(rsp, args, envp);
    VectorAt(args, at, envp, rsp - |Block(envp)|);
    GetAway(Put(mem, at, both), FinalRsp(rsp, args, envp), Words(Vector(args, at, envp, rsp - |Block(envp)|)), p, n);
    GetPut(mem, at, both, p, n);
  }

  function TextAt(rsp: nat, args: seq<Text>, envp: seq<Text>, k: nat): nat
    requires BOTTOM <= rsp && Fits(rsp, args, envp) && k < |args| + |envp|
  {
    if k < |args| then Start(args, ArgsAt(rsp, args, envp), k) else Start(envp, rsp - |Block(envp)|, k - |args|)
  }

  lemma TextOrder(rsp: nat, args: seq<Text>, envp: seq<Text>, i: nat, k: nat)
    requires BOTTOM <= rsp && Fits(rsp, args, envp) && i < k < |args| + |envp|
    ensures TextAt(rsp, args, envp, i) + |(args + envp)[i]| + 1 <= TextAt(rsp, args, envp, k)
  {
    if k < |args| {
      StartOrder(args, ArgsAt(rsp, args, envp), i, k);
    } else if i < |args| {
      StringAtStart(args, ArgsAt(rsp, args, envp), i);
      StartFrom(envp, rsp - |Block(envp)|, k - |args|);
    } else {
      StartOrder(envp, rsp - |Block(envp)|, i - |args|, k - |args|);
    }
  }

  /** The pointers of the image are where the strings are. */
  lemma ImagePointer(mem: Memory, rsp: nat, args: seq<Text>, envp: seq<Text>, k: nat)
    requires BOTTOM <= rsp <= STACK_TOP && Fits(rsp, args, envp) && k < |args| + |envp|
    ensures var r := FinalRsp(rsp, args, envp);
      && Inside(r, 8 * (|args| + |envp| + 3))
      && PointerAt(Image(mem, rsp, args, envp), r, args, envp, k) == TextAt(rsp, args, envp, k)
  {
    hide Put, Words, Block, Decode, Get, Start, StringAt;
    Alignment(rsp, args, envp);
    ImageText(mem, rsp, args, envp, k);
    ImageWord(mem, rsp, args, envp, if k < |args| then 1 + k else 2 + k);
    VectorAt(args, ArgsAt(rsp, args, envp), envp, rsp - |Block(envp)|);
    hide Vector, Image, Fits, ArgsAt, FinalRsp;
  }

  lemma ImageApart(mem: Memory, rsp: nat, args: seq<Text>, envp: seq<Text>)
    requires BOTTOM <= rsp <= STACK_TOP && Fits(rsp, args, envp)
    ensures Inside(FinalRsp(rsp, args, envp), 8 * (|args| + |envp| + 3))
    ensures PointsTo(Image(mem, rsp, args, envp), FinalRsp(rsp, args, envp), args, envp)
    ensures NoOverlap(Image(mem, rsp, args, envp), FinalRsp(rsp, args, envp), args, envp, rsp)
  {
    hide Put, Words, Block, Start, StringAt, TextAt, Image, PointerAt, Pad;
    Alignment(rsp, args, envp);
    var m, r, all := Image(mem, rsp, args, envp), FinalRsp(rsp, args, envp), args + envp;
    assert Inside(r, 8 * (|args| + |envp| + 3)) && r + 8 * (|all| + 3) <= ArgsAt(rsp, args, envp);
    hide FinalRsp, ArgsAt, Fits;
    forall k | 0 <= k < |all|
      ensures PointerAt(m, r, args, envp, k) == TextAt(rsp, args, envp, k) && StringAt(m, TextAt(rsp, args, envp, k), all[k])
      ensures ArgsAt(rsp, args, envp) <= TextAt(rsp, args, envp, k) && TextAt(rsp, args, envp, k) + |all[k]| + 1 <= rsp
    {
      ImagePointer(mem, rsp, args, envp, k);
      ImageText(mem, rsp, args, envp, k);
    }
    forall i, k | 0 <= i < k < |all|
      ensures TextAt(rsp, args, envp, i) + |all[i]| + 1 <= TextAt(rsp, args, envp, k)
    {
      TextOrder(rsp, args, envp, i, k);
    }
  }

  /** Whatever the arguments, a stack that is built is the one the psABI asks for, its strings
      intact and apart. */
  lemma ImageIsAbi(mem: Memory, rsp: nat, args: seq<Text>, envp: seq<Text>)
    requires BOTTOM <= rsp <= STACK_TOP && Fits(rsp, args, envp)
    ensures AbiStack(Image(mem, rsp, args, envp), FinalRsp(rsp, args, envp), args, envp)
    ensures NoOverlap(Image(mem, rsp, args, envp), FinalRsp(rsp, args, envp), args, envp, rsp)
  {
    hide Put, Words, Block, Start, WordAt, PointsTo, NoOverlap, Image;
    ImageApart(mem, rsp, args, envp);
    Alignment(rsp, args, envp);
    ImageWord(mem, rsp, args, envp, 0);
    ImageWord(mem, rsp, args, envp, 1 + |args|);
    ImageWord(mem, rsp, args, envp, 2 + |args| + |envp|);
    VectorAt(args, ArgsAt(rsp, args, envp), envp, rsp - |Block(envp)|);
  }

  /** Nothing outside the new part of the stack is written. */
  lemma ImageElsewhere(mem: Memory, rsp: nat, args: seq<Text>, envp: seq<Text>, from: nat, n: nat)
    requires BOTTOM <= rsp <= STACK_TOP && Fits(rsp, args, envp)
    requires Inside(from, n) && (from + n <= FinalRsp(rsp, args, envp) || rsp <= from)
    ensures Get(Image(mem, rsp, args, envp), from, n) == Get(mem, from, n)
  {
    var at := ArgsAt(rsp, args, envp);
    Alignment(rsp, args, envp);
    VectorAt(args, at, envp, rsp - |Block(envp)|);
    hide Put, Block, Words;
    GetAway(mem, at, Block(args) + Block(envp), from, n);
    GetAway(Put(mem, at, Block(args) + Block(envp)), FinalRsp(rsp, args, envp),
            Words(Vector(args, at, envp, rsp - |Block(envp)|)), from, n);
  }
}
