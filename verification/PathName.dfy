/** The path normaliser: components are split at slashes, "." and ".." are resolved on a bounded
    stack, and the result is written back as an absolute path. */
module PathName {
  import opened Common

  const MAX_COMPONENTS: nat := 32
  const COMPONENT_MAX: nat := 255

  // ---------------------------------------------------------------- splitting and joining

  /** How many characters come before the first slash. */
  function TokenLen(p: string): (n: nat)
    ensures n <= |p| && (forall i | 0 <= i < n :: p[i] != '/') && (n < |p| ==> p[n] == '/')
  {
    if p == [] || p[0] == '/' then 0 else 1 + TokenLen(p[1..])
  }

  /** The non-empty stretches between slashes. */
  function Split(p: string): seq<string>
    decreases |p|
  {
    if p == [] then []
    else if p[0] == '/' then Split(p[1..])
    else assert TokenLen(p) > 0; [p[..TokenLen(p)]] + Split(p[TokenLen(p)..])
  }

  /** A slash before each component. */
  function Join(components: seq<string>): string {
    if components == [] then "" else "/" + components[0] + Join(components[1..])
  }

  /** A component that names an entry of a directory. */
  predicate Plain(c: string) {
    c != "" && c != "." && c != ".." && |c| <= COMPONENT_MAX && forall i | 0 <= i < |c| :: c[i] != '/'
  }

  predicate AllPlain(components: seq<string>) {
    forall i | 0 <= i < |components| :: Plain(components[i])
  }

  lemma TokenLenIs(p: string, n: nat)
    requires n <= |p| && (forall i | 0 <= i < n :: p[i] != '/') && (n < |p| ==> p[n] == '/')
    ensures TokenLen(p) == n
  {}

  /** Splitting a joined path gives the components back. */
  lemma {:induction false} SplitJoin(components: seq<string>)
    requires AllPlain(components)
    ensures Split(Join(components)) == components
  {
    if components != [] {
      var c, rest := components[0], Join(components[1..]);
      assert Plain(c);
      assert rest != "" ==> rest[0] == '/';
      var p := c + rest;
      TokenLenIs(p, |c|);
      assert p[..|c|] == c && p[|c|..] == rest;
      assert Split(p) == [c] + Split(rest);
      assert ("/" + c + rest)[1..] == p;
      SplitJoin(components[1..]);
    }
  }

  // ---------------------------------------------------------------- the fold

  /** One component on the stack: "." stays, ".." goes up as far as the root, a name goes down. */
  function Enter(stack: seq<string>, token: string): Option<seq<string>> {
    if |token| > COMPONENT_MAX then None
    else if token == "." then Some(stack)
    else if token == ".." then Some(if stack == [] then stack else stack[..|stack| - 1])
    else if |stack| >= MAX_COMPONENTS then None
    else Some(stack + [token])
  }

  function Fold(stack: seq<string>, tokens: seq<string>): Option<seq<string>>
    decreases |tokens|
  {
    if tokens == [] then Some(stack) else
    match Enter(stack, tokens[0])
    case None => None
    case Some(next) => Fold(next, tokens[1..])
  }

  function Resolve(path: string): Option<seq<string>> { Fold([], Split(path)) }

  /** The normal form that fits in a buffer of `size` characters with its terminator. */
  function Normal(path: string, size: nat): Option<string> {
    var stack := Resolve(path);
    if stack.Some? && stack.value != [] && |Join(stack.value)| < size then Some(Join(stack.value)) else None
  }

  lemma {:induction false} SplitTokens(p: string, k: nat)
    requires k < |Split(p)|
    ensures Split(p)[k] != "" && forall i | 0 <= i < |Split(p)[k]| :: Split(p)[k][i] != '/'
    decreases |p|
  {
    if p[0] == '/' {
      SplitTokens(p[1..], k);
    } else if k > 0 {
      SplitTokens(p[TokenLen(p)..], k - 1);
    }
  }

  predicate Tokens(tokens: seq<string>) {
    forall k | 0 <= k < |tokens| :: tokens[k] != "" && forall i | 0 <= i < |tokens[k]| :: tokens[k][i] != '/'
  }

  lemma {:induction false} FoldPlain(stack: seq<string>, tokens: seq<string>)
    requires AllPlain(stack) && |stack| <= MAX_COMPONENTS && Tokens(tokens) && Fold(stack, tokens).Some?
    ensures AllPlain(Fold(stack, tokens).value) && |Fold(stack, tokens).value| <= MAX_COMPONENTS
    decreases |tokens|
  {
    if tokens != [] {
      FoldPlain(Enter(stack, tokens[0]).value, tokens[1..]);
    }
  }

  /** Plain components are entered one by one. */
  lemma {:induction false} FoldNames(stack: seq<string>, names: seq<string>)
    requires AllPlain(names) && |stack| + |names| <= MAX_COMPONENTS
    ensures Fold(stack, names) == Some(stack + names)
    decreases |names|
  {
    if names != [] {
      assert Plain(names[0]);
      FoldNames(stack + [names[0]], names[1..]);
      assert stack + [names[0]] + names[1..] == stack + names;
    } else {
      assert stack + names == stack;
    }
  }

  /** The result of a normalisation: components that are all plain, which splitting it returns. */
  lemma NormalForm(path: string, size: nat)
    requires Normal(path, size).Some?
    ensures var out, stack := Normal(path, size).value, Resolve(path);
      && stack.Some? && 0 < |stack.value| <= MAX_COMPONENTS && AllPlain(stack.value)
      && out == Join(stack.value) && Split(out) == stack.value && out[0] == '/' && 1 < |out| < size
  {
    forall k | 0 <= k < |Split(path)|
      ensures Split(path)[k] != "" && forall i | 0 <= i < |Split(path)[k]| :: Split(path)[k][i] != '/'
    {
      SplitTokens(path, k);
    }
    FoldPlain([], Split(path));
    SplitJoin(Resolve(path).value);
    assert Plain(Resolve(path).value[0]);
  }

  /** Normalising a normal form changes nothing. */
  lemma Idempotent(path: string, size: nat)
    requires Normal(path, size).Some?
    ensures Normal(Normal(path, size).value, size) == Normal(path, size)
  {
    NormalForm(path, size);
    var stack := Resolve(path).value;
    FoldNames([], stack);
    assert [] + stack == stack;
  }

  // ---------------------------------------------------------------- what dots mean

  lemma {:induction false} SplitConcat(p: string, q: string)
    ensures Split(p + "/" + q) == Split(p) + Split(q)
    decreases |p|
  {
    var whole := p + "/" + q;
    if p == "" {
      assert whole[1..] == q;
    } else if p[0] == '/' {
      assert whole[1..] == p[1..] + "/" + q;
      SplitConcat(p[1..], q);
    } else {
      var n := TokenLen(p);
      TokenLenIs(whole, n);
      assert whole[..n] == p[..n] && whole[n..] == p[n..] + "/" + q;
      SplitConcat(p[n..], q);
    }
  }

  lemma {:induction false} FoldConcat(stack: seq<string>, a: seq<string>, b: seq<string>)
    ensures Fold(stack, a + b) ==
            match Fold(stack, a)
            case None => None
            case Some(next) => Fold(next, b)
    decreases |a|
  {
    if a == [] {
      assert a + b == b;
    } else {
      assert (a + b)[0] == a[0] && (a + b)[1..] == a[1..] + b;
      var next := Enter(stack, a[0]);
      if next.Some? { FoldConcat(next.value, a[1..], b); }
    }
  }

  /** A path and what follows it are resolved one after the other. */
  lemma ResolveConcat(p: string, q: string)
    ensures Resolve(p + "/" + q) ==
            match Resolve(p)
            case None => None
            case Some(stack) => Fold(stack, Split(q))
  {
    SplitConcat(p, q);
    FoldConcat([], Split(p), Split(q));
  }

  lemma SplitDots()
    ensures Split(".") == ["."] && Split("..") == [".."]
  {
    TokenLenIs(".", 1);
    TokenLenIs("..", 2);
    assert "."[..1] == "." && ".."[..2] == "..";
    assert "."[1..] == "" && ".."[2..] == "";
  }

  lemma FoldOne(stack: seq<string>, token: string)
    ensures Fold(stack, [token]) == Enter(stack, token)
  {
    assert [token][1..] == [];
  }

  /** A "." anywhere in a path changes nothing. */
  lemma DotIsNeutral(p: string, q: string)
    ensures Resolve(p + "/" + "." + "/" + q) == Resolve(p + "/" + q)
  {
    ResolveConcat(p + "/" + ".", q);
    ResolveConcat(p, ".");
    ResolveConcat(p, q);
    SplitDots();
    if Resolve(p).Some? { FoldOne(Resolve(p).value, "."); }
  }

  /** A ".." takes the name before it away, wherever the two stand, unless there was no room for the name. */
  lemma UpUndoesName(p: string, name: string, q: string)
    requires Plain(name)
    ensures Resolve(p + "/" + name + "/" + ".." + "/" + q) ==
            if Resolve(p).Some? && |Resolve(p).value| < MAX_COMPONENTS then Resolve(p + "/" + q) else None
  {
    var down := p + "/" + name;
    ResolveConcat(down + "/" + "..", q);
    ResolveConcat(down, "..");
    ResolveConcat(p, name);
    ResolveConcat(p, q);
    SplitDots();
    SplitJoin([name]);
    assert Join([name]) == "/" + name + Join([]) == "/" + name;
    assert ("/" + name)[1..] == name;
    assert Split(name) == [name];
    if Resolve(p).Some? {
      var stack := Resolve(p).value;
      FoldOne(stack, name);
      FoldOne(stack + [name], "..");
      assert (stack + [name])[..|stack|] == stack;
    }
  }

  /** A ".." at the root stays there; anywhere else it drops the last component. */
  lemma UpDropsLast(p: string, q: string)
    requires Resolve(p).Some?
    ensures var stack := Resolve(p).value;
      Resolve(p + "/" + ".." + "/" + q) == Fold(if stack == [] then [] else stack[..|stack| - 1], Split(q))
  {
    ResolveConcat(p + "/" + "..", q);
    ResolveConcat(p, "..");
    SplitDots();
    FoldOne(Resolve(p).value, "..");
  }

  // ---------------------------------------------------------------- the loops

  method SkipSlashes(path: string, from: nat) returns (i: nat)
    requires from <= |path|
    ensures from <= i <= |path| && Split(path[i..]) == Split(path[from..]) && (i < |path| ==> path[i] != '/')
  {
    i := from;
    while i < |path| && path[i] == '/'
      invariant from <= i <= |path| && Split(path[i..]) == Split(path[from..])
    {
      assert path[i..][1..] == path[i + 1..];
      i := i + 1;
    }
  }

  method ReadToken(path: string, from: nat) returns (ok: bool, token: string, i: nat)
    requires from < |path| && path[from] != '/'
    ensures ok <==> TokenLen(path[from..]) <= COMPONENT_MAX
    ensures ok ==> i == from + TokenLen(path[from..]) && token == path[from..i] && from < i
  {
    i, token := from, "";
    while i < |path| && path[i] != '/'
      invariant from <= i <= |path| && token == path[from..i] && |token| <= COMPONENT_MAX
      invariant forall k | from <= k < i :: path[k] != '/'
    {
      if |token| >= COMPONENT_MAX {
        assert path[from..][i - from] == path[i];
        return false, token, i;
      }
      token := token + [path[i]];
      i := i + 1;
    }
    TokenLenIs(path[from..], i - from);
    ok := true;
  }

  /** The component stack of the path. */
  method Components(path: string) returns (stack: Option<seq<string>>)
    ensures stack == Resolve(path)
  {
    assert path[0..] == path;
    var i := SkipSlashes(path, 0);
    var components: seq<string> := [];
    while i < |path|
      invariant 0 <= i <= |path| && (i < |path| ==> path[i] != '/')
      invariant Resolve(path) == Fold(components, Split(path[i..]))
    {
      ghost var rest := path[i..];
      assert Split(rest) == [rest[..TokenLen(rest)]] + Split(rest[TokenLen(rest)..]);
      var ok, token, j := ReadToken(path, i);
      if !ok { return None; }
      assert rest[..TokenLen(rest)] == token && rest[TokenLen(rest)..] == path[j..];
      assert Split(rest)[0] == token && Split(rest)[1..] == Split(path[j..]);
      i := SkipSlashes(path, j);
      if token == "." { continue; }
      if token == ".." {
        if |components| > 0 { components := components[..|components| - 1]; }
        continue;
      }
      if |components| >= MAX_COMPONENTS { return None; }
      components := components + [token];
    }
    return Some(components);
  }

  lemma {:induction false} JoinStep(components: seq<string>, i: nat)
    requires i < |components|
    ensures Join(components[..i + 1]) == Join(components[..i]) + "/" + components[i]
    ensures |Join(components[..i + 1])| <= |Join(components)|
  {
    if i == 0 {
      assert components[..1][1..] == [];
    } else {
      JoinStep(components[1..], i - 1);
      assert components[..i + 1][1..] == components[1..][..i] && components[..i][1..] == components[1..][..i - 1];
    }
  }

  /** Syscall_normalize_write_path. */
  method Normalize(path: string, size: nat) returns (out: Option<string>)
    ensures out == Normal(path, size)
  {
    if size < 2 {
      if Normal(path, size).Some? { NormalForm(path, size); }
      return None;
    }
    var stack := Components(path);
    if stack == None || stack.value == [] { return None; }
    var components := stack.value;
    forall k | 0 <= k < |Split(path)|
      ensures Split(path)[k] != "" && forall i | 0 <= i < |Split(path)[k]| :: Split(path)[k][i] != '/'
    {
      SplitTokens(path, k);
    }
    FoldPlain([], Split(path));
    var text := "/";
    for i := 0 to |components|
      invariant text == if i == 0 then "/" else Join(components[..i])
      invariant |text| < size && (i > 0 ==> |text| > 1)
    {
      JoinStep(components, i);
      assert Plain(components[i]);
      var part := components[i];
      if |text| > 1 {
        if |text| + 1 >= size { return None; }
        text := text + "/";
      }
      if |text| + |part| >= size { return None; }
      text := text + part;
    }
    assert components[..|components|] == components;
    return Some(text);
  }
}
