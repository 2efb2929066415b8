/** Byte rings: the pipe buffer, which refuses what does not fit, and the console capture buffer,
    which drops the oldest byte instead. Both are seen as the sequence of bytes they hold. */
module Rings {
  import opened Common

  /** The index `k` cells after `start`, around the end. */
  function Cell(n: nat, start: nat, k: nat): (i: nat)
    requires start < n && k <= n
    ensures i < n
  {
    if start + k < n then start + k else start + k - n
  }

  /** The index after `i`, as the kernel computes it. */
  function Next(n: nat, i: nat): (j: nat)
    requires i < n
    ensures j == Cell(n, i, 1)
  {
    (i + 1) % n
  }

  /** The `count` cells from `start` on. */
  function Window<T>(cells: seq<T>, start: nat, count: nat): (held: seq<T>)
    requires start < |cells| && count <= |cells|
    ensures |held| == count
  {
    seq(count, k requires 0 <= k < count => cells[Cell(|cells|, start, k)])
  }

  /** Storing just past the window. */
  lemma WindowPush<T>(cells: seq<T>, start: nat, count: nat, b: T)
    requires start < |cells| && count < |cells|
    ensures Window(cells[Cell(|cells|, start, count) := b], start, count + 1) == Window(cells, start, count) + [b]
  {}

  /** Advancing the start drops the first cell. */
  lemma WindowPop<T>(cells: seq<T>, start: nat, count: nat)
    requires start < |cells| && 0 < count <= |cells|
    ensures Window(cells, start, count) == [cells[start]] + Window(cells, Cell(|cells|, start, 1), count - 1)
  {}

  /** Overwriting the oldest cell of a full window and advancing both ends. */
  lemma WindowTurn<T>(cells: seq<T>, start: nat, b: T)
    requires start < |cells|
    ensures Window(cells[start := b], Cell(|cells|, start, 1), |cells|) == Window(cells, start, |cells|)[1..] + [b]
  {}

  lemma Regroup(a: seq<Byte>, b: Byte, c: seq<Byte>)
    ensures a + ([b] + c) == (a + [b]) + c
  {}

  lemma Regroup3(a: seq<Byte>, b: seq<Byte>, c: seq<Byte>)
    ensures a + (b + c) == (a + b) + c
  {}

  /** The last `n` bytes, or all of them. */
  function Recent(bytes: seq<Byte>, n: nat): seq<Byte> {
    if |bytes| <= n then bytes else bytes[|bytes| - n..]
  }

  lemma RecentStep(bytes: seq<Byte>, n: nat, b: Byte)
    requires n > 0
    ensures Recent(bytes + [b], n) == if |Recent(bytes, n)| < n then Recent(bytes, n) + [b] else Recent(bytes, n)[1..] + [b]
  {}

  lemma RecentLength(bytes: seq<Byte>, n: nat)
    ensures |Recent(bytes, n)| == Min(|bytes|, n)
  {}

  lemma RecentAll(bytes: seq<Byte>, n: nat)
    requires |bytes| <= n
    ensures Recent(bytes, n) == bytes
  {}

  lemma TakeOne(a: seq<Byte>, data: seq<Byte>, i: nat)
    requires i < |data|
    ensures a + data[..i + 1] == a + data[..i] + [data[i]]
  {}

  // ---------------------------------------------------------------- pipes

  class Pipe {
    const ring: array<Byte>
    var head: nat
    var tail: nat
    var count: nat
    var readers: nat
    var writers: nat
    ghost var written: seq<Byte>   // every byte ever accepted
    ghost var taken: seq<Byte>     // every byte ever removed

    ghost predicate Valid()
      reads this, ring
    {
      && ring.Length > 0 && head < ring.Length && count <= ring.Length
      && tail == Cell(ring.Length, head, count)
      && written == taken + Window(ring[..], head, count)
    }

    ghost function Contents(): seq<Byte>
      reads this, ring
      requires Valid()
    {
      Window(ring[..], head, count)
    }

    constructor (size: nat)
      requires size > 0
      ensures Valid() && fresh(ring) && ring.Length == size && Contents() == [] && written == taken == []
      ensures readers == writers == 1
    {
      ring := new Byte[size](_ => 0);
      head, tail, count, readers, writers := 0, 0, 0, 1, 1;
      written, taken := [], [];
    }

    /** The locked part of a write: what fits is stored, in order; -1 without a reader. */
    method Write(data: seq<Byte>) returns (r: int)
      requires Valid()
      modifies this`tail, this`count, this`written, ring
      ensures Valid()
      ensures readers == 0 ==> r == -1 && Contents() == old(Contents()) && written == old(written)
      ensures readers > 0 ==> r == Min(|data|, ring.Length - old(count))
      ensures readers > 0 ==> Contents() == old(Contents()) + data[..r] && written == old(written) + data[..r]
    {
      hide Window;
      if readers == 0 { return -1; }
      ghost var start := Contents();
      assert start + data[..0] == start;
      var toWrite := Min(|data|, ring.Length);
      var avail := ring.Length - count;
      var actual := Min(toWrite, avail);
      for i := 0 to actual
        invariant tail == Cell(ring.Length, head, count + i)
        invariant Window(ring[..], head, count + i) == start + data[..i]
        modifies this`tail, ring
      {
        ghost var before := ring[..];
        WindowPush(before, head, count + i, data[i]);
        TakeOne(start, data, i);
        ring[tail] := data[i];
        assert ring[..] == before[tail := data[i]];
        tail := Next(ring.Length, tail);
      }
      count := count + actual;
      Regroup3(taken, start, data[..actual]);
      written := written + data[..actual];
      r := actual;
    }

    /** The locked part of a read: the oldest bytes, removed in order. */
    method Take(len: nat) returns (out: seq<Byte>)
      requires Valid()
      modifies this`head, this`count, this`taken
      ensures Valid()
      ensures |out| == Min(len, old(count)) && old(Contents()) == out + Contents()
      ensures taken == old(taken) + out
    {
      hide Window;
      out := [];
      var toRead := Min(count, len);
      for i := 0 to toRead
        invariant |out| == i && head < ring.Length && tail == Cell(ring.Length, head, count - i)
        invariant old(Contents()) == out + Window(ring[..], head, count - i)
        modifies this`head
      {
        WindowPop(ring[..], head, count - i);
        Regroup(out, ring[head], Window(ring[..], Next(ring.Length, head), count - i - 1));
        out := out + [ring[head]];
        head := Next(ring.Length, head);
      }
      count := count - toRead;
      Regroup3(taken, out, Window(ring[..], head, count));
      taken := taken + out;
    }
  }

  // ---------------------------------------------------------------- console capture

  class CaptureRing {
    const buffer: array<Byte>
    var capture: bool
    var head: nat
    var tail: nat
    var count: nat
    ghost var stream: seq<Byte>   // every byte ever captured
    ghost var next: nat           // how many of them have been handed out or lost

    ghost predicate Valid()
      reads this, buffer
    {
      && buffer.Length > 0 && tail < buffer.Length && count <= buffer.Length
      && head == Cell(buffer.Length, tail, count)
      && next + count == |stream| && Window(buffer[..], tail, count) == stream[next..]
    }

    ghost function Contents(): seq<Byte>
      reads this, buffer
      requires Valid()
    {
      Window(buffer[..], tail, count)
    }

    constructor (size: nat, capture: bool)
      requires size > 0
      ensures Valid() && fresh(buffer) && buffer.Length == size && this.capture == capture && stream == [] && next == 0
    {
      buffer := new Byte[size](_ => 0);
      this.capture := capture;
      head, tail, count, stream, next := 0, 0, 0, [], 0;
    }

    /** Every byte is captured; the ring ends up with the most recent ones that fit. */
    method Push(data: seq<Byte>)
      requires Valid()
      modifies this`head, this`tail, this`count, this`stream, this`next, buffer
      ensures Valid()
      ensures !capture ==> Contents() == old(Contents()) && stream == old(stream) && next == old(next)
      ensures capture ==> next == if |stream| - old(next) <= buffer.Length then old(next) else |stream| - buffer.Length
      ensures capture ==> stream == old(stream) + data && Contents() == Recent(old(Contents()) + data, buffer.Length)
    {
      hide Window, Recent;
      if !capture { return; }
      ghost var start := Contents();
      assert start + data[..0] == start && stream + data[..0] == stream;
      RecentAll(start, buffer.Length);
      for i := 0 to |data|
        invariant Valid() && stream == old(stream) + data[..i]
        invariant Contents() == Recent(start + data[..i], buffer.Length)
      {
        RecentStep(start + data[..i], buffer.Length, data[i]);
        TakeOne(start, data, i);
        TakeOne(old(stream), data, i);
        PushByte(data[i]);
      }
      assert data[..|data|] == data;
      RecentLength(start + data, buffer.Length);
    }

    method PushByte(b: Byte)
      requires Valid()
      modifies this`head, this`tail, this`count, this`stream, this`next, buffer
      ensures Valid() && stream == old(stream) + [b]
      ensures Contents() == if old(count) < buffer.Length then old(Contents()) + [b] else old(Contents())[1..] + [b]
    {
      ghost var before := buffer[..];
      buffer[head] := b;
      assert buffer[..] == before[head := b];
      head := Next(buffer.Length, head);
      stream := stream + [b];
      if count == buffer.Length {
        WindowTurn(before, tail, b);
        tail := Next(buffer.Length, tail);
        next := next + 1;
      } else {
        WindowPush(before, tail, count, b);
        count := count + 1;
      }
    }

    /** The oldest bytes, removed in order; an emptied ring starts again at its first cell. */
    method Pop(size: nat) returns (out: seq<Byte>)
      requires Valid()
      modifies this`head, this`tail, this`count, this`next
      ensures Valid() && stream == old(stream)
      ensures |out| == Min(size, old(count)) && old(Contents()) == out + Contents()
      ensures next == old(next) + |out| && out == stream[old(next)..next]
    {
      hide Window;
      out := [];
      if size == 0 || count == 0 { return; }
      while |out| < size && count > 0
        invariant Valid() && |out| <= size && |out| + count == old(count)
        invariant old(Contents()) == out + Contents() && next == old(next) + |out|
        modifies this`tail, this`count, this`next
        decreases count
      {
        var b := PopByte();
        Regroup(out, b, Contents());
        out := out + [b];
      }
      if count == 0 {
        assert Window(buffer[..], 0, 0) == [];
        head, tail := 0, 0;
      }
      assert out == old(Contents())[..|out|];
    }

    method PopByte() returns (b: Byte)
      requires Valid() && count > 0
      modifies this`tail, this`count, this`next
      ensures Valid() && count == old(count) - 1 && next == old(next) + 1 && old(Contents()) == [b] + Contents()
    {
      WindowPop(buffer[..], tail, count);
      hide Window;
      b := buffer[tail];
      tail := Next(buffer.Length, tail);
      count := count - 1;
      next := next + 1;
    }
  }
}
