/** A regular file descriptor: a buffered copy of the file with a cursor, written back on close.
    It is seen as the pair of the file's bytes and the cursor. */
module RegularFile {
  import opened Common

  datatype Whence = SeekSet | SeekCur | SeekEnd | SeekUnknown

  /** The descriptor's fields. `buffer` is everything allocated; the file is its first `size` bytes. */
  datatype File = File(buffer: seq<Byte>, size: nat, offset: nat, maxSize: nat,
                       canRead: bool, canWrite: bool, dirty: bool)

  /** The cursor's bound: how far a seek may go. */
  function Limit(f: File): nat { if f.canWrite then f.maxSize else f.size }

  predicate Ok(f: File) {
    f.size <= |f.buffer| && f.size <= f.maxSize && f.offset <= Limit(f) && (!f.canWrite ==> f.maxSize == f.size)
  }

  function Bytes(f: File): seq<Byte>
    requires Ok(f)
  {
    f.buffer[..f.size]
  }

  /** The buffer past the end of the file is still zero. */
  predicate TailZero(f: File) { forall k | f.size <= k < |f.buffer| :: f.buffer[k] == 0 }

  function Zeros(n: nat): seq<Byte> { seq(n, _ => 0) }

  // ---------------------------------------------------------------- writing

  /** The bytes after writing `data` at `at`: a gap past the old end is filled with zeros. */
  function Overlay(bytes: seq<Byte>, at: nat, data: seq<Byte>): seq<Byte> {
    (if at <= |bytes| then bytes[..at] else bytes + Zeros(at - |bytes|))
    + data + (if at + |data| < |bytes| then bytes[at + |data|..] else [])
  }

  /** What was written reads back, a gap reads as zero, and every other byte is kept. */
  lemma OverlayReads(bytes: seq<Byte>, at: nat, data: seq<Byte>)
    ensures var after := Overlay(bytes, at, data);
      && |after| == (if |bytes| < at + |data| then at + |data| else |bytes|)
      && after[at..at + |data|] == data
      && (forall k | 0 <= k < at :: after[k] == if k < |bytes| then bytes[k] else 0)
      && (forall k | at + |data| <= k < |bytes| :: after[k] == bytes[k])
  {}

  /** A larger buffer keeps the file and is zero behind it. */
  function Grown(buffer: seq<Byte>, size: nat, needed: nat): (after: seq<Byte>)
    requires size <= |buffer|
    ensures needed <= |after| && size <= |after| && after[..size] == buffer[..size]
  {
    if needed <= |buffer| then buffer else buffer[..size] + Zeros(needed - size)
  }

  function Stored(buffer: seq<Byte>, at: nat, data: seq<Byte>): seq<Byte>
    requires at + |data| <= |buffer|
  {
    buffer[..at] + data + buffer[at + |data|..]
  }

  /** The write gets as far as copying from the user. `room` is the allocator's answer. */
  predicate Attempted(f: File, len: nat, room: bool) {
    f.canWrite && len > 0 && f.offset + len <= f.maxSize && (f.offset + len <= |f.buffer| || room)
  }

  /** What a write does and returns, when the first `reach` bytes of the user's buffer are accessible. */
  function AfterWrite(f: File, bytes: seq<Byte>, room: bool, reach: nat): (File, int)
    requires Ok(f)
  {
    if bytes == [] then (f, 0)
    else if !Attempted(f, |bytes|, room) then (f, -1)
    else
      var n := Min(reach, |bytes|);
      var end := f.offset + |bytes|;
      var buffer := Stored(Grown(f.buffer, f.size, end), f.offset, bytes[..n]);
      if n < |bytes| then (f.(buffer := buffer), -1)
      else (f.(buffer := buffer, offset := end, size := if f.size < end then end else f.size, dirty := true), |bytes|)
  }

  lemma AfterWriteOk(f: File, bytes: seq<Byte>, room: bool, reach: nat)
    requires Ok(f)
    ensures Ok(AfterWrite(f, bytes, room, reach).0)
  {}

  /** A complete write overlays the file, as long as the buffer behind it is zero, and keeps it so. */
  lemma WriteOverlays(f: File, bytes: seq<Byte>, room: bool, reach: nat)
    requires Ok(f) && TailZero(f) && bytes != []
    requires Attempted(f, |bytes|, room) && reach >= |bytes|
    ensures var (after, r) := AfterWrite(f, bytes, room, reach);
      && r == |bytes| && Ok(after) && TailZero(after) && after.dirty && after.offset == f.offset + |bytes|
      && Bytes(after) == Overlay(Bytes(f), f.offset, bytes)
  {
    assert bytes[..|bytes|] == bytes;
    GrownOverlays(f.buffer, f.size, f.offset, bytes);
  }

  lemma GrownOverlays(buffer: seq<Byte>, size: nat, at: nat, data: seq<Byte>)
    requires size <= |buffer| && forall k | size <= k < |buffer| :: buffer[k] == 0
    ensures var grown := Grown(buffer, size, at + |data|);
      var after := Stored(grown, at, data);
      var end := if size < at + |data| then at + |data| else size;
      && after[..end] == Overlay(buffer[..size], at, data)
      && (forall k | end <= k < |after| :: after[k] == 0)
  {
    var grown := Grown(buffer, size, at + |data|);
    assert forall k | size <= k < |grown| :: grown[k] == 0;
  }

  // ---------------------------------------------------------------- writes that stop part of the way

  function Repeated(b: Byte, n: nat): seq<Byte> { seq(n, _ => b) }

  /** Byte `k` of the buffer after a write of which `reach` bytes were delivered. */
  lemma PartialAt(f: File, bytes: seq<Byte>, room: bool, reach: nat, k: nat)
    requires Ok(f) && reach < |bytes| && Attempted(f, |bytes|, room)
    ensures var after := AfterWrite(f, bytes, room, reach).0;
      && after.size == f.size && after.offset == f.offset && after.dirty == f.dirty
      && f.offset + |bytes| <= |after.buffer| && f.size <= |after.buffer|
      && (f.offset <= k < f.offset + reach ==> after.buffer[k] == bytes[k - f.offset])
      && (k < f.size && !(f.offset <= k < f.offset + reach) ==> after.buffer[k] == f.buffer[k])
      && (f.size <= k < |after.buffer| && !(f.offset <= k < f.offset + reach) ==>
            after.buffer[k] == if k < |f.buffer| && f.offset + |bytes| <= |f.buffer| then f.buffer[k] else 0)
  {}

  lemma ChangesFile(f: File, len: nat, room: bool, reach: nat) returns (bytes: seq<Byte>)
    requires Ok(f) && reach < len && Attempted(f, len, room) && reach > 0 && f.offset < f.size
    ensures |bytes| == len && Ok(AfterWrite(f, bytes, room, reach).0) && Bytes(AfterWrite(f, bytes, room, reach).0) != Bytes(f)
  {
    bytes := Repeated(if f.buffer[f.offset] == 0 then 1 else 0, len);
    PartialAt(f, bytes, room, reach, f.offset);
    AfterWriteOk(f, bytes, room, reach);
    assert Bytes(AfterWrite(f, bytes, room, reach).0)[f.offset] != Bytes(f)[f.offset];
  }

  /** A failed write leaves the file as it was, whatever the user's bytes are, exactly when it is not
      attempted, nothing is accessible, or the cursor is at or past the end. */
  lemma UnchangedIff(f: File, len: nat, room: bool, reach: nat)
    requires Ok(f) && reach < len
    ensures (forall bytes: seq<Byte> | |bytes| == len :: Bytes(AfterWrite(f, bytes, room, reach).0) == Bytes(f)) <==>
            !(Attempted(f, len, room) && reach > 0 && f.offset < f.size)
  {
    if Attempted(f, len, room) && reach > 0 && f.offset < f.size {
      var bytes := ChangesFile(f, len, room, reach);
    } else {
      forall bytes: seq<Byte> | |bytes| == len ensures Bytes(AfterWrite(f, bytes, room, reach).0) == Bytes(f) {
        if Attempted(f, len, room) {
          forall k | 0 <= k < f.size ensures AfterWrite(f, bytes, room, reach).0.buffer[k] == f.buffer[k] {
            PartialAt(f, bytes, room, reach, k);
          }
        }
      }
    }
  }

  /** A failed write leaves the buffer past the end zero, so that later gaps read as zero, exactly when
      it is not attempted, nothing is accessible, or what is accessible ends inside the file. */
  lemma TailZeroIff(f: File, len: nat, room: bool, reach: nat)
    requires Ok(f) && TailZero(f) && reach < len
    ensures (forall bytes: seq<Byte> | |bytes| == len :: TailZero(AfterWrite(f, bytes, room, reach).0)) <==>
            !(Attempted(f, len, room) && reach > 0 && f.offset + reach > f.size)
  {
    if Attempted(f, len, room) && reach > 0 && f.offset + reach > f.size {
      var bytes := Repeated(7, len);
      var k := f.offset + reach - 1;
      PartialAt(f, bytes, room, reach, k);
      assert AfterWrite(f, bytes, room, reach).0.buffer[k] == 7;
    } else {
      forall bytes: seq<Byte> | |bytes| == len ensures TailZero(AfterWrite(f, bytes, room, reach).0) {
        if Attempted(f, len, room) {
          var after := AfterWrite(f, bytes, room, reach).0;
          forall k | after.size <= k < |after.buffer| ensures after.buffer[k] == 0 {
            PartialAt(f, bytes, room, reach, k);
          }
        }
      }
    }
  }

  /** A failed write is harmless, now and later and whatever the user's bytes are, exactly when it is
      not attempted or nothing of the user's buffer is accessible. */
  lemma HarmlessIff(f: File, len: nat, room: bool, reach: nat)
    requires Ok(f) && TailZero(f) && reach < len
    ensures (forall bytes: seq<Byte> | |bytes| == len ::
               var after := AfterWrite(f, bytes, room, reach).0; Ok(after) && Bytes(after) == Bytes(f) && TailZero(after)) <==>
            !(Attempted(f, len, room) && reach > 0)
  {
    UnchangedIff(f, len, room, reach);
    TailZeroIff(f, len, room, reach);
    forall bytes: seq<Byte> | |bytes| == len ensures Ok(AfterWrite(f, bytes, room, reach).0) {
      AfterWriteOk(f, bytes, room, reach);
    }
  }

  /** A new writable file: a write of two bytes of which one is accessible fails; after a seek to 1 a
      write of one byte succeeds, and the gap before it reads as 7. */
  lemma GapShowsLostByte()
    ensures var f0 := File([], 0, 0, 4096, true, true, true);
      var (f1, r1) := AfterWrite(f0, [7, 7], true, 1);
      var (f2, r2) := AfterSeek(f1, SeekSet, 1);
      var (f3, r3) := AfterWrite(f2, [9], true, 1);
      && r1 == -1 && r2 == 1 && r3 == 1 && Bytes(f1) == []
      && Bytes(f3) == [7, 9] && Overlay(Bytes(f1), 1, [9]) == [0, 9]
  {
    var f0 := File([], 0, 0, 4096, true, true, true);
    var (f1, r1) := AfterWrite(f0, [7, 7], true, 1);
    assert [7, 7][..1] == [7] && f1.buffer == [7, 0];
    var (f2, r2) := AfterSeek(f1, SeekSet, 1);
    var (f3, r3) := AfterWrite(f2, [9], true, 1);
    assert [9][..1] == [9] && f3.buffer == [7, 9] && f3.buffer[..2] == [7, 9];
    assert Overlay([], 1, [9]) == [0, 9];
  }

  // ---------------------------------------------------------------- seeking and reading

  function SeekBase(f: File, whence: Whence): nat {
    match whence case SeekSet => 0 case SeekCur => f.offset case _ => f.size
  }

  /** The cursor may go to any place from the start up to the limit, and nowhere else. */
  function AfterSeek(f: File, whence: Whence, off: int): (File, int)
    requires Ok(f)
    ensures Ok(AfterSeek(f, whence, off).0)
  {
    var to := SeekBase(f, whence) + off;
    if whence != SeekUnknown && 0 <= to <= Limit(f) then (f.(offset := to), to) else (f, -1)
  }

  /** The bytes at the cursor. */
  function ReadAt(f: File, len: nat): seq<Byte>
    requires Ok(f)
  {
    if f.offset >= f.size then [] else f.buffer[f.offset..f.offset + Min(len, f.size - f.offset)]
  }

  /** Nothing moves when the copy to the user fails. */
  function AfterRead(f: File, len: nat, copies: bool): (File, int)
    requires Ok(f)
    ensures Ok(AfterRead(f, len, copies).0)
  {
    if len == 0 then (f, 0)
    else if !f.canRead || (ReadAt(f, len) != [] && !copies) then (f, -1)
    else (f.(offset := f.offset + |ReadAt(f, len)|), |ReadAt(f, len)|)
  }

  // ---------------------------------------------------------------- histories

  datatype Op =
    | Read(len: nat, copies: bool)
    | Write(bytes: seq<Byte>, room: bool, reach: nat)
    | Seek(whence: Whence, off: int)

  function Step(f: File, op: Op): (File, int)
    requires Ok(f)
    ensures Ok(Step(f, op).0)
  {
    match op
    case Read(len, copies) => AfterRead(f, len, copies)
    case Write(bytes, room, reach) => AfterWriteOk(f, bytes, room, reach); AfterWrite(f, bytes, room, reach)
    case Seek(whence, off) => AfterSeek(f, whence, off)
  }

  /** The file as its user thinks of it. */
  datatype Text = Text(bytes: seq<Byte>, cursor: nat)

  function TextOf(f: File): Text
    requires Ok(f)
  {
    Text(Bytes(f), f.offset)
  }

  /** What an operation that returned `r` means. */
  function Meaning(t: Text, op: Op, r: int): Text {
    match op
    case Read(_, _) => if r > 0 then t.(cursor := t.cursor + r) else t
    case Write(bytes, _, _) => if r > 0 then Text(Overlay(t.bytes, t.cursor, bytes), t.cursor + |bytes|) else t
    case Seek(_, _) => if r >= 0 then t.(cursor := r) else t
  }

  /** How the file was opened, and the largest size it may grow to. */
  datatype Mode = Mode(canRead: bool, canWrite: bool, maxSize: nat)

  function ModeOf(f: File): Mode { Mode(f.canRead, f.canWrite, f.maxSize) }

  /** What an operation may return, from the text alone. A read delivers the bytes at the cursor, as many
      as are asked for and left; a seek goes from the start, the cursor or the end to a place no further
      than a writable file may grow and no further than the end of any other; a write is complete or
      fails, and a complete one that fits fails only when there is no room. */
  predicate Answers(mode: Mode, t: Text, op: Op, r: int, out: seq<Byte>) {
    match op
    case Read(len, copies) =>
      if len == 0 then r == 0 && out == []
      else if !mode.canRead then r == -1 && out == []
      else if t.cursor >= |t.bytes| then r == 0 && out == []
      else if !copies then r == -1 && out == []
      else
        && r == (if t.cursor + len <= |t.bytes| then len else |t.bytes| - t.cursor)
        && out == t.bytes[t.cursor..t.cursor + r]
    case Write(bytes, room, reach) =>
      && out == []
      && (if bytes == [] then r == 0
          else if !mode.canWrite || t.cursor + |bytes| > mode.maxSize || reach < |bytes| then r == -1
          else r == |bytes| || (r == -1 && !room))
    case Seek(whence, off) =>
      && out == []
      && var to := match whence
           case SeekSet => off
           case SeekCur => t.cursor + off
           case SeekEnd => |t.bytes| + off
           case SeekUnknown => -1;
         r == if 0 <= to <= (if mode.canWrite then mode.maxSize else |t.bytes|) then to else -1
  }

  /** The bytes an operation delivers to the user. */
  function Output(f: File, op: Op): seq<Byte>
    requires Ok(f)
  {
    if op.Read? && Step(f, op).1 > 0 then ReadAt(f, op.len) else []
  }

  lemma StepAnswers(f: File, op: Op)
    requires Ok(f)
    ensures Answers(ModeOf(f), TextOf(f), op, Step(f, op).1, Output(f, op)) && ModeOf(Step(f, op).0) == ModeOf(f)
  {
    if op.Read? && f.offset < f.size {
      PrefixSlice(f.buffer, f.size, f.offset, f.offset + Min(op.len, f.size - f.offset));
    }
  }

  lemma PrefixSlice(s: seq<Byte>, n: nat, i: nat, j: nat)
    requires i <= j <= n <= |s|
    ensures s[..n][i..j] == s[i..j]
  {}

  /** The operation is not a write whose copy from the user stops part of the way. */
  predicate AllOrNothing(f: File, op: Op) {
    op.Write? && Attempted(f, |op.bytes|, op.room) ==> op.reach == 0 || op.reach >= |op.bytes|
  }

  lemma StepMeans(f: File, op: Op)
    requires Ok(f) && TailZero(f) && AllOrNothing(f, op)
    ensures TextOf(Step(f, op).0) == Meaning(TextOf(f), op, Step(f, op).1) && TailZero(Step(f, op).0)
    ensures f.dirty ==> Step(f, op).0.dirty
    ensures !Step(f, op).0.dirty ==> Bytes(Step(f, op).0) == Bytes(f)
  {
    if op.Write? && Attempted(f, |op.bytes|, op.room) {
      if op.reach >= |op.bytes| {
        WriteOverlays(f, op.bytes, op.room, op.reach);
      } else {
        UnchangedIff(f, |op.bytes|, op.room, op.reach);
        TailZeroIff(f, |op.bytes|, op.room, op.reach);
      }
    }
  }

  function After(f: File, ops: seq<Op>): File
    requires Ok(f)
    ensures Ok(After(f, ops))
    decreases |ops|
  {
    if ops == [] then f else After(Step(f, ops[0]).0, ops[1..])
  }

  /** Each operation's meaning applied in turn, with the results the calls returned. */
  function Told(f: File, t: Text, ops: seq<Op>): Text
    requires Ok(f)
    decreases |ops|
  {
    if ops == [] then t else Told(Step(f, ops[0]).0, Meaning(t, ops[0], Step(f, ops[0]).1), ops[1..])
  }

  /** Every operation returns, and every read delivers, what the text told so far says. */
  predicate AllAnswered(f: File, t: Text, ops: seq<Op>)
    requires Ok(f)
    decreases |ops|
  {
    ops == [] ||
      var (after, r) := Step(f, ops[0]);
      Answers(ModeOf(f), t, ops[0], r, Output(f, ops[0])) && AllAnswered(after, Meaning(t, ops[0], r), ops[1..])
  }

  predicate Undisturbed(f: File, ops: seq<Op>)
    requires Ok(f)
    decreases |ops|
  {
    ops == [] || (AllOrNothing(f, ops[0]) && Undisturbed(Step(f, ops[0]).0, ops[1..]))
  }

  /** Over any history in which no copy from the user stops part of the way, the descriptor is the
      file its user thinks of and answers as that file would; and a file that was never marked written
      is the one that was opened. */
  lemma {:induction false} HistoryMeans(f: File, ops: seq<Op>)
    requires Ok(f) && TailZero(f) && Undisturbed(f, ops)
    ensures TextOf(After(f, ops)) == Told(f, TextOf(f), ops) && TailZero(After(f, ops))
    ensures AllAnswered(f, TextOf(f), ops)
    ensures f.dirty ==> After(f, ops).dirty
    ensures !After(f, ops).dirty ==> Bytes(After(f, ops)) == Bytes(f)
    decreases |ops|
  {
    if ops != [] {
      hide Step, Answers, Meaning, TextOf, Output;
      StepMeans(f, ops[0]);
      StepAnswers(f, ops[0]);
      HistoryMeans(Step(f, ops[0]).0, ops[1..]);
    }
  }

  // ---------------------------------------------------------------- what a failed write leaves behind

  /** Every byte that a failed write leaves past the end shows in the gap of a later write: seek behind
      it, and write one byte. */
  lemma LostByteShows(f: File, bytes: seq<Byte>, room: bool, reach: nat, k: nat, b: Byte)
    requires Ok(f) && reach < |bytes| && Attempted(f, |bytes|, room) && f.size <= k && f.offset <= k < f.offset + reach
    ensures var f1 := AfterWrite(f, bytes, room, reach).0;
      Ok(f1) && var (f2, r2) := AfterSeek(f1, SeekSet, k + 1); var (f3, r3) := AfterWrite(f2, [b], false, 1);
      r2 == k + 1 && r3 == 1 && Ok(f3) && |Bytes(f3)| == k + 2 && Bytes(f3)[k] == bytes[k - f.offset]
      && Overlay(Bytes(f), k + 1, [b])[k] == 0
  {
    AfterWriteOk(f, bytes, room, reach);
    PartialAt(f, bytes, room, reach, k);
    OverlayReads(Bytes(f), k + 1, [b]);
    assert [b][..1] == [b];
  }

  lemma TwoOps(f: File, t: Text, a: Op, b: Op)
    requires Ok(f)
    ensures var f1 := Step(f, a); var f2 := Step(f1.0, b);
      && After(f, [a, b]) == f2.0 && Told(f, t, [a, b]) == Meaning(Meaning(t, a, f1.1), b, f2.1)
      && (AllOrNothing(f, a) && AllOrNothing(f1.0, b) ==> Undisturbed(f, [a, b]))
  {
    var f1 := Step(f, a).0;
    var f2 := Step(f1, b).0;
    assert [a, b][1..] == [b] && [b][1..] == [];
    assert After(f2, []) == f2 && After(f1, [b]) == f2 && Undisturbed(f2, []);
    assert AllOrNothing(f1, b) ==> Undisturbed(f1, [b]);
    var t1 := Meaning(t, a, Step(f, a).1);
    assert Told(f1, t1, [b]) == Told(f2, Meaning(t1, b, Step(f1, b).1), []);
  }

  /** After the failed write and any later operations, none of them such a failure, the descriptor is
      the file its user thinks of, the failed write counting for nothing. */
  ghost predicate NeverShows(f: File, bytes: seq<Byte>, room: bool, reach: nat)
    requires Ok(f)
  {
    AfterWriteOk(f, bytes, room, reach);
    var after := AfterWrite(f, bytes, room, reach).0;
    forall ops: seq<Op> | Undisturbed(after, ops) :: TextOf(After(after, ops)) == Told(after, TextOf(f), ops)
  }

  lemma ShowsLater(f: File, room: bool, reach: nat, len: nat)
    requires Ok(f) && reach < len && Attempted(f, len, room) && reach > 0 && f.offset >= f.size
    ensures !NeverShows(f, Repeated(7, len), room, reach)
  {
    var bytes := Repeated(7, len);
    LostByteShows(f, bytes, room, reach, f.offset, 9);
    var f1 := AfterWrite(f, bytes, room, reach).0;
    var seek, write := Seek(SeekSet, f.offset + 1), Write([9], false, 1);
    TwoOps(f1, TextOf(f), seek, write);
    assert Undisturbed(f1, [seek, write]);
    assert TextOf(After(f1, [seek, write])).bytes[f.offset] == 7;
    assert Told(f1, TextOf(f), [seek, write]).bytes == Overlay(Bytes(f), f.offset + 1, [9]);
  }

  lemma ShowsNow(f: File, bytes: seq<Byte>, room: bool, reach: nat)
    requires Ok(f) && Ok(AfterWrite(f, bytes, room, reach).0) && Bytes(AfterWrite(f, bytes, room, reach).0) != Bytes(f)
    ensures !NeverShows(f, bytes, room, reach)
  {
    hide AfterWrite;
    var after := AfterWrite(f, bytes, room, reach).0;
    assert Undisturbed(after, []) && After(after, []) == after;
  }

  lemma HarmlessNeverShows(f: File, bytes: seq<Byte>, room: bool, reach: nat)
    requires Ok(f) && var after := AfterWrite(f, bytes, room, reach).0; Ok(after) && TextOf(after) == TextOf(f) && TailZero(after)
    ensures NeverShows(f, bytes, room, reach)
  {
    hide AfterWrite;
    var after := AfterWrite(f, bytes, room, reach).0;
    forall ops: seq<Op> | Undisturbed(after, ops) ensures TextOf(After(after, ops)) == Told(after, TextOf(f), ops) {
      HistoryMeans(after, ops);
    }
  }

  lemma FailedCursor(f: File, bytes: seq<Byte>, room: bool, reach: nat)
    requires Ok(f) && reach < |bytes|
    ensures AfterWrite(f, bytes, room, reach).0.offset == f.offset
  {}

  /** A failed write never shows, whatever its bytes and whatever follows it, exactly when it is not
      attempted or nothing of the user's buffer is accessible. */
  lemma NeverShowsIff(f: File, len: nat, room: bool, reach: nat)
    requires Ok(f) && TailZero(f) && reach < len
    ensures (forall bytes: seq<Byte> | |bytes| == len :: NeverShows(f, bytes, room, reach)) <==> !(Attempted(f, len, room) && reach > 0)
  {
    if Attempted(f, len, room) && reach > 0 {
      hide AfterWrite, NeverShows, TailZero;
      if f.offset >= f.size {
        ShowsLater(f, room, reach, len);
      } else {
        var bytes := ChangesFile(f, len, room, reach);
        ShowsNow(f, bytes, room, reach);
      }
    } else {
      HarmlessIff(f, len, room, reach);
      hide AfterWrite, NeverShows, TailZero;
      forall bytes: seq<Byte> | |bytes| == len ensures NeverShows(f, bytes, room, reach) {
        FailedCursor(f, bytes, room, reach);
        HarmlessNeverShows(f, bytes, room, reach);
      }
    }
  }

  // ---------------------------------------------------------------- the code

  class FileDesc {
    var canRead: bool
    var canWrite: bool
    var dirty: bool
    var data: array<Byte>
    var size: nat
    var offset: nat
    var maxSize: nat

    ghost function State(): File
      reads this, data
    {
      File(data[..], size, offset, maxSize, canRead, canWrite, dirty)
    }

    /** Opening hands the buffer read from the volume to the descriptor. */
    constructor (content: seq<Byte>, present: bool, canRead: bool, canWrite: bool, truncate: bool, blockSize: nat)
      requires canWrite ==> |content| <= blockSize
      ensures fresh(data) && Ok(State()) && TailZero(State())
      ensures Bytes(State()) == (if truncate then [] else content) && offset == 0
      ensures dirty == (truncate || !present) && this.canWrite == canWrite && this.canRead == canRead
      ensures canWrite ==> maxSize == blockSize
    {
      var kept := if truncate then [] else content;
      var buffer := new Byte[|kept|](i requires 0 <= i < |kept| => kept[i]);
      this.canRead, this.canWrite := canRead, canWrite;
      dirty := truncate || !present;
      data, size, offset := buffer, |kept|, 0;
      maxSize := if canWrite then blockSize else |kept|;
      new;
      assert data[..] == kept;
    }

    /** The end of the open call: refused without a volume, for a missing file that is not to be
        created, and for a writable file larger than a block. */
    static method Open(file: Option<seq<Byte>>, canRead: bool, canWrite: bool, create: bool, truncate: bool, blockSize: nat)
      returns (fd: FileDesc?)
      ensures fd == null <==>
        blockSize == 0 || (file == None && !create) || (canWrite && file.Some? && |file.value| > blockSize)
      ensures fd != null ==> fresh(fd) && fresh(fd.data) && Ok(fd.State()) && TailZero(fd.State()) && fd.offset == 0
      ensures fd != null ==> Bytes(fd.State()) == if truncate || file == None then [] else file.value
      ensures fd != null ==> fd.dirty == (truncate || file == None) && fd.canRead == canRead && fd.canWrite == canWrite
      ensures fd != null && canWrite ==> fd.maxSize == blockSize
    {
      if blockSize == 0 { return null; }
      if file == None && !create { return null; }
      var content := if file == None then [] else file.value;
      if canWrite && |content| > blockSize { return null; }
      fd := new FileDesc(content, file != None, canRead, canWrite, truncate, blockSize);
    }

    method Read(len: nat, copies: bool) returns (r: int, out: seq<Byte>)
      requires Ok(State())
      modifies this`offset
      ensures (State(), r) == AfterRead(old(State()), len, copies)
      ensures Answers(old(ModeOf(State())), old(TextOf(State())), Op.Read(len, copies), r, out)
      ensures r > 0 ==> out == old(Bytes(State()))[old(offset)..old(offset) + r]
    {
      StepAnswers(State(), Op.Read(len, copies));
      if len == 0 { return 0, []; }
      if !canRead { return -1, []; }
      if offset >= size { return 0, []; }
      var remaining := size - offset;
      var n := Min(len, remaining);
      if !copies { return -1, []; }
      out := data[offset..offset + n];
      assert out == data[..][offset..offset + n];
      offset := offset + n;
      r := n;
    }

    /** Room for `needed` bytes: a larger zero-filled buffer with the file in front, if the allocator
        has one. */
    method Reserve(needed: nat, room: bool) returns (ok: bool)
      requires Ok(State())
      modifies this`data
      ensures data == old(data) || fresh(data)
      ensures ok <==> needed <= old(data.Length) || room
      ensures data[..] == if ok then Grown(old(data[..]), size, needed) else old(data[..])
    {
      if needed <= data.Length { return true; }
      if !room { return false; }
      var was, kept := data, size;
      var buffer := new Byte[needed](i requires 0 <= i < needed reads was => if i < kept && i < was.Length then was[i] else 0);
      data := buffer;
      ok := true;
    }

    /** Copies from the user into the buffer at the cursor; `n` bytes arrive before a fault. */
    method CopyIn(bytes: seq<Byte>, n: nat)
      requires offset + |bytes| <= data.Length && n <= |bytes|
      modifies data
      ensures data[..] == Stored(old(data[..]), offset, bytes[..n])
    {
      forall i | 0 <= i < n { data[offset + i] := bytes[i]; }
    }

    method Write(bytes: seq<Byte>, room: bool, reach: nat) returns (r: int)
      requires Ok(State())
      modifies this, data
      ensures data == old(data) || fresh(data)
      ensures (State(), r) == AfterWrite(old(State()), bytes, room, reach) && Ok(State())
      ensures Answers(old(ModeOf(State())), old(TextOf(State())), Op.Write(bytes, room, reach), r, [])
    {
      StepAnswers(State(), Op.Write(bytes, room, reach));
      hide Answers, TextOf;
      AfterWriteOk(State(), bytes, room, reach);
      if bytes == [] { return 0; }
      if !canWrite { return -1; }
      if offset > maxSize || |bytes| > maxSize - offset { return -1; }
      hide Ok, Stored;
      var ok := Reserve(offset + |bytes|, room);
      if !ok { return -1; }
      hide Grown;
      r := Store(bytes, Min(reach, |bytes|));
    }

    /** The copy and, if it was complete, the new cursor and size. */
    method Store(bytes: seq<Byte>, n: nat) returns (r: int)
      requires offset + |bytes| <= data.Length && n <= |bytes|
      modifies this`offset, this`size, this`dirty, data
      ensures data[..] == Stored(old(data[..]), old(offset), bytes[..n])
      ensures n < |bytes| ==> r == -1 && offset == old(offset) && size == old(size) && dirty == old(dirty)
      ensures n == |bytes| ==> r == n && offset == old(offset) + n && dirty
      ensures n == |bytes| ==> size == if old(size) < offset then offset else old(size)
    {
      hide Stored;
      CopyIn(bytes, n);
      if n < |bytes| { return -1; }
      offset := offset + |bytes|;
      if size < offset { size := offset; }
      dirty := true;
      r := |bytes|;
    }

    /** The subtraction of the base from the limit never wraps. */
    method Seek(whence: Whence, off: int) returns (r: int)
      requires Ok(State())
      modifies this`offset
      ensures (State(), r) == AfterSeek(old(State()), whence, off)
      ensures Answers(old(ModeOf(State())), old(TextOf(State())), Op.Seek(whence, off), r, [])
    {
      var base := 0;
      match whence {
        case SeekSet => base := 0;
        case SeekCur => base := offset;
        case SeekEnd => base := size;
        case SeekUnknown => return -1;
      }
      var limit := if canWrite then maxSize else size;
      var room: nat := limit - base;
      if off >= 0 {
        if off > room { return -1; }
        offset := base + off;
      } else {
        if -off > base { return -1; }
        offset := base + off;
      }
      r := offset;
    }

    /** Closing a written file hands the volume its bytes; otherwise the volume is left alone.
        `accepts` is the volume's answer. */
    method Close(volume: map<string, seq<Byte>>, path: string, blockSize: nat, accepts: bool)
      returns (r: int, volume': map<string, seq<Byte>>)
      requires Ok(State())
      ensures r == -1 <==> canWrite && dirty && (blockSize == 0 || size > blockSize || !accepts)
      ensures volume' == if r == 0 && canWrite && dirty then volume[path := Bytes(State())] else volume
    {
      if !(canWrite && dirty) { return 0, volume; }
      if blockSize == 0 || size > blockSize || !accepts { return -1, volume; }
      assert data[..size] == data[..][..size];
      return 0, volume[path := data[..size]];
    }
  }
}
