/** Reading a pipe into a program's memory. The bytes leave the ring before they are copied out, so
    whether the user's buffer can be written decides whether they arrive. */
module PipeRead {
  import opened Common
  import opened Paging
  import opened CowRuns
  import opened CowSteps
  import opened UserMemory
  import opened CowKernel
  import opened Rings

  /** The pipe branch of the read call, with data in the pipe or no writer left: `out` leaves the pipe.
      It arrives in the reader's memory exactly when the range can be written, and is lost otherwise. */
  method ReadPipe(p: Pipe, spaces: AddressSpaces, cr3: Frame, dst: nat, len: nat) returns (r: int, out: seq<Byte>)
    requires p.Valid() && spaces.Valid() && IsTable(spaces.M(), cr3, LEVELS) && dst < UINT64
    requires p.ring.Length < UINT64
    modifies p`head, p`count, p`taken, spaces
    ensures p.Valid() && spaces.Valid() && p.written == old(p.written)
    ensures |out| == Min(len, old(p.count)) && old(p.Contents()) == out + p.Contents() && p.taken == old(p.taken) + out
    ensures r == if CanCopy(old(spaces.M()), cr3, dst, |out|) then |out| else -1
    ensures r >= 0 ==> CopiedTo(old(spaces.M()), spaces.M(), cr3, dst, out)
    ensures r < 0 ==> out != [] && exists k | 0 <= k < |out| :: CopiedTo(old(spaces.M()), spaces.M(), cr3, dst, out[..k])
  {
    out := p.Take(len);
    hide CanCopy, CopiedTo;
    var ok, copied := spaces.CopyToUser(cr3, dst, out);
    if !ok { return -1, out; }
    assert out[..copied] == out;
    r := |out|;
  }

  /** A read loses what it took from the pipe exactly when there was something to take and the user's
      range cannot be written. */
  method ReadLosesIff(p: Pipe, spaces: AddressSpaces, cr3: Frame, dst: nat, len: nat) returns (lost: seq<Byte>)
    requires p.Valid() && spaces.Valid() && IsTable(spaces.M(), cr3, LEVELS) && dst < UINT64
    requires p.ring.Length < UINT64
    modifies p`head, p`count, p`taken, spaces
    ensures p.Valid() && spaces.Valid() && p.written == old(p.written)
    ensures lost != [] <==> Min(len, old(p.count)) > 0 && !CanCopy(old(spaces.M()), cr3, dst, Min(len, old(p.count)))
    ensures lost != [] ==> old(p.Contents()) == lost + p.Contents()
  {
    NothingToCopy(spaces.M(), cr3, dst);
    hide CanCopy;
    var r, out := ReadPipe(p, spaces, cr3, dst, len);
    lost := if r < 0 then out else [];
  }

  lemma NothingToCopy(m: Mem, cr3: Frame, dst: nat)
    ensures CanCopy(m, cr3, dst, 0)
  {}

  /** A byte written to a pipe and read to an address that is not mapped is in no one's hands. */
  method LosesByte() returns (r: int, p: Pipe)
    ensures p.Valid() && r == -1 && p.written == [5] && p.Contents() == []
  {
    p := new Pipe(4096);
    var w := p.Write([5]);
    var zeros: seq<Byte> := seq(PAGE_SIZE, _ => 0);
    var spaces := new AddressSpaces({1}, {0}, map[0 := zeros]);
    var cr3 := spaces.TakeTable(LEVELS);
    assert cr3 != 0 && IsTable(spaces.M(), cr3, LEVELS);
    Unmapped(spaces.M(), cr3);
    ghost var m := spaces.M();
    assert p.Contents() == [5];
    hide CanCopy;
    var out;
    r, out := ReadPipe(p, spaces, cr3, USER_VADDR_MIN, 1);
    assert |out| == 1;
  }

  lemma Unmapped(m: Mem, cr3: Frame)
    requires m.pte == map[]
    ensures !CanCopy(m, cr3, USER_VADDR_MIN, 1)
  {
    var page := FirstPage(USER_VADDR_MIN);
    PathLength();
    assert PathOf(page * PAGE_SIZE / PAGE_SIZE) == PathOf(page);
    assert FindPte(m.pte, cr3, PathOf(page)) == None;
    assert !WritableOrCow(m.pte, cr3, page);
    assert page < PastPage(USER_VADDR_MIN, 1);
  }
}
