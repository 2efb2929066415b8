/** The receive side of the E1000 driver: a descriptor ring shared with the device and a bounded
    software queue in front of the readers. The device is a step that may happen at any time. */
module E1000Receive {
  import opened Common
  import opened Rings

  const DESC_COUNT: nat := 64
  const QUEUE_LEN: nat := 128
  const BUFFER_BYTES: nat := 2048

  type Frame = seq<Byte>

  /** A descriptor with its buffer: `done` and `endOfPacket` are the status bits the driver reads. */
  datatype Desc = Desc(done: bool, endOfPacket: bool, frame: Frame)

  /** What became of a descriptor the driver cleaned; `depth` is the queue's at that moment. */
  datatype Outcome = Queued | Bad | Full(depth: nat)

  predicate Good(d: Desc) { d.endOfPacket && 0 < |d.frame| <= BUFFER_BYTES }

  /** A dropped descriptor was bad, or good while the queue was full. */
  predicate Justified(d: Desc, o: Outcome) {
    match o
    case Queued => Good(d)
    case Bad => !Good(d)
    case Full(depth) => Good(d) && depth == QUEUE_LEN
  }

  /** The frames that were queued, in order. */
  function Accepted(arrived: seq<Desc>, fates: seq<Outcome>): seq<Frame>
    requires |fates| <= |arrived|
  {
    if fates == [] then [] else
    var n := |fates| - 1;
    Accepted(arrived, fates[..n]) + if fates[n] == Queued then [arrived[n].frame] else []
  }

  /** The positions of the queued descriptors. */
  function Positions(fates: seq<Outcome>): seq<nat> {
    if fates == [] then [] else
    var n := |fates| - 1;
    Positions(fates[..n]) + if fates[n] == Queued then [n] else []
  }

  /** Every queued frame leaves, in the order they arrived, and none leaves twice. */
  lemma {:induction false} ArrivalOrder(arrived: seq<Desc>, fates: seq<Outcome>)
    requires |fates| <= |arrived|
    ensures var at, out := Positions(fates), Accepted(arrived, fates);
      && |at| == |out|
      && (forall k | 0 <= k < |at| :: at[k] < |fates| && fates[at[k]] == Queued && out[k] == arrived[at[k]].frame)
      && (forall i, k | 0 <= i < k < |at| :: at[i] < at[k])
      && (forall n | 0 <= n < |fates| && fates[n] == Queued :: n in at)
  {
    if fates != [] {
      var last := |fates| - 1;
      ArrivalOrder(arrived, fates[..last]);
      assert forall n | 0 <= n < last :: fates[..last][n] == fates[n];
    }
  }

  lemma {:induction false} AcceptedPrefix(arrived: seq<Desc>, more: seq<Desc>, fates: seq<Outcome>)
    requires |fates| <= |arrived|
    ensures Accepted(arrived + more, fates) == Accepted(arrived, fates)
  {
    if fates != [] { AcceptedPrefix(arrived, more, fates[..|fates| - 1]); }
  }

  /** Of the descriptors from `start` around the ring, exactly the first `filled` are done. */
  predicate DoneBits(ring: seq<Desc>, start: nat, filled: nat)
    requires |ring| == DESC_COUNT && start < DESC_COUNT
  {
    forall k | 0 <= k < DESC_COUNT :: ring[Cell(DESC_COUNT, start, k)].done <==> k < filled
  }

  lemma DonePush(ring: seq<Desc>, start: nat, filled: nat, d: Desc)
    requires |ring| == DESC_COUNT && start < DESC_COUNT && filled < DESC_COUNT && DoneBits(ring, start, filled) && d.done
    ensures DoneBits(ring[Cell(DESC_COUNT, start, filled) := d], start, filled + 1)
  {}

  lemma DoneClean(ring: seq<Desc>, start: nat, filled: nat, d: Desc)
    requires |ring| == DESC_COUNT && start < DESC_COUNT && 0 < filled < DESC_COUNT && DoneBits(ring, start, filled) && !d.done
    ensures DoneBits(ring[start := d], Cell(DESC_COUNT, start, 1), filled - 1)
    ensures Window(ring[start := d], Cell(DESC_COUNT, start, 1), filled - 1) == Window(ring, Cell(DESC_COUNT, start, 1), filled - 1)
  {
    var next := Cell(DESC_COUNT, start, 1);
    forall k | 0 <= k < DESC_COUNT ensures ring[start := d][Cell(DESC_COUNT, next, k)].done <==> k < filled - 1 {
      if k < DESC_COUNT - 1 {
        assert Cell(DESC_COUNT, next, k) == Cell(DESC_COUNT, start, k + 1) != start;
      } else {
        assert Cell(DESC_COUNT, next, k) == start;
      }
    }
  }

  class Receiver {
    const ring: array<Desc>
    const queue: array<Frame>
    var rdh: nat          // the device's head register
    var rdt: nat          // the tail register the driver writes
    var nextClean: nat
    var swHead: nat
    var swTail: nat
    var swCount: nat
    var rxPackets: nat
    var rxDropped: nat
    ghost var filled: nat             // descriptors completed by the device and not yet cleaned
    ghost var arrived: seq<Desc>      // every descriptor the device has completed
    ghost var fates: seq<Outcome>     // what became of those that were cleaned
    ghost var taken: nat              // frames handed to readers

    /** The tail register trails the next descriptor to clean by one, and exactly the completed
        descriptors have their done bit set. */
    ghost predicate RingOk()
      reads this, ring
    {
      && ring.Length == DESC_COUNT && nextClean < DESC_COUNT && filled < DESC_COUNT
      && rdt == Cell(DESC_COUNT, nextClean, DESC_COUNT - 1) && rdh == Cell(DESC_COUNT, nextClean, filled)
      && DoneBits(ring[..], nextClean, filled)
      && |fates| + filled == |arrived| && Window(ring[..], nextClean, filled) == arrived[|fates|..]
    }

    /** The queue holds the accepted frames that have not been read. */
    ghost predicate QueueOk()
      reads this, queue
    {
      && queue.Length == QUEUE_LEN && swHead < QUEUE_LEN && swCount <= QUEUE_LEN
      && swTail == Cell(QUEUE_LEN, swHead, swCount)
      && |fates| <= |arrived| && taken + swCount == |Accepted(arrived, fates)|
      && Window(queue[..], swHead, swCount) == Accepted(arrived, fates)[taken..]
    }

    ghost predicate CountsOk()
      reads this
    {
      && |fates| <= |arrived| && rxPackets == |Accepted(arrived, fates)| && rxPackets + rxDropped == |fates|
      && forall k | 0 <= k < |fates| :: Justified(arrived[k], fates[k])
    }

    ghost predicate Valid()
      reads this, ring, queue
    {
      RingOk() && QueueOk() && CountsOk()
    }

    /** The device owns what lies from its head up to the tail register: none of that is done. */
    lemma DeviceOwned(k: nat)
      requires Valid() && filled <= k < DESC_COUNT - 1
      ensures !ring[Cell(DESC_COUNT, nextClean, k)].done
      ensures rdh != rdt
    {
      assert ring[..][Cell(DESC_COUNT, nextClean, k)] == ring[Cell(DESC_COUNT, nextClean, k)];
    }

    /** What a reader of the statistics sees. */
    lemma Counters()
      requires Valid()
      ensures rxPackets + rxDropped == |fates| && rxPackets == taken + swCount
    {}

    constructor ()
      ensures Valid() && arrived == [] && fates == [] && taken == 0 && filled == 0
      ensures fresh(ring) && fresh(queue)
    {
      ring := new Desc[DESC_COUNT](_ => Desc(false, false, []));
      queue := new Frame[QUEUE_LEN](_ => []);
      rdh, rdt, nextClean := 0, DESC_COUNT - 1, 0;
      swHead, swTail, swCount, rxPackets, rxDropped := 0, 0, 0, 0, 0;
      filled, arrived, fates, taken := 0, [], [], 0;
    }

    /** The device stores a frame in the descriptor at its head, if it owns one. */
    method DeviceReceive(frame: Frame, endOfPacket: bool) returns (stored: bool)
      requires Valid()
      modifies this`rdh, this`filled, this`arrived, ring
      ensures Valid()
      ensures stored <==> old(filled) < DESC_COUNT - 1
      ensures stored ==> arrived == old(arrived) + [Desc(true, endOfPacket, frame)] && filled == old(filled) + 1
      ensures !stored ==> arrived == old(arrived) && filled == old(filled)
    {
      if rdh == rdt { return false; }
      ghost var before := ring[..];
      var d := Desc(true, endOfPacket, frame);
      WindowPush(before, nextClean, filled, d);
      DonePush(before, nextClean, filled, d);
      AcceptedPrefix(arrived, [d], fates);
      hide Window, DoneBits, Accepted, Justified;
      ring[rdh] := d;
      assert ring[..] == before[rdh := d];
      rdh := Next(DESC_COUNT, rdh);
      filled := filled + 1;
      arrived := arrived + [d];
      assert arrived[|fates|..] == old(arrived)[|fates|..] + [d];
      assert forall k | 0 <= k < |fates| :: arrived[k] == old(arrived)[k];
      stored := true;
    }

    /** A good frame is queued while there is room; everything else is counted as dropped. */
    method Enqueue(d: Desc) returns (ghost fate: Outcome)
      requires queue.Length == QUEUE_LEN && swHead < QUEUE_LEN && swCount <= QUEUE_LEN && swTail == Cell(QUEUE_LEN, swHead, swCount)
      modifies this`swTail, this`swCount, this`rxPackets, this`rxDropped, queue
      ensures fate == Queued <==> Good(d) && old(swCount) < QUEUE_LEN
      ensures Justified(d, fate) && swCount <= QUEUE_LEN && swTail == Cell(QUEUE_LEN, swHead, swCount)
      ensures fate == Queued ==> rxPackets == old(rxPackets) + 1 && rxDropped == old(rxDropped) && swCount == old(swCount) + 1
      ensures fate == Queued ==> Window(queue[..], swHead, swCount) == old(Window(queue[..], swHead, swCount)) + [d.frame]
      ensures fate != Queued ==> rxPackets == old(rxPackets) && rxDropped == old(rxDropped) + 1 && swCount == old(swCount)
      ensures fate != Queued ==> queue[..] == old(queue[..])
    {
      if d.endOfPacket && |d.frame| != 0 && |d.frame| <= BUFFER_BYTES {
        if swCount < QUEUE_LEN {
          ghost var before := queue[..];
          WindowPush(before, swHead, swCount, d.frame);
          queue[swTail] := d.frame;
          assert queue[..] == before[swTail := d.frame];
          swTail := Next(QUEUE_LEN, swTail);
          swCount := swCount + 1;
          rxPackets := rxPackets + 1;
          fate := Queued;
        } else {
          rxDropped := rxDropped + 1;
          fate := Full(swCount);
        }
      } else {
        rxDropped := rxDropped + 1;
        fate := Bad;
      }
    }

    /** Clearing a descriptor gives it back to the device. */
    method Replenish(ghost fate: Outcome)
      requires RingOk() && filled > 0
      modifies this`nextClean, this`rdt, this`filled, this`fates, ring
      ensures RingOk() && filled == old(filled) - 1 && fates == old(fates) + [fate]
    {
      ghost var before := ring[..];
      WindowPop(before, nextClean, filled);
      DoneClean(before, nextClean, filled, Desc(false, false, []));
      hide Window, DoneBits;
      var at := nextClean;
      ring[at] := Desc(false, false, []);
      ghost var after := ring[..];
      assert after == before[at := Desc(false, false, [])];
      nextClean := Next(DESC_COUNT, at);
      rdt := at;
      filled := filled - 1;
      fates := fates + [fate];
    }

    /** One turn of the polling loop, on a descriptor whose done bit is set. */
    method CleanOne()
      requires Valid() && filled > 0
      modifies this`nextClean, this`rdt, this`filled, this`fates, this`swTail, this`swCount, this`rxPackets, this`rxDropped, ring, queue
      ensures Valid() && filled == old(filled) - 1 && arrived == old(arrived) && taken == old(taken)
      ensures |fates| == |old(fates)| + 1 && old(fates) <= fates
      ensures fates[|old(fates)|] == Queued <==> Good(arrived[|old(fates)|]) && old(swCount) < QUEUE_LEN
    {
      WindowPop(ring[..], nextClean, filled);
      var d := ring[nextClean];
      assert arrived[|fates|] == d;
      ghost var fate := Enqueue(d);
      ghost var before := fates;
      Replenish(fate);
      assert fates[..|before|] == before;
      hide Window, DoneBits, Justified;
    }

    /** Several frames from the device, one after the other. */
    method DeviceBurst(frames: seq<(Frame, bool)>)
      requires Valid()
      modifies this`rdh, this`filled, this`arrived, ring
      ensures Valid() && filled >= old(filled) && old(arrived) <= arrived && filled - old(filled) == |arrived| - |old(arrived)|
    {
      for i := 0 to |frames|
        invariant Valid() && filled >= old(filled) && old(arrived) <= arrived && filled - old(filled) == |arrived| - |old(arrived)|
      {
        var stored := DeviceReceive(frames[i].0, frames[i].1);
      }
    }

    /** E1000_poll_rx_locked. The device goes on working: `meanwhile[i]` arrives before the look at
        descriptor `i`. The poll stops at the first descriptor that is not done, or after one round. */
    method PollRx(meanwhile: seq<seq<(Frame, bool)>>) returns (processed: nat)
      requires Valid()
      modifies this`rdh, this`rdt, this`nextClean, this`filled, this`arrived, this`fates, this`swTail, this`swCount,
               this`rxPackets, this`rxDropped, ring, queue
      ensures Valid() && taken == old(taken) && old(arrived) <= arrived && old(fates) <= fates
      ensures processed == |fates| - |old(fates)| <= DESC_COUNT
      ensures processed < DESC_COUNT ==> filled == 0
      ensures processed >= old(filled)
    {
      processed := 0;
      while processed < DESC_COUNT
        invariant Valid() && taken == old(taken) && old(arrived) <= arrived && old(fates) <= fates
        invariant processed == |fates| - |old(fates)| <= DESC_COUNT
        invariant filled + processed >= old(filled)
      {
        if processed < |meanwhile| { DeviceBurst(meanwhile[processed]); }
        assert DoneBits(ring[..], nextClean, filled) && Cell(DESC_COUNT, nextClean, 0) == nextClean;
        if !ring[nextClean].done {
          assert ring[..][Cell(DESC_COUNT, nextClean, 0)] == ring[nextClean];
          break;
        }
        assert filled > 0 by { assert ring[..][Cell(DESC_COUNT, nextClean, 0)] == ring[nextClean]; }
        CleanOne();
        processed := processed + 1;
      }
    }

    method Dequeue() returns (frame: Frame)
      requires Valid() && swCount > 0
      modifies this`swHead, this`swCount, this`taken
      ensures Valid() && taken == old(taken) + 1 && old(taken) < |Accepted(arrived, fates)|
      ensures frame == Accepted(arrived, fates)[old(taken)]
    {
      hide DoneBits, Justified;
      WindowPop(queue[..], swHead, swCount);
      frame := queue[swHead];
      swHead := Next(QUEUE_LEN, swHead);
      swCount := swCount - 1;
      taken := taken + 1;
      hide Window;
    }

    /** The part of E1000_raw_read under the lock: poll, then hand out the oldest queued frame, cut to
        the reader's buffer. Without a frame the queue was empty, or the buffer was. */
    method RawRead(capacity: nat, meanwhile: seq<seq<(Frame, bool)>>) returns (got: bool, out: Frame)
      requires Valid()
      modifies this, ring, queue
      ensures Valid() && old(arrived) <= arrived && old(fates) <= fates
      ensures got ==> taken == old(taken) + 1 && old(taken) < |Accepted(arrived, fates)|
      ensures got ==> var frame := Accepted(arrived, fates)[old(taken)];
        out == if |frame| > capacity then frame[..capacity] else frame
      ensures !got ==> taken == old(taken) && out == [] && (capacity > 0 ==> swCount == 0)
    {
      if capacity == 0 { return false, []; }
      var processed := PollRx(meanwhile);
      if swCount == 0 { return false, []; }
      var frame := Dequeue();
      return true, if |frame| > capacity then frame[..capacity] else frame;
    }
  }
}
