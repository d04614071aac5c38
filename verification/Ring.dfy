/**
 * The kernel driver's ring of samples: the producer's critical section with its drain loop, the
 * clear operation, and the sense in which the 64 slots stand for the last 64 producer runs.
 */
module Ring {
  import opened Words
  import Readout

  type Block = d: seq<byte> | |d| == 14 witness seq(14, _ => 0)
  type Position = p: int | -1 <= p < 64

  datatype Slot = Slot(used: bool, data: Block, size: int, timestamp: int)

  type Slots = r: seq<Slot> | |r| == 64 witness seq(64, _ => Slot(false, seq(14, _ => 0), 0, 0))

  /** What a block read returns: a negative error, or a count of bytes put into the buffer. */
  datatype BlockRead = BlockRead(result: int, bytes: seq<byte>)

  type Reply = r: BlockRead | |r.bytes| == (if r.result < 0 then 0 else r.result) <= 14
    witness BlockRead(0, [])

  /** A block read always fills the buffer from its start. */
  function Filled(data: Block, r: Reply): Block {
    r.bytes + data[|r.bytes|..]
  }

  function Next(pos: Position): Position {
    if pos + 1 == 64 then 0 else pos + 1
  }

  // ----- Draining the device's FIFO -----------------------------------------------------------

  /** How a drain comes out; Unfinished when the replies run out first. */
  datatype Drained = Complete(slot: Slot, rounds: nat) | Failed(slot: Slot, rounds: nat) | Unfinished(slot: Slot)

  function OneMore(d: Drained): Drained {
    match d
    case Complete(s, n) => Complete(s, n + 1)
    case Failed(s, n) => Failed(s, n + 1)
    case Unfinished(s) => Unfinished(s)
  }

  function Take(slot: Slot, r: Reply): Slot {
    slot.(data := Filled(slot.data, r), size := slot.size + r.result)
  }

  /** The drain as a loop: read while fewer bytes have been counted than are wanted. */
  function Drain(slot: Slot, want: int, replies: seq<Reply>): Drained
    decreases |replies|
  {
    if slot.size >= want then Complete(slot, 0)
    else if replies == [] then Unfinished(slot)
    else if replies[0].result < 0 then Failed(slot, 1)
    else OneMore(Drain(Take(slot, replies[0]), want, replies[1..]))
  }

  datatype Label = DoLoop | DoDispatch

  /** The drain as the driver jumps through it: the while loop at do_loop is left after one round for
      do_dispatch, which jumps back when bytes are missing. */
  function Jump(at: Label, slot: Slot, want: int, replies: seq<Reply>): Drained
    decreases |replies|, if (at == DoLoop) == (slot.size < want) then 0 else 1
  {
    match at
    case DoLoop =>
      if slot.size < want then
        if replies == [] then Unfinished(slot)
        else if replies[0].result < 0 then Failed(slot, 1)
        else OneMore(Jump(DoDispatch, Take(slot, replies[0]), want, replies[1..]))
      else Jump(DoDispatch, slot, want, replies)
    case DoDispatch =>
      if slot.size < want then Jump(DoLoop, slot, want, replies) else Complete(slot, 0)
  }

  lemma {:induction false} JumpingIsLooping(at: Label, slot: Slot, want: int, replies: seq<Reply>)
    ensures Jump(at, slot, want, replies) == Drain(slot, want, replies)
    decreases |replies|
  {
    if slot.size < want && replies != [] && replies[0].result >= 0 {
      JumpingIsLooping(DoDispatch, Take(slot, replies[0]), want, replies[1..]);
    }
  }

  function Total(replies: seq<Reply>): int {
    if replies == [] then 0 else replies[0].result + Total(replies[1..])
  }

  /** If every read returns something and no more than was asked for, a drain of want bytes takes at
      most want reads and counts fewer than twice as many bytes. */
  lemma {:induction false} DrainEnds(slot: Slot, want: nat, replies: seq<Reply>)
    requires 0 <= slot.size < 2 * want && |replies| >= want - slot.size
    requires forall r :: r in replies ==> 1 <= r.result <= want
    ensures var d := Drain(slot, want, replies);
            && d.Complete? && want <= d.slot.size < 2 * want
            && (slot.size < want ==> d.rounds <= want - slot.size)
            && d.slot.used == slot.used && d.slot.timestamp == slot.timestamp
    decreases |replies|
  {
    if slot.size < want {
      assert replies[0] in replies;
      DrainEnds(Take(slot, replies[0]), want, replies[1..]);
    }
  }

  /** As long as no read fails, the drain completes exactly when the reads add up to enough; reads
      that return nothing keep it going. */
  lemma {:induction false} DrainCompletesExactly(slot: Slot, want: int, replies: seq<Reply>)
    requires forall r :: r in replies ==> r.result >= 0
    ensures !Drain(slot, want, replies).Failed?
    ensures Drain(slot, want, replies).Complete? <==> slot.size + Total(replies) >= want
    decreases |replies|
  {
    if replies == [] {
    } else if slot.size < want {
      assert replies[0] in replies;
      DrainCompletesExactly(Take(slot, replies[0]), want, replies[1..]);
    } else {
      TotalGrows(replies);
    }
  }

  lemma {:induction false} TotalGrows(replies: seq<Reply>)
    requires forall r :: r in replies ==> r.result >= 0
    ensures Total(replies) >= 0
    decreases |replies|
  {
    if replies != [] {
      assert replies[0] in replies;
      TotalGrows(replies[1..]);
    }
  }

  /** One reply more for a drain that still waits. */
  lemma {:induction false} DrainGoesOn(slot: Slot, want: int, replies: seq<Reply>, r: Reply)
    requires Drain(slot, want, replies).Unfinished?
    ensures var sofar, d := Drain(slot, want, replies).slot, Drain(slot, want, replies + [r]);
            var next := Take(sofar, r);
            && sofar.size < want
            && d.slot == (if r.result < 0 then sofar else next)
            && (d.Failed? <==> r.result < 0) && (d.Complete? <==> r.result >= 0 && next.size >= want)
    decreases |replies|
  {
    if replies == [] {
      assert ([] + [r])[1..] == [];
      var next := Drain(Take(slot, r), want, []);
    } else {
      assert (replies + [r])[1..] == replies[1..] + [r];
      DrainGoesOn(Take(slot, replies[0]), want, replies[1..], r);
    }
  }

  lemma {:induction false} TotalAppend(replies: seq<Reply>, r: Reply)
    ensures Total(replies + [r]) == Total(replies) + r.result
  {
    if replies != [] {
      assert (replies + [r])[1..] == replies[1..] + [r];
      TotalAppend(replies[1..], r);
    }
  }

  // ----- The bytes of a sample ----------------------------------------------------------------

  /** Byte j of the last reply that brought so many, or the old byte if none did. */
  function LastByte(replies: seq<Reply>, j: nat, initial: byte): byte {
    if replies == [] then initial
    else
      var last := replies[|replies| - 1];
      if j < |last.bytes| then last.bytes[j] else LastByte(replies[..|replies| - 1], j, initial)
  }

  lemma {:induction false} LastByteOfFirst(r: Reply, rest: seq<Reply>, j: nat, initial: byte)
    ensures LastByte([r] + rest, j, initial) == LastByte(rest, j, if j < |r.bytes| then r.bytes[j] else initial)
    decreases |rest|
  {
    if rest == [] {
      assert [r] + rest == [r] && [r][..0] == [];
    } else {
      var n := |rest| - 1;
      assert ([r] + rest)[..n + 1] == [r] + rest[..n];
      LastByteOfFirst(r, rest[..n], j, initial);
    }
  }

  /** The replies that a drain reads before it comes out. */
  function Taken(d: Drained, replies: seq<Reply>): seq<Reply> {
    match d
    case Complete(_, n) => if n <= |replies| then replies[..n] else replies
    case Failed(_, n) => if n <= |replies| then replies[..n] else replies
    case Unfinished(_) => replies
  }

  /** Every byte that a drain leaves in the slot is that of the last reply that reached it. */
  lemma {:induction false} DrainKeepsLastBytes(slot: Slot, want: int, replies: seq<Reply>, j: nat)
    requires j < 14
    ensures var d := Drain(slot, want, replies);
            && (d.Unfinished? || d.rounds <= |replies|)
            && d.slot.data[j] == LastByte(Taken(d, replies), j, slot.data[j])
    decreases |replies|
  {
    var d := Drain(slot, want, replies);
    if slot.size < want && replies != [] {
      var r := replies[0];
      assert replies == [r] + replies[1..];
      if r.result < 0 {
        assert replies[..1] == [r] + [];
        LastByteOfFirst(r, [], j, slot.data[j]);
      } else {
        var e := Drain(Take(slot, r), want, replies[1..]);
        DrainKeepsLastBytes(Take(slot, r), want, replies[1..], j);
        assert Taken(d, replies) == [r] + Taken(e, replies[1..]);
        LastByteOfFirst(r, Taken(e, replies[1..]), j, slot.data[j]);
      }
    }
  }

  // ----- One run of the producer --------------------------------------------------------------

  datatype Sampled = Finished(slot: Slot) | Inside(slot: Slot)

  /** What the critical section of i2c_mpu6050_wq_read_handler leaves in its slot. */
  function Sample(slot: Slot, now: int, nofifo: bool, count: int, replies: seq<Reply>): Sampled {
    var begun := slot.(used := true, size := 0, timestamp := now);
    if nofifo then
      if replies == [] then Inside(begun)
      else Finished(begun.(data := Filled(slot.data, replies[0]), size := replies[0].result))
    else if count <= 0 then Finished(begun.(used := false))
    else
      match Drain(begun, count, replies)
      case Complete(s, _) => Finished(s)
      case Failed(s, _) => Finished(s.(used := false))
      case Unfinished(s) => Inside(s)
  }

  /** A finished run leaves its slot in use unless the FIFO was empty or a FIFO read failed. In
      register mode a failed read leaves the slot in use, with the error as its size. */
  lemma SampleIsUsedExactly(slot: Slot, now: int, nofifo: bool, count: int, replies: seq<Reply>)
    requires Sample(slot, now, nofifo, count, replies).Finished?
    ensures var r := Sample(slot, now, nofifo, count, replies).slot;
            && (r.used <==> nofifo || (count > 0 && Drain(Slot(true, slot.data, 0, now), count, replies).Complete?))
            && r.timestamp == now
            && (nofifo ==> r.size == replies[0].result)
            && (!nofifo && r.used ==> r.size >= count > 0)
  {
    if !nofifo && count > 0 {
      DrainKeepsStamp(Slot(true, slot.data, 0, now), count, replies);
    }
  }

  /** What a finished run has put into its slot: in register mode the bytes of its reply, in FIFO mode
      those of the last reply of its drain that reached them, and else what was there. */
  lemma SampleKeepsLastBytes(slot: Slot, now: int, nofifo: bool, count: int, replies: seq<Reply>, j: nat)
    requires Sample(slot, now, nofifo, count, replies).Finished? && j < 14
    ensures var data := Sample(slot, now, nofifo, count, replies).slot.data;
            && (nofifo ==> data[j] == if j < replies[0].result then replies[0].bytes[j] else slot.data[j])
            && (!nofifo && count <= 0 ==> data[j] == slot.data[j])
            && (!nofifo && count > 0 ==>
                  var d := Drain(Slot(true, slot.data, 0, now), count, replies);
                  data[j] == LastByte(Taken(d, replies), j, slot.data[j]))
  {
    DrainKeepsLastBytes(Slot(true, slot.data, 0, now), count, replies, j);
  }

  lemma {:induction false} DrainKeepsStamp(slot: Slot, want: int, replies: seq<Reply>)
    ensures var d := Drain(slot, want, replies);
            && d.slot.used == slot.used && d.slot.timestamp == slot.timestamp
            && (d.Complete? ==> d.slot.size >= want)
    decreases |replies|
  {
    if slot.size < want && replies != [] && replies[0].result >= 0 {
      DrainKeepsStamp(Take(slot, replies[0]), want, replies[1..]);
    }
  }

  // ----- The ring as a bounded history --------------------------------------------------------

  /** Where k completed runs leave the position. */
  function LastPosition(k: nat): Position {
    if k == 0 then -1 else (k - 1) % 64
  }

  /** A slot that still holds what a run left there; a clear only takes its mark away. */
  predicate Holds(slot: Slot, run: Slot, live: bool) {
    slot == run.(used := run.used && live)
  }

  /** The ring refines the history of completed runs: the last 64 of them sit in their slots, and
      those completed before the last clear are marked unused. */
  predicate Refines(ring: Slots, pos: Position, runs: seq<Slot>, cleared: nat) {
    && pos == LastPosition(|runs|)
    && cleared <= |runs|
    && forall j: nat :: |runs| - 64 <= j < |runs| ==> Holds(ring[j % 64], runs[j], j >= cleared)
  }

  /** What a sender may send: the newest run, if it left its slot in use and has not been cleared. */
  predicate HasNews(runs: seq<Slot>, cleared: nat) {
    |runs| > 0 && runs[|runs| - 1].used && cleared < |runs|
  }

  /** The test the senders make on the ring is the question whether there is news, and the slot they
      then look at holds exactly the newest run. */
  lemma SenderTestIsHasNews(ring: Slots, pos: Position, runs: seq<Slot>, cleared: nat)
    requires Refines(ring, pos, runs, cleared)
    ensures (pos != -1 && ring[pos].used) <==> HasNews(runs, cleared)
    ensures HasNews(runs, cleared) ==> ring[pos] == runs[|runs| - 1]
  {
    if |runs| > 0 {
      assert Holds(ring[(|runs| - 1) % 64], runs[|runs| - 1], |runs| - 1 >= cleared);
    }
  }

  lemma SlotsAreApart(j: nat, k: nat)
    requires j < k < j + 64
    ensures j % 64 != k % 64
  {
  }

  lemma NextPositionIsFree(k: nat)
    ensures Next(LastPosition(k)) == k % 64
  {
  }

  /** A completed run enters the history; only the run 64 before it leaves the ring. */
  lemma RunExtendsHistory(ring: Slots, pos: Position, runs: seq<Slot>, cleared: nat, slot: Slot)
    requires Refines(ring, pos, runs, cleared)
    ensures Refines(ring[Next(pos) := slot], Next(pos), runs + [slot], cleared)
  {
    var k := |runs|;
    var ring', runs' := ring[Next(pos) := slot], runs + [slot];
    NextPositionIsFree(k);
    forall j: nat | k + 1 - 64 <= j < k + 1
      ensures Holds(ring'[j % 64], runs'[j], j >= cleared)
    {
      if j < k {
        SlotsAreApart(j, k);
        assert Holds(ring[j % 64], runs[j], j >= cleared);
      }
    }
  }

  lemma ClearForgetsNothingElse(ring: Slots, ring': Slots, pos: Position, runs: seq<Slot>, cleared: nat)
    requires Refines(ring, pos, runs, cleared)
    requires forall i :: 0 <= i < 64 ==> ring'[i] == ring[i].(used := false)
    ensures Refines(ring', pos, runs, |runs|)
  {
    forall j: nat | |runs| - 64 <= j < |runs|
      ensures Holds(ring'[j % 64], runs[j], false)
    {
      assert Holds(ring[j % 64], runs[j], j >= cleared);
    }
  }

  // ----- The driver's data --------------------------------------------------------------------

  /** The ring part of struct i2c_mpu6050_client_data_t, with the history it stands for. */
  class ClientData {
    const ring: array<Slot>
    var pos: Position
    var locked: bool
    ghost var runs: seq<Slot>
    ghost var cleared: nat

    ghost predicate Valid()
      reads this, ring
    {
      ring.Length == 64 && Refines(ring[..], pos, runs, cleared)
    }

    constructor ()
      ensures Valid() && fresh(ring) && !locked && runs == [] && pos == -1
    {
      ring := new Slot[64](_ => Slot(false, seq(14, _ => 0), 0, 0));
      pos := -1;
      locked := false;
      runs := [];
      cleared := 0;
    }

    /** i2c_mpu6050_wq_read_handler from lock to unlock. When it returns not finished, the replies ran
        out and the handler is still waiting for the device with the lock held. */
    method ReadHandler(now: int, nofifo: bool, count: int, replies: seq<Reply>) returns (finished: bool)
      requires Valid() && !locked
      modifies this, ring
      ensures pos == Next(old(pos)) && ring.Length == 64
      ensures var r := Sample(old(ring[Next(pos)]), now, nofifo, count, replies);
              && finished == r.Finished? && locked == !finished
              && ring[..] == old(ring[..])[pos := r.slot]
              && runs == (if finished then old(runs) + [r.slot] else old(runs))
      ensures finished && nofifo ==>
                forall j :: 0 <= j < 14 ==>
                  ring[pos].data[j] == if j < replies[0].result then replies[0].bytes[j] else old(ring[Next(pos)].data)[j]
      ensures cleared == old(cleared) && (finished ==> Valid())
    {
      locked := true;
      pos := if pos + 1 == 64 then 0 else pos + 1;
      var at := pos;
      ghost var before := ring[..];
      ring[at] := ring[at].(used := true);
      ring[at] := ring[at].(size := 0);
      ring[at] := ring[at].(timestamp := now);
      if !nofifo {
        var complete, failed := false, true;
        if count > 0 {
          complete, failed := DrainFifo(at, count, replies);
        }
        if failed {
          ring[at] := ring[at].(used := false);
        } else if !complete {
          return false;
        }
      } else {
        if replies == [] {
          return false;
        }
        ring[at] := ring[at].(data := Filled(ring[at].data, replies[0]));
        ring[at] := ring[at].(size := replies[0].result);
      }
      locked := false;
      RunExtendsHistory(before, old(pos), runs, cleared, ring[at]);
      runs := runs + [ring[at]];
      return true;
    }

    /** The drain loop of the handler. */
    method DrainFifo(at: nat, want: int, replies: seq<Reply>) returns (complete: bool, failed: bool)
      requires at < ring.Length
      modifies ring
      ensures var d := Drain(old(ring[at]), want, replies);
              && ring[..] == old(ring[..])[at := d.slot]
              && complete == d.Complete? && failed == d.Failed?
    {
      ghost var before := ring[at];
      var read := 0;
      while ring[at].size < want
        invariant read <= |replies|
        invariant ring[..] == old(ring[..])[at := ring[at]]
        invariant Same(Drain(before, want, replies), Drain(ring[at], want, replies[read..]))
        decreases |replies| - read
      {
        if read == |replies| {
          return false, false;
        }
        var r := replies[read];
        assert replies[read..][1..] == replies[read + 1..];
        if r.result < 0 {
          return false, true;
        }
        ring[at] := ring[at].(data := Filled(ring[at].data, r));
        ring[at] := ring[at].(size := ring[at].size + r.result);
        read := read + 1;
      }
      return true, false;
    }

    /** The locked part of the two sender loops, up to the sending: the bytes and their number as
        i2c_mpu6050_server_run sends them, the readings as i2c_mpu6050_netlink_forward does. */
    method TakeNewest() returns (record: Option<(Block, int)>, readings: Option<Readout.Readings>)
      requires Valid() && !locked
      modifies this`locked
      ensures Valid() && !locked
      ensures if HasNews(runs, cleared)
              then var newest := runs[|runs| - 1];
                   record == Some((newest.data, newest.size)) && readings == Some(Readout.Extract(newest.data))
              else record == None && readings == None
    {
      SenderTestIsHasNews(ring[..], pos, runs, cleared);
      locked := true;
      if pos == -1 || !ring[pos].used {
        locked := false;
        return None, None;
      }
      var i: int := pos;
      record := Some((ring[i].data, ring[i].size));
      var ax, ay, az, temp, gx, gy, gz := Readout.ExtractData(ring[i].data);
      readings := Some(Readout.Readings(ax, ay, az, temp, gx, gy, gz));
      locked := false;
    }

    /** The locked part of i2c_mpu6050_ringbuffer_read, which relies on a first sample. */
    method ReadNewest() returns (readings: Option<Readout.Readings>)
      requires Valid() && !locked && pos != -1
      modifies this`locked
      ensures Valid() && !locked
      ensures readings
              == if HasNews(runs, cleared) then Some(Readout.Extract(runs[|runs| - 1].data)) else None
    {
      SenderTestIsHasNews(ring[..], pos, runs, cleared);
      locked := true;
      readings := None;
      if ring[pos].used {
        var ax, ay, az, temp, gx, gy, gz := Readout.ExtractData(ring[pos].data);
        readings := Some(Readout.Readings(ax, ay, az, temp, gx, gy, gz));
      }
      locked := false;
    }

    /** i2c_mpu6050_ringbuffer_clear. */
    method Clear()
      requires Valid() && !locked
      modifies this, ring
      ensures Valid() && !locked && pos == old(pos) && runs == old(runs) && cleared == |runs|
      ensures forall i :: 0 <= i < 64 ==> ring[i] == old(ring[i]).(used := false)
    {
      ghost var before := ring[..];
      locked := true;
      for i := 0 to 64
        modifies ring
        invariant forall j :: 0 <= j < i ==> ring[j] == before[j].(used := false)
        invariant forall j :: i <= j < 64 ==> ring[j] == before[j]
      {
        ring[i] := ring[i].(used := false);
      }
      locked := false;
      ClearForgetsNothingElse(before, ring[..], pos, runs, cleared);
      cleared := |runs|;
    }
  }

  /** Two drains that come out alike, whatever was read before. */
  ghost predicate Same(d: Drained, e: Drained) {
    d.slot == e.slot && d.Complete? == e.Complete? && d.Failed? == e.Failed?
  }
}
