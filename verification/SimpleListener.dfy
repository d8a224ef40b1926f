// The file-dump loop of the listener, run against any behaviour of the driver.
module SimpleListener {
  import opened Cyclic
  import opened SequenceCheck
  import opened EavbDriver
  import opened EavbDevice
  import opened Payloads

  const ETHFRAMELEN_MAX := 1518

  datatype WaitMode = Poll | NoWait | WaitAll

  // What the environment does in one turn of the loop: the events poll reports, the driver's replies,
  // and whether a signal has arrived by the end of the turn.
  datatype Round = Round(
    writable: bool, readable: bool,
    push: WriteReply, take: ReadReply,
    readableLater: bool, retake: ReadReply,
    signal: bool)

  datatype Exit = Finished | Failed | Signalled | StillRunning

  // ---- What a run amounts to, in numbers -----------------------------------------------------

  datatype Counts = Counts(repeat: int, waitflush: bool, filled: nat, accepted: nat, dumped: nat)

  // A turn goes on or fails; what was done before the failure stays done.
  datatype Turned = Goes(c: Counts) | Fails(c: Counts)

  // How many slots a turn offers: all the application has, but no more than are still wanted.
  function OfferSize(c: Counts, inf: bool, entrynum: nat): int {
    if !inf && entrynum - c.filled > c.repeat then c.repeat else entrynum - c.filled
  }

  function AfterPush(c: Counts, round: Round, mode: WaitMode, inf: bool, entrynum: nat): Turned {
    if c.waitflush || (mode.Poll? && !round.writable) then Goes(c)
    else
      var tmp := WriteResult(OfferSize(c, inf, entrynum), round.push);
      if tmp < 0 then Fails(c)
      else
        Goes(Counts(if inf then c.repeat else c.repeat - tmp, !inf && c.repeat - tmp <= 0,
                    c.filled + tmp, c.accepted + tmp, c.dumped))
  }

  // How many frames come back; a blocking wait that failed is tried once more for what has arrived.
  function TakeResult(filled: nat, round: Round, mode: WaitMode, thresh: nat): (r: int)
    ensures r <= filled
  {
    var count := if filled > thresh then thresh else filled;
    var tmp := ReadResult(count, round.take);
    if mode.WaitAll? && tmp < 0 && round.readableLater then ReadResult(count, round.retake) else tmp
  }

  function AfterTake(c: Counts, round: Round, mode: WaitMode, thresh: nat): Turned {
    if mode.Poll? && !round.readable then Goes(c)
    else
      var tmp := TakeResult(c.filled, round, mode, thresh);
      if tmp < 0 then Fails(c) else Goes(c.(filled := c.filled - tmp, dumped := c.dumped + tmp))
  }

  function TurnCounts(c: Counts, round: Round, mode: WaitMode, inf: bool, entrynum: nat): Turned {
    var pushed := AfterPush(c, round, mode, inf, entrynum);
    if pushed.Fails? then pushed else AfterTake(pushed.c, round, mode, entrynum / 8)
  }

  function LoopCounts(c: Counts, script: seq<Round>, mode: WaitMode, inf: bool, entrynum: nat): (Counts, Exit)
    decreases script
  {
    if !inf && c.waitflush && c.filled == 0 then (c, Finished)
    else if script == [] then (c, StillRunning)
    else
      match TurnCounts(c, script[0], mode, inf, entrynum)
      case Fails(d) => (d, Failed)
      case Goes(d) => if script[0].signal then (d, Signalled) else LoopCounts(d, script[1..], mode, inf, entrynum)
  }

  // ---- What a turn does ----------------------------------------------------------------------

  // Slots are offered in every turn until the frames wanted have been accepted; with poll, only when it says so.
  predicate Offers(round: Round, mode: WaitMode, flushing: bool) { !flushing && (mode == Poll ==> round.writable) }

  // How many slots are offered: all the application has, but no more than are still wanted.
  function Wanted(remain: int, repeat: int, inf: bool): int { if inf || remain < repeat then remain else repeat }

  predicate OffersSlots(remain: int, repeat: int, inf: bool, flushing: bool, round: Round, mode: WaitMode,
      accepted: int, failed: bool)
  {
    if Offers(round, mode, flushing) then Writes(Wanted(remain, repeat, inf), round.push, accepted, failed)
    else accepted == 0 && !failed
  }

  // The first frames of the reply come back, no more than were asked for.
  predicate Gets(count: nat, reply: ReadReply, got: seq<Received>, failed: bool) {
    Reads(count, reply, |got|, failed) && (reply.Returned? ==> got <= reply.frames)
  }

  // Frames are taken in every turn, no more than an eighth of the ring; with poll, only when it says so. A blocking
  // wait that fails is tried once more if something can be read after all.
  predicate Collects(filled: nat, round: Round, mode: WaitMode, entrynum: nat, got: seq<Received>, failed: bool) {
    var count := if filled < entrynum / 8 then filled else entrynum / 8;
    if mode == Poll && !round.readable then got == [] && !failed
    else if mode == WaitAll && count > 0 && round.take == ReadFailed && round.readableLater then
      Gets(count, round.retake, got, failed)
    else Gets(count, round.take, got, failed)
  }

  // A round in which the driver is ready, accepts something and has something.
  predicate Obliging(round: Round) {
    && round.writable && round.readable && !round.signal
    && round.push.Wrote? && round.push.n > 0 && round.take.Returned? && round.take.frames != []
  }

  predicate AllObliging(script: seq<Round>) { forall r :: 0 <= r < |script| ==> Obliging(script[r]) }

  // With a driver that is ready every turn dumps a frame, until all have been dumped that were wanted.
  lemma {:induction false} ObligingFinishes(c: Counts, script: seq<Round>, mode: WaitMode, entrynum: nat)
    requires entrynum >= 8 && c.filled <= entrynum && c.repeat >= 0 && (c.waitflush <==> c.repeat == 0)
    requires AllObliging(script) && |script| >= c.filled + c.repeat
    ensures LoopCounts(c, script, mode, false, entrynum).1 == Finished
    decreases script
  {
    if c.waitflush && c.filled == 0 {
    } else {
      var d := TurnCounts(c, script[0], mode, false, entrynum).c;
      assert d.filled + d.repeat < c.filled + c.repeat;
      ObligingFinishes(d, script[1..], mode, entrynum);
    }
  }

  // In a ring of fewer than eight slots an eighth is nothing: no frame is ever taken back.
  lemma {:induction false} SmallRingNeverFinishes(c: Counts, script: seq<Round>, mode: WaitMode, entrynum: nat)
    requires entrynum < 8 && (c.filled > 0 || (!c.waitflush && c.repeat > 0))
    ensures LoopCounts(c, script, mode, false, entrynum).1 != Finished
    decreases script
  {
    if script == [] {
    } else {
      SmallRingNeverFinishes(TurnCounts(c, script[0], mode, false, entrynum).c, script[1..], mode, entrynum);
    }
  }

  lemma {:induction false} ObligingGoesOn(c: Counts, script: seq<Round>, mode: WaitMode, entrynum: nat)
    requires entrynum >= 8 && c.filled <= entrynum && !c.waitflush && AllObliging(script)
    ensures var (d, exit) := LoopCounts(c, script, mode, true, entrynum);
      exit == StillRunning && d.dumped >= c.dumped + |script|
    decreases script
  {
    if script == [] {
    } else {
      var d := TurnCounts(c, script[0], mode, true, entrynum).c;
      assert d.dumped > c.dumped;
      ObligingGoesOn(d, script[1..], mode, entrynum);
    }
  }

  function Numbers(frames: seq<Received>): (r: seq<SequenceNum>)
    ensures |r| == |frames| && forall i :: 0 <= i < |frames| ==> r[i] == frames[i].packet.sequenceNum
  {
    seq(|frames|, i requires 0 <= i < |frames| => frames[i].packet.sequenceNum)
  }

  // Slots not in the driver's hands carry the full frame length.
  ghost predicate RingReady(ring: seq<Entry>, rp: nat, filled: nat)
    requires rp < |ring|
  {
    forall i :: 0 <= i < |ring| && Ahead(rp, i, |ring|) >= filled ==> ring[i].len == ETHFRAMELEN_MAX
  }

  // The ring after `count` slots from p0 on were made ready.
  function MadeReady(ring: seq<Entry>, p0: nat, count: nat): (r: seq<Entry>)
    requires p0 < |ring| && count <= |ring|
    ensures |r| == |ring| && forall i :: 0 <= i < |ring| ==>
      r[i] == if Ahead(p0, i, |ring|) < count then ring[i].(len := ETHFRAMELEN_MAX) else ring[i]
  {
    seq(|ring|, i requires 0 <= i < |ring| =>
      if Ahead(p0, i, |ring|) < count then ring[i].(len := ETHFRAMELEN_MAX) else ring[i])
  }

  // The slots from p on show these frames: the length in the entry, the packet in the slot's own page.
  ghost predicate FramesInSlots(frames: seq<Received>, ring: seq<Entry>, framebuf: seq<nat>, memory: map<nat,
      Packet>, p: nat)
    requires |frames| <= |ring| == |framebuf| && p < |ring| && Mapped(framebuf, memory)
  {
    forall k :: 0 <= k < |frames| ==>
      frames[k] == Received(ring[Wrap(p + k, |ring|)].len, memory[framebuf[Wrap(p + k, |ring|)]])
  }

  lemma OneMoreReady(ring: seq<Entry>, p0: nat, i: nat)
    requires p0 < |ring| && i < |ring|
    ensures var s := Wrap(p0 + i, |ring|);
      MadeReady(ring, p0, i)[s := MadeReady(ring, p0, i)[s].(len := ETHFRAMELEN_MAX)] == MadeReady(ring, p0, i + 1)
      && MadeReady(ring, p0, i)[s] == ring[s]
  {
    assert Ahead(p0, Wrap(p0 + i, |ring|), |ring|) == i;
  }

  // After a take the slots from rp on show the frames handed back.
  lemma TakenFrames(ring: seq<Entry>, rp: nat, q: seq<Entry>, reply: seq<Received>, ret: nat, framebuf: seq<nat>,
      memory: map<nat, Packet>)
    requires ret <= |reply| && ret <= |q| <= |ring| == |framebuf| && rp < |ring| && Mapped(framebuf, memory)
    requires PagesHold(framebuf, memory, rp, reply, ret)
    ensures FramesInSlots(reply[..ret], Splice(ring, rp, Answered(q[..ret], reply, true)), framebuf, memory, rp)
  {
    var taken := Answered(q[..ret], reply, true);
    forall k | 0 <= k < ret ensures Splice(ring, rp, taken)[Wrap(rp + k, |ring|)] == taken[k] {
      assert Ahead(rp, Wrap(rp + k, |ring|), |ring|) == k;
    }
  }

  lemma BasesKept(ring: seq<Entry>, p0: nat, count: nat)
    requires p0 < |ring| && count <= |ring|
    ensures Bases(MadeReady(ring, p0, count)) == Bases(ring)
  {}

  // Taking back and dumping a stretch makes exactly that stretch ready as well.
  lemma ReadyAfterTake(ring: seq<Entry>, rp: nat, taken: seq<Entry>, filled: nat)
    requires rp < |ring| && |taken| <= filled <= |ring| && RingReady(ring, rp, filled)
    ensures RingReady(MadeReady(Splice(ring, rp, taken), rp, |taken|), Wrap(rp + |taken|, |ring|), filled - |taken|)
  {
    var n, ret := |ring|, |taken|;
    var after := MadeReady(Splice(ring, rp, taken), rp, ret);
    forall i | 0 <= i < n && Ahead(Wrap(rp + ret, n), i, n) >= filled - ret ensures after[i].len == ETHFRAMELEN_MAX {
      if Ahead(rp, i, n) >= ret {
        assert Ahead(rp, i, n) == Ahead(Wrap(rp + ret, n), i, n) + ret;
      }
    }
  }

  // Both together: what waits in the slots, and what will be ready once it has been dumped.
  lemma AfterTakeOfRing(ring: seq<Entry>, rp: nat, filled: nat, q: seq<Entry>, reply: seq<Received>, ret: nat,
                        framebuf: seq<nat>, memory: map<nat, Packet>, after: seq<Entry>)
    requires ret <= |reply| && ret <= |q| == filled <= |ring| == |framebuf| && rp < |ring| && Mapped(framebuf, memory)
    requires PagesHold(framebuf, memory, rp, reply, ret) && RingReady(ring, rp, filled)
    requires after == Splice(ring, rp, Answered(q[..ret], reply, true))
    ensures FramesInSlots(reply[..ret], after, framebuf, memory, rp)
    ensures RingReady(MadeReady(after, rp, ret), Wrap(rp + ret, |ring|), filled - ret)
  {
    TakenFrames(ring, rp, q, reply, ret, framebuf, memory);
    ReadyAfterTake(ring, rp, Answered(q[..ret], reply, true), filled);
  }

  class Listener {
    const dev: Device
    const checker: Checker
    var dumped: seq<Received>      // every frame written out, with the length counted in the statistics
    var output: seq<Byte>          // what has been handed to the output file

    constructor (dev: Device)
      requires dev.Valid() && dev.filled == 0 && dev.p == dev.rp && dev.driver.receives && dev.driver.delivered == []
      requires forall i :: 0 <= i < dev.entrynum ==> dev.entrybuf[i].len == ETHFRAMELEN_MAX
      ensures this.dev == dev && AtHead() && fresh(checker)
    {
      this.dev := dev;
      checker := new Checker();
      dumped, output := [], [];
    }

    // The application's slots are ready to be offered again.
    ghost predicate Ready()
      reads dev, dev.entrybuf
      requires dev.Cursors() && dev.entrybuf.Length == dev.entrynum
    {
      RingReady(dev.entrybuf[..], dev.rp, dev.filled)
    }

    // The loop head: everything handed back by the driver has been dumped, once and in order.
    ghost predicate AtHead()
      reads this, dev, dev.entrybuf, dev.driver, checker
    {
      && dev.Valid() && dev.driver.receives
      && dev.p == dev.rp
      && Ready()
      && dumped == dev.driver.delivered
      && Checked() && output == BytesOf(dumped)
    }

    // The checker has seen exactly the numbers of the dumped frames.
    ghost predicate Checked()
      reads this, checker
    {
      checker.Valid() && checker.seen == Numbers(dumped)
    }

    // Dumps the frame of slot p, the i-th from p0 on, and makes the slot ready again.
    method DumpOne(ghost ring: seq<Entry>, ghost p0: nat, ghost i: nat) returns (packet: Packet)
      requires dev.Cursors() && dev.entrybuf.Length == |dev.framebuf| == dev.entrynum
        && Mapped(dev.framebuf, dev.driver.memory)
      requires Checked() && |ring| == dev.entrynum && p0 < dev.entrynum && i < dev.entrynum
      requires dev.p == Wrap(p0 + i, dev.entrynum) && dev.entrybuf[..] == MadeReady(ring, p0, i)
      modifies this`dumped, checker, dev`p, dev.entrybuf
      ensures dev.Cursors() && Checked() && dev.p == Wrap(p0 + i + 1, dev.entrynum)
      ensures packet == dev.driver.memory[dev.framebuf[old(dev.p)]]
      ensures dumped == old(dumped) + [Received(ring[old(dev.p)].len, packet)]
      ensures dev.entrybuf[..] == MadeReady(ring, p0, i + 1)
    {
      OneMoreReady(ring, p0, i);
      packet := dev.driver.memory[dev.framebuf[dev.p]];
      var _ := checker.VerifyPacket(packet.sequenceNum);
      dumped := dumped + [Received(dev.entrybuf[dev.p].len, packet)];
      dev.entrybuf[dev.p] := dev.entrybuf[dev.p].(len := ETHFRAMELEN_MAX);
      ModIsWrap(dev.p + 1, dev.entrynum);
      dev.p := (dev.p + 1) % dev.entrynum;
    }

    // writev: the payloads, cut at their lengths, one after the other.
    method WriteV(iov: seq<Packet>)
      modifies this`output
      ensures output == old(output) + Cuts(iov)
    {
      var k := 0;
      while k < |iov|
        invariant 0 <= k <= |iov| && output == old(output) + Cuts(iov[..k])
      {
        assert iov[..k + 1] == iov[..k] + [iov[k]];
        CutsAppend(iov[..k], [iov[k]]);
        assert Cuts([iov[k]]) == Cut(iov[k]) + Cuts([]);
        output := output + Cut(iov[k]);
        k := k + 1;
      }
      assert iov[..k] == iov;
    }

    // Dumps `count` slots from p on, and collects their packets for the output.
    method DumpSlots(count: nat, ghost frames: seq<Received>) returns (iov: seq<Packet>)
      requires dev.Cursors() && dev.entrybuf.Length == |dev.framebuf| == dev.entrynum
      requires count == |frames| <= dev.entrynum
      requires Mapped(dev.framebuf, dev.driver.memory) && Checked()
      requires FramesInSlots(frames, dev.entrybuf[..], dev.framebuf, dev.driver.memory, dev.p)
      modifies this`dumped, checker, dev`p, dev.entrybuf
      ensures dev.Cursors() && dev.p == Wrap(old(dev.p) + count, dev.entrynum)
      ensures dumped == old(dumped) + frames && Checked() && iov == Packets(frames)
      ensures dev.entrybuf[..] == MadeReady(old(dev.entrybuf[..]), old(dev.p), count)
    {
      hide Checked;
      ghost var p0, ring, memory, before := dev.p, dev.entrybuf[..], dev.driver.memory, dumped;
      var i := 0;
      iov := [];
      assert before + frames[..0] == before;
      while i < count
        invariant 0 <= i <= count && dev.Cursors() && Checked()
        invariant dev.p == Wrap(p0 + i, dev.entrynum)
        invariant dumped == before + frames[..i]
        invariant iov == Packets(frames[..i])
        invariant FramesInSlots(frames, ring, dev.framebuf, memory, p0) && dev.driver.memory == memory
        invariant dev.entrybuf[..] == MadeReady(ring, p0, i)
      {
        assert frames[i] == Received(ring[dev.p].len, memory[dev.framebuf[dev.p]]);
        AppendNext(before, frames, i);
        var packet := DumpOne(ring, p0, i);
        iov := iov + [packet];
        i := i + 1;
      }
      assert frames[..i] == frames;
    }

    // Dumps `count` slots from p on and writes out what they hold.
    method FiledumpProcess(count: nat, ghost frames: seq<Received>)
      requires dev.Cursors() && dev.entrybuf.Length == |dev.framebuf| == dev.entrynum
      requires count == |frames| <= dev.entrynum
      requires Mapped(dev.framebuf, dev.driver.memory) && Checked()
      requires FramesInSlots(frames, dev.entrybuf[..], dev.framebuf, dev.driver.memory, dev.p)
      modifies this, checker, dev`p, dev.entrybuf
      ensures dev.Cursors() && dev.p == Wrap(old(dev.p) + count, dev.entrynum)
      ensures dumped == old(dumped) + frames && Checked() && output == old(output) + Cuts(Packets(frames))
      ensures dev.entrybuf[..] == MadeReady(old(dev.entrybuf[..]), old(dev.p), count)
    {
      var iov := DumpSlots(count, frames);
      WriteV(iov);
    }

    // The loop's counters.
    ghost function Now(repeat: int, waitflush: bool): Counts
      reads this, dev, dev.driver
    {
      Counts(repeat, waitflush, dev.filled, |dev.driver.accepted|, |dumped|)
    }

    method Push(size: int, reply: WriteReply) returns (ret: int)
      requires AtHead() && size <= dev.remain
      modifies dev`wp, dev`remain, dev`filled, dev.entrybuf, dev.workbuf
      modifies dev.driver`queue, dev.driver`lastSeqNo, dev.driver`accepted
      ensures AtHead() && ret == WriteResult(size, reply)
      ensures dev.filled == old(dev.filled) + if ret > 0 then ret else 0
      ensures |dev.driver.accepted| == |old(dev.driver.accepted)| + if ret > 0 then ret else 0
    {
      ret := dev.PushEntry(size, reply);
    }

    // Between a take and the dump: these frames wait in the slots from p on.
    ghost predicate Waiting(frames: seq<Received>)
      reads this, dev, dev.entrybuf, dev.driver, checker
    {
      && dev.Valid() && dev.driver.receives && Checked()
      && |frames| <= dev.entrynum && dev.rp == Wrap(dev.p + |frames|, dev.entrynum)
      && dev.driver.delivered == dumped + frames && output == BytesOf(dumped)
      && FramesInSlots(frames, dev.entrybuf[..], dev.framebuf, dev.driver.memory, dev.p)
      && RingReady(MadeReady(dev.entrybuf[..], dev.p, |frames|), dev.rp, dev.filled)
    }

    // Takes slots back; the frames handed back stand in them.
    method TakeSlots(count: nat, reply: ReadReply) returns (ret: int, ghost frames: seq<Received>)
      requires dev.Valid() && dev.driver.receives && Ready() && count <= dev.filled
      modifies dev`rp, dev`remain, dev`filled, dev.entrybuf, dev.workbuf
      modifies dev.driver`queue, dev.driver`memory, dev.driver`delivered, dev.driver`returned
      ensures dev.Valid() && ret == ReadResult(count, reply) && |frames| == if ret > 0 then ret else 0
      ensures dev.filled == old(dev.filled) - |frames| && dev.rp == Wrap(old(dev.rp) + |frames|, dev.entrynum)
      ensures dev.driver.delivered == old(dev.driver.delivered) + frames && Gets(count, reply, frames, ret < 0)
      ensures ret <= 0 ==> Ready()
      ensures ret > 0 ==>
        && FramesInSlots(frames, dev.entrybuf[..], dev.framebuf, dev.driver.memory, old(dev.rp))
        && RingReady(MadeReady(dev.entrybuf[..], old(dev.rp), ret), dev.rp, dev.filled)
    {
      ghost var rp, filled, ring, q := dev.rp, dev.filled, dev.entrybuf[..], dev.driver.queue;
      assert |q| == |Bases(q)| == filled;
      ret := dev.TakeEntry(count, reply);
      if ret > 0 {
        frames := reply.frames[..ret];
        AfterTakeOfRing(ring, rp, filled, q, reply.frames, ret, dev.framebuf, dev.driver.memory, dev.entrybuf[..]);
      } else {
        frames := [];
      }
    }

    method Take(thresh: nat, reply: ReadReply) returns (ret: int, ghost frames: seq<Received>)
      requires AtHead()
      modifies dev`rp, dev`remain, dev`filled, dev.entrybuf, dev.workbuf
      modifies dev.driver`queue, dev.driver`memory, dev.driver`delivered, dev.driver`returned
      ensures ret == ReadResult(if old(dev.filled) > thresh then thresh else old(dev.filled), reply)
      ensures Gets(if old(dev.filled) < thresh then old(dev.filled) else thresh, reply, frames, ret < 0)
      ensures dumped == old(dumped)
      ensures dev.filled == old(dev.filled) - if ret > 0 then ret else 0
      ensures ret <= 0 ==> AtHead()
      ensures ret > 0 ==> |frames| == ret && Waiting(frames)
    {
      ret, frames := TakeSlots(if dev.filled > thresh then thresh else dev.filled, reply);
    }

    method Dump(count: nat, ghost frames: seq<Received>)
      requires Waiting(frames) && |frames| == count
      modifies this, checker, dev`p, dev.entrybuf
      ensures AtHead() && dumped == old(dumped) + frames
    {
      BasesKept(dev.entrybuf[..], dev.p, count);
      BytesAppend(dumped, frames);
      FiledumpProcess(count, frames);
    }

    method TakeRetrying(round: Round, mode: WaitMode, thresh: nat) returns (ret: int, ghost frames: seq<Received>)
      requires AtHead()
      modifies dev`rp, dev`remain, dev`filled, dev.entrybuf, dev.workbuf
      modifies dev.driver`queue, dev.driver`memory, dev.driver`delivered, dev.driver`returned
      ensures ret == TakeResult(old(dev.filled), round, mode, thresh) && dumped == old(dumped)
      ensures thresh == dev.entrynum / 8 && (mode == Poll ==> round.readable) ==>
        Collects(old(dev.filled), round, mode, dev.entrynum, frames, ret < 0)
      ensures dev.filled == old(dev.filled) - if ret > 0 then ret else 0
      ensures ret <= 0 ==> AtHead()
      ensures ret > 0 ==> |frames| == ret && Waiting(frames)
    {
      ret, frames := Take(thresh, round.take);
      if mode.WaitAll? && ret < 0 && round.readableLater {
        ret, frames := Take(thresh, round.retake);
      }
    }

    // The reading half of a turn.
    method Collect(round: Round, mode: WaitMode, ghost repeat: int, ghost waitflush: bool) returns (failed: bool)
      requires AtHead()
      modifies this, checker, dev`p, dev`rp, dev`remain, dev`filled, dev.entrybuf, dev.workbuf
      modifies dev.driver`queue, dev.driver`memory, dev.driver`delivered, dev.driver`returned
      ensures AtHead()
      ensures AfterTake(old(Now(repeat, waitflush)), round, mode, dev.entrynum / 8) ==
              if failed then Fails(Now(repeat, waitflush)) else Goes(Now(repeat, waitflush))
      ensures old(dumped) <= dumped
      ensures Collects(old(dev.filled), round, mode, dev.entrynum, dumped[|old(dumped)|..], failed)
    {
      hide AtHead, Waiting;
      failed := false;
      if !mode.Poll? || round.readable {
        var tmp, frames := TakeRetrying(round, mode, dev.entrynum / 8);
        failed := tmp < 0;
        if tmp > 0 { Dump(tmp, frames); }
      }
    }

    // The slots are the application's or the driver's.
    lemma SlotsAdd()
      requires AtHead()
      ensures dev.remain == dev.entrynum - dev.filled && 0 <= dev.remain
    {}

    // The writing half of a turn.
    method Offer(round: Round, mode: WaitMode, inf: bool, before: int, flushing: bool)
      returns (repeat: int, waitflush: bool, failed: bool)
      requires AtHead() && (flushing ==> !inf)
      modifies dev`wp, dev`remain, dev`filled, dev.entrybuf, dev.workbuf
      modifies dev.driver`queue, dev.driver`lastSeqNo, dev.driver`accepted
      ensures AtHead()
      ensures AfterPush(old(Now(before, flushing)), round, mode, inf, dev.entrynum) ==
              if failed then Fails(Now(repeat, waitflush)) else Goes(Now(repeat, waitflush))
      ensures dumped == old(dumped)
      ensures var accepted := |dev.driver.accepted| - |old(dev.driver.accepted)|;
        && dev.filled == old(dev.filled) + accepted
        && OffersSlots(old(dev.remain), before, inf, flushing, round, mode, accepted, failed)
        && (!failed ==> repeat == if inf then before else before - accepted)
      ensures !failed ==> (waitflush <==> flushing || (Offers(round, mode, flushing) && !inf && repeat <= 0))
    {
      hide AtHead;
      SlotsAdd();
      repeat, waitflush, failed := before, flushing, false;
      if !waitflush && (!mode.Poll? || round.writable) {
        var size: int := dev.remain;
        if !inf && size > repeat { size := repeat; }
        var tmp := Push(size, round.push);
        failed := tmp < 0;
        if !failed && !inf {
          repeat := repeat - tmp;
          if repeat <= 0 { waitflush := true; }
        }
      }
    }

    // One turn of the loop: offer slots, take frames back, dump them.
    method Turn(round: Round, mode: WaitMode, inf: bool, before: int, flushing: bool)
      returns (repeat: int, waitflush: bool, failed: bool)
      requires AtHead() && (flushing ==> !inf)
      modifies this, checker, dev, dev.entrybuf, dev.workbuf, dev.driver
      ensures AtHead()
      ensures TurnCounts(old(Now(before, flushing)), round, mode, inf, dev.entrynum) ==
              if failed then Fails(Now(repeat, waitflush)) else Goes(Now(repeat, waitflush))
      // What it offers, and what it takes back and dumps.
      ensures old(dumped) <= dumped
      ensures var accepted := |dev.driver.accepted| - |old(dev.driver.accepted)|;
        var got := dumped[|old(dumped)|..];
        || (OffersSlots(old(dev.remain), before, inf, flushing, round, mode, accepted, true) && failed && got == [])
        || (OffersSlots(old(dev.remain), before, inf, flushing, round, mode, accepted, false)
            && Collects(old(dev.filled) + accepted, round, mode, dev.entrynum, got, failed))
      ensures !failed ==> (waitflush <==> flushing || (Offers(round, mode, flushing) && !inf && repeat <= 0))
    {
      hide AtHead, AfterPush, AfterTake, OffersSlots, Collects;
      repeat, waitflush, failed := Offer(round, mode, inf, before, flushing);
      if !failed {
        failed := Collect(round, mode, repeat, waitflush);
      }
    }

    // The turns of the loop, until it ends or the script does.
    method Turns(framenums: int, mode: WaitMode, script: seq<Round>, ghost start: Counts)
      returns (exit: Exit, repeat: int, waitflush: bool)
      requires AtHead() && start == Now(if framenums == 0 then 1 else framenums, false)
      modifies this, checker, dev, dev.entrybuf, dev.workbuf, dev.driver
      ensures AtHead()
      ensures LoopCounts(start, script, mode, framenums == 0, dev.entrynum) == (Now(repeat, waitflush), exit)
      ensures Budget(start, Now(repeat, waitflush), framenums)
      ensures exit.Finished? ==> framenums != 0 && waitflush && dev.filled == 0
    {
      hide AtHead, Budget;
      repeat := framenums;
      var inf := repeat == 0;
      waitflush := false;
      if inf { repeat := 1; }
      var r := 0;
      assert script[0..] == script;
      assert Budget(start, start, framenums) by { StartBudget(start, framenums); }
      while r < |script| && (inf || !(waitflush && dev.filled == 0))
        invariant 0 <= r <= |script|
        invariant AtHead()
        invariant inf <==> framenums == 0
        invariant LoopCounts(start, script, mode, inf, dev.entrynum)
               == LoopCounts(Now(repeat, waitflush), script[r..], mode, inf, dev.entrynum)
        invariant Budget(start, Now(repeat, waitflush), framenums)
      {
        ghost var c := Now(repeat, waitflush);
        assert script[r..][1..] == script[r + 1..];
        SlotsAdd();
        TurnKeepsBudget(start, c, script[r], mode, framenums, dev.entrynum);
        var failed;
        repeat, waitflush, failed := Turn(script[r], mode, inf, repeat, waitflush);
        if failed { return Failed, repeat, waitflush; }
        if script[r].signal { return Signalled, repeat, waitflush; }
        r := r + 1;
      }
      exit := if inf || !(waitflush && dev.filled == 0) then StillRunning else Finished;
    }

    method FiledumpLoop(framenums: int, mode: WaitMode, script: seq<Round>)
      returns (exit: Exit, repeat: int, waitflush: bool)
      requires AtHead()
      modifies this, checker, dev, dev.entrybuf, dev.workbuf, dev.driver
      // Exactly-once dump, whatever the driver, the poll results and the exit.
      ensures AtHead()
      // How far it gets is what the numbers of the turns say.
      ensures
        LoopCounts(old(Now(if framenums == 0 then 1 else framenums, false)), script, mode, framenums == 0, dev.entrynum)
        == (Now(repeat, waitflush), exit)
      // The frame budget.
      ensures framenums != 0 ==>
        |dev.driver.accepted| - |old(dev.driver.accepted)| + repeat == framenums && (framenums > 0 ==> repeat >= 0)
      ensures exit.Finished? ==>
        && framenums > 0 && repeat == 0
        && dev.driver.queue == [] && dev.filled == 0
        && |dumped| - |old(dumped)| == framenums + old(dev.filled)
      // With a driver that is ready it does get there; without a count it dumps a frame in every turn. A ring of
      // fewer than eight slots never gets there.
      ensures exit.Finished? ==> dev.entrynum >= 8
      ensures AllObliging(script) && dev.entrynum >= 8 && framenums > 0 && |script| >= framenums + old(dev.filled) ==>
        exit.Finished?
      ensures AllObliging(script) && dev.entrynum >= 8 && framenums == 0 ==>
        exit.StillRunning? && |dumped| - |old(dumped)| >= |script|
    {
      hide AtHead, Obliging, LoopCounts;
      SlotsAdd();
      ghost var start := Now(if framenums == 0 then 1 else framenums, false);
      if framenums > 0 && dev.entrynum < 8 { SmallRingNeverFinishes(start, script, mode, dev.entrynum); }
      if AllObliging(script) && dev.entrynum >= 8 {
        if framenums > 0 && |script| >= framenums + dev.filled { ObligingFinishes(start, script, mode, dev.entrynum); }
        if framenums == 0 { ObligingGoesOn(start, script, mode, dev.entrynum); }
      }
      exit, repeat, waitflush := Turns(framenums, mode, script, start);
      if dev.filled == 0 { NothingHeld(); }
    }

    lemma NothingHeld()
      requires AtHead() && dev.filled == 0
      ensures dev.driver.queue == []
    {
      assert |Bases(dev.driver.queue)| == 0;
    }
  }

  // Frames accepted and frames still wanted add up; frames accepted are dumped or still in the driver.
  ghost predicate Budget(start: Counts, c: Counts, framenums: int) {
    && c.dumped - start.dumped + c.filled == c.accepted - start.accepted + start.filled
    && (framenums != 0 ==> c.accepted - start.accepted + c.repeat == framenums)
    && (framenums > 0 ==> c.repeat >= 0 && (c.waitflush ==> c.repeat == 0))
    && (framenums < 0 ==> c.repeat == framenums)
    && (framenums <= 0 ==> !c.waitflush)
  }

  lemma StartBudget(start: Counts, framenums: int)
    requires start.repeat == (if framenums == 0 then 1 else framenums) && !start.waitflush
    ensures Budget(start, start, framenums)
  {}

  lemma TurnKeepsBudget(start: Counts, c: Counts, round: Round, mode: WaitMode, framenums: int, entrynum: nat)
    requires Budget(start, c, framenums) && c.filled <= entrynum
    ensures Budget(start, TurnCounts(c, round, mode, framenums == 0, entrynum).c, framenums)
  {}
}
