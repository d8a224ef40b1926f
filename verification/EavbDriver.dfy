// The DMA stream driver behind the device file, and the two library calls that reach it.
module EavbDriver {
  import opened SequenceCheck

  type Byte = b: nat | b < 256

  // A frame page as the application sees it: the AVTP fields it uses and its payload area.
  datatype Packet = Packet(sequenceNum: SequenceNum, dataLength: nat, payload: seq<Byte>)

  // One DMA entry: its number, the physical address of its page and the frame length.
  datatype Entry = Entry(seqNo: nat, base: nat, len: nat)

  // What the environment makes of a write or a read; counts are cut to what is possible.
  datatype WriteReply = Wrote(n: nat) | WriteAgain | WriteFailed
  datatype Received = Received(len: nat, packet: Packet)
  datatype ReadReply = Returned(frames: seq<Received>) | ReadAgain | ReadFailed

  function Min(a: int, b: int): int { if a < b then a else b }

  // What a write and a read return: how many entries were accepted or handed back, or -1.
  function WriteResult(count: int, reply: WriteReply): (r: int)
    ensures count >= 0 ==> r <= count
  {
    if count == 0 then 0
    else if count < 0 || reply.WriteFailed? then -1
    else if reply.WriteAgain? then 0 else Min(reply.n, count)
  }

  function ReadResult(count: int, reply: ReadReply): (r: int)
    ensures count >= 0 ==> r <= count
  {
    if count == 0 then 0
    else if count < 0 || reply.ReadFailed? then -1
    else if reply.ReadAgain? then 0 else Min(|reply.frames|, count)
  }

  // What offering `size` entries comes to.
  predicate Writes(size: int, reply: WriteReply, accepted: int, failed: bool) {
    if size == 0 then accepted == 0 && !failed
    else if size < 0 then accepted == 0 && failed
    else
      match reply
      case Wrote(n) => accepted == (if n < size then n else size) && !failed
      case WriteAgain => accepted == 0 && !failed
      case WriteFailed => accepted == 0 && failed
  }

  // What asking for `count` entries comes to: those that are there, no more than were asked for.
  predicate Reads(count: nat, reply: ReadReply, returned: int, failed: bool) {
    if count == 0 then returned == 0 && !failed
    else
      match reply
      case Returned(frames) => returned == (if |frames| < count then |frames| else count) && !failed
      case ReadAgain => returned == 0 && !failed
      case ReadFailed => returned == 0 && failed
  }

  function Numbered(es: seq<Entry>, first: nat): (r: seq<Entry>)
    ensures |r| == |es| && forall i :: 0 <= i < |es| ==> r[i] == es[i].(seqNo := first + i)
  {
    seq(|es|, i requires 0 <= i < |es| => es[i].(seqNo := first + i))
  }

  // The entries a read hands back: on reception the driver has filled in the lengths.
  function Answered(es: seq<Entry>, frames: seq<Received>, receives: bool): (r: seq<Entry>)
    requires receives ==> |es| <= |frames|
    ensures |r| == |es|
    ensures forall i :: 0 <= i < |es| ==> r[i] == if receives then es[i].(len := frames[i].len) else es[i]
  {
    seq(|es|, i requires 0 <= i < |es| => if receives then es[i].(len := frames[i].len) else es[i])
  }

  class Driver {
    const receives: bool             // a receiving stream fills the pages it hands back
    var queue: seq<Entry>            // entries in the driver's hands, oldest first
    var memory: map<nat, Packet>     // the pages, by physical address
    var lastSeqNo: nat               // the library's running entry number
    ghost var accepted: seq<Entry>       // every entry ever taken over, in order
    ghost var delivered: seq<Received>   // every frame ever handed back, in order
    ghost var returned: nat              // how many entries were ever handed back

    constructor (receives: bool, memory: map<nat, Packet>)
      ensures this.receives == receives && this.memory == memory
      ensures queue == [] && accepted == [] && delivered == [] && lastSeqNo == returned == 0
    {
      this.receives := receives;
      this.memory := memory;
      queue, lastSeqNo := [], 0;
      accepted, delivered, returned := [], [], 0;
    }

    // Entries are numbered in the order they are accepted, without a gap, and leave in that order.
    ghost predicate Valid()
      reads this
    {
      && |accepted| == lastSeqNo == returned + |queue|
      && (forall i :: 0 <= i < |accepted| ==> accepted[i].seqNo == i)
      && accepted[returned..] == queue
      && (receives ==> |delivered| == returned)
    }

    method NumberEntries(buf: array<Entry>, from: nat, count: nat)
      requires from + count <= buf.Length
      modifies buf
      ensures forall k :: 0 <= k < buf.Length ==>
        buf[k] == if from <= k < from + count then old(buf[k]).(seqNo := lastSeqNo + (k - from)) else old(buf[k])
    {
      var i := 0;
      while i < count
        modifies buf
        invariant 0 <= i <= count
        invariant forall k :: 0 <= k < buf.Length ==>
          buf[k] == if from <= k < from + i then old(buf[k]).(seqNo := lastSeqNo + (k - from)) else old(buf[k])
      {
        buf[from + i] := buf[from + i].(seqNo := lastSeqNo + i);
        i := i + 1;
      }
    }

    // eavb_push: number the entries in place, then offer them; some prefix is accepted.
    method Push(buf: array<Entry>, from: nat, count: int, reply: WriteReply) returns (ret: int)
      requires Valid() && from <= buf.Length && (count > 0 ==> from + count <= buf.Length)
      modifies this`queue, this`lastSeqNo, this`accepted, buf
      ensures Valid()
      ensures ret == WriteResult(count, reply)
      ensures Writes(count, reply, |accepted| - |old(accepted)|, ret < 0)
      ensures forall k :: 0 <= k < buf.Length ==>
        buf[k] == if from <= k < from + count then old(buf[k]).(seqNo := old(lastSeqNo) + (k - from)) else old(buf[k])
      ensures ret >= 0 ==> queue == old(queue) + Numbered(old(buf[from..from + ret]), old(lastSeqNo))
      ensures ret < 0 ==> queue == old(queue)
      ensures |accepted| == |old(accepted)| + if ret > 0 then ret else 0
    {
      if count == 0 {
        assert queue == old(queue) + Numbered(old(buf[from..from + 0]), old(lastSeqNo)) by {
          assert Numbered(old(buf[from..from + 0]), old(lastSeqNo)) == [];
        }
        return 0;
      }
      if count < 0 { return -1; }
      NumberEntries(buf, from, count);
      match reply
      case WriteFailed => return -1;
      case WriteAgain =>
        assert Numbered(old(buf[from..from + 0]), old(lastSeqNo)) == [];
        return 0;
      case Wrote(n) =>
        ret := Min(n, count);
        assert buf[from..from + ret] == Numbered(old(buf[from..from + ret]), lastSeqNo);
        queue := queue + buf[from..from + ret];
        accepted := accepted + buf[from..from + ret];
        lastSeqNo := lastSeqNo + ret;
    }

    // Fills the pages of the first `ret` entries of the queue and copies those entries out.
    method HandBack(buf: array<Entry>, ret: nat, frames: seq<Received>)
      requires ret <= |queue| && ret <= buf.Length && ret <= |frames|
      requires forall i, j :: 0 <= i < j < |queue| ==> queue[i].base != queue[j].base
      modifies this`memory, buf
      ensures buf[..ret] == Answered(queue[..ret], frames, receives)
      ensures memory.Keys >= old(memory).Keys
      ensures receives ==> forall i :: 0 <= i < ret ==>
        queue[i].base in memory && memory[queue[i].base] == frames[i].packet
      ensures !receives ==> memory == old(memory)
    {
      var i := 0;
      while i < ret
        modifies this`memory, buf
        invariant 0 <= i <= ret
        invariant forall k :: 0 <= k < i ==>
          buf[k] == if receives then queue[k].(len := frames[k].len) else queue[k]
        invariant memory.Keys >= old(memory).Keys
        invariant receives ==> forall k :: 0 <= k < i ==>
          queue[k].base in memory && memory[queue[k].base] == frames[k].packet
        invariant !receives ==> memory == old(memory)
      {
        if receives {
          memory := memory[queue[i].base := frames[i].packet];
          buf[i] := queue[i].(len := frames[i].len);
        } else {
          buf[i] := queue[i];
        }
        i := i + 1;
      }
    }

    // eavb_take: some prefix of the queue comes back; on reception its pages then hold the frames.
    method Take(buf: array<Entry>, count: int, reply: ReadReply) returns (ret: int)
      requires Valid() && count <= buf.Length
      requires forall i, j :: 0 <= i < j < |queue| ==> queue[i].base != queue[j].base
      modifies this`queue, this`memory, this`delivered, this`returned, buf
      ensures Valid()
      ensures ret == Min(ReadResult(count, reply), |old(queue)|)
      ensures 0 <= count <= |old(queue)| ==> Reads(count, reply, returned - old(returned), ret < 0)
      ensures ret > 0 ==>
        buf[..ret] == Answered(old(queue)[..ret], reply.frames, receives) && queue == old(queue)[ret..]
      ensures ret > 0 && receives ==> delivered == old(delivered) + reply.frames[..ret]
      ensures ret <= 0 ==> queue == old(queue) && delivered == old(delivered)
      ensures returned == old(returned) + if ret > 0 then ret else 0
      // The pages handed back hold the frames; a transmitting stream changes no page.
      ensures memory.Keys >= old(memory).Keys
      ensures ret > 0 && receives ==> forall i :: 0 <= i < ret ==>
        old(queue)[i].base in memory && memory[old(queue)[i].base] == reply.frames[i].packet
      ensures !receives ==> memory == old(memory)
    {
      if count == 0 { return 0; }
      if count < 0 { return -1; }
      match reply
      case ReadFailed => return -1;
      case ReadAgain => return 0;
      case Returned(frames) =>
        ret := Min(|frames|, Min(count, |queue|));
        HandBack(buf, ret, frames);
        if receives { delivered := delivered + frames[..ret]; }
        returned := returned + ret;
        queue := queue[ret..];
    }
  }
}
