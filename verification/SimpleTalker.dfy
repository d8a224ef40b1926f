// The talker: batches of frames are filled from a byte stream, pushed, and taken back once sent.
module SimpleTalker {
  import opened Cyclic
  import opened SequenceCheck
  import opened EavbDriver
  import opened EavbDevice
  import opened Payloads
  import opened TalkerFrames

  // What reading the stream may give in one call.
  datatype FileReply = Bytes(n: nat) | ReadError

  // What a read wishing for `wish` bytes gives, with `count` payload areas to fill and `left` bytes to come.
  function ReadSize(wish: nat, ps: nat, count: nat, left: nat): nat {
    var room := Room(ps, count);
    if wish <= room && wish <= left then wish else if room <= left then room else left
  }

  // The read was not cut short by the stream itself.
  predicate FullRead(wish: nat, ps: nat, count: nat) { wish >= Room(ps, count) }

  // A batch of `count` frames numbered from `first` on, of which `frames` carry the bytes from `from` to `cursor`.
  ghost predicate BatchMade(reply: FileReply, count: nat, ps: nat, source: seq<Byte>, from: nat, cursor: nat,
                            first: nat, frames: nat, fs: seq<Packet>, es: seq<Entry>)
  {
    && ps > 0 && frames <= count && from <= cursor <= |source| && Loaded(fs, es, count, first, ps)
    && (reply.ReadError? ==> frames == count && cursor == from)
    && (reply.Bytes? ==>
          && cursor - from == ReadSize(reply.n, ps, count, |source| - from)
          && frames == FrameCount(cursor - from, ps)
          && (cursor == from ==> frames == 0)
          && Cuts(fs[..frames]) == source[from..cursor]
          && (FullRead(reply.n, ps, count) ==> frames == count || cursor == |source|))
  }

  class Talker {
    const dev: Device
    const payloadSize: nat
    const source: seq<Byte>       // what the input yields, in order
    var cursor: nat               // how much of it has been read
    var seqnum: nat
    var readEnd: bool

    constructor (dev: Device, payloadSize: nat, source: seq<Byte>)
      requires dev.Valid() && !dev.driver.receives && payloadSize > 0
      requires Sized(Pages(dev.framebuf, dev.driver.memory), payloadSize)
      ensures Valid() && this.dev == dev && this.payloadSize == payloadSize && this.source == source
      ensures cursor == seqnum == 0 && !readEnd
    {
      this.dev, this.payloadSize, this.source := dev, payloadSize, source;
      cursor, seqnum, readEnd := 0, 0, false;
    }

    ghost predicate Valid()
      reads this, dev, dev.entrybuf, dev.driver
    {
      && dev.Valid() && !dev.driver.receives && payloadSize > 0 && cursor <= |source|
      && Sized(Contents(), payloadSize)
    }

    ghost function Contents(): (r: seq<Packet>)
      requires Mapped(dev.framebuf, dev.driver.memory)
      reads dev, dev.driver
      ensures |r| == |dev.framebuf|
    {
      Pages(dev.framebuf, dev.driver.memory)
    }

    // The ring and its pages have one slot each.
    ghost predicate Slots()
      reads dev, dev.driver
    {
      && dev.Cursors() && |dev.framebuf| == dev.entrybuf.Length == dev.entrynum
      && Distinct(dev.framebuf) && Mapped(dev.framebuf, dev.driver.memory)
    }

    // The batch that starts at slot p0 currently consists of these frames and entries.
    ghost predicate Holds(pages: seq<Packet>, ring: seq<Entry>, p0: nat, fs: seq<Packet>, es: seq<Entry>)
      reads dev, dev.entrybuf, dev.driver
      requires Slots()
    {
      && p0 < dev.entrynum == |pages| == |ring| && |fs| <= dev.entrynum && |es| <= dev.entrynum
      && Contents() == Splice(pages, p0, fs)
      && dev.entrybuf[..] == Splice(ring, p0, es)
    }

    // Writes the page of slot i.
    method WritePage(i: nat, f: Packet)
      requires Distinct(dev.framebuf) && Mapped(dev.framebuf, dev.driver.memory) && i < |dev.framebuf|
      modifies dev.driver`memory
      ensures Mapped(dev.framebuf, dev.driver.memory) && Contents() == old(Contents())[i := f]
    {
      PagesUpdate(dev.framebuf, dev.driver.memory, i, f);
      dev.driver.memory := dev.driver.memory[dev.framebuf[i] := f];
    }

    // The header and the entry length of frame i of a batch that started at p0.
    method HeadOne(ghost pages: seq<Packet>, ghost ring: seq<Entry>, ghost p0: nat, ghost i: nat,
        ghost fs: seq<Packet>, ghost es: seq<Entry>)
      requires Slots() && i < |fs| == |es| <= dev.entrynum && Holds(pages, ring, p0, fs[..i],
          es[..i]) && dev.p == Wrap(p0 + i, dev.entrynum)
      requires fs[i] == pages[dev.p].(sequenceNum := seqnum % SEQUENCE_NUM_COUNT, dataLength := payloadSize)
      requires es[i] == ring[dev.p].(len := HLEN + payloadSize)
      modifies dev`p, dev.entrybuf, dev.driver`memory, this`seqnum
      ensures Slots() && seqnum == old(seqnum) + 1 && dev.p == Wrap(p0 + i + 1, dev.entrynum)
      ensures Holds(pages, ring, p0, fs[..i + 1], es[..i + 1])
    {
      var f := dev.driver.memory[dev.framebuf[dev.p]].(sequenceNum := seqnum % SEQUENCE_NUM_COUNT,
        dataLength := payloadSize);
      var e := dev.entrybuf[dev.p].(len := HLEN + payloadSize);
      SpliceNext(pages, p0, fs, i);
      SpliceNext(ring, p0, es, i);
      assert Contents()[dev.p] == pages[dev.p] && dev.entrybuf[..][dev.p] == ring[dev.p];
      WritePage(dev.p, f);
      seqnum := seqnum + 1;
      dev.entrybuf[dev.p] := e;
      ModIsWrap(dev.p + 1, dev.entrynum);
      dev.p := (dev.p + 1) % dev.entrynum;
    }

    // First pass over a batch: headers with running numbers and full payload lengths.
    method FillHeaders(count: nat) returns (ghost fs: seq<Packet>, ghost es: seq<Entry>)
      requires Slots() && count <= dev.entrynum && Sized(Contents(), payloadSize)
      modifies dev`p, dev.entrybuf, dev.driver`memory, this`seqnum
      ensures Slots() && dev.p == Wrap(old(dev.p) + count, dev.entrynum) && seqnum == old(seqnum) + count
      ensures Holds(old(Contents()), old(dev.entrybuf[..]), old(dev.p), fs, es)
      ensures Loaded(fs, es, count, old(seqnum), payloadSize) && FullSized(fs, payloadSize)
      ensures Bases(es) == Bases(Slice(old(dev.entrybuf[..]), old(dev.p), count))
    {
      ghost var p0, pages, ring, first := dev.p, Contents(), dev.entrybuf[..], seqnum;
      fs, es := HeadedFacts(Slice(pages, p0, count), Slice(ring, p0, count), first, payloadSize);
      var i := 0;
      SpliceNone(pages, p0, fs[..0]);
      SpliceNone(ring, p0, es[..0]);
      while i < count
        invariant 0 <= i <= count && Slots()
        invariant dev.p == Wrap(p0 + i, dev.entrynum) && seqnum == first + i
        invariant Holds(pages, ring, p0, fs[..i], es[..i])
      {
        HeadOne(pages, ring, p0, i, fs, es);
        i := i + 1;
      }
      assert fs[..i] == fs && es[..i] == es;
    }

    // Payload area k of a read.
    method FillOne(ghost pages: seq<Packet>, p0: nat, k: nat, ghost fs: seq<Packet>, ghost filled: seq<Packet>,
        rest: seq<Byte>)
      requires Slots() && |pages| == dev.entrynum && p0 < dev.entrynum && k < |fs| == |filled| <= dev.entrynum
      requires Sized(fs, payloadSize) && StillTo(filled, fs, k, rest, payloadSize)
      requires Contents() == Splice(pages, p0, Partly(filled, fs, k))
      modifies dev.driver`memory
      ensures Slots() && StillTo(filled, fs, k + 1, Drop(rest, payloadSize), payloadSize)
      ensures Contents() == Splice(pages, p0, Partly(filled, fs, k + 1))
    {
      ModIsWrap(p0 + k, dev.entrynum);
      var i := (p0 + k) % dev.entrynum;
      var page := dev.driver.memory[dev.framebuf[i]];
      assert Contents()[i] == page;
      ScatterNext(fs, k, rest, payloadSize, filled);
      SpliceAt(pages, p0, Partly(filled, fs, k), k, page);
      var g := FilledWith(page, Take(rest, payloadSize));
      SpliceAt(pages, p0, Partly(filled, fs, k), k, g);
      WritePage(i, g);
    }

    // readv: fills the payload areas of the batch, in order, with these bytes.
    method ReadV(ghost pages: seq<Packet>, p0: nat, count: nat, data: seq<Byte>, ghost fs: seq<Packet>)
      requires Slots() && |pages| == dev.entrynum && p0 < dev.entrynum && |fs| == count <= dev.entrynum
        && Sized(fs, payloadSize)
      requires Contents() == Splice(pages, p0, fs)
      modifies dev.driver`memory
      ensures Slots() && Contents() == Splice(pages, p0, Scattered(fs, data, payloadSize))
    {
      var rest := data;
      ghost var filled := Scattered(fs, data, payloadSize);
      var k := 0;
      PartlyEnds(filled, fs, rest, payloadSize);
      while k < count
        invariant 0 <= k <= count && Slots()
        invariant StillTo(filled, fs, k, rest, payloadSize)
        invariant Contents() == Splice(pages, p0, Partly(filled, fs, k))
      {
        FillOne(pages, p0, k, fs, filled, rest);
        rest := Drop(rest, payloadSize);
        k := k + 1;
      }
    }

    // Short read: step back to the first frame that is not full, and shorten it if it holds anything.
    method Rewind(ghost pages: seq<Packet>, ghost ring: seq<Entry>, ghost p0: nat, count: nat, n: nat,
                  ghost fs: seq<Packet>, ghost es: seq<Entry>) returns (frames: nat)
      requires Slots() && Holds(pages, ring, p0, fs, es) && |fs| == |es| == count
      requires payloadSize > 0 && n < Room(payloadSize, count) && dev.p == Wrap(p0 + count, dev.entrynum)
      modifies dev`p, dev.entrybuf, dev.driver`memory
      ensures Slots() && frames == FrameCount(n, payloadSize) <= count && dev.p == Wrap(p0 + frames, dev.entrynum)
      ensures Holds(pages, ring, p0, Trimmed(fs, n, payloadSize), ShortLens(es, n, payloadSize))
    {
      FullIsDiv(n, payloadSize);
      FrameCountBound(n, payloadSize, count);
      var i := n / payloadSize;
      var size := n % payloadSize;
      StepBack(p0, count, i);
      if size != 0 {
        Shorten(pages, ring, p0, i, size, fs, es);
        frames := i + 1;
      } else {
        frames := i;
      }
    }

    method StepBack(ghost p0: nat, count: nat, i: nat)
      requires dev.Cursors() && i <= count <= dev.entrynum && p0 < dev.entrynum
        && dev.p == Wrap(p0 + count, dev.entrynum)
      requires i < count
      modifies dev`p
      ensures dev.Cursors() && dev.p == Wrap(p0 + i, dev.entrynum)
    {
      ModIsWrap(dev.p + i + dev.entrynum - count, dev.entrynum);
      dev.p := (dev.p + i + dev.entrynum - count) % dev.entrynum;
    }

    method Shorten(ghost pages: seq<Packet>, ghost ring: seq<Entry>, ghost p0: nat, ghost i: nat, size: nat,
                   ghost fs: seq<Packet>, ghost es: seq<Entry>)
      requires Slots() && Holds(pages, ring, p0, fs, es) && i < |fs| == |es| && dev.p == Wrap(p0 + i, dev.entrynum)
      modifies dev`p, dev.entrybuf, dev.driver`memory
      ensures Slots() && dev.p == Wrap(p0 + i + 1, dev.entrynum)
      ensures Holds(pages, ring, p0, fs[i := fs[i].(dataLength := size)], es[i := es[i].(len := HLEN + size)])
    {
      var f := dev.driver.memory[dev.framebuf[dev.p]].(dataLength := size);
      var e := dev.entrybuf[dev.p].(len := HLEN + size);
      SpliceAt(pages, p0, fs, i, f);
      SpliceAt(ring, p0, es, i, e);
      assert Contents()[dev.p] == fs[i] && dev.entrybuf[..][dev.p] == es[i];
      WritePage(dev.p, f);
      dev.entrybuf[dev.p] := e;
      ModIsWrap(dev.p + 1, dev.entrynum);
      dev.p := (dev.p + 1) % dev.entrynum;
    }

    // What follows a read of n bytes: the end of the input, a full batch, or a short one.
    method Settle(ghost pages: seq<Packet>, ghost ring: seq<Entry>, ghost p0: nat, count: nat, n: nat,
                  ghost filled: seq<Packet>, ghost es: seq<Entry>) returns (frames: nat)
      requires Slots() && Holds(pages, ring, p0, filled, es) && |filled| == |es| == count
      requires payloadSize > 0 && n <= Room(payloadSize, count) && dev.p == Wrap(p0 + count, dev.entrynum)
      modifies dev`p, dev.entrybuf, dev.driver`memory, this`readEnd
      ensures Slots() && readEnd == (old(readEnd) || n == 0)
      ensures frames == FrameCount(n, payloadSize) <= count
      ensures Holds(pages, ring, p0, Trimmed(filled, n, payloadSize), ShortLens(es, n, payloadSize))
      ensures n > 0 ==> dev.p == Wrap(p0 + frames, dev.entrynum)
    {
      FrameCountBound(n, payloadSize, count);
      RoomIsProduct(payloadSize, count);
      frames := count;
      if n == 0 {
        frames := 0;
        readEnd := true;
      } else if n < payloadSize * count {
        frames := Rewind(pages, ring, p0, count, n, filled, es);
      }
    }

    method Transfer(ghost pages: seq<Packet>, ghost ring: seq<Entry>, p0: nat, count: nat, data: seq<Byte>,
                    ghost fs: seq<Packet>, ghost es: seq<Entry>)
      returns (frames: nat, ghost fs': seq<Packet>, ghost es': seq<Entry>)
      requires Slots() && Holds(pages, ring, p0, fs, es) && |fs| == |es| == count && Sized(fs, payloadSize)
      requires payloadSize > 0 && |data| <= Room(payloadSize, count) && dev.p == Wrap(p0 + count, dev.entrynum)
      modifies dev`p, dev.entrybuf, dev.driver`memory, this`readEnd
      ensures Slots() && readEnd == (old(readEnd) || data == [])
      ensures frames == FrameCount(|data|, payloadSize) <= count
      ensures Holds(pages, ring, p0, fs', es')
      ensures fs' == Trimmed(Scattered(fs, data, payloadSize), |data|, payloadSize)
        && es' == ShortLens(es, |data|, payloadSize)
      ensures data != [] ==> dev.p == Wrap(p0 + frames, dev.entrynum)
    {
      ReadV(pages, p0, count, data, fs);
      ghost var filled := Scattered(fs, data, payloadSize);
      frames := Settle(pages, ring, p0, count, |data|, filled, es);
      fs', es' := Trimmed(filled, |data|, payloadSize), ShortLens(es, |data|, payloadSize);
    }

    // The second half of a batch: the read and its consequences for the frames and entries.
    method Fill(ghost pages: seq<Packet>, ghost ring: seq<Entry>, p0: nat, count: nat, n: nat, ghost first: nat,
                ghost fs: seq<Packet>, ghost es: seq<Entry>)
      returns (frames: nat, ghost fs': seq<Packet>, ghost es': seq<Entry>)
      requires Slots() && Holds(pages, ring, p0, fs, es)
      requires Loaded(fs, es, count, first, payloadSize) && FullSized(fs, payloadSize)
      requires payloadSize > 0 && n <= Room(payloadSize, count) && cursor + n <= |source|
        && dev.p == Wrap(p0 + count, dev.entrynum)
      modifies dev`p, dev.entrybuf, dev.driver`memory, this`cursor, this`readEnd
      ensures Slots() && cursor == old(cursor) + n && readEnd == (old(readEnd) || n == 0)
      ensures frames == FrameCount(n, payloadSize) <= count
      ensures Holds(pages, ring, p0, fs', es')
      ensures Loaded(fs', es', count, first, payloadSize) && Cuts(fs'[..frames]) == source[old(cursor)..cursor]
      ensures Bases(es') == Bases(es)
      ensures n > 0 ==> dev.p == Wrap(p0 + frames, dev.entrynum)
    {
      var data := source[cursor..cursor + n];
      frames, fs', es' := Transfer(pages, ring, p0, count, data, fs, es);
      cursor := cursor + n;
      assert source[old(cursor)..cursor] == data;
      assert Loaded(fs', es', count, first, payloadSize) && Cuts(fs'[..frames]) == data && Bases(es') == Bases(es) by {
        BatchFacts(fs, es, first, data, payloadSize, fs', es');
      }
    }

    method FillFrom(ghost pages: seq<Packet>, ghost ring: seq<Entry>, p0: nat, count: nat, wish: nat, ghost first: nat,
                    ghost fs: seq<Packet>, ghost es: seq<Entry>)
      returns (frames: nat, ghost fs': seq<Packet>, ghost es': seq<Entry>)
      requires Slots() && Holds(pages, ring, p0, fs, es)
      requires Loaded(fs, es, count, first, payloadSize) && FullSized(fs, payloadSize)
      requires payloadSize > 0 && cursor <= |source| && dev.p == Wrap(p0 + count, dev.entrynum)
      modifies dev`p, dev.entrybuf, dev.driver`memory, this`cursor, this`readEnd
      ensures Slots() && Holds(pages, ring, p0, fs', es') && Bases(es') == Bases(es)
      ensures BatchMade(Bytes(wish), count, payloadSize, source, old(cursor), cursor, first, frames, fs', es')
      ensures readEnd == (old(readEnd) || cursor == old(cursor))
      ensures cursor > old(cursor) ==> dev.p == Wrap(p0 + frames, dev.entrynum)
    {
      var n := ReadSize(wish, payloadSize, count, |source| - cursor);
      FrameCountBound(n, payloadSize, count);
      frames, fs', es' := Fill(pages, ring, p0, count, n, first, fs, es);
    }

    // The ring and the pages are in order again once a batch has been written.
    lemma BatchKeepsValid(pages: seq<Packet>, ring: seq<Entry>, p0: nat, fs: seq<Packet>, es: seq<Entry>)
      requires Slots() && Holds(pages, ring, p0, fs, es) && |fs| == |es|
      requires Sized(pages, payloadSize) && Sized(fs, payloadSize)
      requires Bases(ring) == dev.framebuf && Bases(es) == Bases(Slice(ring, p0, |es|))
      ensures Bases(dev.entrybuf[..]) == dev.framebuf && Sized(Contents(), payloadSize)
    {
      BasesOfSplice(ring, p0, es);
      SizedSplice(pages, p0, fs, payloadSize);
    }

    // Both passes over a batch of `count` frames from p on.
    method MakeBatch(count: nat, reply: FileReply) returns (frames: nat, ghost fs: seq<Packet>, ghost es: seq<Entry>)
      requires Slots() && count <= dev.entrynum && Sized(Contents(), payloadSize) && payloadSize > 0
        && cursor <= |source|
      modifies dev`p, dev.entrybuf, dev.driver`memory, this`cursor, this`seqnum, this`readEnd
      ensures Slots() && Holds(old(Contents()), old(dev.entrybuf[..]), old(dev.p), fs, es)
      ensures Bases(es) == Bases(Slice(old(dev.entrybuf[..]), old(dev.p), count))
      ensures BatchMade(reply, count, payloadSize, source, old(cursor), cursor, old(seqnum), frames, fs, es)
      ensures seqnum == old(seqnum) + count && readEnd == (old(readEnd) || cursor == old(cursor))
      ensures cursor > old(cursor) ==> dev.p == Wrap(old(dev.p) + frames, dev.entrynum)
    {
      var p0 := dev.p;
      ghost var pages, ring, first := Contents(), dev.entrybuf[..], seqnum;
      fs, es := FillHeaders(count);
      frames := count;
      if reply.ReadError? {
        readEnd := true;
      } else {
        frames, fs, es := FillFrom(pages, ring, p0, count, reply.n, first, fs, es);
      }
    }

    // Fills a batch of `count` frames from p on; the first `frames` of them are to be pushed.
    method TalkerProcess(count: nat, reply: FileReply)
      returns (frames: nat, ghost fs: seq<Packet>, ghost es: seq<Entry>)
      requires Valid() && count <= dev.entrynum
      modifies dev`p, dev.entrybuf, dev.driver`memory, this`cursor, this`seqnum, this`readEnd
      ensures Valid() && frames <= count
      // Only the frames and the entries of the batch are written.
      ensures Holds(old(Contents()), old(dev.entrybuf[..]), old(dev.p), fs, es)
      // Each entry is as long as its frame; the numbers run on from the last batch.
      ensures Loaded(fs, es, count, old(seqnum), payloadSize) && seqnum == old(seqnum) + count
      // The frames to be pushed carry exactly the bytes read.
      ensures cursor >= old(cursor)
      ensures !reply.ReadError? ==> Cuts(fs[..frames]) == source[old(cursor)..cursor]
      ensures reply.ReadError? ==> frames == count && cursor == old(cursor)
      ensures reply.Bytes? ==>
        && cursor - old(cursor) == ReadSize(reply.n, payloadSize, count, |source| - old(cursor))
        && frames == FrameCount(cursor - old(cursor), payloadSize)
      // The next batch starts behind them, unless the input has ended.
      ensures readEnd == (old(readEnd) || cursor == old(cursor))
      ensures cursor > old(cursor) ==> dev.p == Wrap(old(dev.p) + frames, dev.entrynum)
      ensures !reply.ReadError? && cursor == old(cursor) ==> frames == 0
      // A read that was not cut short fills the batch, except at the end of the input.
      ensures reply.Bytes? && FullRead(reply.n, payloadSize, count) ==> frames == count || cursor == |source|
    {
      hide Holds, Fit, NumberedFrom, Cuts, FrameCount, ReadSize, FullRead;
      ghost var pages, ring, p0 := Contents(), dev.entrybuf[..], dev.p;
      frames, fs, es := MakeBatch(count, reply);
      assert Bases(dev.entrybuf[..]) == dev.framebuf && Sized(Contents(), payloadSize) by {
        BatchKeepsValid(pages, ring, p0, fs, es);
      }
    }
  }
}
