// The entry ring: slots go to the driver by partial pushes and come back by partial takes.
module EavbDevice {
  import opened Cyclic
  import opened EavbDriver

  function Bases(es: seq<Entry>): (r: seq<nat>)
    ensures |r| == |es| && forall i :: 0 <= i < |es| ==> r[i] == es[i].base
  {
    seq(|es|, i requires 0 <= i < |es| => es[i].base)
  }

  // The page of slot i; naming it keeps the distinctness of pages out of proofs that do not need it.
  function Page(framebuf: seq<nat>, i: nat): nat
    requires i < |framebuf|
  {
    framebuf[i]
  }

  ghost predicate Distinct(framebuf: seq<nat>) {
    forall i: nat, j: nat :: i < j < |framebuf| ==> Page(framebuf, i) != Page(framebuf, j)
  }

  ghost predicate Mapped(framebuf: seq<nat>, memory: map<nat, Packet>) {
    forall i :: 0 <= i < |framebuf| ==> framebuf[i] in memory
  }

  // The pages of the slots from rp on hold these frames.
  ghost predicate PagesHold(framebuf: seq<nat>, memory: map<nat, Packet>, rp: nat, frames: seq<Received>, ret: nat)
    requires rp < |framebuf| && ret <= |framebuf| && ret <= |frames| && Mapped(framebuf, memory)
  {
    forall k :: 0 <= k < ret ==> memory[framebuf[Wrap(rp + k, |framebuf|)]] == frames[k].packet
  }

  class Device {
    const driver: Driver
    const entrynum: nat
    const framebuf: seq<nat>          // physical address of each slot's page
    const entrybuf: array<Entry>
    const workbuf: array<Entry>
    var wp: nat
    var rp: nat
    var remain: nat
    var filled: nat
    var p: nat

    // The cursors alone: every slot is either the application's or the driver's.
    ghost predicate Cursors()
      reads this
    {
      && 0 < entrynum && wp < entrynum && rp < entrynum && p < entrynum
      && remain + filled == entrynum
      && rp == Wrap(wp + remain, entrynum)
    }

    // Slot identity: each slot still describes its own page, and the driver holds the pages
    // of the slots from rp on, in ring order.
    ghost predicate Valid()
      reads this, entrybuf, driver
    {
      && Cursors()
      && entrybuf.Length == workbuf.Length == |framebuf| == entrynum
      && entrybuf != workbuf
      && Distinct(framebuf)
      && Bases(entrybuf[..]) == framebuf
      && driver.Valid()
      && Bases(driver.queue) == Slice(framebuf, rp, filled)
      && Mapped(framebuf, driver.memory)
    }

    // All slots belong to the application and every slot describes its own page.
    constructor (driver: Driver, framebuf: seq<nat>, len: nat)
      requires driver.Valid() && driver.queue == [] && |framebuf| > 0
      requires Distinct(framebuf) && Mapped(framebuf, driver.memory)
      ensures Valid() && fresh(entrybuf) && fresh(workbuf) && this.driver == driver && this.framebuf == framebuf
      ensures entrynum == remain == |framebuf| && wp == rp == p == filled == 0
      ensures forall i :: 0 <= i < entrynum ==> entrybuf[i].len == len
    {
      this.driver, this.framebuf, entrynum := driver, framebuf, |framebuf|;
      entrybuf := new Entry[|framebuf|](i requires 0 <= i < |framebuf| => Entry(0, framebuf[i], len));
      workbuf := new Entry[|framebuf|](_ => Entry(0, 0, 0));
      wp, rp, p, remain, filled := 0, 0, 0, |framebuf|, 0;
    }

    // A slot's length survives a push; only its number may have been written.
    twostate predicate KeepsSlots()
      reads entrybuf
    {
      forall i :: 0 <= i < entrybuf.Length ==>
        entrybuf[i].base == old(entrybuf[i].base) && entrybuf[i].len == old(entrybuf[i].len)
    }

    method CopyEntries(src: array<Entry>, from: nat, dst: array<Entry>, to: nat, n: nat)
      requires src != dst && from + n <= src.Length && to + n <= dst.Length
      modifies dst
      ensures forall k :: 0 <= k < dst.Length ==>
        dst[k] == if to <= k < to + n then src[from + (k - to)] else old(dst[k])
    {
      forall k | 0 <= k < n { dst[to + k] := src[from + k]; }
    }

    // Both the straight and the wrapping path offer the same cyclic slice of the ring.
    method Offer(count: int, reply: WriteReply) returns (ret: int)
      requires Cursors() && driver.Valid() && count <= remain
      requires entrybuf.Length == workbuf.Length == entrynum && entrybuf != workbuf
      modifies entrybuf, workbuf, driver`queue, driver`lastSeqNo, driver`accepted
      ensures driver.Valid() && KeepsSlots()
      ensures ret == WriteResult(count, reply)
      ensures ret <= 0 ==> driver.queue == old(driver.queue)
      ensures ret > 0 ==>
        driver.queue == old(driver.queue) + Numbered(old(Slice(entrybuf[..], wp, ret)), old(driver.lastSeqNo))
      ensures |driver.accepted| == |old(driver.accepted)| + if ret > 0 then ret else 0
    {
      ghost var ring := entrybuf[..];
      if wp + count > entrynum {
        var tmp := entrynum - wp;
        CopyEntries(entrybuf, wp, workbuf, 0, tmp);
        CopyEntries(entrybuf, 0, workbuf, tmp, count - tmp);
        label Copied:
        ret := driver.Push(workbuf, 0, count, reply);
        if ret > 0 {
          assert old@Copied(workbuf[0..ret]) == Slice(ring, wp, ret);
        }
      } else {
        ret := driver.Push(entrybuf, wp, count, reply);
        if ret > 0 {
          assert ring[wp..wp + ret] == Slice(ring, wp, ret);
        }
      }
    }

    // Offers `count` slots from wp on and hands over the prefix the driver accepts.
    method PushEntry(count: int, reply: WriteReply) returns (ret: int)
      requires Valid() && count <= remain
      modifies this`wp, this`remain, this`filled, entrybuf, workbuf, driver`queue, driver`lastSeqNo, driver`accepted
      ensures Valid() && KeepsSlots()
      ensures ret == WriteResult(count, reply)
      ensures ret <= 0 ==> wp == old(wp) && remain == old(remain) && driver.queue == old(driver.queue)
      ensures ret > 0 ==>
        && wp == Wrap(old(wp) + ret, entrynum) && remain == old(remain) - ret
        && driver.queue == old(driver.queue) + Numbered(old(Slice(entrybuf[..], wp, ret)), old(driver.lastSeqNo))
      ensures |driver.accepted| == |old(driver.accepted)| + if ret > 0 then ret else 0
    {
      ghost var ring := entrybuf[..];
      ret := Offer(count, reply);
      assert Bases(entrybuf[..]) == Bases(ring);
      if ret > 0 {
        assert Bases(driver.queue) == Bases(old(driver.queue)) + Bases(Slice(ring, wp, ret));
        AdvanceWrite(ret, ring);
      }
    }

    // The cursor update after a push of `ret` slots.
    method AdvanceWrite(ret: nat, ghost ring: seq<Entry>)
      requires Cursors() && ret <= remain && |framebuf| == |ring| == entrynum && Bases(ring) == framebuf
      requires Bases(driver.queue) == Slice(framebuf, rp, filled) + Bases(Slice(ring, wp, ret))
      modifies this`wp, this`remain, this`filled
      ensures Cursors() && Bases(driver.queue) == Slice(framebuf, rp, filled)
      ensures wp == Wrap(old(wp) + ret, entrynum) && remain == old(remain) - ret
    {
      SlicesJoin(framebuf, rp, wp, remain, filled, ret);
      assert Bases(Slice(ring, wp, ret)) == Slice(framebuf, wp, ret);
      remain := remain - ret;
      filled := filled + ret;
      ModIsWrap(wp + ret, entrynum);
      wp := (wp + ret) % entrynum;
    }

    // The cursor update after a take of `ret` slots.
    method AdvanceRead(ret: nat, ghost q: seq<Entry>)
      requires Cursors() && ret <= filled && |framebuf| == entrynum
      requires Bases(q) == Slice(framebuf, rp, filled) && driver.queue == q[ret..]
      modifies this`rp, this`remain, this`filled
      ensures Cursors() && Bases(driver.queue) == Slice(framebuf, rp, filled)
      ensures rp == Wrap(old(rp) + ret, entrynum) && remain == old(remain) + ret
    {
      SliceRest(framebuf, rp, wp, remain, filled, ret);
      assert Bases(driver.queue) == Bases(q)[ret..];
      remain := remain + ret;
      filled := filled - ret;
      ModIsWrap(rp + ret, entrynum);
      rp := (rp + ret) % entrynum;
    }

    // Takes at most `count` entries back and stores them at rp, splitting them at the end of the ring.
    method Store(ret: nat)
      requires rp < entrynum && ret <= entrynum && entrybuf.Length == workbuf.Length == entrynum && entrybuf != workbuf
      modifies entrybuf
      ensures entrybuf[..] == Splice(old(entrybuf[..]), rp, workbuf[..ret])
    {
      if rp + ret > entrynum {
        var tmp := entrynum - rp;
        CopyEntries(workbuf, 0, entrybuf, rp, tmp);
        CopyEntries(workbuf, tmp, entrybuf, 0, ret - tmp);
      } else {
        CopyEntries(workbuf, 0, entrybuf, rp, ret);
      }
    }

    method TakeEntry(count: int, reply: ReadReply) returns (ret: int)
      requires Valid() && count <= filled
      modifies this`rp, this`remain, this`filled, entrybuf, workbuf
      modifies driver`queue, driver`memory, driver`delivered, driver`returned
      ensures Valid()
      ensures ret == ReadResult(count, reply)
      ensures ret <= 0 ==> rp == old(rp) && remain == old(remain) && driver.delivered == old(driver.delivered)
                           && entrybuf[..] == old(entrybuf[..]) && driver.queue == old(driver.queue)
      ensures ret > 0 ==>
        && rp == Wrap(old(rp) + ret, entrynum) && remain == old(remain) + ret
        && driver.queue == old(driver.queue)[ret..]
        && entrybuf[..] == Splice(old(entrybuf[..]), old(rp),
          Answered(old(driver.queue)[..ret], reply.frames, driver.receives))
        && (driver.receives ==>
              && driver.delivered == old(driver.delivered) + reply.frames[..ret]
              && PagesHold(framebuf, driver.memory, old(rp), reply.frames, ret))
      ensures driver.returned == old(driver.returned) + if ret > 0 then ret else 0
      ensures !driver.receives ==> driver.memory == old(driver.memory)
    {
      ghost var q, ring := driver.queue, entrybuf[..];
      assert |q| == |Bases(q)| == filled;
      QueuePagesDistinct(framebuf, rp, q);
      ret := driver.Take(workbuf, count, reply);
      if ret > 0 {
        PagesOfTaken(framebuf, rp, q);
        Store(ret);
        BasesAfterTake(framebuf, ring, rp, q, Answered(q[..ret], reply.frames, driver.receives));
        AdvanceRead(ret, q);
      }
    }
  }

  lemma QueuePagesDistinct(framebuf: seq<nat>, rp: nat, q: seq<Entry>)
    requires rp < |framebuf| && |q| <= |framebuf| && Distinct(framebuf) && Bases(q) == Slice(framebuf, rp, |q|)
    ensures forall i, j :: 0 <= i < j < |q| ==> q[i].base != q[j].base
  {
    forall i, j | 0 <= i < j < |q| ensures q[i].base != q[j].base {
      assert Bases(q)[i] == Page(framebuf, Wrap(rp + i, |framebuf|));
      assert Bases(q)[j] == Page(framebuf, Wrap(rp + j, |framebuf|));
    }
  }

  // Which pages the first entries of the queue are.
  lemma PagesOfTaken(framebuf: seq<nat>, rp: nat, q: seq<Entry>)
    requires rp < |framebuf| && |q| <= |framebuf| && Bases(q) == Slice(framebuf, rp, |q|)
    ensures forall k :: 0 <= k < |q| ==> q[k].base == framebuf[Wrap(rp + k, |framebuf|)]
  {
    forall k | 0 <= k < |q| ensures q[k].base == framebuf[Wrap(rp + k, |framebuf|)] {
      assert Bases(q)[k] == framebuf[Wrap(rp + k, |framebuf|)];
    }
  }

  // What the driver holds and the stretch it gains are one longer stretch of the ring.
  lemma SlicesJoin<T>(s: seq<T>, rp: nat, wp: nat, remain: nat, filled: nat, ret: nat)
    requires wp < |s| && rp < |s| && remain + filled == |s| && ret <= remain && rp == Wrap(wp + remain, |s|)
    ensures Slice(s, rp, filled) + Slice(s, wp, ret) == Slice(s, rp, filled + ret)
    ensures rp == Wrap(Wrap(wp + ret, |s|) + (remain - ret), |s|)
  {
    forall k | 0 <= k < ret ensures Slice(s, rp, filled + ret)[filled + k] == Slice(s, wp, ret)[k] {
      assert Wrap(rp + (filled + k), |s|) == Wrap(wp + k, |s|);
    }
  }

  // A slot gets back the very page it sent.
  lemma BasesAfterTake(framebuf: seq<nat>, ring: seq<Entry>, rp: nat, q: seq<Entry>, taken: seq<Entry>)
    requires |ring| == |framebuf| && Bases(ring) == framebuf && rp < |ring| && |taken| <= |q| <= |ring|
    requires Bases(q) == Slice(framebuf, rp, |q|) && Bases(taken) == Bases(q)[..|taken|]
    ensures Bases(Splice(ring, rp, taken)) == framebuf
  {
    var n := |ring|;
    forall i | 0 <= i < n ensures Bases(Splice(ring, rp, taken))[i] == framebuf[i] {
      var k := Ahead(rp, i, n);
      if k < |taken| {
        assert Bases(taken)[k] == Bases(q)[k] == framebuf[Wrap(rp + k, n)];
      } else {
        assert Bases(ring)[i] == framebuf[i];
      }
    }
  }

  // What is left after a take starts further on.
  lemma SliceRest<T>(s: seq<T>, rp: nat, wp: nat, remain: nat, filled: nat, ret: nat)
    requires wp < |s| && rp < |s| && remain + filled == |s| && ret <= filled && rp == Wrap(wp + remain, |s|)
    ensures Slice(s, rp, filled)[ret..] == Slice(s, Wrap(rp + ret, |s|), filled - ret)
    ensures Wrap(rp + ret, |s|) == Wrap(wp + (remain + ret), |s|)
  {
    var tail := Slice(s, Wrap(rp + ret, |s|), filled - ret);
    forall k | 0 <= k < |tail| ensures Slice(s, rp, filled)[ret + k] == tail[k] {
      assert Wrap(rp + (ret + k), |s|) == Wrap(Wrap(rp + ret, |s|) + k, |s|);
    }
  }
}
