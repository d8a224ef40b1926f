// What a batch of frames holds: the payload cut at the frame lengths, and how a scattered read fills it.
module TalkerFrames {
  import opened Cyclic
  import opened SequenceCheck
  import opened EavbDriver
  import opened EavbDevice
  import opened Payloads

  const HLEN := 42     // Ethernet header with Q-tag, then the AVTP header

  // ---- Frames and bytes ----------------------------------------------------------------------

  // The headers of a batch whose first frame gets number `first`.
  function Headed(fs: seq<Packet>, first: nat, ps: nat): (r: seq<Packet>)
    ensures |r| == |fs|
    ensures forall k :: 0 <= k < |fs| ==>
      r[k] == fs[k].(sequenceNum := (first + k) % SEQUENCE_NUM_COUNT, dataLength := ps)
  {
    seq(|fs|, k requires 0 <= k < |fs| => fs[k].(sequenceNum := (first + k) % SEQUENCE_NUM_COUNT, dataLength := ps))
  }

  function FilledWith(f: Packet, data: seq<Byte>): Packet
    requires |data| <= |f.payload|
  {
    f.(payload := data + f.payload[|data|..])
  }

  ghost predicate Sized(fs: seq<Packet>, ps: nat) {
    forall k :: 0 <= k < |fs| ==> |fs[k].payload| == ps
  }

  function Take<T>(s: seq<T>, n: nat): seq<T> { if n <= |s| then s[..n] else s }
  function Drop<T>(s: seq<T>, n: nat): seq<T> { if n <= |s| then s[n..] else [] }

  // A scattered read fills the payload areas one after the other.
  function Scattered(fs: seq<Packet>, data: seq<Byte>, ps: nat): (r: seq<Packet>)
    requires Sized(fs, ps)
    ensures |r| == |fs| && Sized(r, ps)
    ensures forall k :: 0 <= k < |fs| ==> r[k].dataLength == fs[k].dataLength && r[k].sequenceNum == fs[k].sequenceNum
  {
    if fs == [] then [] else [FilledWith(fs[0], Take(data, ps))] + Scattered(fs[1..], Drop(data, ps), ps)
  }

  // The batch when k payload areas have been filled.
  function Partly(filled: seq<Packet>, fs: seq<Packet>, k: nat): (r: seq<Packet>)
    requires |filled| == |fs| && k <= |fs|
    ensures |r| == |fs|
  {
    filled[..k] + fs[k..]
  }

  // The areas from k on are still to get `rest`.
  ghost predicate StillTo(filled: seq<Packet>, fs: seq<Packet>, k: nat, rest: seq<Byte>, ps: nat)
    requires |filled| == |fs| && k <= |fs| && Sized(fs, ps)
  {
    filled[k..] == Scattered(fs[k..], rest, ps)
  }

  lemma PartlyEnds(filled: seq<Packet>, fs: seq<Packet>, data: seq<Byte>, ps: nat)
    requires Sized(fs, ps) && filled == Scattered(fs, data, ps)
    ensures Partly(filled, fs, 0) == fs && Partly(filled, fs, |fs|) == filled
    ensures StillTo(filled, fs, 0, data, ps)
  {
    assert fs[0..] == fs && filled[0..] == filled;
  }

  // One more payload area of a read.
  lemma ScatterNext(fs: seq<Packet>, k: nat, rest: seq<Byte>, ps: nat, filled: seq<Packet>)
    requires Sized(fs, ps) && k < |fs| == |filled| && StillTo(filled, fs, k, rest, ps)
    ensures StillTo(filled, fs, k + 1, Drop(rest, ps), ps)
    ensures Partly(filled, fs, k)[k] == fs[k]
    ensures Partly(filled, fs, k)[k := FilledWith(fs[k], Take(rest, ps))] == Partly(filled, fs, k + 1)
  {
    assert fs[k..][1..] == fs[k + 1..];
    assert filled[k + 1..] == filled[k..][1..];
    assert filled[k] == filled[k..][0] == FilledWith(fs[k], Take(rest, ps));
  }

  // How many frames a read of n bytes fills to the end, and what is left for one more.
  function Full(n: nat, ps: nat): nat
    requires ps > 0
  {
    if n < ps then 0 else 1 + Full(n - ps, ps)
  }

  function Rest(n: nat, ps: nat): nat
    requires ps > 0
  {
    if n < ps then n else Rest(n - ps, ps)
  }

  function FrameCount(n: nat, ps: nat): nat requires ps > 0 { Full(n, ps) + if Rest(n, ps) == 0 then 0 else 1 }

  function Trimmed(fs: seq<Packet>, n: nat, ps: nat): (r: seq<Packet>)
    requires ps > 0 && FrameCount(n, ps) <= |fs|
    ensures |r| == |fs|
  {
    if Rest(n, ps) == 0 then fs else fs[Full(n, ps) := fs[Full(n, ps)].(dataLength := Rest(n, ps))]
  }

  // The code divides.
  lemma {:induction false} FullIsDiv(n: nat, ps: nat)
    requires ps > 0
    ensures Full(n, ps) == n / ps && Rest(n, ps) == n % ps
  {
    if n < ps {
      DivModUnique(n, ps, 0, n);
    } else {
      FullIsDiv(n - ps, ps);
      assert n == ((n - ps) / ps + 1) * ps + (n - ps) % ps;
      DivModUnique(n, ps, (n - ps) / ps + 1, (n - ps) % ps);
    }
  }

  lemma DivModUnique(n: nat, ps: nat, q: nat, r: nat)
    requires n == q * ps + r && r < ps
    ensures n / ps == q && n % ps == r
  {
    var q' := n / ps;
    var d := q' - q;
    assert d * ps == r - n % ps by {
      assert n == q' * ps + n % ps;
      assert d * ps == q' * ps - q * ps;
    }
    if d >= 1 { AtLeastOne(d, ps); } else if d <= -1 { AtLeastOne(-d, ps); }
  }

  lemma AtLeastOne(d: int, ps: nat)
    requires d >= 1
    ensures d * ps >= ps && (-d) * ps + ps <= 0
  {
    assert d * ps == (d - 1) * ps + ps;
  }

  // The bytes that `count` payload areas hold.
  function Room(ps: nat, count: nat): nat { if count == 0 then 0 else ps + Room(ps, count - 1) }

  lemma {:induction false} RoomIsProduct(ps: nat, count: nat)
    ensures Room(ps, count) == ps * count
  {
    if count == 0 {
    } else {
      RoomIsProduct(ps, count - 1);
      assert ps * count == ps + ps * (count - 1);
    }
  }

  lemma {:induction false} FrameCountBound(n: nat, ps: nat, count: nat)
    requires ps > 0 && n <= Room(ps, count)
    ensures FrameCount(n, ps) <= count
    ensures n == Room(ps, count) ==> FrameCount(n, ps) == count && Rest(n, ps) == 0
    ensures n < Room(ps, count) ==> Full(n, ps) < count
  {
    if n < ps {
    } else {
      FrameCountBound(n - ps, ps, count - 1);
    }
  }

  // The frames a read of `data` fills.
  function Pushed(fs: seq<Packet>, data: seq<Byte>, ps: nat): seq<Packet>
    requires ps > 0 && Sized(fs, ps) && FrameCount(|data|, ps) <= |fs|
  {
    Trimmed(Scattered(fs, data, ps), |data|, ps)[..FrameCount(|data|, ps)]
  }

  // Cut at their lengths they are exactly the bytes read.
  lemma {:induction false} PushedCuts(fs: seq<Packet>, data: seq<Byte>, ps: nat)
    requires ps > 0 && Sized(fs, ps) && FrameCount(|data|, ps) <= |fs| && FullSized(fs, ps)
    ensures Cuts(Pushed(fs, data, ps)) == data
    decreases |data|
  {
    if |data| < ps {
      PushedLast(fs, data, ps);
    } else {
      PushedStep(fs, data, ps);
      PushedCuts(fs[1..], data[ps..], ps);
      CutFilled(fs[0], data, ps);
    }
  }

  ghost predicate FullSized(fs: seq<Packet>, ps: nat) {
    forall k :: 0 <= k < |fs| ==> fs[k].dataLength == ps
  }

  lemma PushedStep(fs: seq<Packet>, data: seq<Byte>, ps: nat)
    requires 0 < ps <= |data| && Sized(fs, ps) && FrameCount(|data|, ps) <= |fs|
    ensures FrameCount(|data[ps..]|, ps) <= |fs[1..]| && Sized(fs[1..], ps)
    ensures Cuts(Pushed(fs, data, ps)) == Cut(FilledWith(fs[0], data[..ps])) + Cuts(Pushed(fs[1..], data[ps..], ps))
  {
    var tail := data[ps..];
    assert |tail| == |data| - ps;
    var f, rest := FilledWith(fs[0], data[..ps]), Scattered(fs[1..], tail, ps);
    assert Scattered(fs, data, ps) == [f] + rest;
    CutsStep(f, rest, |data|, ps);
  }

  lemma CutFilled(f: Packet, data: seq<Byte>, ps: nat)
    requires ps <= |data| && f.dataLength == |f.payload| == ps
    ensures Cut(FilledWith(f, data[..ps])) + data[ps..] == data
  {
    assert Cut(FilledWith(f, data[..ps])) == data[..ps];
  }

  // The last read of a batch leaves at most one frame, which may be short.
  lemma PushedLast(fs: seq<Packet>, data: seq<Byte>, ps: nat)
    requires |data| < ps && Sized(fs, ps) && (data != [] ==> fs != [])
    ensures FrameCount(|data|, ps) <= |fs|
    ensures Cuts(Pushed(fs, data, ps)) == data
  {
    if data != [] {
      var f := FilledWith(fs[0], data).(dataLength := |data|);
      assert Pushed(fs, data, ps) == [f];
      assert Cut(f) == data;
      assert Cuts([f]) == Cut(f) + Cuts([]);
    }
  }

  lemma FirstCut(f: Packet, rest: seq<Packet>, k: nat)
    requires k <= |rest|
    ensures Cuts(([f] + rest)[..k + 1]) == Cut(f) + Cuts(rest[..k])
  {
    assert ([f] + rest)[..k + 1][1..] == rest[..k];
  }

  lemma CutsStep(f: Packet, rest: seq<Packet>, n: nat, ps: nat)
    requires 0 < ps <= n && FrameCount(n - ps, ps) <= |rest|
    ensures FrameCount(n, ps) == FrameCount(n - ps, ps) + 1
    ensures Cuts(Trimmed([f] + rest, n, ps)[..FrameCount(n, ps)]) ==
            Cut(f) + Cuts(Trimmed(rest, n - ps, ps)[..FrameCount(n - ps, ps)])
  {
    TrimmedTail(f, rest, n, ps);
    FirstCut(f, Trimmed(rest, n - ps, ps), FrameCount(n - ps, ps));
  }

  lemma TrimmedTail(f: Packet, rest: seq<Packet>, n: nat, ps: nat)
    requires 0 < ps <= n && FrameCount(n - ps, ps) <= |rest|
    ensures FrameCount(n, ps) == FrameCount(n - ps, ps) + 1
    ensures Trimmed([f] + rest, n, ps) == [f] + Trimmed(rest, n - ps, ps)
  {
    if Rest(n, ps) != 0 {
      var k := Full(n - ps, ps);
      assert ([f] + rest)[k + 1] == rest[k];
      var cut := rest[k].(dataLength := Rest(n, ps));
      assert ([f] + rest)[k + 1 := cut] == [f] + rest[k := cut];
    }
  }

  // ---- Slots and pages -----------------------------------------------------------------------

  // What the pages hold, slot by slot.
  function Pages(framebuf: seq<nat>, memory: map<nat, Packet>): (r: seq<Packet>)
    requires forall i :: 0 <= i < |framebuf| ==> framebuf[i] in memory
    ensures |r| == |framebuf| && forall i :: 0 <= i < |framebuf| ==> r[i] == memory[framebuf[i]]
  {
    seq(|framebuf|, i requires 0 <= i < |framebuf| => memory[framebuf[i]])
  }

  lemma PagesUpdate(framebuf: seq<nat>, memory: map<nat, Packet>, i: nat, f: Packet)
    requires Distinct(framebuf) && Mapped(framebuf, memory) && i < |framebuf|
    ensures Mapped(framebuf, memory[framebuf[i] := f])
    ensures Pages(framebuf, memory[framebuf[i] := f]) == Pages(framebuf, memory)[i := f]
  {
    forall k | 0 <= k < |framebuf| && k != i ensures framebuf[k] != framebuf[i] {
      assert Page(framebuf, k) != Page(framebuf, i);
    }
  }

  lemma SpliceNone<T>(s: seq<T>, from: nat, t: seq<T>)
    requires from < |s| && t == []
    ensures Splice(s, from, t) == s
  {}

  lemma SpliceNext<T>(s: seq<T>, from: nat, t: seq<T>, i: nat)
    requires from < |s| && i < |t| <= |s|
    ensures Splice(s, from, t[..i])[Wrap(from + i, |s|)] == s[Wrap(from + i, |s|)]
    ensures Splice(s, from, t[..i])[Wrap(from + i, |s|) := t[i]] == Splice(s, from, t[..i + 1])
  {
    assert Ahead(from, Wrap(from + i, |s|), |s|) == i;
  }

  lemma SpliceAt<T>(s: seq<T>, from: nat, t: seq<T>, k: nat, x: T)
    requires from < |s| && k < |t| <= |s|
    ensures Splice(s, from, t)[Wrap(from + k, |s|)] == t[k]
    ensures Splice(s, from, t)[Wrap(from + k, |s|) := x] == Splice(s, from, t[k := x])
  {
    assert Ahead(from, Wrap(from + k, |s|), |s|) == k;
  }

  // ---- A whole batch -------------------------------------------------------------------------

  function FullLens(es: seq<Entry>, ps: nat): (r: seq<Entry>)
    ensures |r| == |es| && forall k :: 0 <= k < |es| ==> r[k] == es[k].(len := HLEN + ps)
  {
    seq(|es|, k requires 0 <= k < |es| => es[k].(len := HLEN + ps))
  }

  function ShortLens(es: seq<Entry>, n: nat, ps: nat): (r: seq<Entry>)
    requires ps > 0 && FrameCount(n, ps) <= |es|
    ensures |r| == |es|
  {
    if Rest(n, ps) == 0 then es else es[Full(n, ps) := es[Full(n, ps)].(len := HLEN + Rest(n, ps))]
  }

  ghost predicate Fit(es: seq<Entry>, fs: seq<Packet>) {
    |es| == |fs| && forall k :: 0 <= k < |es| ==> es[k].len == HLEN + fs[k].dataLength
  }

  ghost predicate NumberedFrom(fs: seq<Packet>, first: nat) {
    forall k :: 0 <= k < |fs| ==> fs[k].sequenceNum == (first + k) % SEQUENCE_NUM_COUNT
  }

  // A batch of `count` frames and their entries, numbered from `first` on.
  ghost predicate Loaded(fs: seq<Packet>, es: seq<Entry>, count: nat, first: nat, ps: nat) {
    |fs| == count && Sized(fs, ps) && Fit(es, fs) && NumberedFrom(fs, first)
  }

  // A batch after its headers have been written.
  lemma HeadedFacts(fs: seq<Packet>, es: seq<Entry>, first: nat, ps: nat) returns (fs': seq<Packet>, es': seq<Entry>)
    requires Sized(fs, ps) && |es| == |fs|
    ensures fs' == Headed(fs, first, ps) && es' == FullLens(es, ps)
    ensures Loaded(fs', es', |fs|, first, ps) && FullSized(fs', ps) && Bases(es') == Bases(es)
  {
    fs', es' := Headed(fs, first, ps), FullLens(es, ps);
  }

  // What a read of `data` makes of a batch.
  lemma BatchFacts(fs: seq<Packet>, es: seq<Entry>, first: nat, data: seq<Byte>, ps: nat, fs': seq<Packet>,
      es': seq<Entry>)
    requires ps > 0 && Loaded(fs, es, |fs|, first, ps) && FullSized(fs, ps) && FrameCount(|data|, ps) <= |fs|
    requires fs' == Trimmed(Scattered(fs, data, ps), |data|, ps) && es' == ShortLens(es, |data|, ps)
    ensures Cuts(fs'[..FrameCount(|data|, ps)]) == data
    ensures Loaded(fs', es', |fs|, first, ps) && Bases(es') == Bases(es)
  {
    PushedCuts(fs, data, ps);
    TrimmedFits(es, Scattered(fs, data, ps), |data|, ps);
  }

  lemma TrimmedFits(es: seq<Entry>, fs: seq<Packet>, n: nat, ps: nat)
    requires ps > 0 && |es| == |fs| && FrameCount(n, ps) <= |fs| && Fit(es, fs)
    ensures Fit(ShortLens(es, n, ps), Trimmed(fs, n, ps)) && Bases(ShortLens(es, n, ps)) == Bases(es)
    ensures Sized(fs, ps) ==> Sized(Trimmed(fs, n, ps), ps)
    ensures forall k :: 0 <= k < |fs| ==> Trimmed(fs, n, ps)[k].sequenceNum == fs[k].sequenceNum
  {}

  lemma BasesOfSplice(ring: seq<Entry>, p0: nat, es: seq<Entry>)
    requires p0 < |ring| && |es| <= |ring| && Bases(es) == Bases(Slice(ring, p0, |es|))
    ensures Bases(Splice(ring, p0, es)) == Bases(ring)
  {
    forall i | 0 <= i < |ring| && Ahead(p0, i, |ring|) < |es| ensures es[Ahead(p0, i, |ring|)].base == ring[i].base {
      assert Bases(es)[Ahead(p0, i, |ring|)] == Slice(ring, p0, |es|)[Ahead(p0, i, |ring|)].base;
    }
  }

  lemma SizedSplice(pages: seq<Packet>, p0: nat, batch: seq<Packet>, ps: nat)
    requires p0 < |pages| && |batch| <= |pages| && Sized(pages, ps) && Sized(batch, ps)
    ensures Sized(Splice(pages, p0, batch), ps)
  {}

  lemma SlicePrefix<T>(s: seq<T>, from: nat, t: seq<T>, k: nat)
    requires from < |s| && k <= |t| <= |s|
    ensures Slice(Splice(s, from, t), from, k) == t[..k]
  {
    SliceOfSplice(s, from, t);
    assert Slice(Splice(s, from, t), from, k) == Slice(Splice(s, from, t), from, |t|)[..k];
  }

  function PacketNumbers(fs: seq<Packet>): (r: seq<SequenceNum>)
    ensures |r| == |fs| && forall i :: 0 <= i < |fs| ==> r[i] == fs[i].sequenceNum
  {
    seq(|fs|, i requires 0 <= i < |fs| => fs[i].sequenceNum)
  }

  // Frames numbered by the talker pass the listener's check.
  lemma NumberedFramesPass(fs: seq<Packet>, first: nat)
    requires NumberedFrom(fs, first)
    ensures forall i :: 0 <= i < |fs| ==> !Flagged(PacketNumbers(fs), i)
  {
    forall i | 0 < i < |fs| ensures !Flagged(PacketNumbers(fs), i) {
      Successor(first + (i - 1));
    }
  }
}
