// The bytes that frames carry.
module Payloads {
  import opened EavbDriver

  // The payload of a frame, cut at its stream_data_length.
  function Cut(f: Packet): seq<Byte> {
    if f.dataLength <= |f.payload| then f.payload[..f.dataLength] else f.payload
  }

  function Cuts(fs: seq<Packet>): seq<Byte> {
    if fs == [] then [] else Cut(fs[0]) + Cuts(fs[1..])
  }

  lemma {:induction false} CutsAppend(a: seq<Packet>, b: seq<Packet>)
    ensures Cuts(a + b) == Cuts(a) + Cuts(b)
  {
    if a == [] {
      assert a + b == b;
    } else {
      assert (a + b)[1..] == a[1..] + b;
      CutsAppend(a[1..], b);
    }
  }

  // The packets of the frames that came in.
  function Packets(frames: seq<Received>): (r: seq<Packet>)
    ensures |r| == |frames| && forall i :: 0 <= i < |frames| ==> r[i] == frames[i].packet
  {
    seq(|frames|, i requires 0 <= i < |frames| => frames[i].packet)
  }

  // What has come in, frame after frame.
  function BytesOf(frames: seq<Received>): seq<Byte> { Cuts(Packets(frames)) }

  lemma BytesAppend(a: seq<Received>, b: seq<Received>)
    ensures BytesOf(a + b) == BytesOf(a) + Cuts(Packets(b))
  {
    assert Packets(a + b) == Packets(a) + Packets(b);
    CutsAppend(Packets(a), Packets(b));
  }

  // The first frames carry the first bytes.
  lemma CutsPrefix(fs: seq<Packet>, k: nat)
    requires k <= |fs|
    ensures Cuts(fs[..k]) <= Cuts(fs)
  {
    assert fs == fs[..k] + fs[k..];
    CutsAppend(fs[..k], fs[k..]);
  }
}
