// Talker and listener together.
module AvbStream {
  import opened SequenceCheck
  import opened EavbDriver
  import opened Payloads
  import opened TalkerFrames
  import opened SimpleListener
  import opened TalkerLoop

  // What of a page travels: its number and its payload up to stream_data_length. The bytes behind are not sent.
  predicate SameOnWire(a: Packet, b: Packet) { a.sequenceNum == b.sequenceNum && Cut(a) == Cut(b) }

  // The packets that have come in are the first ones sent.
  ghost predicate Arrived(got: seq<Packet>, sent: seq<Packet>) {
    |got| <= |sent| && forall k :: 0 <= k < |got| ==> SameOnWire(got[k], sent[k])
  }

  lemma {:induction false} ArrivedCuts(got: seq<Packet>, sent: seq<Packet>)
    requires Arrived(got, sent)
    ensures Cuts(got) == Cuts(sent[..|got|])
  {
    if got == [] {
    } else {
      assert SameOnWire(got[0], sent[0]);
      forall k | 0 <= k < |got[1..]| ensures SameOnWire(got[1..][k], sent[1..][k]) {
        assert SameOnWire(got[k + 1], sent[k + 1]);
      }
      ArrivedCuts(got[1..], sent[1..]);
      assert sent[..|got|][1..] == sent[1..][..|got| - 1];
    }
  }

  lemma ArrivedNumbers(frames: seq<Received>, sent: seq<Packet>)
    requires Arrived(Packets(frames), sent) && NumberedFrom(sent, 0)
    ensures forall i :: 0 <= i < |frames| ==> !Flagged(Numbers(frames), i)
  {
    forall i | 0 <= i < |frames| ensures Numbers(frames)[i] == i % SEQUENCE_NUM_COUNT {
      assert SameOnWire(Packets(frames)[i], sent[i]);
    }
    forall i | 0 < i < |frames| ensures !Flagged(Numbers(frames), i) { Successor(i - 1); }
  }

  // While the talker's environment plays along and the network delivers frames in order, the listener's output is
  // the beginning of what the talker has read: all of it, if no frame is still on its way and no limit cut the
  // last batch. If only the end of the input made a read short, the listener's check reports no error.
  lemma BytesArrive(t: Loop, l: Listener)
    requires t.SentBytes() && l.AtHead() && Arrived(Packets(l.dumped), t.h.sent)
    ensures l.output <= t.talker.source[..t.talker.cursor]
    ensures |l.dumped| == |t.h.sent| && !t.h.play.cut ==> l.output == t.talker.source[..t.talker.cursor]
    ensures t.h.play.steady ==> forall i :: 0 <= i < |l.dumped| ==> !Flagged(l.checker.seen, i)
  {
    var n := |l.dumped|;
    ArrivedCuts(Packets(l.dumped), t.h.sent);
    CutsPrefix(t.h.sent, n);
    assert n == |t.h.sent| ==> t.h.sent[..n] == t.h.sent;
    if t.h.play.steady { ArrivedNumbers(l.dumped, t.h.sent); }
  }
}
