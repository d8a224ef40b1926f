// A listener stream that is connected, and a request for another talker stream. The listener refuses it at once
// only if entity and unique id of the talker both differ; otherwise it asks the talker first.
module AcmpHalfPairs {
  import opened AcmpTypes
  import opened AcmpSpec
  import opened AcmpNetwork
  import opened AcmpAgreement
  import opened AcmpRequests
  import opened AcmpReach
  import opened AcmpCrossing
  import opened AcmpDisconnects
  import opened AcmpDisconnectRuns

  function RecordFor(e: Entity, p: Pdu): ListenerInfo
    requires FindListener(e.listeners, p.listenerUniqueId) < |e.listeners|
  {
    e.listeners[FindListener(e.listeners, p.listenerUniqueId)]
  }

  // The stream of this request is connected to another talker stream.
  predicate IsTaken(e: Entity, p: Pdu) {
    FindListener(e.listeners, p.listenerUniqueId) < |e.listeners|
    && RecordFor(e, p).connected && !NamesPair(RecordFor(e, p), p)
  }

  predicate BothDiffer(r: ListenerInfo, p: Pdu) {
    r.talkerEntityId != p.talkerEntityId && r.talkerUniqueId != p.talkerUniqueId
  }

  // The standard has a request for a taken stream refused. It is, if and only if both halves of the pair differ;
  // otherwise the request is taken up like one for a free stream.
  lemma RefusedIfBothDiffer(e: Entity, p: Pdu, now: nat, link: bool, count: nat)
    requires e.Valid() && p.messageType.ConnectRxCommand? && IsOwnStream(e, p) && IsTaken(e, p)
    ensures var o := Receive(e, p, now, link, count);
      && (o == Outcome(e, [TxResponse(ConnectRxResponse, p, ListenerExclusive)]) <==> BothDiffer(RecordFor(e, p), p))
      && (!BothDiffer(RecordFor(e, p), p) ==> o == TxCommand(e, ConnectTxCommand, p, now, link))
  {
    var o := Receive(e, p, now, link, count);
    assert o == ListenerMachine(e, p, now, link) == ConnectRx(e, p, now, link);
    if !BothDiffer(RecordFor(e, p), p) {
      assert o.frames[0].messageType.ConnectTxCommand?;
    }
  }

  // The grant for such a request, when it comes, releases the slot but does not change the record: the controller
  // is told then that the stream is taken.
  lemma GrantForTaken(e: Entity, p: Pdu, now: nat, link: bool, count: nat)
    requires e.Valid() && IsGrant(p) && IsOwnStream(e, p) && FindMatch(e.inflight, p, true) < MAX_INFLIGHT
    requires FindListener(e.listeners, p.listenerUniqueId) < |e.listeners| && RecordFor(e, p).connected
    ensures var i := FindMatch(e.inflight, p, true);
      Receive(e, p, now, link, count) ==
        Outcome(e.(inflight := e.inflight[i := FREE_SLOT]),
                [TxResponse(ConnectRxResponse, p.(sequenceId := e.inflight[i].originalSequenceId), ListenerExclusive)])
  {
    assert Receive(e, p, now, link, count) == ListenerMachine(e, p, now, link) == ConnectTxAnswer(e, p);
  }

  // This does happen: whenever one talker stream can be connected to a listener stream and another one that shares
  // a half of the pair is requested for it, some run connects the first and then sends a command for the second.
  lemma HalfPairIsTakenUp(w: World, allowed: iset<Pdu>, l: nat, g: Pdu, h: Pdu) returns (x: Point)
    requires Initial(w) && l < |w.entities| && g in allowed && h in allowed
    requires Opens(w.entities[l], g) && Granted(w, l, g) && Opens(w.entities[l], h)
    requires g.listenerUniqueId == h.listenerUniqueId
    requires FindListener(w.entities[l].listeners, h.listenerUniqueId) < |w.entities[l].listeners|
    requires g.talkerEntityId == h.talkerEntityId <==> g.talkerUniqueId != h.talkerUniqueId
    ensures Reaches(w, allowed, x) && IsTaken(x.w.entities[l], h) && NamesPair(RecordFor(x.w.entities[l], h), g)
    ensures OnlyInFlight(x.w.entities[l], 0)
    ensures x.w.entities[l].inflight[0].command == TxResponse(ConnectTxCommand, h, Success)
    ensures TxResponse(ConnectTxCommand, h, Success) in x.w.sent
  {
    hide Attained;
    assert Connects(w, l, g, g, g);
    Starts(w, allowed);
    var x1, p := ConnectingOne(w, allowed, Point(w, 0), l, g);
    OwnStreamStays(w, allowed, x1, l, h);
    assert FindFree(x1.w.entities[l].inflight) == 0;
    x := TakingUp(w, allowed, x1, l, h);
  }

  // If a talker offers the second stream too, its grant comes to nothing.
  lemma HalfPairComesToNothing(w: World, allowed: iset<Pdu>, l: nat, g: Pdu, h: Pdu) returns (x: Point, p: Pdu)
    requires Initial(w) && l < |w.entities| && g in allowed && h in allowed
    requires Opens(w.entities[l], g) && Granted(w, l, g) && Opens(w.entities[l], h) && Granted(w, l, h)
    requires g.listenerUniqueId == h.listenerUniqueId
    requires FindListener(w.entities[l].listeners, h.listenerUniqueId) < |w.entities[l].listeners|
    requires g.talkerEntityId == h.talkerEntityId <==> g.talkerUniqueId != h.talkerUniqueId
    ensures Reaches(w, allowed, x) && p in x.w.sent && IsGrant(p) && SameRequest(p, h)
    ensures IsTaken(x.w.entities[l], p) && NamesPair(RecordFor(x.w.entities[l], p), g)
    ensures var o := Receive(x.w.entities[l], p, x.clock, true, 0);
      && o.entity.listeners == x.w.entities[l].listeners && AllFree(o.entity.inflight)
      && |o.frames| == 1 && o.frames[0].messageType.ConnectRxResponse? && o.frames[0].status.ListenerExclusive?
  {
    hide Attained;
    var t :| 0 <= t < |w.entities| && Grants(w.entities[t], h);
    var x1 := HalfPairIsTakenUp(w, allowed, l, g, h);
    var c := TxResponse(ConnectTxCommand, h, Success);
    assert Grants(x1.w.entities[t], c);
    p := TalkerGrants(x1.w.entities[t], c, x1.clock);
    var o := Receive(x1.w.entities[t], c, x1.clock, true, 0);
    assert p == o.frames[0];
    x := Delivering(w, allowed, x1, t, c, o);
    assert x.w.entities == x1.w.entities;
    var e := x.w.entities[l];
    OwnStreamStays(w, allowed, x, l, p);
    assert Matches(e.inflight[0], p, true) && FindMatch(e.inflight, p, true) == 0;
    GrantForTaken(e, p, x.clock, true, 0);
  }
}
