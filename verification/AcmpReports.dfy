// What controllers are told over whole runs: a connection is reported when, and only when, it is made, and the
// streams reported are those of the talkers.
module AcmpReports {
  import opened AcmpTypes
  import opened AcmpSpec
  import opened AcmpNetwork
  import opened AcmpAgreement
  import opened AcmpAnswers

  predicate SaysConnected(f: Pdu) { f.messageType.ConnectRxResponse? && f.status.Success? }

  predicate ReportsConnection(f: Pdu) {
    f.messageType.GetRxStateResponse? && f.status.Success? && f.connectionCount == 1
  }

  // ---- One event -----------------------------------------------------------------------------

  lemma CommandSaysNothing(e: Entity, o: Outcome, t: MessageType, p: Pdu, period: nat, now: nat, link: bool, f: Pdu)
    requires TakenUpOrFull(e, o, t, p, period, now, link) && f in o.frames
    ensures f.messageType == t && o.entity.listeners == e.listeners
  {}

  // A listener that says it is connected has just connected the record, and says what the record holds.
  lemma ReceiveSaysConnected(e: Entity, p: Pdu, now: nat, link: bool, count: nat, f: Pdu)
    requires e.Valid() && f in Receive(e, p, now, link, count).frames && SaysConnected(f)
    ensures OnlyConnects(e.listeners, Receive(e, p, now, link, count).entity.listeners, f)
  {
    hide Receive;
    var o := Receive(e, p, now, link, count);
    if ForListener(e, p) && p.messageType.ConnectTxResponse? && ListenerStream(e, p.listenerUniqueId) {
      GrantOrRefusal(e, p, now, link, count);
    } else {
      NoOtherSaysConnected(e, p, now, link, count, f);
    }
  }

  lemma GrantOrRefusal(e: Entity, p: Pdu, now: nat, link: bool, count: nat)
    requires e.Valid() && ForListener(e, p) && p.messageType.ConnectTxResponse? && ListenerStream(e, p.listenerUniqueId)
    ensures var o := Receive(e, p, now, link, count);
      && |o.frames| == 1
      && (SaysConnected(o.frames[0]) ==> OnlyConnects(e.listeners, o.entity.listeners, o.frames[0]))
      && (!SaysConnected(o.frames[0]) ==> o.entity.listeners == e.listeners)
  {
    if !p.status.Success? {
      RefusalPassedOn(e, p, now, link, count);
    } else if NoSlotFor(e.inflight, p.sequenceId, true) {
      LateGrant(e, p, now, link, count);
    } else {
      FirstSlot(e.inflight, p, true);
      GrantAnswered(e, p, now, link, count, FindMatch(e.inflight, p, true));
    }
  }

  lemma NoOtherSaysConnected(e: Entity, p: Pdu, now: nat, link: bool, count: nat, f: Pdu)
    requires e.Valid() && f in Receive(e, p, now, link, count).frames
    requires !(ForListener(e, p) && p.messageType.ConnectTxResponse? && ListenerStream(e, p.listenerUniqueId))
    ensures !SaysConnected(f)
  {
    hide Receive;
    var o := Receive(e, p, now, link, count);
    if ToTalker(p.messageType) && ForTalker(e, p) {
      if p.messageType.DisconnectTxCommand? {
        TalkerDisconnects(e, p, now, link, count);
      } else {
        TalkerAnswers(e, p, now, link, count);
      }
    } else if !(ToListener(p.messageType) && ForListener(e, p)) {
      OthersIgnored(e, p, now, link, count);
    } else {
      match p.messageType
      case ConnectRxCommand => ConnectRequested(e, p, now, link, count);
      case DisconnectRxCommand => DisconnectRequested(e, p, now, link, count);
      case GetRxStateCommand => StateReported(e, p, now, link, count);
      case ConnectTxResponse => UnknownStreamDropped(e, p, now, link, count);
      case _ =>
        if ListenerStream(e, p.listenerUniqueId) {
          DisconnectAnswered(e, p, now, link, count);
        } else {
          UnknownStreamDropped(e, p, now, link, count);
        }
    }
  }

  // A record that is connected now was so before, unchanged, or the listener says so with the very frame it sends.
  lemma ReceiveConnects(e: Entity, p: Pdu, now: nat, link: bool, count: nat, j: nat)
    requires e.Valid() && j < |e.listeners| == |Receive(e, p, now, link, count).entity.listeners|
    requires Receive(e, p, now, link, count).entity.listeners[j].connected
    ensures var o := Receive(e, p, now, link, count);
      o.entity.listeners[j] == e.listeners[j]
      || (!e.listeners[j].connected && |o.frames| == 1 && SaysConnected(o.frames[0])
          && Holds(o.entity.listeners[j], o.frames[0]))
  {
    hide Receive;
    if !(ToListener(p.messageType) && ForListener(e, p)) && !(ToTalker(p.messageType) && ForTalker(e, p)) {
      OthersIgnored(e, p, now, link, count);
    } else if ForListener(e, p) && p.messageType.ConnectTxResponse? {
      if ListenerStream(e, p.listenerUniqueId) {
        GrantOrRefusal(e, p, now, link, count);
      } else {
        UnknownStreamDropped(e, p, now, link, count);
      }
    } else {
      ReceiveFillsFromGrants(e, p, now, link, count, j);
    }
  }

  // No answer to a timeout says so either.
  lemma TickSaysNothing(e: Entity, now: nat, link: seq<bool>, f: Pdu)
    requires e.Valid() && |link| == MAX_INFLIGHT && f in Tick(e, now, link).frames
    ensures !SaysConnected(f) && !f.messageType.GetRxStateResponse?
  {
    hide Tick;
    var fs := Ticked(e, now, link);
    var i :| 0 <= i < MAX_INFLIGHT && f in fs[i];
    assert Timed(e.cfg, e.inflight[i], Tick(e, now, link).entity.inflight[i], fs[i], now, link[i]);
  }

  // A report names the record as it is.
  lemma ReceiveReports(e: Entity, p: Pdu, now: nat, link: bool, count: nat, f: Pdu) returns (j: nat)
    requires e.Valid() && f in Receive(e, p, now, link, count).frames && ReportsConnection(f)
    ensures j < |e.listeners| && e.listeners[j].connected && Reports(f, e.listeners[j])
    ensures e.listeners[j].listenerUniqueId == f.listenerUniqueId
  {
    hide Receive;
    var o := Receive(e, p, now, link, count);
    if ForListener(e, p) && p.messageType.GetRxStateCommand? {
      StateReported(e, p, now, link, count);
      j :| IsRecordOf(e.listeners, p.listenerUniqueId, j) && Reports(o.frames[0], e.listeners[j]);
    } else {
      NoOtherReports(e, p, now, link, count, f);
      assert false;
    }
  }

  lemma NoOtherReports(e: Entity, p: Pdu, now: nat, link: bool, count: nat, f: Pdu)
    requires e.Valid() && f in Receive(e, p, now, link, count).frames
    requires !(ForListener(e, p) && p.messageType.GetRxStateCommand?)
    ensures !f.messageType.GetRxStateResponse?
  {}

  // ---- Whole runs ----------------------------------------------------------------------------

  // Event k of the run sends this frame.
  ghost predicate SendsAt(w: World, evs: seq<Event>, k: nat, f: Pdu)
    requires Valid(w) && k < |evs|
  {
    var before, ev := Run(w, evs[..k]), evs[k];
    Enabled(before, ev) && !ev.Inject? && f in OutcomeOf(before, ev).frames
  }

  lemma {:induction false} SentAt(w: World, evs: seq<Event>, f: Pdu) returns (k: nat)
    requires Initial(w) && f in Run(w, evs).sent && f !in Run(w, evs).injected
    ensures k < |evs| && SendsAt(w, evs, k, f)
  {
    var n := |evs| - 1;
    if f in Run(w, evs[..n]).sent {
      k := SentAt(w, evs[..n], f);
      assert evs[..n][..k] == evs[..k];
    } else {
      k := n;
    }
  }

  // In every run each SUCCESS that a listener gave to a connect request was sent by the event that connected the
  // record, and says what the record then held.
  lemma SuccessMeansConnected(w: World, evs: seq<Event>, f: Pdu) returns (k: nat)
    requires Initial(w) && f in Run(w, evs).sent && f !in Run(w, evs).injected && SaysConnected(f)
    ensures k < |evs| && SendsAt(w, evs, k, f) && evs[k].Deliver? && evs[k].dst < |w.entities|
    ensures OnlyConnects(Run(w, evs[..k]).entities[evs[k].dst].listeners,
      Run(w, evs[..k + 1]).entities[evs[k].dst].listeners, f)
  {
    k := SentAt(w, evs, f);
    var before, ev := Run(w, evs[..k]), evs[k];
    RunStep(w, evs, k);
    if ev.Deliver? {
      ReceiveSaysConnected(before.entities[ev.dst], ev.pdu, ev.now, ev.link, ev.count, f);
    } else {
      TickSaysNothing(before.entities[ev.dst], ev.now, ev.links, f);
    }
  }

  // And a record that is connected has been reported as it is.
  lemma {:induction false} ConnectedWasSaid(w: World, evs: seq<Event>, l: nat, j: nat) returns (f: Pdu)
    requires Initial(w) && l < |w.entities| && j < |Run(w, evs).entities[l].listeners|
    requires Run(w, evs).entities[l].listeners[j].connected
    ensures f in Run(w, evs).sent && SaysConnected(f) && Holds(Run(w, evs).entities[l].listeners[j], f)
  {
    if evs == [] {
      f := ZERO_PDU;
      assert false;
    } else {
      var before, ev := Run(w, evs[..|evs| - 1]), evs[|evs| - 1];
      StepKeepsConfig(before, ev);
      var r, r' := before.entities[l].listeners[j], Run(w, evs).entities[l].listeners[j];
      if Enabled(before, ev) && ev.Deliver? && ev.dst == l {
        ReceiveConnects(before.entities[l], ev.pdu, ev.now, ev.link, ev.count, j);
      }
      if r == r' {
        f := ConnectedWasSaid(w, evs[..|evs| - 1], l, j);
      } else {
        f := OutcomeOf(before, ev).frames[0];
      }
    }
  }

  // In every run a listener that reports a connection reports the stream of a talker of that name.
  lemma ReportsAreTrue(w: World, evs: seq<Event>, f: Pdu) returns (t: nat, uniqueId: nat)
    requires Initial(w) && f in Run(w, evs).sent && f !in Run(w, evs).injected && ReportsConnection(f)
    ensures t < |w.entities|
    ensures Offers(w.entities[t].cfg, f.talkerEntityId, uniqueId, f.streamId, f.streamDestMac, f.streamVlanId)
  {
    var k := SentAt(w, evs, f);
    var before, ev := Run(w, evs[..k]), evs[k];
    if ev.Timer? { TickSaysNothing(before.entities[ev.dst], ev.now, ev.links, f); }
    var j := ReceiveReports(before.entities[ev.dst], ev.pdu, ev.now, ev.link, ev.count, f);
    RunKeepsTruthful(w, evs[..k]);
    var r := before.entities[ev.dst].listeners[j];
    assert RecordTrue(before, r);
    t :| 0 <= t < |before.entities| && Offers(before.entities[t].cfg, r.talkerEntityId, r.talkerUniqueId,
      r.streamId, r.streamDestMac, r.streamVlanId);
    uniqueId := r.talkerUniqueId;
  }
}
