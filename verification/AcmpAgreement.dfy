// In every reachable state a connected listener holds the stream its talker really offers.
module AcmpAgreement {
  import opened AcmpTypes
  import opened AcmpSpec
  import opened AcmpNetwork

  // Entity c is the talker with this id, and this is the stream it offers under the unique id.
  predicate Offers(c: Config, talkerId: nat, uniqueId: nat, streamId: nat, mac: nat, vlan: nat) {
    var k := FindTalker(c.talkers, uniqueId);
    c.isTalker && c.entityId == talkerId && k < |c.talkers|
    && c.talkers[k].streamId == streamId && c.talkers[k].streamDestMac == mac && c.talkers[k].streamVlanId == vlan
  }

  ghost predicate SomeoneOffers(w: World, talkerId: nat, uniqueId: nat, streamId: nat, mac: nat, vlan: nat) {
    exists t :: 0 <= t < |w.entities| && Offers(w.entities[t].cfg, talkerId, uniqueId, streamId, mac, vlan)
  }

  predicate IsGrant(p: Pdu) { p.messageType.ConnectTxResponse? && p.status.Success? }

  ghost predicate FrameTrue(w: World, p: Pdu) {
    IsGrant(p) ==> SomeoneOffers(w, p.talkerEntityId, p.talkerUniqueId, p.streamId, p.streamDestMac, p.streamVlanId)
  }

  ghost predicate RecordTrue(w: World, r: ListenerInfo) {
    r.connected ==> SomeoneOffers(w, r.talkerEntityId, r.talkerUniqueId, r.streamId, r.streamDestMac, r.streamVlanId)
  }

  ghost predicate Truthful(w: World) {
    && (forall p :: p in w.sent ==> FrameTrue(w, p))
    && (forall e, j :: 0 <= e < |w.entities| && 0 <= j < |w.entities[e].listeners| ==>
      RecordTrue(w, w.entities[e].listeners[j]))
  }

  // The only grant an entity sends is one that offers its own stream.
  lemma TalkerSendsTrueGrants(e: Entity, p: Pdu, count: nat, f: Pdu)
    requires e.cfg.isTalker && p.talkerEntityId == e.cfg.entityId && f in TalkerMachine(e, p, count).frames
      && IsGrant(f)
    ensures Offers(e.cfg, f.talkerEntityId, f.talkerUniqueId, f.streamId, f.streamDestMac, f.streamVlanId)
  {
    assert f == TalkerAnswer(e, ConnectTxResponse, p, count);
  }

  lemma CommandIsNoGrant(e: Entity, t: MessageType, p: Pdu, now: nat, link: bool, f: Pdu)
    requires !t.ConnectTxResponse? && f in TxCommand(e, t, p, now, link).frames
    ensures !IsGrant(f)
  {}

  lemma ListenerSendsNoGrant(e: Entity, p: Pdu, now: nat, link: bool, f: Pdu)
    requires f in ListenerMachine(e, p, now, link).frames
    ensures !IsGrant(f)
  {
    if f in TxCommand(e, ConnectTxCommand, p, now, link).frames {
      CommandIsNoGrant(e, ConnectTxCommand, p, now, link, f);
    } else if f in TxCommand(e, DisconnectTxCommand, p, now, link).frames {
      CommandIsNoGrant(e, DisconnectTxCommand, p, now, link, f);
    }
  }

  lemma ReceiveSendsTrueGrants(e: Entity, p: Pdu, now: nat, link: bool, count: nat, f: Pdu)
    requires f in Receive(e, p, now, link, count).frames && IsGrant(f)
    ensures Offers(e.cfg, f.talkerEntityId, f.talkerUniqueId, f.streamId, f.streamDestMac, f.streamVlanId)
  {
    if IsTalkerCommand(p.messageType) && e.cfg.isTalker {
      TalkerSendsTrueGrants(e, p, count, f);
    } else {
      ListenerSendsNoGrant(e, p, now, link, f);
    }
  }

  lemma {:induction false} TickSendsNoGrant(slots: seq<Inflight>, now: nat, link: seq<bool>, n: nat, f: Pdu)
    requires n <= |slots| <= |link| && f in TickFrames(slots, now, link, n)
    ensures !IsGrant(f)
  {
    if f in TickFrames(slots, now, link, n - 1) {
      TickSendsNoGrant(slots, now, link, n - 1, f);
    } else {
      assert f in TimedFrames(slots[n - 1], now, link[n - 1]);
    }
  }

  // A record that changes was cleared or was filled from a grant.
  lemma ReceiveFillsFromGrants(e: Entity, p: Pdu, now: nat, link: bool, count: nat, j: nat)
    requires j < |e.listeners| && |Receive(e, p, now, link, count).entity.listeners| == |e.listeners|
    ensures var r := Receive(e, p, now, link, count).entity.listeners[j];
            r == e.listeners[j] || r == ZERO_LISTENER || (IsGrant(p) && r == Filled(e.listeners[j], p))
  {}

  lemma StepKeepsTruthful(w: World, ev: Event)
    requires Valid(w) && Truthful(w)
    ensures Truthful(Step(w, ev))
  {
    StepKeepsConfig(w, ev);
    var w' := Step(w, ev);
    if Enabled(w, ev) && !ev.Inject? {
      var o := OutcomeOf(w, ev);
      forall p | p in w'.sent ensures FrameTrue(w', p) {
        if p in o.frames && IsGrant(p) {
          if ev.Deliver? {
            ReceiveSendsTrueGrants(w.entities[ev.dst], ev.pdu, ev.now, ev.link, ev.count, p);
            assert Offers(w'.entities[ev.dst].cfg, p.talkerEntityId, p.talkerUniqueId, p.streamId, p.streamDestMac,
              p.streamVlanId);
          } else {
            TickSendsNoGrant(w.entities[ev.dst].inflight, ev.now, ev.links, MAX_INFLIGHT, p);
          }
        } else {
          assert IsGrant(p) ==> p in w.sent;
          KeepsOffers(w, w', p.talkerEntityId, p.talkerUniqueId, p.streamId, p.streamDestMac, p.streamVlanId);
        }
      }
      forall e, j | 0 <= e < |w'.entities| && 0 <= j < |w'.entities[e].listeners|
        ensures RecordTrue(w', w'.entities[e].listeners[j])
      {
        var r := w.entities[e].listeners[j];
        KeepsOffers(w, w', r.talkerEntityId, r.talkerUniqueId, r.streamId, r.streamDestMac, r.streamVlanId);
        if e == ev.dst && ev.Deliver? {
          var p := ev.pdu;
          ReceiveFillsFromGrants(w.entities[e], p, ev.now, ev.link, ev.count, j);
          assert FrameTrue(w, p);
          KeepsOffers(w, w', p.talkerEntityId, p.talkerUniqueId, p.streamId, p.streamDestMac, p.streamVlanId);
        }
      }
    }
  }

  lemma KeepsOffers(w: World, w': World, talkerId: nat, uniqueId: nat, streamId: nat, mac: nat, vlan: nat)
    requires |w'.entities| == |w.entities| && forall e :: 0 <= e < |w.entities| ==>
      w'.entities[e].cfg == w.entities[e].cfg
    ensures SomeoneOffers(w, talkerId, uniqueId, streamId, mac, vlan) ==>
      SomeoneOffers(w', talkerId, uniqueId, streamId, mac, vlan)
  {}

  lemma {:induction false} RunKeepsTruthful(w: World, evs: seq<Event>)
    requires Initial(w)
    ensures Truthful(Run(w, evs))
  {
    if evs == [] {
    } else {
      RunKeepsTruthful(w, evs[..|evs| - 1]);
      StepKeepsTruthful(Run(w, evs[..|evs| - 1]), evs[|evs| - 1]);
    }
  }

  // Agreement: whatever is lost, duplicated or reordered, and whatever controllers inject, a connected record
  // names exactly one entity, and holds the stream id, address and VLAN which that talker holds for it.
  lemma Agreement(w: World, evs: seq<Event>, l: nat, j: nat)
    requires Initial(w) && DistinctIds(w)
    requires l < |w.entities| && j < |Run(w, evs).entities[l].listeners|
      && Run(w, evs).entities[l].listeners[j].connected
    ensures var r := Run(w, evs).entities[l].listeners[j];
            exists t :: 0 <= t < |w.entities|
              && Offers(w.entities[t].cfg, r.talkerEntityId, r.talkerUniqueId, r.streamId, r.streamDestMac,
                r.streamVlanId)
              && forall u :: 0 <= u < |w.entities| && u != t ==> w.entities[u].cfg.entityId != r.talkerEntityId
  {
    RunKeepsTruthful(w, evs);
    var w' := Run(w, evs);
    var r := w'.entities[l].listeners[j];
    assert RecordTrue(w', r);
    var t :| 0 <= t < |w'.entities|
      && Offers(w'.entities[t].cfg, r.talkerEntityId, r.talkerUniqueId, r.streamId, r.streamDestMac, r.streamVlanId);
    assert Offers(w.entities[t].cfg, r.talkerEntityId, r.talkerUniqueId, r.streamId, r.streamDestMac, r.streamVlanId);
    forall u | 0 <= u < |w.entities| && u != t ensures w.entities[u].cfg.entityId != r.talkerEntityId {
      if u < t { assert DistinctIds(w); } else { assert DistinctIds(w); }
    }
  }
}
