// Where connections come from: the requests of the controllers, carried through commands, slots and answers.
module AcmpRequests {
  import opened AcmpTypes
  import opened AcmpSpec
  import opened AcmpNetwork
  import opened AcmpExclusivity

  // The two frames ask for the same connection under the same sequence id.
  predicate SameRequest(f: Pdu, g: Pdu) {
    && f.sequenceId == g.sequenceId && f.controllerEntityId == g.controllerEntityId
    && f.talkerEntityId == g.talkerEntityId && f.talkerUniqueId == g.talkerUniqueId
    && f.listenerEntityId == g.listenerEntityId && f.listenerUniqueId == g.listenerUniqueId
  }

  // The frames that carry a connection, or a disconnection, on its way.
  datatype Kind = Connecting | Disconnecting | Neither

  function KindOf(t: MessageType): Kind {
    match t
    case ConnectRxCommand => Connecting
    case ConnectTxCommand => Connecting
    case ConnectTxResponse => Connecting
    case DisconnectRxCommand => Disconnecting
    case DisconnectTxCommand => Disconnecting
    case DisconnectTxResponse => Disconnecting
    case _ => Neither
  }

  // What a controller asks of a listener.
  predicate IsRxCommand(p: Pdu) { p.messageType.ConnectRxCommand? || p.messageType.DisconnectRxCommand? }

  predicate Stems(f: Pdu, g: Pdu) { SameRequest(f, g) && KindOf(f.messageType) == KindOf(g.messageType) }

  // A connection is asked for at the listener, or directly at the talker.
  predicate IsRequest(g: Pdu) { KindOf(g.messageType).Connecting? && !g.messageType.ConnectTxResponse? }

  ghost predicate Requested(w: World, f: Pdu) {
    exists g :: g in w.injected && Stems(f, g)
  }

  // A slot holds a command that a controller gave to this listener for one of its streams.
  ghost predicate SlotRequested(w: World, e: Entity, s: Inflight) {
    s.Active() ==>
      && (s.command.messageType.ConnectTxCommand? || s.command.messageType.DisconnectTxCommand?)
      && exists g :: g in w.injected && IsRxCommand(g) && IsOwnStream(e, g) && Stems(s.command, g)
  }

  ghost predicate SlotsRequested(w: World, e: Entity) {
    forall i :: 0 <= i < |e.inflight| ==> SlotRequested(w, e, e.inflight[i])
  }

  ghost predicate FrameRequested(w: World, f: Pdu) {
    && (IsRxCommand(f) ==> f in w.injected)
    && (!KindOf(f.messageType).Neither? ==> Requested(w, f))
  }

  ghost predicate AllRequested(w: World) {
    && (forall g :: g in w.injected ==> !g.messageType.ConnectTxResponse?)
    && (forall f :: f in w.sent ==> FrameRequested(w, f))
    && (forall e :: 0 <= e < |w.entities| ==> SlotsRequested(w, w.entities[e]))
  }

  // ---- What an entity passes on, it was told by the frame it received ----------------------------

  // The frame carries on the request of another one, or none at all.
  predicate PassesOn(f: Pdu, p: Pdu) {
    !IsRxCommand(f) && (!KindOf(f.messageType).Neither? ==> Stems(f, p))
  }

  lemma TalkerPassesOn(e: Entity, p: Pdu, count: nat, f: Pdu)
    requires f in TalkerMachine(e, p, count).frames
    ensures PassesOn(f, p)
  {}

  lemma CommandPassedOn(e: Entity, t: MessageType, p: Pdu, now: nat, link: bool, f: Pdu)
    requires (t.ConnectTxCommand? && p.messageType.ConnectRxCommand?)
          || (t.DisconnectTxCommand? && p.messageType.DisconnectRxCommand?)
    requires f in TxCommand(e, t, p, now, link).frames
    ensures PassesOn(f, p)
  {}

  lemma ListenerPassesOn(e: Entity, p: Pdu, now: nat, link: bool, f: Pdu)
    requires f in ListenerMachine(e, p, now, link).frames
    ensures PassesOn(f, p)
  {
    match p.messageType {
      case ConnectRxCommand =>
        if IsTxCommand(f) { CommandPassedOn(e, ConnectTxCommand, p, now, link, f); }
      case DisconnectRxCommand =>
        if IsTxCommand(f) { CommandPassedOn(e, DisconnectTxCommand, p, now, link, f); }
      case ConnectTxResponse => assert f.messageType.ConnectRxResponse?;
      case DisconnectTxResponse => assert f.messageType.DisconnectRxResponse?;
      case _ =>
    }
  }

  predicate IsTxCommand(f: Pdu) { f.messageType.ConnectTxCommand? || f.messageType.DisconnectTxCommand? }

  lemma ReceivePassesOn(e: Entity, p: Pdu, now: nat, link: bool, count: nat, f: Pdu)
    requires f in Receive(e, p, now, link, count).frames
    ensures PassesOn(f, p)
  {
    if IsTalkerCommand(p.messageType) && e.cfg.isTalker {
      TalkerPassesOn(e, p, count, f);
    } else {
      ListenerPassesOn(e, p, now, link, f);
    }
  }

  // A slot changes only by being released, or by taking a command to this listener.
  predicate Takes(s: Inflight, p: Pdu) {
    IsRxCommand(p) && Stems(s.command, p) && IsTxCommand(s.command)
  }

  lemma CommandTaken(e: Entity, t: MessageType, p: Pdu, now: nat, link: bool, i: nat)
    requires (t.ConnectTxCommand? && p.messageType.ConnectRxCommand?)
          || (t.DisconnectTxCommand? && p.messageType.DisconnectRxCommand?)
    requires i < |e.inflight|
    ensures var e' := TxCommand(e, t, p, now, link).entity;
      |e'.inflight| == |e.inflight| && (e'.inflight[i] == e.inflight[i] || Takes(e'.inflight[i], p))
  {}

  lemma ListenerSlot(e: Entity, p: Pdu, now: nat, link: bool, i: nat)
    requires i < |e.inflight|
    ensures var e' := ListenerMachine(e, p, now, link).entity;
      && |e'.inflight| == |e.inflight|
      && (e'.inflight[i] == e.inflight[i] || !e'.inflight[i].Active()
          || (Takes(e'.inflight[i], p) && ValidListener(e, p.listenerUniqueId)))
  {
    match p.messageType {
      case ConnectRxCommand => CommandTaken(e, ConnectTxCommand, p, now, link, i);
      case DisconnectRxCommand => CommandTaken(e, DisconnectTxCommand, p, now, link, i);
      case _ =>
    }
  }

  lemma ReceiveSlot(e: Entity, p: Pdu, now: nat, link: bool, count: nat, i: nat)
    requires e.Valid() && i < MAX_INFLIGHT
    ensures var e' := Receive(e, p, now, link, count).entity;
      && |e'.inflight| == MAX_INFLIGHT
      && (e'.inflight[i] == e.inflight[i] || !e'.inflight[i].Active()
          || (Takes(e'.inflight[i], p) && IsOwnStream(e, p)))
  {
    if Receive(e, p, now, link, count).entity != e { ListenerSlot(e, p, now, link, i); }
  }

  lemma {:induction false} TickPassesOn(slots: seq<Inflight>, now: nat, links: seq<bool>, n: nat, f: Pdu)
    requires n <= |slots| <= |links| && f in TickFrames(slots, now, links, n)
    ensures exists i ::
      0 <= i < n && slots[i].Active() && IsTxCommand(slots[i].command) && PassesOn(f, slots[i].command)
  {
    assert n > 0;
    if f in TickFrames(slots, now, links, n - 1) {
      TickPassesOn(slots, now, links, n - 1, f);
    } else {
      assert f in TimedFrames(slots[n - 1], now, links[n - 1]);
      assert PassesOn(f, slots[n - 1].command);
    }
  }

  // ---- Every frame and every slot goes back to a request -----------------------------------------

  lemma RequestedThrough(w: World, w': World, f: Pdu, p: Pdu)
    requires w.injected <= w'.injected && PassesOn(f, p) && (!KindOf(p.messageType).Neither? ==> Requested(w, p))
    ensures FrameRequested(w', f)
  {
    if !KindOf(f.messageType).Neither? {
      var g :| g in w.injected && Stems(p, g);
      assert g in w'.injected && Stems(f, g);
    }
  }

  lemma StillRequested(w: World, w': World, f: Pdu)
    requires w.injected <= w'.injected && FrameRequested(w, f)
    ensures FrameRequested(w', f)
  {
    if Requested(w, f) {
      var g :| g in w.injected && Stems(f, g);
      assert g in w'.injected && Stems(f, g);
    }
  }

  lemma SentRequested(w: World, ev: Event, f: Pdu)
    requires Valid(w) && AllRequested(w) && Enabled(w, ev) && !ev.Inject? && f in OutcomeOf(w, ev).frames
    ensures FrameRequested(w, f)
  {
    match ev
    case Deliver(dst, p, now, link, count) =>
      ReceivePassesOn(w.entities[dst], p, now, link, count, f);
      assert FrameRequested(w, p);
      RequestedThrough(w, w, f, p);
    case Timer(dst, now, links) =>
      var slots := w.entities[dst].inflight;
      TickPassesOn(slots, now, links, MAX_INFLIGHT, f);
      var i :| 0 <= i < MAX_INFLIGHT && slots[i].Active() && IsTxCommand(slots[i].command)
        && PassesOn(f, slots[i].command);
      assert SlotsRequested(w, w.entities[dst]) && SlotRequested(w, w.entities[dst], slots[i]);
      RequestedThrough(w, w, f, slots[i].command);
  }

  lemma StepKeepsSlotsRequested(w: World, ev: Event, e: nat)
    requires Valid(w) && AllRequested(w) && e < |w.entities|
    ensures SlotsRequested(Step(w, ev), Step(w, ev).entities[e])
  {
    StepKeepsConfig(w, ev);
    var w' := Step(w, ev);
    var before, after := w.entities[e], w'.entities[e];
    assert SlotsRequested(w, before);
    forall i | 0 <= i < |after.inflight| ensures SlotRequested(w', after, after.inflight[i]) {
      assert SlotRequested(w, before, before.inflight[i]);
      if Enabled(w, ev) && ev.Deliver? && ev.dst == e {
        ReceiveSlot(before, ev.pdu, ev.now, ev.link, ev.count, i);
        assert FrameRequested(w, ev.pdu);
      }
    }
  }

  lemma StepKeepsRequested(w: World, ev: Event)
    requires Valid(w) && AllRequested(w)
    ensures AllRequested(Step(w, ev))
  {
    var w' := Step(w, ev);
    forall f | f in w'.sent ensures FrameRequested(w', f) {
      if f in w.sent {
        StillRequested(w, w', f);
      } else if ev.Inject? {
        assert f in w'.injected && Stems(f, f);
      } else {
        SentRequested(w, ev, f);
        StillRequested(w, w', f);
      }
    }
    forall e | 0 <= e < |w'.entities| ensures SlotsRequested(w', w'.entities[e]) {
      StepKeepsSlotsRequested(w, ev, e);
    }
  }

  lemma {:induction false} RunKeepsRequested(w: World, evs: seq<Event>)
    requires Initial(w)
    ensures AllRequested(Run(w, evs))
  {
    if evs == [] {
      assert AllRequested(w);
    } else {
      RunKeepsRequested(w, evs[..|evs| - 1]);
      StepKeepsRequested(Run(w, evs[..|evs| - 1]), evs[|evs| - 1]);
    }
  }

  // No connection out of thin air: a controller asked for exactly this talker stream, at this listener stream,
  // under the controller id the record holds.
  lemma OnlyRequestedConnections(w: World, evs: seq<Event>, l: nat, j: nat)
    requires Initial(w) && AllSlotIds(w) && l < |w.entities| && j < |w.entities[l].listeners|
    requires |Run(w, evs).entities[l].listeners| == |w.entities[l].listeners|
    requires RecordAfter(w, evs, l, j).connected
    ensures var r := RecordAfter(w, evs, l, j);
      exists g :: g in Run(w, evs).injected && IsRequest(g)
        && g.talkerEntityId == r.talkerEntityId && g.talkerUniqueId == r.talkerUniqueId
        && g.controllerEntityId == r.controllerEntityId
        && g.listenerEntityId == w.entities[l].cfg.entityId && g.listenerUniqueId == j
  {
    ConnectionHistory(w, evs, l, j);
    var k :| 0 <= k < |evs| && FillsAt(w, evs, k, l, j) && UnchangedSince(w, evs, k + 1, l, j);
    RunKeepsRequested(w, evs[..k]);
    var p := evs[k].pdu;
    var g :| g in Run(w, evs[..k]).injected && Stems(p, g);
    InjectedGrows(w, evs, k);
    assert RecordAfter(w, evs[..k + 1], l, j) == RecordAfter(w, evs, l, j);
  }

  lemma {:induction false} InjectedGrows(w: World, evs: seq<Event>, k: nat)
    requires Valid(w) && k <= |evs|
    ensures Run(w, evs[..k]).injected <= Run(w, evs).injected
    decreases |evs|
  {
    if k == |evs| {
      assert evs[..k] == evs;
    } else {
      assert evs[..|evs| - 1][..k] == evs[..k];
      InjectedGrows(w, evs[..|evs| - 1], k);
    }
  }
}
