// What an entity answers: the frames it sends on every message it receives and on every tick of its timer, said
// in terms of its records and slots.
module AcmpAnswers {
  import opened AcmpTypes
  import opened AcmpSpec

  // ---- Records and slots ---------------------------------------------------------------------

  // Record j is the first that carries this unique id.
  ghost predicate IsRecordOf(ls: seq<ListenerInfo>, id: nat, j: nat) {
    j < |ls| && ls[j].listenerUniqueId == id && forall k :: 0 <= k < j ==> ls[k].listenerUniqueId != id
  }

  ghost predicate NoRecord(ls: seq<ListenerInfo>, id: nat) {
    forall k :: 0 <= k < |ls| ==> ls[k].listenerUniqueId != id
  }

  ghost predicate Unconnected(ls: seq<ListenerInfo>, id: nat) {
    exists j: nat :: IsRecordOf(ls, id, j) && !ls[j].connected
  }

  ghost predicate ConnectedAlready(ls: seq<ListenerInfo>, id: nat) {
    exists j: nat :: IsRecordOf(ls, id, j) && ls[j].connected
  }

  // The record is connected to the stream which this frame describes.
  predicate Holds(r: ListenerInfo, f: Pdu) {
    && r.connected && r.talkerEntityId == f.talkerEntityId && r.talkerUniqueId == f.talkerUniqueId
    && r.streamId == f.streamId && r.streamDestMac == f.streamDestMac && r.streamVlanId == f.streamVlanId
    && r.controllerEntityId == f.controllerEntityId && r.flags == f.flags && r.listenerUniqueId == f.listenerUniqueId
  }

  // An answer under this sequence id is awaited: the answer to CONNECT_TX, or any.
  predicate Awaits(s: Inflight, sequenceId: nat, connect: bool) {
    s.timeout != 0 && s.command.sequenceId == sequenceId && (connect ==> s.command.messageType == ConnectTxCommand)
  }

  ghost predicate IsSlotFor(slots: seq<Inflight>, sequenceId: nat, connect: bool, i: nat) {
    && i < |slots| && Awaits(slots[i], sequenceId, connect)
    && forall k :: 0 <= k < i ==> !Awaits(slots[k], sequenceId, connect)
  }

  ghost predicate NoSlotFor(slots: seq<Inflight>, sequenceId: nat, connect: bool) {
    forall k :: 0 <= k < |slots| ==> !Awaits(slots[k], sequenceId, connect)
  }

  // The slot is free again, and the others are as before.
  ghost predicate OnlyReleases(before: seq<Inflight>, after: seq<Inflight>, i: nat) {
    && i < |before| == |after| && after[i].timeout == 0
    && forall k :: 0 <= k < |before| && k != i ==> after[k] == before[k]
  }

  // One frame that repeats the message under another type, and nothing has changed.
  ghost predicate Declined(e: Entity, o: Outcome, t: MessageType, p: Pdu, s: Status) {
    o.entity == e && o.frames == [p.(messageType := t, status := s)]
  }

  ghost predicate ForListener(e: Entity, p: Pdu) { e.cfg.isListener && p.listenerEntityId == e.cfg.entityId }

  // The stream is one of the listener's: it has a descriptor, and there are records.
  ghost predicate ListenerStream(e: Entity, id: nat) {
    e.listeners != [] && Descriptor(STREAM_INPUT, id) in e.cfg.descriptors
  }

  ghost predicate TalkerStream(e: Entity, id: nat) {
    e.cfg.talkers != [] && Descriptor(STREAM_OUTPUT, id) in e.cfg.descriptors
  }

  lemma FirstRecord(ls: seq<ListenerInfo>, id: nat)
    ensures FindListener(ls, id) < |ls| ==> IsRecordOf(ls, id, FindListener(ls, id))
    ensures FindListener(ls, id) == |ls| <==> NoRecord(ls, id)
    ensures forall j: nat :: IsRecordOf(ls, id, j) ==> j == FindListener(ls, id)
  {}

  lemma FirstSlot(slots: seq<Inflight>, p: Pdu, connect: bool)
    ensures var i := FindMatch(slots, p, connect);
      && (i < |slots| ==> IsSlotFor(slots, p.sequenceId, connect, i))
      && (i == |slots| <==> NoSlotFor(slots, p.sequenceId, connect))
      && (forall k: nat :: IsSlotFor(slots, p.sequenceId, connect, k) ==> k == i)
  {
    forall k | 0 <= k < |slots| ensures Awaits(slots[k], p.sequenceId, connect) <==> Matches(slots[k], p, connect) {}
    var i := FindMatch(slots, p, connect);
    forall k: nat | IsSlotFor(slots, p.sequenceId, connect, k) ensures k == i {
      assert Matches(slots[k], p, connect);
    }
  }

  lemma DescriptorIn(ds: seq<Descriptor>, t: nat, id: nat)
    ensures HasDescriptor(ds, t, id) <==> Descriptor(t, id) in ds
  {}

  lemma ListenerReceives(e: Entity, p: Pdu, now: nat, link: bool, count: nat)
    requires ForListener(e, p) && IsListenerMessage(p.messageType)
    ensures Receive(e, p, now, link, count) == ListenerMachine(e, p, now, link)
    ensures ValidListener(e, p.listenerUniqueId) <==> ListenerStream(e, p.listenerUniqueId)
  {
    DescriptorIn(e.cfg.descriptors, STREAM_INPUT, p.listenerUniqueId);
  }

  // ---- Answers of a talker to the listener ---------------------------------------------------

  // A grant with its command in flight. The one answer goes out under the sequence id of the request and carries the
  // stream of the grant. It says SUCCESS exactly when the connection is made: the record then holds what the answer
  // says. It says LISTENER_EXCLUSIVE exactly when the record is connected already, and LISTENER_MISBEHAVING exactly
  // when there is none; no record changes then.
  lemma GrantAnswered(e: Entity, p: Pdu, now: nat, link: bool, count: nat, i: nat)
    requires e.Valid() && ForListener(e, p) && ListenerStream(e, p.listenerUniqueId)
    requires p.messageType.ConnectTxResponse? && p.status.Success? && IsSlotFor(e.inflight, p.sequenceId, true, i)
    ensures var o, id := Receive(e, p, now, link, count), p.listenerUniqueId;
      && |o.frames| == 1
      && var r := o.frames[0];
      && r == p.(messageType := ConnectRxResponse, sequenceId := e.inflight[i].originalSequenceId, status := r.status)
      && OnlyReleases(e.inflight, o.entity.inflight, i)
      && (r.status.Success? <==> Unconnected(e.listeners, id))
      && (r.status.ListenerExclusive? <==> ConnectedAlready(e.listeners, id))
      && (r.status.ListenerMisbehaving? <==> NoRecord(e.listeners, id))
      && (!r.status.Success? ==> o.entity.listeners == e.listeners)
      && (r.status.Success? ==> OnlyConnects(e.listeners, o.entity.listeners, r))
  {
    ListenerReceives(e, p, now, link, count);
    FirstRecord(e.listeners, p.listenerUniqueId);
    FirstSlot(e.inflight, p, true);
    var o := ConnectTxAnswer(e, p);
    var j := FindListener(e.listeners, p.listenerUniqueId);
    if o.frames[0].status.Success? { assert ConnectsAt(e.listeners, o.entity.listeners, o.frames[0], j); }
  }

  ghost predicate ConnectsAt(before: seq<ListenerInfo>, after: seq<ListenerInfo>, f: Pdu, j: nat)
    requires j < |before| == |after|
  {
    && !before[j].connected && Holds(after[j], f)
    && forall k :: 0 <= k < |before| && k != j ==> after[k] == before[k]
  }

  // The first record with the unique id was unconnected and now holds what the frame says; the others are as before.
  ghost predicate OnlyConnects(before: seq<ListenerInfo>, after: seq<ListenerInfo>, f: Pdu) {
    && |after| == |before|
    && exists j: nat :: IsRecordOf(before, f.listenerUniqueId, j) && ConnectsAt(before, after, f, j)
  }

  // A talker's refusal is passed on with its status. The command stays in flight.
  lemma RefusalPassedOn(e: Entity, p: Pdu, now: nat, link: bool, count: nat)
    requires ForListener(e, p) && ListenerStream(e, p.listenerUniqueId)
    requires p.messageType.ConnectTxResponse? && !p.status.Success?
    ensures Declined(e, Receive(e, p, now, link, count), ConnectRxResponse, p, p.status)
  {
    ListenerReceives(e, p, now, link, count);
  }

  // A grant without a command in flight.
  lemma LateGrant(e: Entity, p: Pdu, now: nat, link: bool, count: nat)
    requires ForListener(e, p) && ListenerStream(e, p.listenerUniqueId)
    requires p.messageType.ConnectTxResponse? && p.status.Success? && NoSlotFor(e.inflight, p.sequenceId, true)
    ensures Declined(e, Receive(e, p, now, link, count), ConnectRxResponse, p, ListenerMisbehaving)
  {
    ListenerReceives(e, p, now, link, count);
    FirstSlot(e.inflight, p, true);
  }

  ghost predicate ClearsAt(before: seq<ListenerInfo>, after: seq<ListenerInfo>, p: Pdu, j: nat)
    requires j < |before| == |after|
  {
    && IsConnection(before[j], p) && (forall k :: 0 <= k < j ==> !IsConnection(before[k], p))
    && after[j] == ZERO_LISTENER && forall k :: 0 <= k < |before| && k != j ==> after[k] == before[k]
  }

  // The first record of the stream that is connected to the talker stream named is cleared.
  ghost predicate OnlyClears(before: seq<ListenerInfo>, after: seq<ListenerInfo>, p: Pdu) {
    |after| == |before| && exists j: nat :: j < |before| && ClearsAt(before, after, p, j)
  }

  predicate IsConnection(r: ListenerInfo, p: Pdu) {
    && r.connected && r.listenerUniqueId == p.listenerUniqueId
    && r.talkerEntityId == p.talkerEntityId && r.talkerUniqueId == p.talkerUniqueId
  }

  // The answer to DISCONNECT_TX clears the record, releases a slot and is passed on with its status, provided there
  // is a command in flight under its sequence id and a record of this connection; otherwise nothing happens at all.
  lemma DisconnectAnswered(e: Entity, p: Pdu, now: nat, link: bool, count: nat)
    requires e.Valid() && ForListener(e, p) && ListenerStream(e, p.listenerUniqueId)
    requires p.messageType.DisconnectTxResponse?
    ensures var o := Receive(e, p, now, link, count);
      if (exists j :: 0 <= j < |e.listeners| && IsConnection(e.listeners[j], p))
         && !NoSlotFor(e.inflight, p.sequenceId, false) then
        exists i: nat :: IsSlotFor(e.inflight, p.sequenceId, false, i)
          && o.frames == [p.(messageType := DisconnectRxResponse, sequenceId := e.inflight[i].originalSequenceId)]
          && OnlyReleases(e.inflight, o.entity.inflight, i) && OnlyClears(e.listeners, o.entity.listeners, p)
      else o == Outcome(e, [])
  {
    ListenerReceives(e, p, now, link, count);
    FirstSlot(e.inflight, p, false);
    var o, i, j := Receive(e, p, now, link, count), FindMatch(e.inflight, p, false), FindConnected(e.listeners, p);
    assert o == DisconnectTxAnswer(e, p);
    if j < |e.listeners| && i < |e.inflight| {
      assert IsConnection(e.listeners[j], p);
      assert forall k :: 0 <= k < j ==> !IsConnection(e.listeners[k], p);
      assert ClearsAt(e.listeners, o.entity.listeners, p, j);
      assert IsSlotFor(e.inflight, p.sequenceId, false, i);
    }
  }

  // Answers of talkers about streams the listener does not have are dropped.
  lemma UnknownStreamDropped(e: Entity, p: Pdu, now: nat, link: bool, count: nat)
    requires ForListener(e, p) && !ListenerStream(e, p.listenerUniqueId)
    requires p.messageType.ConnectTxResponse? || p.messageType.DisconnectTxResponse?
    ensures Receive(e, p, now, link, count) == Outcome(e, [])
  {
    ListenerReceives(e, p, now, link, count);
  }

  // ---- Commands of controllers to the listener -----------------------------------------------

  // Slot i is the first free one.
  ghost predicate IsFirstFree(slots: seq<Inflight>, i: nat) {
    i < |slots| && slots[i].timeout == 0 && forall k :: 0 <= k < i ==> slots[k].timeout != 0
  }

  // The slot holds the command sent, its time limit and the sequence id of the request, and nothing else changes.
  // When the link refuses the command it is kept all the same, and comes back marked.
  predicate TakenAt(e: Entity, o: Outcome, t: MessageType, p: Pdu, period: nat, now: nat, link: bool, i: nat)
    requires i < |e.inflight|
  {
    var slot := Inflight(now + period, false, p.(messageType := t, status := Success), p.sequenceId);
    && o.entity == Entity(e.cfg, e.listeners, e.inflight[i := slot])
    && o.frames == [p.(messageType := t, status := if link then Success else CouldNotSendMessage)]
  }

  // The request is taken up in the first free slot, or comes back as a command if there is none.
  ghost predicate TakenUpOrFull(e: Entity, o: Outcome, t: MessageType, p: Pdu, period: nat, now: nat, link: bool) {
    || (Declined(e, o, t, p, ListenerMisbehaving) && forall k :: 0 <= k < |e.inflight| ==> e.inflight[k].timeout != 0)
    || (exists i: nat :: IsFirstFree(e.inflight, i) && TakenAt(e, o, t, p, period, now, link, i))
  }

  lemma CommandTakenUp(e: Entity, t: MessageType, p: Pdu, now: nat, link: bool)
    requires e.Valid()
    ensures TakenUpOrFull(e, TxCommand(e, t, p, now, link), t, p, e.cfg.Period(t), now, link)
  {
    var i, o := FindFree(e.inflight), TxCommand(e, t, p, now, link);
    if i < |e.inflight| {
      assert IsFirstFree(e.inflight, i);
      assert TakenAt(e, o, t, p, e.cfg.Period(t), now, link, i);
    }
  }

  // The record of the stream is connected, and to a talker stream that differs in both halves of the pair.
  ghost predicate TakenByAnother(ls: seq<ListenerInfo>, p: Pdu) {
    exists j: nat :: IsRecordOf(ls, p.listenerUniqueId, j) && ls[j].connected
      && ls[j].talkerEntityId != p.talkerEntityId && ls[j].talkerUniqueId != p.talkerUniqueId
  }

  lemma ConnectRequested(e: Entity, p: Pdu, now: nat, link: bool, count: nat)
    requires e.Valid() && ForListener(e, p) && p.messageType.ConnectRxCommand?
    ensures var o := Receive(e, p, now, link, count);
      if !ListenerStream(e, p.listenerUniqueId) then Declined(e, o, ConnectRxResponse, p, ListenerUnknownId)
      else if TakenByAnother(e.listeners, p) then Declined(e, o, ConnectRxResponse, p, ListenerExclusive)
      else TakenUpOrFull(e, o, ConnectTxCommand, p, e.cfg.connectPeriod, now, link)
  {
    ListenerReceives(e, p, now, link, count);
    FirstRecord(e.listeners, p.listenerUniqueId);
    CommandTakenUp(e, ConnectTxCommand, p, now, link);
    assert Receive(e, p, now, link, count) == ConnectRx(e, p, now, link);
  }

  // The record of the stream is not connected to the talker stream named. Without a record it counts as connected.
  ghost predicate NotConnectedTo(ls: seq<ListenerInfo>, p: Pdu) {
    exists j: nat :: IsRecordOf(ls, p.listenerUniqueId, j) && !IsConnection(ls[j], p)
  }

  lemma DisconnectRequested(e: Entity, p: Pdu, now: nat, link: bool, count: nat)
    requires e.Valid() && ForListener(e, p) && p.messageType.DisconnectRxCommand?
    ensures var o := Receive(e, p, now, link, count);
      if !ListenerStream(e, p.listenerUniqueId) then Declined(e, o, DisconnectRxResponse, p, ListenerUnknownId)
      else if NotConnectedTo(e.listeners, p) then Declined(e, o, DisconnectRxResponse, p, NotConnected)
      else TakenUpOrFull(e, o, DisconnectTxCommand, p, e.cfg.disconnectPeriod, now, link)
  {
    ListenerReceives(e, p, now, link, count);
    FirstRecord(e.listeners, p.listenerUniqueId);
    CommandTakenUp(e, DisconnectTxCommand, p, now, link);
    assert Receive(e, p, now, link, count) == DisconnectRx(e, p, now, link);
  }

  // The frame reports this record; the talker's unique id is not reported.
  predicate Reports(f: Pdu, r: ListenerInfo) {
    && f.connectionCount == (if r.connected then 1 else 0) && f.talkerEntityId == r.talkerEntityId
    && f.streamId == r.streamId && f.streamDestMac == r.streamDestMac && f.streamVlanId == r.streamVlanId
    && f.flags == r.flags
  }

  predicate SameAddressee(f: Pdu, p: Pdu) {
    && f.controllerEntityId == p.controllerEntityId && f.sequenceId == p.sequenceId
    && f.listenerEntityId == p.listenerEntityId && f.listenerUniqueId == p.listenerUniqueId
    && f.talkerUniqueId == p.talkerUniqueId
  }

  lemma StateReported(e: Entity, p: Pdu, now: nat, link: bool, count: nat)
    requires ForListener(e, p) && p.messageType.GetRxStateCommand?
    ensures var o, id := Receive(e, p, now, link, count), p.listenerUniqueId;
      && o.entity == e && |o.frames| == 1 && o.frames[0].messageType.GetRxStateResponse?
      && SameAddressee(o.frames[0], p)
      && if !ListenerStream(e, id) then Declined(e, o, GetRxStateResponse, p, ListenerUnknownId)
         else if NoRecord(e.listeners, id) then Declined(e, o, GetRxStateResponse, p, ListenerMisbehaving)
         else
           && o.frames[0].status.Success?
           && exists j: nat :: IsRecordOf(e.listeners, id, j) && Reports(o.frames[0], e.listeners[j])
  {
    ListenerReceives(e, p, now, link, count);
    FirstRecord(e.listeners, p.listenerUniqueId);
  }

  // ---- Commands to the talker ----------------------------------------------------------------

  ghost predicate ForTalker(e: Entity, p: Pdu) { e.cfg.isTalker && p.talkerEntityId == e.cfg.entityId }

  // The first stream record with the unique id.
  ghost predicate IsStreamOf(ts: seq<TalkerInfo>, id: nat, k: nat) {
    k < |ts| && ts[k].talkerUniqueId == id && forall m :: 0 <= m < k ==> ts[m].talkerUniqueId != id
  }

  ghost predicate NoStream(ts: seq<TalkerInfo>, id: nat) {
    forall k :: 0 <= k < |ts| ==> ts[k].talkerUniqueId != id
  }

  // CONNECT_TX and GET_TX_STATE are answered with the talker's own stream, DISCONNECT_TX always for a known stream.
  lemma TalkerAnswers(e: Entity, p: Pdu, now: nat, link: bool, count: nat)
    requires ForTalker(e, p) && (p.messageType.ConnectTxCommand? || p.messageType.GetTxStateCommand?)
    ensures var o, id := Receive(e, p, now, link, count), p.talkerUniqueId;
      var t := if p.messageType.ConnectTxCommand? then ConnectTxResponse else GetTxStateResponse;
      if !TalkerStream(e, id) then Declined(e, o, t, p, TalkerUnknownId)
      else if NoStream(e.cfg.talkers, id) then Declined(e, o, t, p, TalkerMisbehaving)
      else exists k: nat :: IsStreamOf(e.cfg.talkers, id, k) && var s := e.cfg.talkers[k];
        o == Outcome(e, [p.(messageType := t, status := Success, streamId := s.streamId,
          streamDestMac := s.streamDestMac, streamVlanId := s.streamVlanId, connectionCount := count)])
  {
    DescriptorIn(e.cfg.descriptors, STREAM_OUTPUT, p.talkerUniqueId);
    var k := FindTalker(e.cfg.talkers, p.talkerUniqueId);
    if k < |e.cfg.talkers| { assert IsStreamOf(e.cfg.talkers, p.talkerUniqueId, k); }
  }

  lemma TalkerDisconnects(e: Entity, p: Pdu, now: nat, link: bool, count: nat)
    requires ForTalker(e, p) && p.messageType.DisconnectTxCommand?
    ensures Declined(e, Receive(e, p, now, link, count), DisconnectTxResponse, p,
      if TalkerStream(e, p.talkerUniqueId) then Success else TalkerUnknownId)
  {
    DescriptorIn(e.cfg.descriptors, STREAM_OUTPUT, p.talkerUniqueId);
  }

  // ---- Messages for others -------------------------------------------------------------------

  predicate ToListener(t: MessageType) {
    t in {ConnectRxCommand, DisconnectRxCommand, GetRxStateCommand, ConnectTxResponse, DisconnectTxResponse}
  }

  predicate ToTalker(t: MessageType) { t in {ConnectTxCommand, DisconnectTxCommand, GetTxStateCommand} }

  // A message of another type, or for another entity, changes nothing and is not answered.
  lemma OthersIgnored(e: Entity, p: Pdu, now: nat, link: bool, count: nat)
    requires !(ToListener(p.messageType) && ForListener(e, p)) && !(ToTalker(p.messageType) && ForTalker(e, p))
    ensures Receive(e, p, now, link, count) == Outcome(e, [])
  {}

  // ---- The timer -----------------------------------------------------------------------------

  // What a tick does to one slot. An expired command is sent once more, with a new time limit; the second time the
  // controller is told about the talker's timeout, under the sequence id of its request, and the slot is released.
  ghost predicate Timed(cfg: Config, s: Inflight, s': Inflight, fs: seq<Pdu>, now: nat, link: bool) {
    var t := s.command.messageType;
    if s.timeout == 0 || now < s.timeout || t !in {ConnectTxCommand, DisconnectTxCommand} then s' == s && fs == []
    else if !s.retried then
      && s' == s.(timeout := now + (if t == ConnectTxCommand then cfg.connectPeriod else cfg.disconnectPeriod),
                  retried := true)
      && fs == [s.command.(status := if link then Success else CouldNotSendMessage)]
    else
      && s'.timeout == 0
      && fs == [s.command.(
        messageType := if t == ConnectTxCommand then ConnectRxResponse else DisconnectRxResponse,
        status := ListenerTalkerTimeout, sequenceId := s.originalSequenceId)]
  }

  lemma SlotTimed(cfg: Config, s: Inflight, now: nat, link: bool)
    ensures Timed(cfg, s, TimedSlot(cfg, s, now), TimedFrames(s, now, link), now, link)
  {}

  // A tick visits the four slots in order, each on its own, and changes nothing else.
  lemma Ticked(e: Entity, now: nat, link: seq<bool>) returns (fs: seq<seq<Pdu>>)
    requires e.Valid() && |link| == MAX_INFLIGHT
    ensures |fs| == MAX_INFLIGHT
    ensures var o := Tick(e, now, link);
      && o.frames == fs[0] + fs[1] + fs[2] + fs[3]
      && o.entity.cfg == e.cfg && o.entity.listeners == e.listeners && |o.entity.inflight| == MAX_INFLIGHT
      && forall i :: 0 <= i < MAX_INFLIGHT ==>
           Timed(e.cfg, e.inflight[i], o.entity.inflight[i], fs[i], now, link[i])
  {
    fs := seq(MAX_INFLIGHT, i requires 0 <= i < MAX_INFLIGHT => TimedFrames(e.inflight[i], now, link[i]));
    FramesAfter(e.inflight, now, link);
    forall i | 0 <= i < MAX_INFLIGHT
      ensures Timed(e.cfg, e.inflight[i], Tick(e, now, link).entity.inflight[i], fs[i], now, link[i])
    {
      SlotTimed(e.cfg, e.inflight[i], now, link[i]);
    }
  }

  lemma FramesAfter(slots: seq<Inflight>, now: nat, link: seq<bool>)
    requires |slots| == |link| == MAX_INFLIGHT
    ensures TickFrames(slots, now, link, MAX_INFLIGHT) ==
      TimedFrames(slots[0], now, link[0]) + TimedFrames(slots[1], now, link[1])
        + TimedFrames(slots[2], now, link[2]) + TimedFrames(slots[3], now, link[3])
  {
    hide TimedFrames;
    assert TickFrames(slots, now, link, 0) == [];
    assert TickFrames(slots, now, link, 1) == TimedFrames(slots[0], now, link[0]);
    assert TickFrames(slots, now, link, 2) == TickFrames(slots, now, link, 1) + TimedFrames(slots[1], now, link[1]);
    assert TickFrames(slots, now, link, 3) == TickFrames(slots, now, link, 2) + TimedFrames(slots[2], now, link[2]);
  }
}
