// What each ACMP handler does to an entity and which frames it sends, as functions of the entity,
// the received PDU, the clock and whether the link accepted a frame.
module AcmpSpec {
  import opened AcmpTypes

  datatype Outcome = Outcome(entity: Entity, frames: seq<Pdu>)

  // ---- Searches over the tables -------------------------------------------------------------

  // The first record from `from` on that carries the unique id, or |ls|.
  function FindListener(ls: seq<ListenerInfo>, id: nat, from: nat := 0): (r: nat)
    requires from <= |ls|
    ensures from <= r <= |ls|
    ensures r < |ls| ==> ls[r].listenerUniqueId == id
    ensures forall k :: from <= k < r ==> ls[k].listenerUniqueId != id
    decreases |ls| - from
  {
    if from == |ls| || ls[from].listenerUniqueId == id then from else FindListener(ls, id, from + 1)
  }

  predicate NamesPair(r: ListenerInfo, p: Pdu) {
    r.connected && r.talkerEntityId == p.talkerEntityId && r.talkerUniqueId == p.talkerUniqueId
  }

  // The first connected record for this listener stream and this talker stream, or |ls|.
  function FindConnected(ls: seq<ListenerInfo>, p: Pdu, from: nat := 0): (r: nat)
    requires from <= |ls|
    ensures from <= r <= |ls|
    ensures r < |ls| ==> ls[r].listenerUniqueId == p.listenerUniqueId && NamesPair(ls[r], p)
    ensures forall k :: from <= k < r ==> !(ls[k].listenerUniqueId == p.listenerUniqueId && NamesPair(ls[k], p))
    decreases |ls| - from
  {
    if from == |ls| || (ls[from].listenerUniqueId == p.listenerUniqueId && NamesPair(ls[from], p)) then from
    else FindConnected(ls, p, from + 1)
  }

  function FindTalker(ts: seq<TalkerInfo>, id: nat, from: nat := 0): (r: nat)
    requires from <= |ts|
    ensures from <= r <= |ts|
    ensures r < |ts| ==> ts[r].talkerUniqueId == id
    ensures forall k :: from <= k < r ==> ts[k].talkerUniqueId != id
    decreases |ts| - from
  {
    if from == |ts| || ts[from].talkerUniqueId == id then from else FindTalker(ts, id, from + 1)
  }

  function FindFree(slots: seq<Inflight>, from: nat := 0): (r: nat)
    requires from <= |slots|
    ensures from <= r <= |slots|
    ensures r < |slots| ==> !slots[r].Active()
    ensures forall k :: from <= k < r ==> slots[k].Active()
    decreases |slots| - from
  {
    if from == |slots| || !slots[from].Active() then from else FindFree(slots, from + 1)
  }

  // A connect response looks only at slots of connect commands, a disconnect response at all of them.
  predicate Matches(s: Inflight, p: Pdu, connectOnly: bool) {
    s.Active() && s.command.sequenceId == p.sequenceId && (connectOnly ==> s.command.messageType.ConnectTxCommand?)
  }

  function FindMatch(slots: seq<Inflight>, p: Pdu, connectOnly: bool, from: nat := 0): (r: nat)
    requires from <= |slots|
    ensures from <= r <= |slots|
    ensures r < |slots| ==> Matches(slots[r], p, connectOnly)
    ensures forall k :: from <= k < r ==> !Matches(slots[k], p, connectOnly)
    decreases |slots| - from
  {
    if from == |slots| || Matches(slots[from], p, connectOnly) then from
    else FindMatch(slots, p, connectOnly, from + 1)
  }

  ghost predicate HasDescriptor(ds: seq<Descriptor>, t: nat, id: nat) {
    exists k :: 0 <= k < |ds| && ds[k] == Descriptor(t, id)
  }

  ghost predicate ValidListener(e: Entity, id: nat) {
    |e.listeners| > 0 && HasDescriptor(e.cfg.descriptors, STREAM_INPUT, id)
  }

  // The frame is for a stream of this listener.
  ghost predicate IsOwnStream(e: Entity, p: Pdu) {
    e.cfg.isListener && p.listenerEntityId == e.cfg.entityId && ValidListener(e, p.listenerUniqueId)
  }

  ghost predicate ValidTalker(e: Entity, id: nat) {
    |e.cfg.talkers| > 0 && HasDescriptor(e.cfg.descriptors, STREAM_OUTPUT, id)
  }

  // ---- Connection state of a listener stream -------------------------------------------------

  // The exclusivity test of section 8.2.2.5.2.2 as the code has it: both halves of the pair must differ.
  predicate IsConnected(e: Entity, p: Pdu) {
    var k := FindListener(e.listeners, p.listenerUniqueId);
    k < |e.listeners| && e.listeners[k].connected
    && e.listeners[k].talkerEntityId != p.talkerEntityId && e.listeners[k].talkerUniqueId != p.talkerUniqueId
  }

  predicate IsConnectedTo(e: Entity, p: Pdu) {
    var k := FindListener(e.listeners, p.listenerUniqueId);
    k < |e.listeners| ==> NamesPair(e.listeners[k], p)
  }

  function Filled(r: ListenerInfo, p: Pdu): ListenerInfo {
    ListenerInfo(p.talkerEntityId, p.talkerUniqueId, true, p.streamId, p.streamDestMac,
                 p.controllerEntityId, p.flags, p.streamVlanId, r.listenerUniqueId)
  }

  function AddStatus(ls: seq<ListenerInfo>, p: Pdu): Status {
    var k := FindListener(ls, p.listenerUniqueId);
    if k == |ls| then ListenerMisbehaving else if ls[k].connected then ListenerExclusive else Success
  }

  function AddListener(ls: seq<ListenerInfo>, p: Pdu): (r: seq<ListenerInfo>)
    ensures |r| == |ls|
  {
    var k := FindListener(ls, p.listenerUniqueId);
    if AddStatus(ls, p).Success? then ls[k := Filled(ls[k], p)] else ls
  }

  function RemoveListener(ls: seq<ListenerInfo>, p: Pdu): (r: seq<ListenerInfo>)
    ensures |r| == |ls|
  {
    var k := FindConnected(ls, p);
    if k < |ls| then ls[k := ZERO_LISTENER] else ls
  }

  // ---- Transmission ---------------------------------------------------------------------------

  function TxResponse(t: MessageType, p: Pdu, s: Status): Pdu {
    p.(messageType := t, status := s)
  }

  // When the link refuses a command, an answer with the command's own message type follows.
  function CommandFrame(t: MessageType, p: Pdu, link: bool): Pdu {
    TxResponse(t, p, if link then Success else CouldNotSendMessage)
  }

  function Opened(cfg: Config, t: MessageType, p: Pdu, now: nat): Inflight {
    Inflight(now + cfg.Period(t), false, TxResponse(t, p, Success), p.sequenceId)
  }

  function TxCommand(e: Entity, t: MessageType, p: Pdu, now: nat, link: bool): (o: Outcome)
  {
    var i := FindFree(e.inflight);
    if i == |e.inflight| then Outcome(e, [TxResponse(t, p, ListenerMisbehaving)])
    else Outcome(e.(inflight := e.inflight[i := Opened(e.cfg, t, p, now)]), [CommandFrame(t, p, link)])
  }

  // ---- Listener state machine, Figure 8.3 ------------------------------------------------------

  ghost function ConnectRx(e: Entity, p: Pdu, now: nat, link: bool): Outcome {
    if !ValidListener(e, p.listenerUniqueId) then
      Outcome(e, [TxResponse(ConnectRxResponse, p, ListenerUnknownId)])
    else if IsConnected(e, p) then
      Outcome(e, [TxResponse(ConnectRxResponse, p, ListenerExclusive)])
    else
      TxCommand(e, ConnectTxCommand, p, now, link)
  }

  ghost function DisconnectRx(e: Entity, p: Pdu, now: nat, link: bool): Outcome {
    if !ValidListener(e, p.listenerUniqueId) then
      Outcome(e, [TxResponse(DisconnectRxResponse, p, ListenerUnknownId)])
    else if !IsConnectedTo(e, p) then
      Outcome(e, [TxResponse(DisconnectRxResponse, p, NotConnected)])
    else
      TxCommand(e, DisconnectTxCommand, p, now, link)
  }

  ghost function ConnectTxAnswer(e: Entity, p: Pdu): Outcome {
    if !ValidListener(e, p.listenerUniqueId) then Outcome(e, [])
    else if !p.status.Success? then Outcome(e, [TxResponse(ConnectRxResponse, p, p.status)])
    else
      var i := FindMatch(e.inflight, p, true);
      if i == |e.inflight| then Outcome(e, [TxResponse(ConnectRxResponse, p, ListenerMisbehaving)])
      else
        Outcome(
          e.(listeners := AddListener(e.listeners, p), inflight := e.inflight[i := FREE_SLOT]),
          [TxResponse(ConnectRxResponse, p.(sequenceId := e.inflight[i].originalSequenceId),
            AddStatus(e.listeners, p))])
  }

  ghost function DisconnectTxAnswer(e: Entity, p: Pdu): Outcome {
    if !ValidListener(e, p.listenerUniqueId) then Outcome(e, [])
    else
      var i := FindMatch(e.inflight, p, false);
      if i == |e.inflight| || FindConnected(e.listeners, p) == |e.listeners| then Outcome(e, [])
      else
        Outcome(
          e.(listeners := RemoveListener(e.listeners, p), inflight := e.inflight[i := FREE_SLOT]),
          [TxResponse(DisconnectRxResponse, p.(sequenceId := e.inflight[i].originalSequenceId), p.status)])
  }

  ghost function GetRxState(e: Entity, p: Pdu): Outcome {
    var k := FindListener(e.listeners, p.listenerUniqueId);
    Outcome(e,
      [if !ValidListener(e, p.listenerUniqueId) then TxResponse(GetRxStateResponse, p, ListenerUnknownId)
       else if k == |e.listeners| then TxResponse(GetRxStateResponse, p, ListenerMisbehaving)
       else
         var r := e.listeners[k];
         TxResponse(GetRxStateResponse,
           p.(connectionCount := if r.connected then 1 else 0, flags := r.flags, streamVlanId := r.streamVlanId,
              streamId := r.streamId, streamDestMac := r.streamDestMac, talkerEntityId := r.talkerEntityId),
           Success)])
  }

  ghost function ListenerMachine(e: Entity, p: Pdu, now: nat, link: bool): Outcome {
    match p.messageType
    case ConnectRxCommand => ConnectRx(e, p, now, link)
    case ConnectTxResponse => ConnectTxAnswer(e, p)
    case GetRxStateCommand => GetRxState(e, p)
    case DisconnectRxCommand => DisconnectRx(e, p, now, link)
    case DisconnectTxResponse => DisconnectTxAnswer(e, p)
    case _ => Outcome(e, [])
  }

  // ---- Talker state machine, Figure 8.4 ---------------------------------------------------------

  // `count` stands for the connection count the talker reports, which is not modelled.
  function WithStream(p: Pdu, t: TalkerInfo, count: nat): Pdu {
    p.(streamId := t.streamId, streamDestMac := t.streamDestMac, streamVlanId := t.streamVlanId,
      connectionCount := count)
  }

  ghost function TalkerAnswer(e: Entity, t: MessageType, p: Pdu, count: nat): Pdu {
    var k := FindTalker(e.cfg.talkers, p.talkerUniqueId);
    if !ValidTalker(e, p.talkerUniqueId) then TxResponse(t, p, TalkerUnknownId)
    else if k == |e.cfg.talkers| then TxResponse(t, p, TalkerMisbehaving)
    else TxResponse(t, WithStream(p, e.cfg.talkers[k], count), Success)
  }

  ghost function TalkerMachine(e: Entity, p: Pdu, count: nat): Outcome {
    match p.messageType
    case ConnectTxCommand => Outcome(e, [TalkerAnswer(e, ConnectTxResponse, p, count)])
    case GetTxStateCommand => Outcome(e, [TalkerAnswer(e, GetTxStateResponse, p, count)])
    case DisconnectTxCommand =>
      Outcome(e, [TxResponse(DisconnectTxResponse, p,
        if ValidTalker(e, p.talkerUniqueId) then Success else TalkerUnknownId)])
    case _ => Outcome(e, [])
  }

  // ---- Dispatch and timer -----------------------------------------------------------------------

  predicate IsTalkerCommand(t: MessageType) {
    t.ConnectTxCommand? || t.DisconnectTxCommand? || t.GetTxStateCommand? || t.GetTxConnectionCommand?
  }

  predicate IsListenerMessage(t: MessageType) {
    || t.ConnectRxCommand? || t.ConnectTxResponse? || t.GetRxStateCommand?
    || t.DisconnectRxCommand? || t.DisconnectTxResponse?
  }

  // A talker command that reaches an entity without the talker role falls through to the listener branch.
  ghost function Receive(e: Entity, p: Pdu, now: nat, link: bool, count: nat): Outcome {
    if IsTalkerCommand(p.messageType) && e.cfg.isTalker then
      if p.talkerEntityId == e.cfg.entityId then TalkerMachine(e, p, count) else Outcome(e, [])
    else if (IsTalkerCommand(p.messageType) || IsListenerMessage(p.messageType)) && e.cfg.isListener
            && p.listenerEntityId == e.cfg.entityId then
      ListenerMachine(e, p, now, link)
    else
      Outcome(e, [])
  }

  predicate Expired(s: Inflight, now: nat) {
    && s.Active() && s.timeout <= now
    && (s.command.messageType.ConnectTxCommand? || s.command.messageType.DisconnectTxCommand?)
  }

  function TimeoutAnswerType(t: MessageType): MessageType {
    if t.ConnectTxCommand? then ConnectRxResponse else DisconnectRxResponse
  }

  function TimedSlot(cfg: Config, s: Inflight, now: nat): Inflight {
    if !Expired(s, now) then s
    else if s.retried then FREE_SLOT
    else s.(timeout := now + cfg.Period(s.command.messageType), retried := true)
  }

  function TimedFrames(s: Inflight, now: nat, link: bool): seq<Pdu> {
    if !Expired(s, now) then []
    else if s.retried then
      [TxResponse(TimeoutAnswerType(s.command.messageType), s.command.(sequenceId := s.originalSequenceId),
        ListenerTalkerTimeout)]
    else
      [CommandFrame(s.command.messageType, s.command, link)]
  }

  // The slots and the frames after the first n slots have been visited.
  function TickSlots(cfg: Config, slots: seq<Inflight>, now: nat, n: nat): (r: seq<Inflight>)
    requires n <= |slots|
    ensures |r| == |slots|
    ensures forall k :: 0 <= k < |slots| ==> r[k] == if k < n then TimedSlot(cfg, slots[k], now) else slots[k]
  {
    seq(|slots|, k requires 0 <= k < |slots| => if k < n then TimedSlot(cfg, slots[k], now) else slots[k])
  }

  function TickFrames(slots: seq<Inflight>, now: nat, link: seq<bool>, n: nat): seq<Pdu>
    requires n <= |slots| <= |link|
  {
    if n == 0 then [] else TickFrames(slots, now, link, n - 1) + TimedFrames(slots[n - 1], now, link[n - 1])
  }

  function Tick(e: Entity, now: nat, link: seq<bool>): Outcome
    requires |e.inflight| <= |link|
  {
    Outcome(e.(inflight := TickSlots(e.cfg, e.inflight, now, |e.inflight|)),
            TickFrames(e.inflight, now, link, |e.inflight|))
  }
}
