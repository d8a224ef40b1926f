// The ACMP entity as the library keeps it: stream records and inflight slots overwritten in place.
module AcmpDevice {
  import opened AcmpTypes
  import opened AcmpSpec

  class AcmpEntity {
    const cfg: Config
    const listenerInfos: array<ListenerInfo>
    const listenerCount: nat      // stored in eight bits; records past it are never looked at
    const inflight: array<Inflight>
    var sent: seq<Pdu>            // every frame handed to the link, oldest first

    ghost predicate Valid()
      reads this
    {
      && cfg.Valid()
      && listenerCount <= listenerInfos.Length
      && inflight.Length == MAX_INFLIGHT
    }

    ghost function Abs(): (e: Entity)
      requires Valid()
      reads this, listenerInfos, inflight
      ensures e.Valid() && e.cfg == cfg && |e.listeners| == listenerCount
    {
      Entity(cfg, listenerInfos[..listenerCount], inflight[..])
    }

    // The tables of one configuration as acmp_ctx_init leaves them (see AcmpTables).
    constructor (cfg: Config, infos: array<ListenerInfo>)
      requires cfg.Valid()
      ensures Valid() && fresh(inflight) && listenerInfos == infos && sent == []
      ensures Abs() == Entity(cfg, infos[..infos.Length % 256], seq(MAX_INFLIGHT, _ => FREE_SLOT))
    {
      this.cfg := cfg;
      listenerInfos := infos;
      listenerCount := infos.Length % 256;
      inflight := new Inflight[MAX_INFLIGHT](_ => FREE_SLOT);
      sent := [];
    }

    // ---- Table searches ------------------------------------------------------------------------

    method FindListenerStreamInfo(id: nat) returns (r: nat)
      requires Valid()
      ensures r == FindListener(Abs().listeners, id)
    {
      r := 0;
      while r < listenerCount
        invariant r <= listenerCount
        invariant FindListener(Abs().listeners, id) == FindListener(Abs().listeners, id, r)
      {
        if listenerInfos[r].listenerUniqueId == id { return; }
        r := r + 1;
      }
    }

    method FindTalkerStreamInfo(id: nat) returns (r: nat)
      requires Valid()
      ensures r == FindTalker(cfg.talkers, id)
    {
      r := 0;
      while r < |cfg.talkers|
        invariant r <= |cfg.talkers|
        invariant FindTalker(cfg.talkers, id) == FindTalker(cfg.talkers, id, r)
      {
        if cfg.talkers[r].talkerUniqueId == id { return; }
        r := r + 1;
      }
    }

    // A descriptor counts only when the record table is not empty: the outer loop runs once per record.
    method ValidStream(descriptorType: nat, count: nat, id: nat) returns (found: bool)
      requires Valid()
      ensures found <==> count > 0 && HasDescriptor(cfg.descriptors, descriptorType, id)
    {
      var i := 0;
      while i < count
        invariant i <= count
        invariant i > 0 ==> !HasDescriptor(cfg.descriptors, descriptorType, id)
      {
        var k := 0;
        while k < |cfg.descriptors|
          invariant k <= |cfg.descriptors|
          invariant forall m :: 0 <= m < k ==> cfg.descriptors[m] != Descriptor(descriptorType, id)
        {
          if cfg.descriptors[k].descriptorType == descriptorType && cfg.descriptors[k].descriptorIndex == id {
            assert cfg.descriptors[k] == Descriptor(descriptorType, id);
            return true;
          }
          k := k + 1;
        }
        i := i + 1;
      }
      return false;
    }

    method ValidListenerUnique(id: nat) returns (found: bool)
      requires Valid()
      ensures found <==> ValidListener(Abs(), id)
    {
      found := ValidStream(STREAM_INPUT, listenerCount, id);
    }

    method ValidTalkerUnique(id: nat) returns (found: bool)
      requires Valid()
      ensures found <==> ValidTalker(Abs(), id)
    {
      found := ValidStream(STREAM_OUTPUT, |cfg.talkers|, id);
    }

    // ---- Record updates ------------------------------------------------------------------------

    method AddListenerStreamInfo(p: Pdu) returns (s: Status)
      requires Valid()
      modifies listenerInfos
      ensures Valid()
      ensures Abs() == old(Abs()).(listeners := AddListener(old(Abs().listeners), p))
      ensures s == AddStatus(old(Abs().listeners), p)
    {
      var k := FindListenerStreamInfo(p.listenerUniqueId);
      if k == listenerCount { return ListenerMisbehaving; }
      if listenerInfos[k].connected { return ListenerExclusive; }
      listenerInfos[k] := Filled(listenerInfos[k], p);
      assert listenerInfos[..listenerCount] == AddListener(old(Abs().listeners), p);
      s := Success;
    }

    method RemoveListenerStreamInfo(p: Pdu) returns (found: bool)
      requires Valid()
      modifies listenerInfos
      ensures Valid()
      ensures Abs() == old(Abs()).(listeners := RemoveListener(old(Abs().listeners), p))
      ensures found <==> FindConnected(old(Abs().listeners), p) < listenerCount
    {
      var i := 0;
      while i < listenerCount
        invariant i <= listenerCount
        invariant Abs() == old(Abs())
        invariant FindConnected(Abs().listeners, p) == FindConnected(Abs().listeners, p, i)
      {
        if listenerInfos[i].listenerUniqueId == p.listenerUniqueId && NamesPair(listenerInfos[i], p) {
          listenerInfos[i] := ZERO_LISTENER;
          assert listenerInfos[..listenerCount] == RemoveListener(old(Abs().listeners), p);
          return true;
        }
        i := i + 1;
      }
      found := false;
    }

    // ---- Transmission --------------------------------------------------------------------------

    method SendResponse(t: MessageType, p: Pdu, s: Status)
      requires Valid()
      modifies this`sent
      ensures Valid() && sent == old(sent) + [TxResponse(t, p, s)]
    {
      sent := sent + [TxResponse(t, p, s)];
    }

    // Opens a slot for a new command, if one is free.
    method SendCommand(t: MessageType, p: Pdu, now: nat, link: bool)
      requires Valid()
      modifies this`sent, inflight
      ensures Valid()
      ensures Abs() == TxCommand(old(Abs()), t, p, now, link).entity
      ensures sent == old(sent) + TxCommand(old(Abs()), t, p, now, link).frames
    {
      var i := 0;
      while i < MAX_INFLIGHT && inflight[i].timeout != 0
        invariant i <= MAX_INFLIGHT
        invariant FindFree(inflight[..]) == FindFree(inflight[..], i)
      {
        i := i + 1;
      }
      if i == MAX_INFLIGHT {
        SendResponse(t, p, ListenerMisbehaving);
        return;
      }
      inflight[i] := Inflight(0, false, TxResponse(t, p, Success), p.sequenceId);
      inflight[i] := inflight[i].(timeout := now + cfg.Period(t));
      assert inflight[..] == old(inflight[..])[i := Opened(cfg, t, p, now)];
      Transmit(t, p, link);
    }

    method Transmit(t: MessageType, p: Pdu, link: bool)
      requires Valid()
      modifies this`sent
      ensures Valid() && sent == old(sent) + [CommandFrame(t, p, link)]
    {
      if link {
        sent := sent + [TxResponse(t, p, Success)];
      } else {
        SendResponse(t, p, CouldNotSendMessage);
      }
    }

    // ---- Listener state machine ----------------------------------------------------------------

    method ProcessConnectRxCommand(p: Pdu, now: nat, link: bool)
      requires Valid()
      modifies this`sent, inflight
      ensures Valid()
      ensures Abs() == ConnectRx(old(Abs()), p, now, link).entity
      ensures sent == old(sent) + ConnectRx(old(Abs()), p, now, link).frames
    {
      var valid := ValidListenerUnique(p.listenerUniqueId);
      if valid {
        var k := FindListenerStreamInfo(p.listenerUniqueId);
        if k < listenerCount && listenerInfos[k].connected && listenerInfos[k].talkerEntityId != p.talkerEntityId
          && listenerInfos[k].talkerUniqueId != p.talkerUniqueId {
          SendResponse(ConnectRxResponse, p, ListenerExclusive);
        } else {
          SendCommand(ConnectTxCommand, p, now, link);
        }
      } else {
        SendResponse(ConnectRxResponse, p, ListenerUnknownId);
      }
    }

    method ProcessDisconnectRxCommand(p: Pdu, now: nat, link: bool)
      requires Valid()
      modifies this`sent, inflight
      ensures Valid()
      ensures Abs() == DisconnectRx(old(Abs()), p, now, link).entity
      ensures sent == old(sent) + DisconnectRx(old(Abs()), p, now, link).frames
    {
      var valid := ValidListenerUnique(p.listenerUniqueId);
      if valid {
        var k := FindListenerStreamInfo(p.listenerUniqueId);
        if k == listenerCount || NamesPair(listenerInfos[k], p) {
          SendCommand(DisconnectTxCommand, p, now, link);
        } else {
          SendResponse(DisconnectRxResponse, p, NotConnected);
        }
      } else {
        SendResponse(DisconnectRxResponse, p, ListenerUnknownId);
      }
    }

    method FindInflight(p: Pdu, connectOnly: bool) returns (i: nat)
      requires Valid()
      ensures i == FindMatch(Abs().inflight, p, connectOnly)
    {
      i := 0;
      while i < MAX_INFLIGHT
        invariant i <= MAX_INFLIGHT
        invariant FindMatch(inflight[..], p, connectOnly) == FindMatch(inflight[..], p, connectOnly, i)
      {
        if Matches(inflight[i], p, connectOnly) { return; }
        i := i + 1;
      }
    }

    method ProcessConnectTxResponse(p: Pdu)
      requires Valid()
      modifies this`sent, listenerInfos, inflight
      ensures Valid()
      ensures Abs() == ConnectTxAnswer(old(Abs()), p).entity
      ensures sent == old(sent) + ConnectTxAnswer(old(Abs()), p).frames
    {
      var valid := ValidListenerUnique(p.listenerUniqueId);
      if !valid { return; }
      var response := p;
      if p.status.Success? {
        var i := FindInflight(p, true);
        if i < MAX_INFLIGHT {
          var s := AddListenerStreamInfo(p);
          response := response.(status := s, sequenceId := inflight[i].originalSequenceId);
          inflight[i] := FREE_SLOT;
          assert inflight[..] == old(inflight[..])[i := FREE_SLOT];
        } else {
          response := response.(status := ListenerMisbehaving);
        }
      }
      SendResponse(ConnectRxResponse, response, response.status);
    }

    method ProcessDisconnectTxResponse(p: Pdu)
      requires Valid()
      modifies this`sent, listenerInfos, inflight
      ensures Valid()
      ensures Abs() == DisconnectTxAnswer(old(Abs()), p).entity
      ensures sent == old(sent) + DisconnectTxAnswer(old(Abs()), p).frames
    {
      var valid := ValidListenerUnique(p.listenerUniqueId);
      if !valid { return; }
      var i := FindInflight(p, false);
      if i == MAX_INFLIGHT { return; }
      var response := p.(sequenceId := inflight[i].originalSequenceId);
      var found := RemoveListenerStreamInfo(p);
      if found {
        inflight[i] := FREE_SLOT;
        assert inflight[..] == old(inflight[..])[i := FREE_SLOT];
        SendResponse(DisconnectRxResponse, response, response.status);
      }
    }

    method ProcessGetRxStateCommand(p: Pdu)
      requires Valid()
      modifies this`sent
      ensures Valid() && Abs() == old(Abs())
      ensures sent == old(sent) + GetRxState(old(Abs()), p).frames
    {
      var valid := ValidListenerUnique(p.listenerUniqueId);
      if !valid {
        SendResponse(GetRxStateResponse, p, ListenerUnknownId);
        return;
      }
      var k := FindListenerStreamInfo(p.listenerUniqueId);
      if k == listenerCount {
        SendResponse(GetRxStateResponse, p, ListenerMisbehaving);
        return;
      }
      var r := listenerInfos[k];
      SendResponse(GetRxStateResponse,
        p.(connectionCount := if r.connected then 1 else 0, flags := r.flags, streamVlanId := r.streamVlanId,
           streamId := r.streamId, streamDestMac := r.streamDestMac, talkerEntityId := r.talkerEntityId),
        Success);
    }

    // ---- Talker state machine ------------------------------------------------------------------

    // Answers CONNECT_TX and GET_TX_STATE; `count` is the connection count reported.
    method ProcessStreamQuery(t: MessageType, p: Pdu, count: nat)
      requires Valid()
      modifies this`sent
      ensures Valid() && Abs() == old(Abs())
      ensures sent == old(sent) + [TalkerAnswer(old(Abs()), t, p, count)]
    {
      var valid := ValidTalkerUnique(p.talkerUniqueId);
      if !valid {
        SendResponse(t, p, TalkerUnknownId);
        return;
      }
      var k := FindTalkerStreamInfo(p.talkerUniqueId);
      if k == |cfg.talkers| {
        SendResponse(t, p, TalkerMisbehaving);
      } else {
        SendResponse(t, WithStream(p, cfg.talkers[k], count), Success);
      }
    }

    method ProcessDisconnectTxCommand(p: Pdu)
      requires Valid()
      modifies this`sent
      ensures Valid() && Abs() == old(Abs())
      ensures sent == old(sent) + [TxResponse(DisconnectTxResponse, p,
                                     if ValidTalker(old(Abs()), p.talkerUniqueId) then Success else TalkerUnknownId)]
    {
      var valid := ValidTalkerUnique(p.talkerUniqueId);
      SendResponse(DisconnectTxResponse, p, if valid then Success else TalkerUnknownId);
    }

    // ---- Dispatch and timer ----------------------------------------------------------------------

    method ReceiveProcess(p: Pdu, now: nat, link: bool, count: nat)
      requires Valid()
      modifies this`sent, listenerInfos, inflight
      ensures Valid()
      ensures Abs() == Receive(old(Abs()), p, now, link, count).entity
      ensures sent == old(sent) + Receive(old(Abs()), p, now, link, count).frames
    {
      if IsTalkerCommand(p.messageType) && cfg.isTalker {
        if p.talkerEntityId == cfg.entityId {
          match p.messageType
          case ConnectTxCommand => ProcessStreamQuery(ConnectTxResponse, p, count);
          case GetTxStateCommand => ProcessStreamQuery(GetTxStateResponse, p, count);
          case DisconnectTxCommand => ProcessDisconnectTxCommand(p);
          case _ =>
        }
      } else if (IsTalkerCommand(p.messageType) || IsListenerMessage(p.messageType)) && cfg.isListener
             && p.listenerEntityId == cfg.entityId {
        match p.messageType
        case ConnectRxCommand => ProcessConnectRxCommand(p, now, link);
        case ConnectTxResponse => ProcessConnectTxResponse(p);
        case GetRxStateCommand => ProcessGetRxStateCommand(p);
        case DisconnectRxCommand => ProcessDisconnectRxCommand(p, now, link);
        case DisconnectTxResponse => ProcessDisconnectTxResponse(p);
        case _ =>
      }
    }

    // One expired slot: report the timeout after the second try, otherwise send the command again.
    method ProcessTimeout(i: nat, now: nat, link: bool)
      requires Valid() && i < MAX_INFLIGHT && Expired(inflight[i], now)
      modifies this`sent, inflight
      ensures Valid()
      ensures inflight[..] == old(inflight[..])[i := TimedSlot(cfg, old(inflight[i]), now)]
      ensures sent == old(sent) + TimedFrames(old(inflight[i]), now, link)
    {
      var s := inflight[i];
      if s.retried {
        var response := s.command.(sequenceId := s.originalSequenceId);
        SendResponse(TimeoutAnswerType(s.command.messageType), response, ListenerTalkerTimeout);
        inflight[i] := FREE_SLOT;
      } else {
        inflight[i] := inflight[i].(timeout := now + cfg.Period(s.command.messageType));
        Transmit(s.command.messageType, s.command, link);
        inflight[i] := inflight[i].(retried := true);
      }
    }

    method StateProcess(now: nat, link: seq<bool>)
      requires Valid() && |link| == MAX_INFLIGHT
      modifies this`sent, inflight
      ensures Valid()
      ensures Abs() == Tick(old(Abs()), now, link).entity
      ensures sent == old(sent) + Tick(old(Abs()), now, link).frames
    {
      ghost var before := inflight[..];
      var i := 0;
      while i < MAX_INFLIGHT
        invariant i <= MAX_INFLIGHT
        invariant inflight[..] == TickSlots(cfg, before, now, i)
        invariant sent == old(sent) + TickFrames(before, now, link, i)
        invariant listenerInfos[..] == old(listenerInfos[..])
      {
        assert inflight[i] == before[i];
        if Expired(inflight[i], now) {
          ProcessTimeout(i, now, link[i]);
        }
        assert inflight[..] == TickSlots(cfg, before, now, i + 1);
        i := i + 1;
      }
      assert inflight[..] == TickSlots(cfg, before, now, MAX_INFLIGHT);
    }
  }
}
