// The records of the ACMP connection protocol (IEEE Std 1722.1-2013, section 8.2.2.2).
// Entity identifiers, MAC addresses and stream identifiers are modelled by their numeric values.
module AcmpTypes {

  datatype MessageType =
    | ConnectTxCommand | ConnectTxResponse
    | DisconnectTxCommand | DisconnectTxResponse
    | GetTxStateCommand | GetTxStateResponse
    | ConnectRxCommand | ConnectRxResponse
    | DisconnectRxCommand | DisconnectRxResponse
    | GetRxStateCommand | GetRxStateResponse
    | GetTxConnectionCommand | GetTxConnectionResponse
    | Reserved(code: nat)

  datatype Status =
    | Success
    | ListenerUnknownId | TalkerUnknownId
    | ListenerMisbehaving | TalkerMisbehaving
    | ListenerExclusive | ListenerTalkerTimeout
    | NotConnected | CouldNotSendMessage
    | Other(code: nat)

  datatype Pdu = Pdu(
    messageType: MessageType,
    status: Status,
    streamId: nat,
    controllerEntityId: nat,
    talkerEntityId: nat,
    listenerEntityId: nat,
    talkerUniqueId: nat,
    listenerUniqueId: nat,
    streamDestMac: nat,
    connectionCount: nat,
    sequenceId: nat,
    flags: nat,
    streamVlanId: nat)

  // The per-stream record of a listener.
  datatype ListenerInfo = ListenerInfo(
    talkerEntityId: nat,
    talkerUniqueId: nat,
    connected: bool,
    streamId: nat,
    streamDestMac: nat,
    controllerEntityId: nat,
    flags: nat,
    streamVlanId: nat,
    listenerUniqueId: nat)

  // A freshly allocated or cleared listener record: every field is zero.
  const ZERO_LISTENER := ListenerInfo(0, 0, false, 0, 0, 0, 0, 0, 0)

  // The part of a talker's per-stream record that is fixed once ACMP has started.
  datatype TalkerInfo = TalkerInfo(
    streamId: nat,
    streamDestMac: nat,
    streamVlanId: nat,
    talkerUniqueId: nat)

  // A slot of the inflight table is free exactly when its timeout is zero.
  datatype Inflight = Inflight(timeout: nat, retried: bool, command: Pdu, originalSequenceId: nat)
  {
    predicate Active() { timeout != 0 }
  }

  const ZERO_PDU := Pdu(ConnectTxCommand, Success, 0, 0, 0, 0, 0, 0, 0, 0, 0, 0, 0)
  const FREE_SLOT := Inflight(0, false, ZERO_PDU, 0)
  const MAX_INFLIGHT := 4

  const STREAM_INPUT := 5
  const STREAM_OUTPUT := 6
  datatype Descriptor = Descriptor(descriptorType: nat, descriptorIndex: nat)

  // What never changes while an entity runs. The descriptors are those of the configuration in use.
  datatype Config = Config(
    entityId: nat,
    isTalker: bool,
    isListener: bool,
    descriptors: seq<Descriptor>,
    talkers: seq<TalkerInfo>,
    connectPeriod: nat,
    disconnectPeriod: nat)
  {
    predicate Valid() { connectPeriod > 0 && disconnectPeriod > 0 }

    // The timeout, in microseconds, of the command a slot carries; other types never reach a slot.
    function Period(t: MessageType): nat {
      if t.ConnectTxCommand? then connectPeriod
      else if t.DisconnectTxCommand? then disconnectPeriod
      else 0
    }
  }

  datatype Entity = Entity(cfg: Config, listeners: seq<ListenerInfo>, inflight: seq<Inflight>)
  {
    predicate Valid() {
      cfg.Valid() && |inflight| == MAX_INFLIGHT
    }
  }
}
