// Any number of entities and controllers on a network that may lose, duplicate, delay and reorder frames.
// A run is a list of events; a frame, once sent, may be delivered any number of times, to anyone, at any time.
module AcmpNetwork {
  import opened AcmpTypes
  import opened AcmpSpec

  datatype World = World(entities: seq<Entity>, sent: set<Pdu>, injected: set<Pdu>)

  datatype Event =
    | Inject(pdu: Pdu)                                                     // a controller sends a frame
    | Deliver(dst: nat, pdu: Pdu, now: nat, link: bool, count: nat)        // an entity receives a frame
    | Timer(dst: nat, now: nat, links: seq<bool>)                          // an entity runs its timer

  // Controllers send anything but a talker's answer to CONNECT_TX.
  predicate Enabled(w: World, ev: Event) {
    match ev
    case Inject(p) => !p.messageType.ConnectTxResponse?
    case Deliver(dst, p, _, _, _) => dst < |w.entities| && p in w.sent
    case Timer(dst, _, links) => dst < |w.entities| && |links| == MAX_INFLIGHT
  }

  function Elements(fs: seq<Pdu>): set<Pdu> { set f | f in fs }

  function Put(w: World, dst: nat, o: Outcome): World
    requires dst < |w.entities|
  {
    w.(entities := w.entities[dst := o.entity], sent := w.sent + Elements(o.frames))
  }

  ghost predicate Valid(w: World) {
    forall e :: 0 <= e < |w.entities| ==> w.entities[e].Valid()
  }

  ghost function OutcomeOf(w: World, ev: Event): Outcome
    requires Valid(w) && Enabled(w, ev) && !ev.Inject?
  {
    match ev
    case Deliver(dst, p, now, link, count) => Receive(w.entities[dst], p, now, link, count)
    case Timer(dst, now, links) => Tick(w.entities[dst], now, links)
  }

  // An event that is not enabled changes nothing.
  ghost function Step(w: World, ev: Event): (w': World)
    requires Valid(w)
    ensures |w'.entities| == |w.entities|
  {
    if !Enabled(w, ev) then w
    else if ev.Inject? then w.(sent := w.sent + {ev.pdu}, injected := w.injected + {ev.pdu})
    else Put(w, ev.dst, OutcomeOf(w, ev))
  }

  ghost function Run(w: World, evs: seq<Event>): (w': World)
    requires Valid(w)
    ensures Valid(w') && |w'.entities| == |w.entities|
    ensures forall e :: 0 <= e < |w.entities| ==> w'.entities[e].cfg == w.entities[e].cfg
  {
    if evs == [] then w
    else
      var before := Run(w, evs[..|evs| - 1]);
      StepKeepsConfig(before, evs[|evs| - 1]);
      Step(before, evs[|evs| - 1])
  }

  lemma ReceiveKeepsConfig(e: Entity, p: Pdu, now: nat, link: bool, count: nat)
    requires e.Valid()
    ensures var e' := Receive(e, p, now, link, count).entity;
            e'.Valid() && e'.cfg == e.cfg && |e'.listeners| == |e.listeners|
  {}

  lemma StepKeepsConfig(w: World, ev: Event)
    requires Valid(w)
    ensures Valid(Step(w, ev))
    ensures forall e :: 0 <= e < |w.entities| ==>
      Step(w, ev).entities[e].cfg == w.entities[e].cfg
        && |Step(w, ev).entities[e].listeners| == |w.entities[e].listeners|
  {
    if Enabled(w, ev) && ev.Deliver? {
      ReceiveKeepsConfig(w.entities[ev.dst], ev.pdu, ev.now, ev.link, ev.count);
    }
  }

  lemma RunStep(w: World, evs: seq<Event>, k: nat)
    requires Valid(w) && k < |evs|
    ensures Run(w, evs[..k + 1]) == Step(Run(w, evs[..k]), evs[k])
  {
    assert evs[..k + 1][..k] == evs[..k];
  }

  ghost predicate DistinctIds(w: World) {
    forall a, b :: 0 <= a < b < |w.entities| ==> w.entities[a].cfg.entityId != w.entities[b].cfg.entityId
  }

  // Nothing sent yet, no record connected, no command in flight.
  ghost predicate Initial(w: World) {
    && w.sent == {} && w.injected == {}
    && Valid(w)
    && forall e :: 0 <= e < |w.entities| ==>
         && (forall j :: 0 <= j < |w.entities[e].listeners| ==> !w.entities[e].listeners[j].connected)
         && (forall i :: 0 <= i < MAX_INFLIGHT ==> !w.entities[e].inflight[i].Active())
  }
}
