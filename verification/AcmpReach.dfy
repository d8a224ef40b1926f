// Runs built step by step: which states controllers can bring about that inject only frames of a given set.
module AcmpReach {
  import opened AcmpTypes
  import opened AcmpSpec
  import opened AcmpNetwork
  import opened AcmpAgreement
  import opened AcmpRequests

  // A state and the time by which it was reached.
  datatype Point = Point(w: World, clock: nat)

  // The clock readings of the events never go back, and do not pass this one.
  predicate InOrder(evs: seq<Event>, clock: nat)
    decreases |evs|
  {
    if evs == [] then true
    else
      var ev, before := evs[|evs| - 1], evs[..|evs| - 1];
      if ev.Inject? then InOrder(before, clock) else ev.now <= clock && InOrder(before, ev.now)
  }

  // The same entities, as they are after some run.
  ghost predicate Within(w: World, w': World) {
    && Valid(w) && Valid(w') && |w'.entities| == |w.entities|
    && forall e :: 0 <= e < |w.entities| ==> w'.entities[e].cfg == w.entities[e].cfg
  }

  // Some run leads there in which controllers inject frames of this set only.
  ghost predicate Attained(w: World, allowed: iset<Pdu>, x: Point)
    requires Valid(w)
  {
    && (forall g :: g in x.w.injected ==> g in allowed)
    && exists evs :: Run(w, evs) == x.w && InOrder(evs, x.clock)
  }

  ghost predicate Reaches(w: World, allowed: iset<Pdu>, x: Point) { Within(w, x.w) && Attained(w, allowed, x) }

  lemma Starts(w: World, allowed: iset<Pdu>)
    requires Initial(w)
    ensures Reaches(w, allowed, Point(w, 0))
  {
    assert Run(w, []) == w && InOrder([], 0);
  }

  lemma {:induction false} InOrderLater(evs: seq<Event>, clock: nat, later: nat)
    requires InOrder(evs, clock) && clock <= later
    ensures InOrder(evs, later)
    decreases |evs|
  {
    if evs == [] {
    } else if evs[|evs| - 1].Inject? {
      InOrderLater(evs[..|evs| - 1], clock, later);
    }
  }

  lemma {:induction false} OrderedPrefix(evs: seq<Event>, clock: nat, k: nat)
    requires InOrder(evs, clock) && k <= |evs|
    ensures InOrder(evs[..k], clock)
    decreases |evs|
  {
    if k == |evs| {
      assert evs[..k] == evs;
    } else {
      var ev, before := evs[|evs| - 1], evs[..|evs| - 1];
      assert before[..k] == evs[..k];
      if ev.Inject? {
        OrderedPrefix(before, clock, k);
      } else {
        OrderedPrefix(before, ev.now, k);
        InOrderLater(evs[..k], ev.now, clock);
      }
    }
  }

  lemma Extend(w: World, allowed: iset<Pdu>, x: Point, ev: Event, now: nat)
    requires Reaches(w, allowed, x) && (ev.Inject? ==> ev.pdu in allowed)
    requires x.clock <= now && (!ev.Inject? ==> ev.now == now)
    ensures Reaches(w, allowed, Point(Step(x.w, ev), now))
  {
    var evs :| Run(w, evs) == x.w && InOrder(evs, x.clock);
    InOrderLater(evs, x.clock, now);
    assert (evs + [ev])[..|evs|] == evs;
    assert Run(w, evs + [ev]) == Step(x.w, ev);
    StepKeepsConfig(x.w, ev);
  }

  // ---- Events --------------------------------------------------------------------------------

  lemma Injecting(w: World, allowed: iset<Pdu>, x: Point, g: Pdu) returns (x': Point)
    requires Reaches(w, allowed, x) && g in allowed && !g.messageType.ConnectTxResponse?
    ensures Reaches(w, allowed, x') && x'.clock == x.clock
    ensures x'.w.entities == x.w.entities && x.w.sent <= x'.w.sent && g in x'.w.sent
  {
    hide Attained;
    Extend(w, allowed, x, Inject(g), x.clock);
    x' := Point(Step(x.w, Inject(g)), x.clock);
  }

  lemma Delivering(w: World, allowed: iset<Pdu>, x: Point, dst: nat, p: Pdu, o: Outcome) returns (x': Point)
    requires Reaches(w, allowed, x) && dst < |w.entities| && p in x.w.sent
    requires o == Receive(x.w.entities[dst], p, x.clock, true, 0)
    ensures Reaches(w, allowed, x') && x'.clock == x.clock && x'.w.entities == x.w.entities[dst := o.entity]
    ensures x.w.sent <= x'.w.sent && forall f :: f in o.frames ==> f in x'.w.sent
  {
    hide Attained;
    var ev := Deliver(dst, p, x.clock, true, 0);
    Extend(w, allowed, x, ev, x.clock);
    x' := Point(Step(x.w, ev), x.clock);
    assert x'.w == Put(x.w, dst, o);
  }

  lemma Ticking(w: World, allowed: iset<Pdu>, x: Point, l: nat, now: nat) returns (x': Point)
    requires Reaches(w, allowed, x) && l < |w.entities| && x.clock <= now
    ensures Reaches(w, allowed, x') && x'.clock == now && x.w.sent <= x'.w.sent
    ensures var e := x.w.entities[l];
      x'.w.entities == x.w.entities[l := e.(inflight := TickSlots(e.cfg, e.inflight, now, MAX_INFLIGHT))]
  {
    hide Attained;
    var ev := Timer(l, now, [true, true, true, true]);
    Extend(w, allowed, x, ev, now);
    x' := Point(Step(x.w, ev), now);
    assert x'.w == Put(x.w, l, Tick(x.w.entities[l], now, ev.links));
  }

  // ---- What the entities do in the steps of such a run -------------------------------------------

  // The listener opens a connect command for this frame, unless the stream is connected elsewhere.
  ghost predicate Opens(e: Entity, g: Pdu) { g.messageType.ConnectRxCommand? && IsOwnStream(e, g) }

  // The talker has a stream for this frame.
  ghost predicate Grants(e: Entity, h: Pdu) {
    && e.cfg.isTalker && e.cfg.entityId == h.talkerEntityId
    && ValidTalker(e, h.talkerUniqueId) && FindTalker(e.cfg.talkers, h.talkerUniqueId) < |e.cfg.talkers|
  }

  lemma ListenerOpens(e: Entity, g: Pdu, now: nat)
    requires e.Valid() && Opens(e, g) && !IsConnected(e, g) && FindFree(e.inflight) < MAX_INFLIGHT
    ensures Receive(e, g, now, true, 0) ==
      Outcome(e.(inflight := e.inflight[FindFree(e.inflight) := Opened(e.cfg, ConnectTxCommand, g, now)]),
              [TxResponse(ConnectTxCommand, g, Success)])
  {
    assert Receive(e, g, now, true, 0) == ListenerMachine(e, g, now, true)
      == TxCommand(e, ConnectTxCommand, g, now, true);
  }

  lemma ListenerCloses(e: Entity, q: Pdu, now: nat)
    requires e.Valid() && q.messageType.DisconnectRxCommand? && IsOwnStream(e, q) && IsConnectedTo(e, q)
    requires FindFree(e.inflight) < MAX_INFLIGHT
    ensures Receive(e, q, now, true, 0) ==
      Outcome(e.(inflight := e.inflight[FindFree(e.inflight) := Opened(e.cfg, DisconnectTxCommand, q, now)]),
              [TxResponse(DisconnectTxCommand, q, Success)])
  {
    assert Receive(e, q, now, true, 0) == ListenerMachine(e, q, now, true)
      == TxCommand(e, DisconnectTxCommand, q, now, true);
  }

  lemma TalkerGrants(e: Entity, h: Pdu, now: nat) returns (p: Pdu)
    requires Grants(e, h) && h.messageType.ConnectTxCommand?
    ensures Receive(e, h, now, true, 0) == Outcome(e, [p])
    ensures IsGrant(p) && Stems(p, h)
  {
    p := TalkerAnswer(e, ConnectTxResponse, h, 0);
    assert Receive(e, h, now, true, 0) == TalkerMachine(e, h, 0) == Outcome(e, [p]);
  }

  lemma TalkerCloses(e: Entity, q: Pdu, now: nat) returns (p: Pdu)
    requires e.cfg.isTalker && e.cfg.entityId == q.talkerEntityId && q.messageType.DisconnectTxCommand?
    ensures Receive(e, q, now, true, 0) == Outcome(e, [p])
    ensures p.messageType.DisconnectTxResponse? && Stems(p, q)
  {
    p := TxResponse(DisconnectTxResponse, q, if ValidTalker(e, q.talkerUniqueId) then Success else TalkerUnknownId);
    assert Receive(e, q, now, true, 0) == TalkerMachine(e, q, 0) == Outcome(e, [p]);
  }

  lemma ListenerFills(e: Entity, p: Pdu, now: nat)
    requires e.Valid() && IsGrant(p) && IsOwnStream(e, p) && FindMatch(e.inflight, p, true) < MAX_INFLIGHT
    ensures Receive(e, p, now, true, 0).entity ==
      e.(listeners := AddListener(e.listeners, p), inflight := e.inflight[FindMatch(e.inflight, p, true) := FREE_SLOT])
  {
    assert Receive(e, p, now, true, 0) == ListenerMachine(e, p, now, true) == ConnectTxAnswer(e, p);
  }

  lemma ListenerClears(e: Entity, p: Pdu, now: nat)
    requires e.Valid() && p.messageType.DisconnectTxResponse? && IsOwnStream(e, p)
    requires FindMatch(e.inflight, p, false) < MAX_INFLIGHT && FindConnected(e.listeners, p) < |e.listeners|
    ensures Receive(e, p, now, true, 0).entity ==
      e.(listeners := RemoveListener(e.listeners, p),
        inflight := e.inflight[FindMatch(e.inflight, p, false) := FREE_SLOT])
  {
    assert Receive(e, p, now, true, 0) == ListenerMachine(e, p, now, true) == DisconnectTxAnswer(e, p);
  }

  // ---- Stretches of a run ------------------------------------------------------------------------

  ghost predicate NoneConnected(e: Entity) {
    forall j :: 0 <= j < |e.listeners| ==> !e.listeners[j].connected
  }

  ghost predicate AllFree(slots: seq<Inflight>) {
    |slots| == MAX_INFLIGHT && forall i :: 0 <= i < MAX_INFLIGHT ==> !slots[i].Active()
  }

  // From a listener with a free slot and no connection, a grant for this request can be had. If the request was
  // made at the listener, it has opened a slot for it.
  lemma GettingGrant(w: World, allowed: iset<Pdu>, x: Point, l: nat, t: nat, h: Pdu) returns (x': Point, p: Pdu)
    requires Reaches(w, allowed, x) && l < |w.entities| && t < |w.entities|
    requires h in x.w.sent && IsRequest(h) && IsOwnStream(x.w.entities[l], h) && Grants(x.w.entities[t], h)
    requires NoneConnected(x.w.entities[l]) && FindFree(x.w.entities[l].inflight) < MAX_INFLIGHT
    ensures Reaches(w, allowed, x') && x.w.sent <= x'.w.sent
    ensures p in x'.w.sent && IsGrant(p) && Stems(p, h)
    ensures var e := x.w.entities[l];
      x'.w.entities == if h.messageType.ConnectTxCommand? then x.w.entities
        else x.w.entities[l :=
          e.(inflight := e.inflight[FindFree(e.inflight) := Opened(e.cfg, ConnectTxCommand, h, x.clock)])]
  {
    hide Attained;
    var x1, c := x, h;
    if h.messageType.ConnectRxCommand? {
      ListenerOpens(x.w.entities[l], h, x.clock);
      c := TxResponse(ConnectTxCommand, h, Success);
      var o := Receive(x.w.entities[l], h, x.clock, true, 0);
      assert c == o.frames[0];
      x1 := Delivering(w, allowed, x, l, h, o);
    }
    assert Grants(x1.w.entities[t], c);
    p := TalkerGrants(x1.w.entities[t], c, x.clock);
    var o := Receive(x1.w.entities[t], c, x.clock, true, 0);
    assert p == o.frames[0];
    x' := Delivering(w, allowed, x1, t, c, o);
    assert x1.w.entities[t := o.entity] == x1.w.entities;
  }

  // Only the slots of this listener differ.
  ghost predicate OnlySlots(x: Point, x': Point, l: nat)
    requires l < |x.w.entities|
  {
    && x.w.sent <= x'.w.sent && |x'.w.entities| == |x.w.entities|
    && x'.w.entities == x.w.entities[l := x.w.entities[l].(inflight := x'.w.entities[l].inflight)]
  }

  // Time passes until every command has been given up.
  lemma GivingUp(w: World, allowed: iset<Pdu>, x: Point, l: nat) returns (x': Point)
    requires Reaches(w, allowed, x) && l < |w.entities|
    requires forall i :: 0 <= i < MAX_INFLIGHT && x.w.entities[l].inflight[i].Active() ==>
      IsTxCommand(x.w.entities[l].inflight[i].command)
    ensures Reaches(w, allowed, x') && OnlySlots(x, x', l) && AllFree(x'.w.entities[l].inflight)
  {
    hide Attained;
    var e := x.w.entities[l];
    var now := x.clock + e.inflight[0].timeout + e.inflight[1].timeout + e.inflight[2].timeout + e.inflight[3].timeout;
    var x1 := Ticking(w, allowed, x, l, now);
    x' := Ticking(w, allowed, x1, l, now + e.cfg.connectPeriod + e.cfg.disconnectPeriod);
    forall i | 0 <= i < MAX_INFLIGHT ensures !x'.w.entities[l].inflight[i].Active() {
      TwoTicks(e.cfg, e.inflight[i], now);
    }
  }

  lemma TwoTicks(cfg: Config, s: Inflight, now: nat)
    requires s.timeout <= now && (s.Active() ==> IsTxCommand(s.command))
    ensures !TimedSlot(cfg, TimedSlot(cfg, s, now), now + cfg.connectPeriod + cfg.disconnectPeriod).Active()
  {}

  // A grant for this request is obtained beforehand; no slot is left taken.
  lemma ObtainingGrant(w: World, allowed: iset<Pdu>, x: Point, l: nat, t: nat, h: Pdu) returns (x': Point, p: Pdu)
    requires Reaches(w, allowed, x) && l < |w.entities| && t < |w.entities| && h in allowed
    requires IsRequest(h) && IsOwnStream(x.w.entities[l], h) && Grants(x.w.entities[t], h)
    requires NoneConnected(x.w.entities[l]) && AllFree(x.w.entities[l].inflight)
    ensures Reaches(w, allowed, x') && OnlySlots(x, x', l) && AllFree(x'.w.entities[l].inflight)
    ensures p in x'.w.sent && IsGrant(p) && Stems(p, h)
  {
    hide Attained;
    var x1 := Injecting(w, allowed, x, h);
    var x2;
    assert FindFree(x1.w.entities[l].inflight) == 0;
    x2, p := GettingGrant(w, allowed, x1, l, t, h);
    x' := GivingUp(w, allowed, x2, l);
  }

  // The listener takes up a connect command, and the command goes out.
  lemma TakingUp(w: World, allowed: iset<Pdu>, x: Point, l: nat, g: Pdu) returns (x': Point)
    requires Reaches(w, allowed, x) && l < |w.entities| && g in allowed && Opens(x.w.entities[l], g)
    requires !IsConnected(x.w.entities[l], g) && FindFree(x.w.entities[l].inflight) < MAX_INFLIGHT
    ensures Reaches(w, allowed, x') && x'.clock == x.clock && OnlySlots(x, x', l)
    ensures TxResponse(ConnectTxCommand, g, Success) in x'.w.sent
    ensures var e := x.w.entities[l];
      x'.w.entities[l].inflight == e.inflight[FindFree(e.inflight) := Opened(e.cfg, ConnectTxCommand, g, x.clock)]
  {
    hide Attained;
    var x1 := Injecting(w, allowed, x, g);
    ListenerOpens(x1.w.entities[l], g, x.clock);
    var o := Receive(x1.w.entities[l], g, x.clock, true, 0);
    assert TxResponse(ConnectTxCommand, g, Success) == o.frames[0];
    x' := Delivering(w, allowed, x1, l, g, o);
  }

  // The listener takes up a disconnect command, and the command goes out.
  lemma TakingDown(w: World, allowed: iset<Pdu>, x: Point, l: nat, q: Pdu) returns (x': Point)
    requires Reaches(w, allowed, x) && l < |w.entities| && q in allowed && q.messageType.DisconnectRxCommand?
    requires IsOwnStream(x.w.entities[l], q) && IsConnectedTo(x.w.entities[l], q)
    requires FindFree(x.w.entities[l].inflight) < MAX_INFLIGHT
    ensures Reaches(w, allowed, x') && x'.clock == x.clock && OnlySlots(x, x', l)
    ensures TxResponse(DisconnectTxCommand, q, Success) in x'.w.sent
    ensures var e := x.w.entities[l];
      x'.w.entities[l].inflight == e.inflight[FindFree(e.inflight) := Opened(e.cfg, DisconnectTxCommand, q, x.clock)]
  {
    hide Attained;
    var x1 := Injecting(w, allowed, x, q);
    ListenerCloses(x1.w.entities[l], q, x.clock);
    var o := Receive(x1.w.entities[l], q, x.clock, true, 0);
    assert TxResponse(DisconnectTxCommand, q, Success) == o.frames[0];
    x' := Delivering(w, allowed, x1, l, q, o);
  }

  // A grant fills the free record of its stream and releases the first slot it matches.
  lemma Filling(w: World, allowed: iset<Pdu>, x: Point, l: nat, p: Pdu) returns (x': Point)
    requires Reaches(w, allowed, x) && l < |w.entities| && p in x.w.sent && IsGrant(p)
      && IsOwnStream(x.w.entities[l], p)
    requires FindMatch(x.w.entities[l].inflight, p, true) < MAX_INFLIGHT
    ensures Reaches(w, allowed, x') && x'.clock == x.clock && x.w.sent <= x'.w.sent
    ensures var e := x.w.entities[l];
      x'.w.entities == x.w.entities[l := e.(listeners := AddListener(e.listeners, p),
                                         inflight := e.inflight[FindMatch(e.inflight, p, true) := FREE_SLOT])]
  {
    hide Attained;
    ListenerFills(x.w.entities[l], p, x.clock);
    x' := Delivering(w, allowed, x, l, p, Receive(x.w.entities[l], p, x.clock, true, 0));
  }
}
