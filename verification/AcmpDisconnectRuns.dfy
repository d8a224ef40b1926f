// For every conflict of requests a run in which the answer to a disconnection releases the wrong command.
module AcmpDisconnectRuns {
  import opened AcmpTypes
  import opened AcmpSpec
  import opened AcmpNetwork
  import opened AcmpAgreement
  import opened AcmpExclusivity
  import opened AcmpRequests
  import opened AcmpReach
  import opened AcmpCrossing
  import opened AcmpDisconnects

  // ---- Records ------------------------------------------------------------------------------------

  // The record found for the stream names its talker.
  predicate Connected(ls: seq<ListenerInfo>, y: Pdu) {
    var k := FindListener(ls, y.listenerUniqueId);
    k < |ls| && NamesPair(ls[k], y)
  }

  lemma FoundConnected(ls: seq<ListenerInfo>, q: Pdu, p: Pdu)
    requires Connected(ls, q) && SameStream(p, q)
    ensures FindConnected(ls, p) < |ls|
  {
    var k := FindListener(ls, q.listenerUniqueId);
    assert ls[k].listenerUniqueId == p.listenerUniqueId && NamesPair(ls[k], p);
  }

  lemma GrantConnects(ls: seq<ListenerInfo>, p: Pdu, y: Pdu)
    requires SameStream(p, y) && AddStatus(ls, p).Success?
    ensures Connected(AddListener(ls, p), y)
  {
    var k := FindListener(ls, p.listenerUniqueId);
    var ls' := AddListener(ls, p);
    assert ls'[k].listenerUniqueId == y.listenerUniqueId && NamesPair(ls'[k], y);
    assert forall m :: 0 <= m < k ==> ls'[m].listenerUniqueId != y.listenerUniqueId;
  }

  // A grant for another listener stream leaves this one as it is.
  lemma GrantElsewhere(ls: seq<ListenerInfo>, p: Pdu, id: nat)
    requires p.listenerUniqueId != id
    ensures FindListener(AddListener(ls, p), id) == FindListener(ls, id)
    ensures FindListener(ls, id) < |ls| ==> AddListener(ls, p)[FindListener(ls, id)] == ls[FindListener(ls, id)]
  {
    var ls' := AddListener(ls, p);
    assert forall m :: 0 <= m < |ls| ==> (ls'[m].listenerUniqueId == id <==> ls[m].listenerUniqueId == id);
  }

  lemma BothConnected(ls: seq<ListenerInfo>, p: Pdu, p': Pdu, q: Pdu, s: Pdu)
    requires SameStream(p, q) && SameStream(p', s) && s.listenerUniqueId != q.listenerUniqueId
    requires AddStatus(ls, p).Success? && AddStatus(ls, p').Success?
    ensures AddStatus(AddListener(ls, p'), p).Success?
    ensures var after := AddListener(AddListener(ls, p'), p); Connected(after, q) && Connected(after, s)
  {
    GrantConnects(ls, p', s);
    GrantElsewhere(ls, p', q.listenerUniqueId);
    var ls' := AddListener(ls, p');
    GrantConnects(ls', p, q);
    GrantElsewhere(ls', p, s.listenerUniqueId);
  }

  // ---- Slots --------------------------------------------------------------------------------------

  ghost predicate OnlyInFlight(e: Entity, i: nat) {
    && |e.inflight| == MAX_INFLIGHT && i < MAX_INFLIGHT && e.inflight[i].Active()
    && forall k :: 0 <= k < MAX_INFLIGHT && k != i ==> !e.inflight[k].Active()
  }

  // The command was sent once, and will not be given up before a disconnection from now on.
  predicate Lasts(e: Entity, i: nat, now: nat) {
    i < |e.inflight| && !e.inflight[i].retried && e.inflight[i].timeout > now + e.cfg.disconnectPeriod
  }

  // The next answer under the sequence id of slot i releases that slot.
  ghost predicate NextReleased(e: Entity, i: nat) {
    && |e.inflight| == MAX_INFLIGHT && i < MAX_INFLIGHT && e.inflight[i].Active()
    && forall k :: 0 <= k < i ==> !e.inflight[k].Active()
  }

  lemma DisconnectTicks(cfg: Config, q: Pdu, now: nat)
    requires cfg.Valid()
    ensures var d := cfg.disconnectPeriod;
      !TimedSlot(cfg, TimedSlot(cfg, Opened(cfg, DisconnectTxCommand, q, now), now + d), now + 2 * d).Active()
  {}

  lemma LastingTicks(cfg: Config, s: Inflight, now: nat)
    requires cfg.Valid() && s.Active() && !s.retried && s.timeout > now + cfg.disconnectPeriod
    ensures var d := cfg.disconnectPeriod;
      var s' := TimedSlot(cfg, TimedSlot(cfg, s, now + d), now + 2 * d); s'.Active() && s'.command == s.command
  {}

  // ---- Obtaining the answer -----------------------------------------------------------------------

  // The disconnection in the first slot is given up after two timeouts, before the command in the second one.
  lemma GivingUpFirst(w: World, allowed: iset<Pdu>, x: Point, l: nat, q: Pdu) returns (x': Point)
    requires Reaches(w, allowed, x) && l < |w.entities| && Lasts(x.w.entities[l], 1, x.clock)
    requires var e := x.w.entities[l];
      e.inflight[0] == Opened(e.cfg, DisconnectTxCommand, q, x.clock) && e.inflight[1].Active()
    ensures Reaches(w, allowed, x') && OnlySlots(x, x', l) && NextReleased(x'.w.entities[l], 1)
    ensures x'.w.entities[l].inflight[1].command == x.w.entities[l].inflight[1].command
  {
    hide Attained;
    var e := x.w.entities[l];
    var d := e.cfg.disconnectPeriod;
    var x1 := Ticking(w, allowed, x, l, x.clock + d);
    x' := Ticking(w, allowed, x1, l, x.clock + 2 * d);
    DisconnectTicks(e.cfg, q, x.clock);
    LastingTicks(e.cfg, e.inflight[1], x.clock);
  }

  lemma AskingTalker(w: World, allowed: iset<Pdu>, x: Point, t: nat, q: Pdu) returns (x': Point, p: Pdu)
    requires Reaches(w, allowed, x) && t < |w.entities| && q in x.w.sent && q.messageType.DisconnectTxCommand?
    requires x.w.entities[t].cfg.isTalker && x.w.entities[t].cfg.entityId == q.talkerEntityId
    ensures Reaches(w, allowed, x') && x'.clock == x.clock && x'.w.entities == x.w.entities && x.w.sent <= x'.w.sent
    ensures p in x'.w.sent && p.messageType.DisconnectTxResponse? && Stems(p, q)
  {
    hide Attained;
    p := TalkerCloses(x.w.entities[t], q, x.clock);
    var o := Receive(x.w.entities[t], q, x.clock, true, 0);
    assert p == o.frames[0];
    x' := Delivering(w, allowed, x, t, q, o);
  }

  // A disconnection asked for at the listener takes a slot of its own; if that comes before the other command's,
  // it is given up before the answer is delivered.
  lemma AskingListener(w: World, allowed: iset<Pdu>, x: Point, l: nat, t: nat, q: Pdu, i: nat)
    returns (x': Point, p: Pdu)
    requires Reaches(w, allowed, x) && l < |w.entities| && t < |w.entities| && q in allowed
    requires q.messageType.DisconnectRxCommand? && IsOwnStream(x.w.entities[l], q)
      && Connected(x.w.entities[l].listeners, q)
    requires x.w.entities[t].cfg.isTalker && x.w.entities[t].cfg.entityId == q.talkerEntityId
    requires OnlyInFlight(x.w.entities[l], i) && i < 2 && (i == 1 ==> Lasts(x.w.entities[l], i, x.clock))
    ensures Reaches(w, allowed, x') && OnlySlots(x, x', l) && NextReleased(x'.w.entities[l], i)
    ensures x'.w.entities[l].inflight[i].command == x.w.entities[l].inflight[i].command
    ensures p in x'.w.sent && p.messageType.DisconnectTxResponse? && Stems(p, q)
  {
    hide Attained;
    assert !x.w.entities[l].inflight[1 - i].Active();
    assert FindFree(x.w.entities[l].inflight) == 1 - i;
    var x1 := TakingDown(w, allowed, x, l, q);
    assert x1.w.entities[t].cfg == x.w.entities[t].cfg;
    x', p := AskingTalker(w, allowed, x1, t, TxResponse(DisconnectTxCommand, q, Success));
    if i == 1 { x' := GivingUpFirst(w, allowed, x', l, q); }
  }

  // However the disconnection is asked for, its answer can be had while the other command stays in flight.
  lemma ObtainingAnswer(w: World, allowed: iset<Pdu>, x: Point, l: nat, t: nat, q: Pdu, i: nat)
    returns (x': Point, p: Pdu)
    requires Reaches(w, allowed, x) && l < |w.entities| && t < |w.entities| && q in allowed && IsDisconnect(q)
    requires IsOwnStream(x.w.entities[l], q) && Connected(x.w.entities[l].listeners, q) && Grants(x.w.entities[t], q)
    requires OnlyInFlight(x.w.entities[l], i) && i < 2 && (i == 1 ==> Lasts(x.w.entities[l], i, x.clock))
    ensures Reaches(w, allowed, x') && OnlySlots(x, x', l) && NextReleased(x'.w.entities[l], i)
    ensures x'.w.entities[l].inflight[i].command == x.w.entities[l].inflight[i].command
    ensures p in x'.w.sent && p.messageType.DisconnectTxResponse? && Stems(p, q)
  {
    hide Attained;
    if q.messageType.DisconnectRxCommand? {
      x', p := AskingListener(w, allowed, x, l, t, q, i);
    } else {
      x' := Injecting(w, allowed, x, q);
      if q.messageType.DisconnectTxCommand? {
        x', p := AskingTalker(w, allowed, x', t, q);
      } else {
        p := q;
      }
    }
  }

  // With the answer delivered, the other command is released.
  lemma AnswerReleases(w: World, allowed: iset<Pdu>, x: Point, l: nat, q: Pdu, i: nat) returns (x': Point, p: Pdu)
    requires Initial(w) && Reaches(w, allowed, x) && l < |w.entities| && q in allowed && IsDisconnect(q)
    requires Connectable(w, l, allowed, q) && Connected(x.w.entities[l].listeners, q)
    requires OnlyInFlight(x.w.entities[l], i) && i < 2 && (i == 1 ==> Lasts(x.w.entities[l], i, x.clock))
    requires var c := x.w.entities[l].inflight[i].command;
      c.sequenceId == q.sequenceId && !Stems(c, q)
    ensures Reaches(w, allowed, x') && DisconnectCrosses(x'.w, l, p, i)
  {
    hide Attained;
    var g, h :| g in allowed && h in allowed && Connects(w, l, g, h, q);
    var t :| 0 <= t < |w.entities| && Grants(w.entities[t], h);
    OwnStreamStays(w, allowed, x, l, q);
    x', p := ObtainingAnswer(w, allowed, x, l, t, q, i);
    var e := x'.w.entities[l];
    assert Matches(e.inflight[i], p, false) && FindMatch(e.inflight, p, false) == i;
    FoundConnected(e.listeners, q, p);
    OwnStreamStays(w, allowed, x', l, p);
    ListenerClears(e, p, 0);
  }

  // ---- A command to connect -----------------------------------------------------------------------

  // Two connect commands are in flight, and nothing else.
  ghost predicate BothInFlight(e: Entity, s: Pdu, g: Pdu, now: nat) {
    && |e.inflight| == MAX_INFLIGHT && !e.inflight[2].Active() && !e.inflight[3].Active()
    && e.inflight[0] == Opened(e.cfg, ConnectTxCommand, s, now)
    && e.inflight[1] == Opened(e.cfg, ConnectTxCommand, g, now)
  }

  lemma TakingUpBoth(w: World, allowed: iset<Pdu>, x: Point, l: nat, s: Pdu, g: Pdu) returns (x': Point)
    requires Reaches(w, allowed, x) && l < |w.entities| && s in allowed && g in allowed
    requires Opens(x.w.entities[l], s) && Opens(x.w.entities[l], g)
    requires NoneConnected(x.w.entities[l]) && AllFree(x.w.entities[l].inflight)
    ensures Reaches(w, allowed, x') && x'.clock == x.clock && OnlySlots(x, x', l)
    ensures BothInFlight(x'.w.entities[l], s, g, x.clock)
  {
    hide Attained;
    assert FindFree(x.w.entities[l].inflight) == 0;
    var x1 := TakingUp(w, allowed, x, l, s);
    assert FindFree(x1.w.entities[l].inflight) == 1;
    x' := TakingUp(w, allowed, x1, l, g);
  }

  // A grant for one of them leaves a command under the sequence id of the other.
  lemma OneIsLeft(e: Entity, s: Pdu, g: Pdu, now: nat, p: Pdu) returns (i: nat)
    requires e.Valid() && BothInFlight(e, s, g, now) && p.sequenceId == g.sequenceId
    ensures i < 2 && FindMatch(e.inflight, p, true) == 1 - i
    ensures OnlyInFlight(e.(inflight := e.inflight[1 - i := FREE_SLOT]), i)
    ensures e.inflight[i] == Opened(e.cfg, ConnectTxCommand, if i == 0 then s else g, now)
    ensures e.inflight[i].command.sequenceId == s.sequenceId
  {
    assert Matches(e.inflight[1], p, true);
    i := if s.sequenceId == p.sequenceId then 1 else 0;
    assert Matches(e.inflight[0], p, true) <==> i == 1;
    var f := FindMatch(e.inflight, p, true);
    assert f == 1 - i;
  }

  lemma WithConnectCommand(w: World, allowed: iset<Pdu>, l: nat, s: Pdu, q: Pdu) returns (x: Point, i: nat)
    requires Initial(w) && l < |w.entities| && s in allowed && Opens(w.entities[l], s) && Connectable(w, l, allowed, q)
    requires w.entities[l].cfg.connectPeriod > w.entities[l].cfg.disconnectPeriod
    ensures Reaches(w, allowed, x) && Connected(x.w.entities[l].listeners, q)
    ensures OnlyInFlight(x.w.entities[l], i) && i < 2 && Lasts(x.w.entities[l], i, x.clock)
    ensures var c := x.w.entities[l].inflight[i].command;
      c.messageType.ConnectTxCommand? && c.sequenceId == s.sequenceId
  {
    hide Attained;
    var g, h :| g in allowed && h in allowed && Connects(w, l, g, h, q);
    var t :| 0 <= t < |w.entities| && Grants(w.entities[t], h);
    Starts(w, allowed);
    var x1, p := ObtainingGrant(w, allowed, Point(w, 0), l, t, h);
    var x2 := TakingUpBoth(w, allowed, x1, l, s, g);
    var e := x2.w.entities[l];
    i := OneIsLeft(e, s, g, x2.clock, p);
    x := Filling(w, allowed, x2, l, p);
    assert AddStatus(e.listeners, p).Success?;
    GrantConnects(e.listeners, p, q);
  }

  // ---- A command to disconnect --------------------------------------------------------------------

  // A state from which streams can be connected.
  ghost predicate Ready(w: World, x: Point, l: nat)
    requires Within(w, x.w) && l < |w.entities|
  {
    var e := x.w.entities[l];
    |e.listeners| == |w.entities[l].listeners| && NoneConnected(e) && AllFree(e.inflight)
  }

  // The stream is connected by a grant that was obtained beforehand; other commands may be in flight.
  lemma ConnectingWith(w: World, allowed: iset<Pdu>, x: Point, l: nat, g: Pdu, p: Pdu, q: Pdu) returns (x': Point)
    requires Reaches(w, allowed, x) && l < |w.entities| && g in allowed && Opens(x.w.entities[l], g)
    requires p in x.w.sent && IsGrant(p) && IsOwnStream(x.w.entities[l], p) && SameStream(p, q)
    requires g.sequenceId == p.sequenceId && NoneConnected(x.w.entities[l]) && HasRecord(x.w.entities[l].listeners, q)
    requires FindFree(x.w.entities[l].inflight) == 0
    ensures Reaches(w, allowed, x') && x.w.sent <= x'.w.sent && x'.clock == x.clock
    ensures var e := x.w.entities[l];
      AddStatus(e.listeners, p).Success? && x'.w.entities == x.w.entities[l :=
        e.(listeners := AddListener(e.listeners, p), inflight := e.inflight[0 := FREE_SLOT])]
    ensures Connected(x'.w.entities[l].listeners, q)
  {
    hide Attained;
    var x1 := TakingUp(w, allowed, x, l, g);
    var e, e1 := x.w.entities[l], x1.w.entities[l];
    OpenedMatches(e, g, x.clock, ConnectTxCommand, p);
    assert FindMatch(e1.inflight, p, true) == 0;
    x' := Filling(w, allowed, x1, l, p);
    assert e1.inflight[0 := FREE_SLOT] == e.inflight[0 := FREE_SLOT];
    assert AddStatus(e.listeners, p).Success?;
    GrantConnects(e.listeners, p, q);
  }

  lemma ConnectingOne(w: World, allowed: iset<Pdu>, x: Point, l: nat, q: Pdu) returns (x': Point, p: Pdu)
    requires Reaches(w, allowed, x) && l < |w.entities| && Connectable(w, l, allowed, q)
    requires Ready(w, x, l) && HasRecord(x.w.entities[l].listeners, q)
    ensures Reaches(w, allowed, x') && x.w.sent <= x'.w.sent && AllFree(x'.w.entities[l].inflight)
    ensures SameStream(p, q) && AddStatus(x.w.entities[l].listeners, p).Success?
    ensures x'.w.entities[l].listeners == AddListener(x.w.entities[l].listeners, p)
    ensures Connected(x'.w.entities[l].listeners, q)
  {
    hide Attained;
    var g, h :| g in allowed && h in allowed && Connects(w, l, g, h, q);
    var t :| 0 <= t < |w.entities| && Grants(w.entities[t], h);
    OwnStreamStays(w, allowed, x, l, g);
    OwnStreamStays(w, allowed, x, l, h);
    var x1;
    x1, p := ObtainingGrant(w, allowed, x, l, t, h);
    assert FindFree(x1.w.entities[l].inflight) == 0;
    x' := ConnectingWith(w, allowed, x1, l, g, p, q);
  }

  // The two grants are obtained beforehand, and both commands opened, before the first stream is connected.
  lemma ObtainingBoth(w: World, allowed: iset<Pdu>, l: nat, h: Pdu, h': Pdu) returns (x: Point, p: Pdu, p': Pdu)
    requires Initial(w) && l < |w.entities| && h in allowed && h' in allowed && Granted(w, l, h) && Granted(w, l, h')
    ensures Reaches(w, allowed, x) && OnlySlots(Point(w, 0), x, l) && AllFree(x.w.entities[l].inflight)
    ensures p in x.w.sent && IsGrant(p) && Stems(p, h) && p' in x.w.sent && IsGrant(p') && Stems(p', h')
  {
    hide Attained;
    var t :| 0 <= t < |w.entities| && Grants(w.entities[t], h);
    var t' :| 0 <= t' < |w.entities| && Grants(w.entities[t'], h');
    Starts(w, allowed);
    var x1;
    x1, p := ObtainingGrant(w, allowed, Point(w, 0), l, t, h);
    assert x1.w.entities[t'].cfg == w.entities[t'].cfg;
    x, p' := ObtainingGrant(w, allowed, x1, l, t', h');
  }

  lemma ConnectingBoth(w: World, allowed: iset<Pdu>, l: nat, s: Pdu, q: Pdu) returns (x: Point)
    requires Initial(w) && l < |w.entities| && Connectable(w, l, allowed, s) && Connectable(w, l, allowed, q)
    requires s.listenerUniqueId != q.listenerUniqueId
    ensures Reaches(w, allowed, x) && AllFree(x.w.entities[l].inflight)
    ensures Connected(x.w.entities[l].listeners, s) && Connected(x.w.entities[l].listeners, q)
  {
    hide Attained;
    var g, h :| g in allowed && h in allowed && Connects(w, l, g, h, q);
    var g', h' :| g' in allowed && h' in allowed && Connects(w, l, g', h', s);
    var x1, p, p' := ObtainingBoth(w, allowed, l, h, h');
    var x2 := TakingUpBoth(w, allowed, x1, l, g, g');
    x := FillingBoth(w, allowed, x2, l, g, g', p, p', q, s);
  }

  lemma FillingBoth(w: World, allowed: iset<Pdu>, x: Point, l: nat, g: Pdu, g': Pdu, p: Pdu, p': Pdu, q: Pdu, s: Pdu)
    returns (x': Point)
    requires Reaches(w, allowed, x) && l < |w.entities| && BothInFlight(x.w.entities[l], g, g', x.clock)
    requires p in x.w.sent && IsGrant(p) && p.sequenceId == g.sequenceId && SameStream(p, q)
    requires p' in x.w.sent && IsGrant(p') && p'.sequenceId == g'.sequenceId && SameStream(p', s)
    requires IsOwnStream(x.w.entities[l], p) && IsOwnStream(x.w.entities[l], p')
    requires s.listenerUniqueId != q.listenerUniqueId
    requires AddStatus(x.w.entities[l].listeners, p).Success? && AddStatus(x.w.entities[l].listeners, p').Success?
    ensures Reaches(w, allowed, x') && AllFree(x'.w.entities[l].inflight)
    ensures Connected(x'.w.entities[l].listeners, s) && Connected(x'.w.entities[l].listeners, q)
  {
    hide Attained;
    var e := x.w.entities[l];
    var i := OneIsLeft(e, g, g', x.clock, p');
    var x1 := Filling(w, allowed, x, l, p');
    var e1 := x1.w.entities[l];
    assert Matches(e1.inflight[i], p, true) && FindMatch(e1.inflight, p, true) == i;
    x' := Filling(w, allowed, x1, l, p);
    BothConnected(e.listeners, p, p', q, s);
  }

  lemma WithDisconnectCommand(w: World, allowed: iset<Pdu>, l: nat, s: Pdu, q: Pdu) returns (x: Point)
    requires Initial(w) && AllSlotIds(w) && l < |w.entities| && s in allowed && s.messageType.DisconnectRxCommand?
    requires IsOwnStream(w.entities[l], s) && Connectable(w, l, allowed, s) && Connectable(w, l, allowed, q)
    requires s.listenerUniqueId == q.listenerUniqueId ==> SameStream(s, q)
    ensures Reaches(w, allowed, x) && Connected(x.w.entities[l].listeners, q)
    ensures OnlyInFlight(x.w.entities[l], 0) && HoldsCommand(x.w.entities[l].inflight[0], s)
  {
    hide Attained;
    var x1;
    if s.listenerUniqueId == q.listenerUniqueId {
      Starts(w, allowed);
      var p;
      x1, p := ConnectingOne(w, allowed, Point(w, 0), l, q);
    } else {
      x1 := ConnectingBoth(w, allowed, l, s, q);
    }
    var e := x1.w.entities[l];
    assert Connected(e.listeners, s);
    OwnStreamStays(w, allowed, x1, l, s);
    assert FindFree(e.inflight) == 0;
    x := TakingDown(w, allowed, x1, l, s);
  }

  predicate HoldsCommand(i: Inflight, s: Pdu) {
    i.Active() && i.command.messageType.DisconnectTxCommand? && SameRequest(i.command, s)
  }

  // ---- A command to disconnect a stream without a record ------------------------------------------

  lemma WithUnknownStream(w: World, allowed: iset<Pdu>, x: Point, l: nat, s: Pdu, q: Pdu) returns (x': Point)
    requires Reaches(w, allowed, x) && l < |w.entities| && Ready(w, x, l)
    requires s in allowed && s.messageType.DisconnectRxCommand? && IsOwnStream(w.entities[l], s)
    requires Connectable(w, l, allowed, q)
    requires HasRecord(x.w.entities[l].listeners, q) && !HasRecord(x.w.entities[l].listeners, s)
    ensures Reaches(w, allowed, x') && Connected(x'.w.entities[l].listeners, q)
    ensures OnlyInFlight(x'.w.entities[l], 0) && HoldsCommand(x'.w.entities[l].inflight[0], s)
  {
    hide Attained;
    var x1, p := ConnectingOne(w, allowed, x, l, q);
    GrantElsewhere(x.w.entities[l].listeners, p, s.listenerUniqueId);
    OwnStreamStays(w, allowed, x1, l, s);
    assert FindFree(x1.w.entities[l].inflight) == 0;
    x' := TakingDown(w, allowed, x1, l, s);
  }

  // ---- Removing a connection ----------------------------------------------------------------------

  // The answer to a disconnection removes its stream and releases the first slot it matches.
  lemma Clearing(w: World, allowed: iset<Pdu>, x: Point, l: nat, p: Pdu) returns (x': Point)
    requires Reaches(w, allowed, x) && l < |w.entities| && p in x.w.sent && p.messageType.DisconnectTxResponse?
    requires IsOwnStream(x.w.entities[l], p) && FindMatch(x.w.entities[l].inflight, p, false) < MAX_INFLIGHT
    requires FindConnected(x.w.entities[l].listeners, p) < |x.w.entities[l].listeners|
    ensures Reaches(w, allowed, x') && x'.clock == x.clock && x.w.sent <= x'.w.sent
    ensures var e := x.w.entities[l];
      x'.w.entities == x.w.entities[l := e.(listeners := RemoveListener(e.listeners, p),
                                           inflight := e.inflight[FindMatch(e.inflight, p, false) := FREE_SLOT])]
  {
    hide Attained;
    ListenerClears(x.w.entities[l], p, x.clock);
    x' := Delivering(w, allowed, x, l, p, Receive(x.w.entities[l], p, x.clock, true, 0));
  }

  // A record that was filled and cleared again.
  lemma AddedAndRemoved(ls: seq<ListenerInfo>, p: Pdu, p': Pdu)
    requires SlotIds(ls) && AddStatus(ls, p).Success? && SameStream(p, p')
    requires forall j :: 0 <= j < |ls| ==> !ls[j].connected
    ensures var ls' := RemoveListener(AddListener(ls, p), p');
      p.listenerUniqueId < |ls| && ls' == ls[p.listenerUniqueId := ZERO_LISTENER] && SlotIds(ls')
    ensures FindConnected(AddListener(ls, p), p') < |ls|
  {
    FindSlot(ls, p.listenerUniqueId);
    var filled := AddListener(ls, p);
    var r := filled[p.listenerUniqueId];
    assert NamesPair(r, p') && r.listenerUniqueId == p'.listenerUniqueId;
  }

  // The stream is connected, commands to disconnect it are taken up once or twice, and one of them is answered.
  lemma ConnectingAndRemoving(w: World, allowed: iset<Pdu>, x: Point, l: nat, r: Pdu, twice: bool)
    returns (x': Point, p: Pdu)
    requires Reaches(w, allowed, x) && l < |w.entities| && Ready(w, x, l) && HasRecord(x.w.entities[l].listeners, r)
    requires r in allowed && r.messageType.DisconnectRxCommand? && IsOwnStream(w.entities[l], r)
    requires Connectable(w, l, allowed, r) && SlotIds(x.w.entities[l].listeners)
    ensures Reaches(w, allowed, x') && x.w.sent <= x'.w.sent && p in x'.w.sent
    ensures p.messageType.DisconnectTxResponse? && Stems(p, r)
    ensures var e, e' := x.w.entities[l], x'.w.entities[l];
      && r.listenerUniqueId < |e.listeners| && e'.listeners == e.listeners[r.listenerUniqueId := ZERO_LISTENER]
      && SlotIds(e'.listeners) && NoneConnected(e')
      && if twice then OnlyInFlight(e', 1) && HoldsCommand(e'.inflight[1], r) else AllFree(e'.inflight)
  {
    hide Attained;
    var x1, grant := ConnectingOne(w, allowed, x, l, r);
    var x2 := TakingDowns(w, allowed, x1, l, r, twice);
    var t := TalkerOf(w, allowed, l, r);
    assert x2.w.entities[t].cfg == w.entities[t].cfg;
    var x3;
    x3, p := AskingTalker(w, allowed, x2, t, TxResponse(DisconnectTxCommand, r, Success));
    var e3 := x3.w.entities[l];
    AddedAndRemoved(x.w.entities[l].listeners, grant, p);
    OwnStreamStays(w, allowed, x3, l, p);
    assert Matches(e3.inflight[0], p, false) && FindMatch(e3.inflight, p, false) == 0;
    x' := Clearing(w, allowed, x3, l, p);
  }

  lemma TalkerOf(w: World, allowed: iset<Pdu>, l: nat, q: Pdu) returns (t: nat)
    requires l < |w.entities| && Connectable(w, l, allowed, q)
    ensures t < |w.entities| && w.entities[t].cfg.isTalker && w.entities[t].cfg.entityId == q.talkerEntityId
  {
    var g, h :| g in allowed && h in allowed && Connects(w, l, g, h, q);
    t :| 0 <= t < |w.entities| && Grants(w.entities[t], h);
  }

  lemma TakingDowns(w: World, allowed: iset<Pdu>, x: Point, l: nat, r: Pdu, twice: bool) returns (x': Point)
    requires Reaches(w, allowed, x) && l < |w.entities| && r in allowed && r.messageType.DisconnectRxCommand?
    requires IsOwnStream(w.entities[l], r) && Connected(x.w.entities[l].listeners, r)
    requires AllFree(x.w.entities[l].inflight)
    ensures Reaches(w, allowed, x') && OnlySlots(x, x', l) && TxResponse(DisconnectTxCommand, r, Success) in x'.w.sent
    ensures var slots := x'.w.entities[l].inflight;
      && |slots| == MAX_INFLIGHT && HoldsCommand(slots[0], r) && !slots[2].Active() && !slots[3].Active()
      && if twice then HoldsCommand(slots[1], r) else !slots[1].Active()
  {
    hide Attained;
    OwnStreamStays(w, allowed, x, l, r);
    assert FindFree(x.w.entities[l].inflight) == 0;
    x' := TakingDown(w, allowed, x, l, r);
    if twice {
      assert FindFree(x'.w.entities[l].inflight) == 1;
      x' := TakingDown(w, allowed, x', l, r);
    }
  }

  // ---- Stream 0, which can be connected again -----------------------------------------------------

  // An answer to q is obtained beforehand.
  lemma AnswerBeforehand(w: World, allowed: iset<Pdu>, l: nat, q: Pdu) returns (x: Point, p: Pdu)
    requires Initial(w) && AllSlotIds(w) && l < |w.entities| && q in allowed && IsDisconnect(q)
    requires Connectable(w, l, allowed, q) && q.listenerUniqueId == 0
    ensures Reaches(w, allowed, x) && Ready(w, x, l) && SlotIds(x.w.entities[l].listeners)
    ensures p in x.w.sent && p.messageType.DisconnectTxResponse? && Stems(p, q)
  {
    hide Attained;
    Starts(w, allowed);
    if q.messageType.DisconnectRxCommand? {
      ConnectableIsOwn(w, allowed, l, q);
      x, p := ConnectingAndRemoving(w, allowed, Point(w, 0), l, q, false);
    } else {
      x := Injecting(w, allowed, Point(w, 0), q);
      if q.messageType.DisconnectTxCommand? {
        var t := TalkerOf(w, allowed, l, q);
        x, p := AskingTalker(w, allowed, x, t, q);
      } else {
        p := q;
      }
    }
  }

  lemma ConnectableIsOwn(w: World, allowed: iset<Pdu>, l: nat, q: Pdu)
    requires l < |w.entities| && Connectable(w, l, allowed, q)
    ensures IsOwnStream(w.entities[l], q)
  {
    var g, h :| g in allowed && h in allowed && Connects(w, l, g, h, q);
  }

  // The command s is left over from a first connection of stream 0 when the stream is connected for q.
  lemma StreamZeroCrosses(w: World, allowed: iset<Pdu>, l: nat, s: Pdu, q: Pdu) returns (x: Point, p: Pdu)
    requires Initial(w) && AllSlotIds(w) && l < |w.entities| && s in allowed && q in allowed && IsDisconnect(q)
    requires s.messageType.DisconnectRxCommand? && IsOwnStream(w.entities[l], s) && Connectable(w, l, allowed, s)
    requires Connectable(w, l, allowed, q) && s.listenerUniqueId == q.listenerUniqueId == 0
    requires s.sequenceId == q.sequenceId && !Stems(s, q)
    ensures Reaches(w, allowed, x) && DisconnectCrosses(x.w, l, p, 1)
  {
    hide Attained;
    var g, h :| g in allowed && h in allowed && Connects(w, l, g, h, q);
    var t :| 0 <= t < |w.entities| && Grants(w.entities[t], h);
    var x1;
    x1, p := AnswerBeforehand(w, allowed, l, q);
    OwnStreamStays(w, allowed, x1, l, h);
    var x2, grant := ObtainingGrant(w, allowed, x1, l, t, h);
    var x3, answer := ConnectingAndRemoving(w, allowed, x2, l, s, true);
    OwnStreamStays(w, allowed, x3, l, g);
    OwnStreamStays(w, allowed, x3, l, grant);
    assert FindFree(x3.w.entities[l].inflight) == 0;
    x := ConnectingWith(w, allowed, x3, l, g, grant, q);
    LeftOverReleased(w, allowed, x, l, s, q, p);
  }

  lemma LeftOverReleased(w: World, allowed: iset<Pdu>, x: Point, l: nat, s: Pdu, q: Pdu, p: Pdu)
    requires Reaches(w, allowed, x) && l < |w.entities| && IsOwnStream(w.entities[l], q)
    requires OnlyInFlight(x.w.entities[l], 1) && HoldsCommand(x.w.entities[l].inflight[1], s)
    requires Connected(x.w.entities[l].listeners, q) && s.sequenceId == q.sequenceId && !Stems(s, q)
    requires s.messageType.DisconnectRxCommand?
    requires p in x.w.sent && p.messageType.DisconnectTxResponse? && Stems(p, q)
    ensures DisconnectCrosses(x.w, l, p, 1)
  {
    hide Attained;
    var e := x.w.entities[l];
    OwnStreamStays(w, allowed, x, l, p);
    FoundConnected(e.listeners, q, p);
    assert Matches(e.inflight[1], p, false) && FindMatch(e.inflight, p, false) == 1;
    ListenerClears(e, p, 0);
  }

  // ---- Main result --------------------------------------------------------------------------------

  // A command to disconnect that is taken up, while q's stream is connected and nothing else is in flight.
  lemma TakenUpBeside(w: World, allowed: iset<Pdu>, l: nat, s: Pdu, q: Pdu) returns (x: Point)
    requires Initial(w) && AllSlotIds(w) && l < |w.entities| && s in allowed && Conflicts(w, l, allowed, s, q)
    requires !Opens(w.entities[l], s)
    requires Connectable(w, l, allowed, s) && s.listenerUniqueId == q.listenerUniqueId ==> SameStream(s, q)
    ensures Reaches(w, allowed, x) && Connected(x.w.entities[l].listeners, q)
    ensures OnlyInFlight(x.w.entities[l], 0) && HoldsCommand(x.w.entities[l].inflight[0], s)
  {
    hide Attained;
    Starts(w, allowed);
    if Connectable(w, l, allowed, s) {
      x := WithDisconnectCommand(w, allowed, l, s, q);
    } else if !HasRecord(w.entities[l].listeners, s) {
      x := WithUnknownStream(w, allowed, Point(w, 0), l, s, q);
    } else {
      var r :| r in allowed && r.messageType.DisconnectRxCommand? && r.listenerUniqueId == s.listenerUniqueId
        && IsOwnStream(w.entities[l], r) && Connectable(w, l, allowed, r);
      var x1, p := ConnectingAndRemoving(w, allowed, Point(w, 0), l, r, false);
      RecordGone(w.entities[l].listeners, s, q);
      x := WithUnknownStream(w, allowed, x1, l, s, q);
    }
  }

  lemma RecordGone(ls: seq<ListenerInfo>, s: Pdu, q: Pdu)
    requires SlotIds(ls) && HasRecord(ls, q)
    requires 0 < s.listenerUniqueId < |ls| && s.listenerUniqueId != q.listenerUniqueId
    ensures var ls' := ls[s.listenerUniqueId := ZERO_LISTENER]; HasRecord(ls', q) && !HasRecord(ls', s)
  {
    FindSlot(ls, q.listenerUniqueId);
    var ls' := ls[s.listenerUniqueId := ZERO_LISTENER];
    assert ls'[q.listenerUniqueId].listenerUniqueId == q.listenerUniqueId;
    assert forall j :: 0 <= j < |ls| ==> ls'[j].listenerUniqueId != s.listenerUniqueId;
  }

  lemma DisconnectConflictCrosses(w: World, allowed: iset<Pdu>, l: nat, s: Pdu, q: Pdu)
    returns (x: Point, p: Pdu, i: nat)
    requires Initial(w) && AllSlotIds(w) && l < |w.entities| && s in allowed && q in allowed
    requires w.entities[l].cfg.connectPeriod > w.entities[l].cfg.disconnectPeriod
    requires Conflicts(w, l, allowed, s, q)
    ensures Reaches(w, allowed, x) && DisconnectCrosses(x.w, l, p, i)
  {
    hide Attained;
    if Opens(w.entities[l], s) {
      var x1;
      x1, i := WithConnectCommand(w, allowed, l, s, q);
      x, p := AnswerReleases(w, allowed, x1, l, q, i);
    } else if Connectable(w, l, allowed, s) && s.listenerUniqueId == q.listenerUniqueId && !SameStream(s, q) {
      i := 1;
      x, p := StreamZeroCrosses(w, allowed, l, s, q);
    } else {
      i := 0;
      var x1 := TakenUpBeside(w, allowed, l, s, q);
      x, p := AnswerReleases(w, allowed, x1, l, q, i);
    }
  }

  // The answer to a disconnection can release a command of another request if and only if controllers may inject a
  // disconnection of a stream that can be connected and, under its sequence id, another request that the listener
  // can be brought to take up. (A connect command is given more time than a disconnect command: 2000 ms and 200 ms.)
  lemma DisconnectsCross(w: World, l: nat, allowed: iset<Pdu>)
    requires Initial(w) && AllSlotIds(w) && l < |w.entities|
    requires w.entities[l].cfg.connectPeriod > w.entities[l].cfg.disconnectPeriod
    ensures (exists x, p, i :: Reaches(w, allowed, x) && DisconnectCrosses(x.w, l, p, i))
      <==> DisconnectConflict(w, l, allowed)
  {
    if DisconnectConflict(w, l, allowed) {
      var s, q :| s in allowed && q in allowed && Conflicts(w, l, allowed, s, q);
      var x, p, i := DisconnectConflictCrosses(w, allowed, l, s, q);
    }
    forall x, p, i | Reaches(w, allowed, x) && DisconnectCrosses(x.w, l, p, i)
      ensures DisconnectConflict(w, l, allowed)
    {
      DisconnectCrossingNeedsConflict(w, allowed, x, l, p, i);
    }
  }
}
