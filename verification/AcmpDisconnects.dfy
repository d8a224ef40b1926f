// The answer to a disconnection releases the first slot with its sequence id, whatever command that slot holds.
// Exactly which requests of the controllers let it release a command of another request.
module AcmpDisconnects {
  import opened AcmpTypes
  import opened AcmpSpec
  import opened AcmpNetwork
  import opened AcmpExclusivity
  import opened AcmpRequests
  import opened AcmpReach
  import opened AcmpCrossing

  predicate SameStream(x: Pdu, y: Pdu) {
    && x.talkerEntityId == y.talkerEntityId && x.talkerUniqueId == y.talkerUniqueId
    && x.listenerEntityId == y.listenerEntityId && x.listenerUniqueId == y.listenerUniqueId
  }

  predicate IsDisconnect(q: Pdu) { KindOf(q.messageType).Disconnecting? }

  // The answer releases a command of another request.
  ghost predicate DisconnectCrosses(w: World, l: nat, p: Pdu, i: nat)
    requires Valid(w) && l < |w.entities|
  {
    && p in w.sent && p.messageType.DisconnectTxResponse? && i < MAX_INFLIGHT && Releases(w.entities[l], p, i)
    && !Stems(w.entities[l].inflight[i].command, p)
  }

  // The listener takes up request g, and a talker grants h, for this stream, under the same sequence id.
  ghost predicate Connects(w: World, l: nat, g: Pdu, h: Pdu, x: Pdu)
    requires l < |w.entities|
  {
    Opens(w.entities[l], g) && Granted(w, l, h) && g.sequenceId == h.sequenceId && SameStream(h, x)
  }

  // With these frames controllers can bring about a connection of this stream.
  ghost predicate Connectable(w: World, l: nat, allowed: iset<Pdu>, x: Pdu)
    requires l < |w.entities|
  {
    && HasRecord(w.entities[l].listeners, x)
    && exists g, h :: g in allowed && h in allowed && Connects(w, l, g, h, x)
  }

  predicate HasRecord(ls: seq<ListenerInfo>, y: Pdu) { FindListener(ls, y.listenerUniqueId) < |ls| }

  // With these frames a connection of this listener stream can be brought about and removed again, by a command to
  // the listener that is answered in its own slot.
  ghost predicate Removable(w: World, l: nat, allowed: iset<Pdu>, id: nat)
    requires l < |w.entities|
  {
    exists r :: r in allowed && r.messageType.DisconnectRxCommand? && r.listenerUniqueId == id
      && IsOwnStream(w.entities[l], r) && Connectable(w, l, allowed, r)
  }

  // The listener can be brought to take up the command s before q's stream is connected for the last time. A command
  // to disconnect is taken up if its stream is connected, or if it has no record: from the start, or after a
  // removal. What is removed can be connected again only at stream 0.
  ghost predicate TakenUp(w: World, l: nat, allowed: iset<Pdu>, s: Pdu, q: Pdu)
    requires l < |w.entities|
  {
    || Opens(w.entities[l], s)
    || (s.messageType.DisconnectRxCommand? && IsOwnStream(w.entities[l], s)
        && (|| !HasRecord(w.entities[l].listeners, s)
            || (Connectable(w, l, allowed, s) && (s.listenerUniqueId == 0 || SameStream(s, q)))
            || (0 < s.listenerUniqueId != q.listenerUniqueId && Removable(w, l, allowed, s.listenerUniqueId))))
  }

  // A disconnection of a connectable stream, and another request under its sequence id that is taken up.
  ghost predicate Conflicts(w: World, l: nat, allowed: iset<Pdu>, s: Pdu, q: Pdu)
    requires l < |w.entities|
  {
    && IsDisconnect(q) && Connectable(w, l, allowed, q)
    && s.sequenceId == q.sequenceId && !Stems(s, q) && TakenUp(w, l, allowed, s, q)
  }

  ghost predicate DisconnectConflict(w: World, l: nat, allowed: iset<Pdu>)
    requires l < |w.entities|
  {
    exists s, q :: s in allowed && q in allowed && Conflicts(w, l, allowed, s, q)
  }

  // ---- What a crossing needs ---------------------------------------------------------------------

  lemma DisconnectReleases(e: Entity, p: Pdu, i: nat)
    requires e.Valid() && i < MAX_INFLIGHT && p.messageType.DisconnectTxResponse? && Releases(e, p, i)
    ensures IsOwnStream(e, p) && Matches(e.inflight[i], p, false) && i == FindMatch(e.inflight, p, false)
    ensures FindConnected(e.listeners, p) < |e.listeners|
  {
    assert Receive(e, p, 0, true, 0) == ListenerMachine(e, p, 0, true) == DisconnectTxAnswer(e, p);
  }

  // A stream that is connected was requested and granted.
  lemma ConnectedComesFrom(w: World, allowed: iset<Pdu>, x: Point, l: nat, y: Pdu)
    requires Initial(w) && AllSlotIds(w) && Reaches(w, allowed, x) && l < |w.entities|
    requires FindConnected(x.w.entities[l].listeners, y) < |x.w.entities[l].listeners| && IsOwnStream(w.entities[l], y)
    ensures Connectable(w, l, allowed, y)
  {
    var evs :| Run(w, evs) == x.w && InOrder(evs, x.clock);
    RunKeepsSlotIds(w, evs);
    RunKeepsTableLength(w, evs, l);
    var j := FindConnected(x.w.entities[l].listeners, y);
    assert RecordAfter(w, evs, l, j).connected && j == y.listenerUniqueId;
    StartedWithRecord(w, evs, l, j);
    ConnectionHistory(w, evs, l, j);
    var k :| 0 <= k < |evs| && FillsAt(w, evs, k, l, j) && UnchangedSince(w, evs, k + 1, l, j);
    assert RecordAfter(w, evs[..k + 1], l, j) == RecordAfter(w, evs, l, j);
    FilledFrom(w, allowed, evs, x.clock, k, l, j, y);
  }

  // A record that is connected carried its unique id from the start.
  lemma StartedWithRecord(w: World, evs: seq<Event>, l: nat, j: nat)
    requires Initial(w) && AllSlotIds(w) && l < |w.entities|
    requires j < |Run(w, evs).entities[l].listeners| == |w.entities[l].listeners| && RecordAfter(w, evs, l, j).connected
    ensures FindListener(w.entities[l].listeners, j) < |w.entities[l].listeners|
  {
    var ls := w.entities[l].listeners;
    if ls[j].listenerUniqueId != j {
      assert evs[..0] == [] && ls[j] == ZERO_LISTENER;
      ClearedStaysCleared(w, evs, 0, l, j);
    }
  }

  lemma FilledFrom(w: World, allowed: iset<Pdu>, evs: seq<Event>, clock: nat, k: nat, l: nat, j: nat,
                   y: Pdu)
    requires Initial(w) && InOrder(evs, clock) && l < |w.entities| && k < |evs| && j < |w.entities[l].listeners|
    requires forall g :: g in Run(w, evs).injected ==> g in allowed
    requires |Run(w, evs[..k + 1]).entities[l].listeners| == |w.entities[l].listeners|
    requires FillsAt(w, evs, k, l, j) && NamesPair(RecordAfter(w, evs[..k + 1], l, j), y)
    requires j == y.listenerUniqueId && IsOwnStream(w.entities[l], y)
    ensures exists g, h :: g in allowed && h in allowed && Connects(w, l, g, h, y)
  {
    RunKeepsTableLength(w, evs[..k], l);
    InjectedGrows(w, evs, k);
    OrderedPrefix(evs, clock, k);
    var x := Point(Run(w, evs[..k]), clock);
    assert Reaches(w, allowed, x);
    var e := x.w.entities[l];
    var p := evs[k].pdu;
    assert Fills(e, Run(w, evs[..k + 1]).entities[l], p, j);
    var i :| 0 <= i < |e.inflight| && Matches(e.inflight[i], p, true);
    var g := SlotComesFrom(w, allowed, x, l, i);
    var h := GrantComesFrom(w, allowed, x, l, p);
    assert Connects(w, l, g, h, y);
  }

  // Two connected streams of one listener stream are the same.
  lemma OneRecord(w: World, allowed: iset<Pdu>, x: Point, l: nat, c: Pdu, p: Pdu)
    requires Initial(w) && AllSlotIds(w) && Reaches(w, allowed, x) && l < |w.entities|
    requires FindConnected(x.w.entities[l].listeners, c) < |x.w.entities[l].listeners|
    requires FindConnected(x.w.entities[l].listeners, p) < |x.w.entities[l].listeners|
    requires c.listenerUniqueId == p.listenerUniqueId
    ensures c.talkerEntityId == p.talkerEntityId && c.talkerUniqueId == p.talkerUniqueId
  {
    var evs :| Run(w, evs) == x.w;
    RunKeepsSlotIds(w, evs);
    var ls := x.w.entities[l].listeners;
    assert FindConnected(ls, c) == FindConnected(ls, p) == p.listenerUniqueId;
  }

  lemma SameStreamConnectable(w: World, l: nat, allowed: iset<Pdu>, x: Pdu, y: Pdu)
    requires l < |w.entities| && Connectable(w, l, allowed, x) && SameStream(x, y)
    ensures Connectable(w, l, allowed, y)
  {
    var g, h :| g in allowed && h in allowed && Connects(w, l, g, h, x);
    assert Connects(w, l, g, h, y);
  }

  // ---- What has been removed, and what is in flight ----------------------------------------------

  // A record that has been cleared was cleared by the answer to a command for its stream.
  ghost predicate RecordsExplained(w: World, l: nat, allowed: iset<Pdu>, ls: seq<ListenerInfo>)
    requires l < |w.entities| && |ls| == |w.entities[l].listeners|
  {
    forall u :: 0 < u < |ls| && ls[u] == ZERO_LISTENER && w.entities[l].listeners[u].listenerUniqueId == u ==>
      Removable(w, l, allowed, u)
  }

  // Why a command to disconnect was taken up, as far as the records still tell.
  ghost predicate CommandExplained(w: World, l: nat, allowed: iset<Pdu>, ls: seq<ListenerInfo>, c: Pdu)
    requires l < |w.entities|
  {
    var u := c.listenerUniqueId;
    || !HasRecord(w.entities[l].listeners, c)
    || (u == 0 && Connectable(w, l, allowed, c))
    || (0 < u < |ls| && (ls[u] == ZERO_LISTENER || NamesPair(ls[u], c)))
  }

  ghost predicate SlotExplained(w: World, l: nat, allowed: iset<Pdu>, ls: seq<ListenerInfo>, s: Inflight)
    requires l < |w.entities|
  {
    s.Active() && s.command.messageType.DisconnectTxCommand? ==> CommandExplained(w, l, allowed, ls, s.command)
  }

  ghost predicate Explained(w: World, l: nat, allowed: iset<Pdu>, e: Entity)
    requires l < |w.entities|
  {
    && |e.listeners| == |w.entities[l].listeners| && SlotIds(e.listeners)
    && RecordsExplained(w, l, allowed, e.listeners)
    && forall i :: 0 <= i < |e.inflight| ==> SlotExplained(w, l, allowed, e.listeners, e.inflight[i])
  }

  // In an explained state a crossing needs a conflict.
  lemma CrossingNeedsConflict(w: World, allowed: iset<Pdu>, x: Point, l: nat, p: Pdu, i: nat)
    requires Initial(w) && AllSlotIds(w) && Reaches(w, allowed, x) && l < |w.entities|
    requires Explained(w, l, allowed, x.w.entities[l]) && DisconnectCrosses(x.w, l, p, i)
    ensures DisconnectConflict(w, l, allowed)
  {
    hide Attained;
    var e := x.w.entities[l];
    var c := e.inflight[i].command;
    DisconnectReleases(e, p, i);
    OwnStreamStays(w, allowed, x, l, p);
    var s := SlotComesFrom(w, allowed, x, l, i);
    var q := AnswerComesFrom(w, allowed, x, p);
    ConnectedComesFrom(w, allowed, x, l, p);
    assert Connectable(w, l, allowed, q) by { SameStreamConnectable(w, l, allowed, p, q); }
    if !c.messageType.ConnectTxCommand? {
      assert SlotExplained(w, l, allowed, e.listeners, e.inflight[i]);
      ReleasedWasTakenUp(w, allowed, x, l, p, c, s, q);
    }
    assert Conflicts(w, l, allowed, s, q);
  }

  lemma ReleasedWasTakenUp(w: World, allowed: iset<Pdu>, x: Point, l: nat, p: Pdu, c: Pdu, s: Pdu, q: Pdu)
    requires Initial(w) && AllSlotIds(w) && Reaches(w, allowed, x) && l < |w.entities|
    requires Explained(w, l, allowed, x.w.entities[l])
    requires CommandExplained(w, l, allowed, x.w.entities[l].listeners, c)
    requires FindConnected(x.w.entities[l].listeners, p) < |x.w.entities[l].listeners| && SameStream(p, q)
    requires s in allowed && s.messageType.DisconnectRxCommand? && IsOwnStream(w.entities[l], s) && SameStream(c, s)
    requires p.listenerEntityId == s.listenerEntityId
    ensures TakenUp(w, l, allowed, s, q)
  {
    hide Attained;
    var ls := x.w.entities[l].listeners;
    var u := c.listenerUniqueId;
    assert FindConnected(ls, p) == p.listenerUniqueId;
    if HasRecord(w.entities[l].listeners, c) {
      if u == 0 {
        SameStreamConnectable(w, l, allowed, c, s);
      } else if NamesPair(ls[u], c) {
        NamesConnected(ls, c);
        ConnectedComesFrom(w, allowed, x, l, c);
        SameStreamConnectable(w, l, allowed, c, s);
      } else {
        HasOwnRecord(w.entities[l].listeners, c);
      }
    }
  }

  lemma NamesConnected(ls: seq<ListenerInfo>, c: Pdu)
    requires SlotIds(ls) && c.listenerUniqueId < |ls| && NamesPair(ls[c.listenerUniqueId], c)
    ensures FindConnected(ls, c) < |ls|
  {}

  lemma HasOwnRecord(ls: seq<ListenerInfo>, c: Pdu)
    requires SlotIds(ls) && HasRecord(ls, c)
    ensures c.listenerUniqueId < |ls| && ls[c.listenerUniqueId].listenerUniqueId == c.listenerUniqueId
  {
    FindSlot(ls, c.listenerUniqueId);
  }

  // ---- Every state is explained, or there is a conflict ------------------------------------------

  lemma StartsExplained(w: World, l: nat, allowed: iset<Pdu>)
    requires Initial(w) && AllSlotIds(w) && l < |w.entities|
    ensures Explained(w, l, allowed, w.entities[l])
  {
    var ls := w.entities[l].listeners;
    forall u | 0 < u < |ls| && ls[u] == ZERO_LISTENER ensures ls[u].listenerUniqueId != u {}
  }

  // What is taken up changes no record, and had none or one that names its talker.
  lemma TakenWithRecord(e: Entity, p: Pdu, now: nat, link: bool, count: nat, i: nat)
    requires e.Valid() && i < MAX_INFLIGHT
    ensures var e' := Receive(e, p, now, link, count).entity;
      && |e'.inflight| == MAX_INFLIGHT
      && (e'.inflight[i] != e.inflight[i] && e'.inflight[i].Active()
          && e'.inflight[i].command.messageType.DisconnectTxCommand? ==>
            && e'.listeners == e.listeners && IsOwnStream(e, p) && IsConnectedTo(e, p) && Takes(e'.inflight[i], p))
  {
    ReceiveSlot(e, p, now, link, count, i);
    var e' := Receive(e, p, now, link, count).entity;
    if e'.inflight[i] != e.inflight[i] && e'.inflight[i].Active() && p.messageType.DisconnectRxCommand? {
      assert Receive(e, p, now, link, count) == ListenerMachine(e, p, now, link) == DisconnectRx(e, p, now, link);
    }
  }

  lemma TakenIsExplained(w: World, allowed: iset<Pdu>, x: Point, l: nat, p: Pdu, c: Pdu)
    requires Initial(w) && AllSlotIds(w) && Reaches(w, allowed, x) && l < |w.entities|
    requires Explained(w, l, allowed, x.w.entities[l]) && IsOwnStream(w.entities[l], p) && SameStream(c, p)
    requires IsConnectedTo(x.w.entities[l], p)
    ensures CommandExplained(w, l, allowed, x.w.entities[l].listeners, c)
  {
    hide Attained;
    var ls := x.w.entities[l].listeners;
    var u := c.listenerUniqueId;
    if FindListener(ls, u) < |ls| {
      FindSlot(ls, u);
      NamesConnected(ls, c);
      ConnectedComesFrom(w, allowed, x, l, c);
    } else if HasRecord(w.entities[l].listeners, c) {
      HasOwnRecord(w.entities[l].listeners, c);
      assert ls[0].listenerUniqueId == 0 && ls[u].listenerUniqueId != u;
    }
  }

  // A command in flight stays explained when a record changes.
  lemma StaysExplained(w: World, l: nat, allowed: iset<Pdu>, e: Entity, e': Entity, p: Pdu, c: Pdu)
    requires l < |w.entities| && CommandExplained(w, l, allowed, e.listeners, c) && Changes(e, e', p)
    ensures CommandExplained(w, l, allowed, e'.listeners, c)
  {
    var u := c.listenerUniqueId;
    if 0 < u < |e.listeners| {
      assert e'.listeners[u] == e.listeners[u] || Fills(e, e', p, u) || Clears(e, e', p, u);
    }
  }

  // A record that is cleared by the answer to its own command was removable.
  lemma ClearedIsRemovable(w: World, allowed: iset<Pdu>, x: Point, l: nat, p: Pdu, u: nat)
    requires Initial(w) && AllSlotIds(w) && Reaches(w, allowed, x) && l < |w.entities| && p in x.w.sent
    requires Explained(w, l, allowed, x.w.entities[l]) && u < |x.w.entities[l].listeners|
    requires Clears(x.w.entities[l], Receive(x.w.entities[l], p, 0, true, 0).entity, p, u)
    ensures DisconnectConflict(w, l, allowed) || Removable(w, l, allowed, u)
  {
    hide Attained;
    var e := x.w.entities[l];
    var i :| 0 <= i < |e.inflight| && Matches(e.inflight[i], p, false)
      && Receive(e, p, 0, true, 0).entity.inflight[i] == FREE_SLOT;
    assert Releases(e, p, i);
    if Stems(e.inflight[i].command, p) {
      DisconnectReleases(e, p, i);
      OwnStreamStays(w, allowed, x, l, p);
      ConnectedComesFrom(w, allowed, x, l, p);
      var r := SlotComesFrom(w, allowed, x, l, i);
      SameStreamConnectable(w, l, allowed, p, r);
    } else {
      CrossingNeedsConflict(w, allowed, x, l, p, i);
    }
  }

  lemma AnswerIgnoresClock(e: Entity, p: Pdu, now: nat, link: bool, count: nat)
    requires p.messageType.DisconnectTxResponse?
    ensures Receive(e, p, now, link, count) == Receive(e, p, 0, true, 0)
  {}

  lemma DeliveryKeepsExplained(w: World, allowed: iset<Pdu>, x: Point, l: nat, p: Pdu, now: nat, link: bool, count: nat)
    requires Initial(w) && AllSlotIds(w) && Reaches(w, allowed, x) && l < |w.entities| && p in x.w.sent
    requires Explained(w, l, allowed, x.w.entities[l])
    ensures DisconnectConflict(w, l, allowed)
         || Explained(w, l, allowed, Receive(x.w.entities[l], p, now, link, count).entity)
  {
    hide Attained, Receive;
    var e := x.w.entities[l];
    var e' := Receive(e, p, now, link, count).entity;
    ReceiveChanges(e, p, now, link, count);
    forall i | 0 <= i < |e'.inflight| ensures SlotExplained(w, l, allowed, e'.listeners, e'.inflight[i]) {
      SlotStaysExplained(w, allowed, x, l, p, now, link, count, i);
    }
    forall u | 0 < u < |e'.listeners| && e'.listeners[u] == ZERO_LISTENER
               && w.entities[l].listeners[u].listenerUniqueId == u
      ensures DisconnectConflict(w, l, allowed) || Removable(w, l, allowed, u)
    {
      if Clears(e, e', p, u) {
        AnswerIgnoresClock(e, p, now, link, count);
        ClearedIsRemovable(w, allowed, x, l, p, u);
      }
    }
  }

  lemma SlotStaysExplained(w: World, allowed: iset<Pdu>, x: Point, l: nat, p: Pdu, now: nat, link: bool, count: nat,
                           i: nat)
    requires Initial(w) && AllSlotIds(w) && Reaches(w, allowed, x) && l < |w.entities| && i < MAX_INFLIGHT
    requires Explained(w, l, allowed, x.w.entities[l])
    ensures var e' := Receive(x.w.entities[l], p, now, link, count).entity;
      |e'.inflight| == MAX_INFLIGHT && SlotExplained(w, l, allowed, e'.listeners, e'.inflight[i])
  {
    hide Attained, Receive;
    var e := x.w.entities[l];
    var e' := Receive(e, p, now, link, count).entity;
    TakenWithRecord(e, p, now, link, count, i);
    ReceiveChanges(e, p, now, link, count);
    var c := e'.inflight[i].command;
    if e'.inflight[i].Active() && c.messageType.DisconnectTxCommand? {
      if e'.inflight[i] == e.inflight[i] {
        assert SlotExplained(w, l, allowed, e.listeners, e.inflight[i]);
        StaysExplained(w, l, allowed, e, e', p, c);
      } else {
        OwnStreamStays(w, allowed, x, l, p);
        TakenIsExplained(w, allowed, x, l, p, c);
      }
    }
  }

  lemma StepKeepsExplained(w: World, allowed: iset<Pdu>, x: Point, l: nat, ev: Event)
    requires Initial(w) && AllSlotIds(w) && Reaches(w, allowed, x) && l < |w.entities|
    requires Explained(w, l, allowed, x.w.entities[l])
    ensures DisconnectConflict(w, l, allowed) || Explained(w, l, allowed, Step(x.w, ev).entities[l])
  {
    hide Attained;
    var e, e' := x.w.entities[l], Step(x.w, ev).entities[l];
    if Enabled(x.w, ev) && ev.Deliver? && ev.dst == l {
      DeliveryKeepsExplained(w, allowed, x, l, ev.pdu, ev.now, ev.link, ev.count);
    } else if Enabled(x.w, ev) && ev.Timer? && ev.dst == l {
      forall i | 0 <= i < |e'.inflight| ensures SlotExplained(w, l, allowed, e'.listeners, e'.inflight[i]) {
        assert SlotExplained(w, l, allowed, e.listeners, e.inflight[i]);
      }
    }
  }

  lemma {:induction false} RunKeepsExplained(w: World, allowed: iset<Pdu>, evs: seq<Event>, clock: nat, l: nat)
    requires Initial(w) && AllSlotIds(w) && l < |w.entities| && InOrder(evs, clock)
    requires forall g :: g in Run(w, evs).injected ==> g in allowed
    ensures DisconnectConflict(w, l, allowed) || Explained(w, l, allowed, Run(w, evs).entities[l])
    decreases |evs|
  {
    if evs == [] {
      StartsExplained(w, l, allowed);
    } else {
      var before := evs[..|evs| - 1];
      OrderedPrefix(evs, clock, |evs| - 1);
      RunKeepsExplained(w, allowed, before, clock, l);
      if Explained(w, l, allowed, Run(w, before).entities[l]) {
        var x := Point(Run(w, before), clock);
        assert Reaches(w, allowed, x);
        StepKeepsExplained(w, allowed, x, l, evs[|evs| - 1]);
      }
    }
  }

  lemma DisconnectCrossingNeedsConflict(w: World, allowed: iset<Pdu>, x: Point, l: nat, p: Pdu, i: nat)
    requires Initial(w) && AllSlotIds(w) && Reaches(w, allowed, x) && l < |w.entities|
    requires DisconnectCrosses(x.w, l, p, i)
    ensures DisconnectConflict(w, l, allowed)
  {
    var evs :| Run(w, evs) == x.w && InOrder(evs, x.clock);
    RunKeepsExplained(w, allowed, evs, x.clock, l);
    if Explained(w, l, allowed, x.w.entities[l]) { CrossingNeedsConflict(w, allowed, x, l, p, i); }
  }

  // Every command that is released by the answer to another request was given to this listener under the same
  // sequence id.
  lemma ReleasedShareSequenceIds(w: World, allowed: iset<Pdu>, x: Point, l: nat, p: Pdu, i: nat)
    returns (s: Pdu, q: Pdu)
    requires Initial(w) && AllSlotIds(w) && Reaches(w, allowed, x) && l < |w.entities| && i < MAX_INFLIGHT
    requires p in x.w.sent && p.messageType.DisconnectTxResponse? && Releases(x.w.entities[l], p, i)
    requires !Stems(x.w.entities[l].inflight[i].command, p)
    ensures s in allowed && IsRxCommand(s) && IsOwnStream(w.entities[l], s)
    ensures q in allowed && IsDisconnect(q) && Connectable(w, l, allowed, q)
    ensures s.sequenceId == q.sequenceId && !Stems(s, q)
  {
    DisconnectReleases(x.w.entities[l], p, i);
    OwnStreamStays(w, allowed, x, l, p);
    s := SlotComesFrom(w, allowed, x, l, i);
    q := AnswerComesFrom(w, allowed, x, p);
    ConnectedComesFrom(w, allowed, x, l, p);
    SameStreamConnectable(w, l, allowed, p, q);
  }
}
