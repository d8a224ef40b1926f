// One listener record per stream: who may fill it, who may clear it, and what happens to it afterwards.
module AcmpExclusivity {
  import opened AcmpTypes
  import opened AcmpSpec
  import opened AcmpNetwork
  import opened AcmpAgreement

  // Record j carries unique id j, or 0 once it has been cleared; it is connected only while it carries j.
  ghost predicate SlotIds(ls: seq<ListenerInfo>) {
    forall j :: 0 <= j < |ls| ==>
      && (ls[j].listenerUniqueId == j || ls[j] == ZERO_LISTENER)
      && (ls[j].connected ==> ls[j].listenerUniqueId == j)
  }

  ghost predicate AllSlotIds(w: World) {
    forall e :: 0 <= e < |w.entities| ==> SlotIds(w.entities[e].listeners)
  }

  lemma FindSlot(ls: seq<ListenerInfo>, id: nat)
    requires SlotIds(ls) && FindListener(ls, id) < |ls|
    ensures FindListener(ls, id) == id
  {
    assert ls[0].listenerUniqueId == 0;
  }

  // The record was filled from this grant, which consumed a slot of a connect command with its sequence id.
  ghost predicate Fills(e: Entity, e': Entity, p: Pdu, j: nat)
    requires j < |e.listeners| == |e'.listeners| && |e.inflight| == |e'.inflight|
  {
    && IsGrant(p) && p.listenerUniqueId == j && p.listenerEntityId == e.cfg.entityId
    && !e.listeners[j].connected
    && e'.listeners[j] == Filled(e.listeners[j], p)
    && exists i :: 0 <= i < |e.inflight| && Matches(e.inflight[i], p, true) && e'.inflight[i] == FREE_SLOT
  }

  // The record was cleared by this answer, which names its talker pair and an active slot's sequence id.
  ghost predicate Clears(e: Entity, e': Entity, p: Pdu, j: nat)
    requires j < |e.listeners| == |e'.listeners| && |e.inflight| == |e'.inflight|
  {
    && p.messageType.DisconnectTxResponse? && p.listenerUniqueId == j && p.listenerEntityId == e.cfg.entityId
    && NamesPair(e.listeners[j], p)
    && e'.listeners[j] == ZERO_LISTENER
    && exists i :: 0 <= i < |e.inflight| && Matches(e.inflight[i], p, false) && e'.inflight[i] == FREE_SLOT
  }

  // What a listener does to its records when it receives a frame.
  ghost predicate Changes(e: Entity, e': Entity, p: Pdu) {
    && |e'.listeners| == |e.listeners| && |e'.inflight| == |e.inflight|
    && SlotIds(e'.listeners)
    && forall j :: 0 <= j < |e.listeners| ==>
         e'.listeners[j] == e.listeners[j] || Fills(e, e', p, j) || Clears(e, e', p, j)
  }

  lemma ConnectTxChanges(e: Entity, p: Pdu)
    requires e.Valid() && SlotIds(e.listeners) && p.messageType.ConnectTxResponse?
      && p.listenerEntityId == e.cfg.entityId
    ensures Changes(e, ConnectTxAnswer(e, p).entity, p)
  {
    var e' := ConnectTxAnswer(e, p).entity;
    if e'.listeners != e.listeners {
      var i := FindMatch(e.inflight, p, true);
      FindSlot(e.listeners, p.listenerUniqueId);
      assert Matches(e.inflight[i], p, true) && e'.inflight[i] == FREE_SLOT;
    }
  }

  lemma DisconnectTxChanges(e: Entity, p: Pdu)
    requires e.Valid() && SlotIds(e.listeners) && p.messageType.DisconnectTxResponse?
      && p.listenerEntityId == e.cfg.entityId
    ensures Changes(e, DisconnectTxAnswer(e, p).entity, p)
  {
    var e' := DisconnectTxAnswer(e, p).entity;
    if e'.listeners != e.listeners {
      var i := FindMatch(e.inflight, p, false);
      assert Matches(e.inflight[i], p, false) && e'.inflight[i] == FREE_SLOT;
    }
  }

  lemma OthersChangeNone(e: Entity, p: Pdu, now: nat, link: bool)
    requires !p.messageType.ConnectTxResponse? && !p.messageType.DisconnectTxResponse?
    ensures ListenerMachine(e, p, now, link).entity.listeners == e.listeners
    ensures |ListenerMachine(e, p, now, link).entity.inflight| == |e.inflight|
  {}

  lemma ReceiveChanges(e: Entity, p: Pdu, now: nat, link: bool, count: nat)
    requires e.Valid() && SlotIds(e.listeners)
    ensures Changes(e, Receive(e, p, now, link, count).entity, p)
  {
    if Receive(e, p, now, link, count).entity != e {
      assert Receive(e, p, now, link, count) == ListenerMachine(e, p, now, link);
      if p.messageType.ConnectTxResponse? {
        ConnectTxChanges(e, p);
      } else if p.messageType.DisconnectTxResponse? {
        DisconnectTxChanges(e, p);
      } else {
        OthersChangeNone(e, p, now, link);
      }
    }
  }

  lemma {:induction false} RunKeepsSlotIds(w: World, evs: seq<Event>)
    requires Initial(w) && AllSlotIds(w)
    ensures AllSlotIds(Run(w, evs))
  {
    if evs == [] {
    } else {
      RunKeepsSlotIds(w, evs[..|evs| - 1]);
      var before, ev := Run(w, evs[..|evs| - 1]), evs[|evs| - 1];
      if Enabled(before, ev) && ev.Deliver? {
        ReceiveChanges(before.entities[ev.dst], ev.pdu, ev.now, ev.link, ev.count);
      }
    }
  }

  ghost function RecordAfter(w: World, evs: seq<Event>, l: nat, j: nat): ListenerInfo
    requires Valid(w) && l < |w.entities| && j < |Run(w, evs).entities[l].listeners|
  {
    Run(w, evs).entities[l].listeners[j]
  }

  lemma {:induction false} RunKeepsTableLength(w: World, evs: seq<Event>, l: nat)
    requires Valid(w) && l < |w.entities|
    ensures |Run(w, evs).entities[l].listeners| == |w.entities[l].listeners|
  {
    if evs == [] {
    } else {
      RunKeepsTableLength(w, evs[..|evs| - 1], l);
      StepKeepsConfig(Run(w, evs[..|evs| - 1]), evs[|evs| - 1]);
    }
  }

  // What one event of a run does to record j of entity l.
  ghost predicate FillsAt(w: World, evs: seq<Event>, k: nat, l: nat, j: nat)
    requires Valid(w) && l < |w.entities| && j < |w.entities[l].listeners| && k < |evs|
  {
    RunKeepsTableLength(w, evs[..k], l);
    RunKeepsTableLength(w, evs[..k + 1], l);
    evs[k].Deliver? && evs[k].dst == l && evs[k].pdu in Run(w, evs[..k]).sent
    && Fills(Run(w, evs[..k]).entities[l], Run(w, evs[..k + 1]).entities[l], evs[k].pdu, j)
  }

  ghost predicate ClearsAt(w: World, evs: seq<Event>, k: nat, l: nat, j: nat)
    requires Valid(w) && l < |w.entities| && j < |w.entities[l].listeners| && k < |evs|
  {
    RunKeepsTableLength(w, evs[..k], l);
    RunKeepsTableLength(w, evs[..k + 1], l);
    evs[k].Deliver? && evs[k].dst == l && evs[k].pdu in Run(w, evs[..k]).sent
    && Clears(Run(w, evs[..k]).entities[l], Run(w, evs[..k + 1]).entities[l], evs[k].pdu, j)
  }

  // Exclusivity: an event of a run leaves a record as it is, fills it, or clears it.
  // In particular a connected record's contents never change while it stays connected.
  lemma RecordChanges(w: World, evs: seq<Event>, k: nat, l: nat, j: nat)
    requires Initial(w) && AllSlotIds(w) && l < |w.entities| && j < |w.entities[l].listeners| && k < |evs|
    ensures |Run(w, evs[..k]).entities[l].listeners| == |w.entities[l].listeners|
    ensures |Run(w, evs[..k + 1]).entities[l].listeners| == |w.entities[l].listeners|
    ensures RecordAfter(w, evs[..k + 1], l, j) == RecordAfter(w, evs[..k], l, j)
         || FillsAt(w, evs, k, l, j) || ClearsAt(w, evs, k, l, j)
  {
    RunKeepsTableLength(w, evs[..k], l);
    RunKeepsTableLength(w, evs[..k + 1], l);
    RunStep(w, evs, k);
    RunKeepsSlotIds(w, evs[..k]);
    var before, ev := Run(w, evs[..k]), evs[k];
    if Enabled(before, ev) && ev.Deliver? && ev.dst == l {
      ReceiveChanges(before.entities[l], ev.pdu, ev.now, ev.link, ev.count);
    }
  }

  lemma UnchangedAtEnd(w: World, evs: seq<Event>, l: nat, j: nat)
    requires Valid(w) && l < |w.entities| && j < |w.entities[l].listeners| == |Run(w, evs).entities[l].listeners|
    ensures UnchangedSince(w, evs, |evs|, l, j)
  {
    assert evs[..|evs|] == evs;
  }

  lemma ClearedIsUnconnected(w: World, evs: seq<Event>, k: nat, l: nat, j: nat)
    requires Valid(w) && l < |w.entities| && j < |w.entities[l].listeners| && k < |evs| && ClearsAt(w, evs, k, l, j)
    ensures |Run(w, evs[..k + 1]).entities[l].listeners| == |w.entities[l].listeners|
    ensures !RecordAfter(w, evs[..k + 1], l, j).connected
  {
    RunKeepsTableLength(w, evs[..k + 1], l);
  }

  // The whole history of a connected record: some event of the run filled it with what it holds now,
  // and it has not changed since. It belongs to the stream whose number is its place in the table.
  lemma {:induction false} ConnectionHistory(w: World, evs: seq<Event>, l: nat, j: nat)
    requires Initial(w) && AllSlotIds(w) && l < |w.entities| && j < |w.entities[l].listeners|
    requires |Run(w, evs).entities[l].listeners| == |w.entities[l].listeners|
    requires RecordAfter(w, evs, l, j).connected
    ensures RecordAfter(w, evs, l, j).listenerUniqueId == j
    ensures exists k :: 0 <= k < |evs| && FillsAt(w, evs, k, l, j) && UnchangedSince(w, evs, k + 1, l, j)
    decreases |evs|
  {
    assert evs != [] && RecordAfter(w, evs, l, j).listenerUniqueId == j by { RunKeepsSlotIds(w, evs); }
    hide Run, Initial, AllSlotIds, FillsAt, ClearsAt, UnchangedSince;
    var n := |evs| - 1;
    assert evs[..n + 1] == evs;
    RecordChanges(w, evs, n, l, j);
    if FillsAt(w, evs, n, l, j) {
      UnchangedAtEnd(w, evs, l, j);
    } else {
      if ClearsAt(w, evs, n, l, j) { ClearedIsUnconnected(w, evs, n, l, j); }
      ConnectionHistory(w, evs[..n], l, j);
      var k :| 0 <= k < n && FillsAt(w, evs[..n], k, l, j) && UnchangedSince(w, evs[..n], k + 1, l, j);
      HistoryExtends(w, evs, k, l, j);
    }
  }

  lemma {:induction false} HistoryExtends(w: World, evs: seq<Event>, k: nat, l: nat, j: nat)
    requires Valid(w) && l < |w.entities| && evs != []
    requires j < |Run(w, evs).entities[l].listeners| == |w.entities[l].listeners|
    requires |Run(w, evs[..|evs| - 1]).entities[l].listeners| == |w.entities[l].listeners| && k < |evs| - 1
    requires FillsAt(w, evs[..|evs| - 1], k, l, j) && UnchangedSince(w, evs[..|evs| - 1], k + 1, l, j)
    requires RecordAfter(w, evs, l, j) == RecordAfter(w, evs[..|evs| - 1], l, j)
    ensures FillsAt(w, evs, k, l, j) && UnchangedSince(w, evs, k + 1, l, j)
  {
    var n := |evs| - 1;
    assert evs[..n][..k] == evs[..k] && evs[..n][..k + 1] == evs[..k + 1];
    forall m | k + 1 <= m <= |evs|
      ensures |Run(w, evs[..m]).entities[l].listeners| == |w.entities[l].listeners|
      ensures RecordAfter(w, evs[..m], l, j) == RecordAfter(w, evs, l, j)
    {
      if m <= n { assert evs[..n][..m] == evs[..m]; } else { assert evs[..m] == evs; }
    }
  }

  ghost predicate UnchangedSince(w: World, evs: seq<Event>, from: nat, l: nat, j: nat)
    requires Valid(w) && l < |w.entities| && j < |w.entities[l].listeners| == |Run(w, evs).entities[l].listeners|
  {
    forall m :: from <= m <= |evs| ==>
      && |Run(w, evs[..m]).entities[l].listeners| == |w.entities[l].listeners|
      && RecordAfter(w, evs[..m], l, j) == RecordAfter(w, evs, l, j)
  }

  // ---- A stream that was disconnected ----------------------------------------------------------

  // After a disconnect, a grant for the same stream can be entered again exactly when it is stream 0:
  // clearing the record also clears the unique id it is found by.
  lemma OnlyStreamZeroReconnects(ls: seq<ListenerInfo>, q: Pdu, p: Pdu)
    requires SlotIds(ls) && FindConnected(ls, q) < |ls| && p.listenerUniqueId == q.listenerUniqueId
    ensures AddStatus(RemoveListener(ls, q), p).Success? <==> p.listenerUniqueId == 0
  {
    var k := FindConnected(ls, q);
    var ls' := ls[k := ZERO_LISTENER];
    assert k == q.listenerUniqueId;
    assert ls'[k] == ZERO_LISTENER && ls'[0].listenerUniqueId == 0;
  }

  // A cleared record other than the first stays cleared in every later state of every run.
  lemma {:induction false} ClearedStaysCleared(w: World, evs: seq<Event>, k: nat, l: nat, j: nat)
    requires Initial(w) && AllSlotIds(w) && l < |w.entities| && 0 < j < |w.entities[l].listeners|
    requires k <= |evs| && |Run(w, evs[..k]).entities[l].listeners| == |w.entities[l].listeners|
    requires RecordAfter(w, evs[..k], l, j) == ZERO_LISTENER
    ensures |Run(w, evs).entities[l].listeners| == |w.entities[l].listeners|
    ensures RecordAfter(w, evs, l, j) == ZERO_LISTENER
    decreases |evs|
  {
    if k == |evs| {
      assert evs[..k] == evs;
    } else {
      var n := |evs| - 1;
      assert evs[..n][..k] == evs[..k] && evs[..n + 1] == evs;
      ClearedStaysCleared(w, evs[..n], k, l, j);
      RecordChanges(w, evs, n, l, j);
      RunKeepsSlotIds(w, evs);
    }
  }
}
