// Answers are matched to commands by their sequence id alone. When can an answer release the command of another
// request? Exactly which requests of the controllers make that possible.
module AcmpCrossing {
  import opened AcmpTypes
  import opened AcmpSpec
  import opened AcmpNetwork
  import opened AcmpAgreement
  import opened AcmpExclusivity
  import opened AcmpRequests
  import opened AcmpReach

  // Delivering this answer releases the slot; neither the clock nor the link matters for an answer.
  ghost predicate Releases(e: Entity, p: Pdu, i: nat)
    requires e.Valid() && i < MAX_INFLIGHT
  {
    var e' := Receive(e, p, 0, true, 0).entity;
    |e'.inflight| == MAX_INFLIGHT && e.inflight[i].Active() && !e'.inflight[i].Active()
  }

  // The request is one for a stream of listener l, and some talker offers the stream it names.
  ghost predicate Granted(w: World, l: nat, h: Pdu)
    requires l < |w.entities|
  {
    IsRequest(h) && IsOwnStream(w.entities[l], h) && exists t :: 0 <= t < |w.entities| && Grants(w.entities[t], h)
  }

  // ---- Every grant comes from a talker that has the stream ---------------------------------------

  ghost predicate AllGranted(w: World) {
    forall p :: p in w.sent && IsGrant(p) ==> exists t :: 0 <= t < |w.entities| && Grants(w.entities[t], p)
  }

  lemma SendsOwnGrants(e: Entity, p: Pdu, now: nat, link: bool, count: nat, f: Pdu)
    requires f in Receive(e, p, now, link, count).frames && IsGrant(f)
    ensures Grants(e, f)
  {
    ReceivePassesOn(e, p, now, link, count, f);
    assert Stems(f, p);
    if IsTalkerCommand(p.messageType) && e.cfg.isTalker {
      assert f == TalkerAnswer(e, ConnectTxResponse, p, count);
    } else {
      ListenerSendsNoGrant(e, p, now, link, f);
    }
  }

  lemma {:induction false} RunKeepsGranted(w: World, evs: seq<Event>)
    requires Initial(w)
    ensures AllGranted(Run(w, evs))
  {
    if evs == [] {
      assert AllGranted(w);
    } else {
      RunKeepsGranted(w, evs[..|evs| - 1]);
      StepKeepsGranted(Run(w, evs[..|evs| - 1]), evs[|evs| - 1]);
    }
  }

  lemma StepKeepsGranted(w: World, ev: Event)
    requires Valid(w) && AllGranted(w)
    ensures AllGranted(Step(w, ev))
  {
    StepKeepsConfig(w, ev);
    var w' := Step(w, ev);
    forall p | p in w'.sent && IsGrant(p) ensures exists t :: 0 <= t < |w'.entities| && Grants(w'.entities[t], p) {
      if p in w.sent {
        var t :| 0 <= t < |w.entities| && Grants(w.entities[t], p);
        assert Grants(w'.entities[t], p);
      } else if ev.Deliver? {
        SendsOwnGrants(w.entities[ev.dst], ev.pdu, ev.now, ev.link, ev.count, p);
        assert Grants(w'.entities[ev.dst], p);
      } else {
        TickSendsNoGrant(w.entities[ev.dst].inflight, ev.now, ev.links, MAX_INFLIGHT, p);
      }
    }
  }

  // ---- Where the parts of a crossing come from ---------------------------------------------------

  // What a slot holds was asked for by a command to this listener.
  lemma SlotComesFrom(w: World, allowed: iset<Pdu>, x: Point, l: nat, i: nat) returns (g: Pdu)
    requires Initial(w) && Reaches(w, allowed, x) && l < |w.entities| && i < MAX_INFLIGHT
    requires x.w.entities[l].inflight[i].Active()
    ensures g in allowed && IsRxCommand(g) && IsOwnStream(w.entities[l], g)
      && Stems(x.w.entities[l].inflight[i].command, g)
    ensures IsTxCommand(x.w.entities[l].inflight[i].command)
  {
    var evs :| Run(w, evs) == x.w;
    RunKeepsRequested(w, evs);
    RunKeepsTableLength(w, evs, l);
    var e := x.w.entities[l];
    assert SlotsRequested(x.w, e) && SlotRequested(x.w, e, e.inflight[i]);
    g :| g in x.w.injected && IsRxCommand(g) && IsOwnStream(e, g) && Stems(e.inflight[i].command, g);
  }

  // What an answer answers was injected.
  lemma AnswerComesFrom(w: World, allowed: iset<Pdu>, x: Point, p: Pdu) returns (h: Pdu)
    requires Initial(w) && Reaches(w, allowed, x) && p in x.w.sent && !KindOf(p.messageType).Neither?
    ensures h in allowed && !h.messageType.ConnectTxResponse? && Stems(p, h)
  {
    var evs :| Run(w, evs) == x.w;
    RunKeepsRequested(w, evs);
    assert FrameRequested(x.w, p);
    h :| h in x.w.injected && Stems(p, h);
  }

  lemma GrantComesFrom(w: World, allowed: iset<Pdu>, x: Point, l: nat, p: Pdu) returns (h: Pdu)
    requires Initial(w) && Reaches(w, allowed, x) && l < |w.entities|
    requires p in x.w.sent && IsGrant(p) && IsOwnStream(w.entities[l], p)
    ensures h in allowed && Granted(w, l, h) && Stems(p, h)
  {
    h := AnswerComesFrom(w, allowed, x, p);
    var evs :| Run(w, evs) == x.w;
    RunKeepsGranted(w, evs);
    var t :| 0 <= t < |x.w.entities| && Grants(x.w.entities[t], p);
    assert Grants(w.entities[t], h);
  }

  lemma OwnStreamStays(w: World, allowed: iset<Pdu>, x: Point, l: nat, p: Pdu)
    requires Reaches(w, allowed, x) && l < |w.entities|
    ensures IsOwnStream(x.w.entities[l], p) <==> IsOwnStream(w.entities[l], p)
  {
    var evs :| Run(w, evs) == x.w;
    RunKeepsTableLength(w, evs, l);
  }

  // ---- Grants ------------------------------------------------------------------------------------

  ghost predicate GrantCrosses(w: World, l: nat, p: Pdu, i: nat)
    requires Valid(w) && l < |w.entities|
  {
    && p in w.sent && IsGrant(p) && i < MAX_INFLIGHT && Releases(w.entities[l], p, i)
    && !SameRequest(w.entities[l].inflight[i].command, p)
  }

  // Two different requests to the listener under one sequence id: one it takes up, and one a talker grants.
  ghost predicate GrantConflict(w: World, l: nat, allowed: iset<Pdu>)
    requires l < |w.entities|
  {
    exists g, h :: g in allowed && h in allowed && Opens(w.entities[l], g) && Granted(w, l, h)
      && g.sequenceId == h.sequenceId && !SameRequest(g, h)
  }

  // What a grant releases.
  lemma GrantReleases(e: Entity, p: Pdu, i: nat)
    requires e.Valid() && i < MAX_INFLIGHT && IsGrant(p) && Releases(e, p, i)
    ensures IsOwnStream(e, p) && Matches(e.inflight[i], p, true) && i == FindMatch(e.inflight, p, true)
  {
    assert Receive(e, p, 0, true, 0) == ListenerMachine(e, p, 0, true) == ConnectTxAnswer(e, p);
  }

  lemma GrantCrossingNeedsConflict(w: World, allowed: iset<Pdu>, x: Point, l: nat, p: Pdu, i: nat)
    requires Initial(w) && Reaches(w, allowed, x) && l < |w.entities| && GrantCrosses(x.w, l, p, i)
    ensures GrantConflict(w, l, allowed)
  {
    hide Attained;
    GrantReleases(x.w.entities[l], p, i);
    OwnStreamStays(w, allowed, x, l, p);
    var g := SlotComesFrom(w, allowed, x, l, i);
    var h := GrantComesFrom(w, allowed, x, l, p);
    assert Opens(w.entities[l], g) && g.sequenceId == h.sequenceId && !SameRequest(g, h);
  }

  lemma OpenedMatches(e: Entity, g: Pdu, now: nat, t: MessageType, p: Pdu)
    requires e.Valid() && (t.ConnectTxCommand? || t.DisconnectTxCommand?) && g.sequenceId == p.sequenceId
    ensures Opened(e.cfg, t, g, now).Active() && Matches(Opened(e.cfg, t, g, now), p, t.ConnectTxCommand?)
  {}

  lemma GrantConflictCrosses(w: World, allowed: iset<Pdu>, l: nat, g: Pdu, h: Pdu) returns (x: Point, p: Pdu)
    requires Initial(w) && l < |w.entities| && g in allowed && h in allowed
    requires Opens(w.entities[l], g) && Granted(w, l, h) && g.sequenceId == h.sequenceId && !SameRequest(g, h)
    ensures Reaches(w, allowed, x) && GrantCrosses(x.w, l, p, 0)
  {
    hide Attained;
    var t :| 0 <= t < |w.entities| && Grants(w.entities[t], h);
    var x0 := Point(w, 0);
    Starts(w, allowed);
    assert FindFree(w.entities[l].inflight) == 0;
    var x1 := TakingUp(w, allowed, x0, l, g);
    var x2 := Injecting(w, allowed, x1, h);
    assert NoneConnected(x2.w.entities[l]) && FindFree(x2.w.entities[l].inflight) == 1;
    x, p := GettingGrant(w, allowed, x2, l, t, h);
    var e := x.w.entities[l];
    OpenedMatches(e, g, 0, ConnectTxCommand, p);
    assert e.inflight[0] == Opened(e.cfg, ConnectTxCommand, g, 0);
    assert FindMatch(e.inflight, p, true) == 0;
    ListenerFills(e, p, 0);
  }

  // A grant can release the command of another request if and only if controllers may inject two different
  // requests to this listener under one sequence id, of which the listener takes up one and a talker grants one.
  lemma GrantsCross(w: World, l: nat, allowed: iset<Pdu>)
    requires Initial(w) && l < |w.entities|
    ensures (exists x, p, i :: Reaches(w, allowed, x) && GrantCrosses(x.w, l, p, i)) <==> GrantConflict(w, l, allowed)
  {
    if GrantConflict(w, l, allowed) {
      var g, h :| g in allowed && h in allowed && Opens(w.entities[l], g) && Granted(w, l, h)
        && g.sequenceId == h.sequenceId && !SameRequest(g, h);
      var x, p := GrantConflictCrosses(w, allowed, l, g, h);
    }
    forall x, p, i | Reaches(w, allowed, x) && GrantCrosses(x.w, l, p, i) ensures GrantConflict(w, l, allowed) {
      GrantCrossingNeedsConflict(w, allowed, x, l, p, i);
    }
  }
}
