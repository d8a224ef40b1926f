// How long a command stays in flight, how often it is sent, and how it is answered.
// One entity is followed through a run, together with a history of its inflight table.
module AcmpTiming {
  import opened AcmpTypes
  import opened AcmpSpec

  datatype Event =
    | Receive(p: Pdu, now: nat, link: bool, count: nat)
    | Timer(now: nat, links: seq<bool>)

  // openedAt and sends describe the command a slot holds or held last;
  // taken and freed count the slots taken and given back since the start, transmissions the TX commands sent.
  datatype History = History(
    entity: Entity, clock: nat, lastTimer: nat,
    openedAt: seq<nat>, sends: seq<nat>, taken: nat, freed: nat, transmissions: nat)

  ghost function Outcomes(e: Entity, ev: Event): Outcome
    requires e.Valid() && (ev.Timer? ==> |ev.links| == MAX_INFLIGHT)
  {
    match ev
    case Receive(p, now, link, count) => AcmpSpec.Receive(e, p, now, link, count)
    case Timer(now, links) => Tick(e, now, links)
  }

  predicate Opens(before: Inflight, after: Inflight) { !before.Active() && after.Active() }
  predicate Releases(before: Inflight, after: Inflight) { before.Active() && !after.Active() }
  predicate Retries(before: Inflight, after: Inflight) {
    before.Active() && after.Active() && !before.retried && after.retried
  }

  // Time only moves forward, and the timer runs at least every `d`.
  predicate OnTime(h: History, ev: Event, d: nat) {
    && h.clock <= ev.now <= h.lastTimer + d
    && (ev.Timer? ==> |ev.links| == MAX_INFLIGHT)
  }

  ghost function Next(h: History, ev: Event): History
    requires h.entity.Valid() && |h.openedAt| == |h.sends| == MAX_INFLIGHT
    requires ev.Timer? ==> |ev.links| == MAX_INFLIGHT
  {
    var o := Outcomes(h.entity, ev);
    SameSize(h.entity, ev);
    var before, after := h.entity.inflight, o.entity.inflight;
    History(o.entity, ev.now, if ev.Timer? then ev.now else h.lastTimer,
      seq(MAX_INFLIGHT, i requires 0 <= i < MAX_INFLIGHT =>
        if Opens(before[i], after[i]) then ev.now else h.openedAt[i]),
      seq(MAX_INFLIGHT, i requires 0 <= i < MAX_INFLIGHT =>
        if Opens(before[i], after[i]) then 1 else if Retries(before[i], after[i]) then h.sends[i] + 1 else h.sends[i]),
      h.taken + OpenedBy(before, after, MAX_INFLIGHT),
      h.freed + ReleasedBy(before, after, MAX_INFLIGHT),
      h.transmissions + Transmissions(o.frames))
  }

  function OpenedBy(before: seq<Inflight>, after: seq<Inflight>, n: nat): nat
    requires n <= |before| && n <= |after|
  {
    if n == 0 then 0 else OpenedBy(before, after, n - 1) + if Opens(before[n - 1], after[n - 1]) then 1 else 0
  }

  function ReleasedBy(before: seq<Inflight>, after: seq<Inflight>, n: nat): nat
    requires n <= |before| && n <= |after|
  {
    if n == 0 then 0 else ReleasedBy(before, after, n - 1) + if Releases(before[n - 1], after[n - 1]) then 1 else 0
  }

  function RetriedBy(before: seq<Inflight>, after: seq<Inflight>, n: nat): nat
    requires n <= |before| && n <= |after|
  {
    if n == 0 then 0 else RetriedBy(before, after, n - 1) + if Retries(before[n - 1], after[n - 1]) then 1 else 0
  }

  function ActiveSlots(slots: seq<Inflight>, n: nat): nat
    requires n <= |slots|
  {
    if n == 0 then 0 else ActiveSlots(slots, n - 1) + if slots[n - 1].Active() then 1 else 0
  }

  // The sends of the commands now in flight.
  function SendsInFlight(slots: seq<Inflight>, sends: seq<nat>, n: nat): nat
    requires n <= |slots| && n <= |sends|
  {
    if n == 0 then 0 else SendsInFlight(slots, sends, n - 1) + if slots[n - 1].Active() then sends[n - 1] else 0
  }

  lemma SameSize(e: Entity, ev: Event)
    requires e.Valid() && (ev.Timer? ==> |ev.links| == MAX_INFLIGHT)
    ensures Outcomes(e, ev).entity.Valid() && Outcomes(e, ev).entity.cfg == e.cfg
  {}

  // ---- Answers and transmissions of one step ------------------------------------------------------

  predicate IsRxAnswer(p: Pdu) { p.messageType.ConnectRxResponse? || p.messageType.DisconnectRxResponse? }

  // A TX command going out; the notice sent when the table is full has the same type but opens nothing.
  predicate IsTransmission(p: Pdu) {
    (p.messageType.ConnectTxCommand? || p.messageType.DisconnectTxCommand?) && !p.status.ListenerMisbehaving?
  }

  function AnsweredIds(fs: seq<Pdu>): seq<nat> {
    if fs == [] then []
    else AnsweredIds(fs[..|fs| - 1]) + if IsRxAnswer(fs[|fs| - 1]) then [fs[|fs| - 1].sequenceId] else []
  }

  function Transmissions(fs: seq<Pdu>): nat {
    if fs == [] then 0 else Transmissions(fs[..|fs| - 1]) + if IsTransmission(fs[|fs| - 1]) then 1 else 0
  }

  function ReleasedId(before: Inflight, after: Inflight): seq<nat> {
    if Releases(before, after) then [before.originalSequenceId] else []
  }

  function ReleasedIds(before: seq<Inflight>, after: seq<Inflight>, n: nat): seq<nat>
    requires n <= |before| && n <= |after|
  {
    if n == 0 then []
    else ReleasedIds(before, after, n - 1) + ReleasedId(before[n - 1], after[n - 1])
  }

  lemma {:induction false} AppendFrames(a: seq<Pdu>, b: seq<Pdu>)
    ensures AnsweredIds(a + b) == AnsweredIds(a) + AnsweredIds(b)
    ensures Transmissions(a + b) == Transmissions(a) + Transmissions(b)
  {
    if b == [] {
      assert a + b == a;
    } else {
      assert (a + b)[..|a + b| - 1] == a + b[..|b| - 1];
      AppendFrames(a, b[..|b| - 1]);
    }
  }

  lemma TimedFramesAnswer(cfg: Config, s: Inflight, now: nat, link: bool)
    requires cfg.Valid()
    ensures AnsweredIds(TimedFrames(s, now, link)) == ReleasedId(s, TimedSlot(cfg, s, now))
    ensures Transmissions(TimedFrames(s, now, link)) == if Retries(s, TimedSlot(cfg, s, now)) then 1 else 0
  {}

  lemma AnswersOfBoth(a: seq<Pdu>, b: seq<Pdu>, ids: seq<nat>, more: seq<nat>)
    requires AnsweredIds(a) == ids && AnsweredIds(b) == more
    ensures AnsweredIds(a + b) == ids + more
  {
    AppendFrames(a, b);
  }

  lemma {:induction false} TickAnswers(cfg: Config, slots: seq<Inflight>, after: seq<Inflight>, now: nat,
                                       links: seq<bool>, n: nat)
    requires cfg.Valid() && n <= |slots| == |after| <= |links|
    requires forall k :: 0 <= k < n ==> after[k] == TimedSlot(cfg, slots[k], now)
    ensures AnsweredIds(TickFrames(slots, now, links, n)) == ReleasedIds(slots, after, n)
  {
    if n == 0 {
    } else {
      hide AnsweredIds, TimedFrames, TimedSlot, ReleasedId;
      TickAnswers(cfg, slots, after, now, links, n - 1);
      TimedFramesAnswer(cfg, slots[n - 1], now, links[n - 1]);
      AnswersOfBoth(TickFrames(slots, now, links, n - 1), TimedFrames(slots[n - 1], now, links[n - 1]),
        ReleasedIds(slots, after, n - 1), ReleasedId(slots[n - 1], after[n - 1]));
    }
  }

  lemma {:induction false} TickTransmits(cfg: Config, slots: seq<Inflight>, now: nat, links: seq<bool>, n: nat)
    requires cfg.Valid() && n <= |slots| <= |links|
    ensures Transmissions(TickFrames(slots, now, links, n)) == RetriedBy(slots, TickSlots(cfg, slots, now, |slots|), n)
  {
    if n == 0 {
    } else {
      hide Transmissions, TimedFrames, TimedSlot;
      TickTransmits(cfg, slots, now, links, n - 1);
      AppendFrames(TickFrames(slots, now, links, n - 1), TimedFrames(slots[n - 1], now, links[n - 1]));
      TimedFramesAnswer(cfg, slots[n - 1], now, links[n - 1]);
    }
  }

  lemma {:induction false} SingleReleased(before: seq<Inflight>, i: nat, s: Inflight, n: nat)
    requires i < |before| && n <= |before|
    ensures ReleasedIds(before, before[i := s], n) == if i < n then ReleasedId(before[i], s) else []
  {
    if n == 0 {
    } else {
      SingleReleased(before, i, s, n - 1);
    }
  }

  lemma {:induction false} SingleOpened(before: seq<Inflight>, i: nat, s: Inflight, n: nat)
    requires i < |before| && n <= |before|
    ensures OpenedBy(before, before[i := s], n) == if i < n && Opens(before[i], s) then 1 else 0
  {
    if n == 0 {
    } else {
      SingleOpened(before, i, s, n - 1);
    }
  }

  lemma {:induction false} SingleRetried(before: seq<Inflight>, i: nat, s: Inflight, n: nat)
    requires i < |before| && n <= |before|
    ensures RetriedBy(before, before[i := s], n) == if i < n && Retries(before[i], s) then 1 else 0
  {
    if n == 0 {
    } else {
      SingleRetried(before, i, s, n - 1);
    }
  }

  lemma SingleChange(before: seq<Inflight>, i: nat, s: Inflight, n: nat)
    requires i < |before| && n <= |before|
    ensures var after := before[i := s];
      && ReleasedIds(before, after, n) == (if i < n then ReleasedId(before[i], s) else [])
      && OpenedBy(before, after, n) == (if i < n && Opens(before[i], s) then 1 else 0)
      && RetriedBy(before, after, n) == (if i < n && Retries(before[i], s) then 1 else 0)
  {
    SingleReleased(before, i, s, n);
    SingleOpened(before, i, s, n);
    SingleRetried(before, i, s, n);
  }

  lemma OneAnswer(p: Pdu)
    ensures AnsweredIds([p]) == if IsRxAnswer(p) then [p.sequenceId] else []
  {
    assert [p][..0] == [];
  }

  lemma OneTransmission(p: Pdu)
    ensures Transmissions([p]) == if IsTransmission(p) then 1 else 0
  {
    assert [p][..0] == [];
  }

  // One slot is opened with the command that goes out, or released with the answer to its controller.
  ghost predicate ChangesOne(before: seq<Inflight>, o: Outcome, i: nat) {
    && i < |before| == |o.entity.inflight| && |o.frames| == 1
    && o.entity.inflight == before[i := o.entity.inflight[i]]
    && ((Opens(before[i], o.entity.inflight[i]) && IsTransmission(o.frames[0]))
        || (Releases(before[i], o.entity.inflight[i]) && IsRxAnswer(o.frames[0])
            && o.frames[0].sequenceId == before[i].originalSequenceId))
  }

  lemma CommandChangesOne(e: Entity, t: MessageType, p: Pdu, now: nat, link: bool)
    requires e.Valid() && (t.ConnectTxCommand? || t.DisconnectTxCommand?)
    requires TxCommand(e, t, p, now, link).entity.inflight != e.inflight
    ensures ChangesOne(e.inflight, TxCommand(e, t, p, now, link), FindFree(e.inflight))
  {
    assert Opened(e.cfg, t, p, now).Active();
  }

  lemma ConnectTxChangesOne(e: Entity, p: Pdu)
    requires e.Valid() && ConnectTxAnswer(e, p).entity.inflight != e.inflight
    ensures ChangesOne(e.inflight, ConnectTxAnswer(e, p), FindMatch(e.inflight, p, true))
  {}

  lemma DisconnectTxChangesOne(e: Entity, p: Pdu)
    requires e.Valid() && DisconnectTxAnswer(e, p).entity.inflight != e.inflight
    ensures ChangesOne(e.inflight, DisconnectTxAnswer(e, p), FindMatch(e.inflight, p, false))
  {}

  lemma ListenerChangesOne(e: Entity, p: Pdu, now: nat, link: bool) returns (i: nat)
    requires e.Valid() && ListenerMachine(e, p, now, link).entity.inflight != e.inflight
    ensures ChangesOne(e.inflight, ListenerMachine(e, p, now, link), i)
  {
    if p.messageType.ConnectRxCommand? {
      CommandChangesOne(e, ConnectTxCommand, p, now, link);
      i := FindFree(e.inflight);
    } else if p.messageType.DisconnectRxCommand? {
      CommandChangesOne(e, DisconnectTxCommand, p, now, link);
      i := FindFree(e.inflight);
    } else if p.messageType.ConnectTxResponse? {
      ConnectTxChangesOne(e, p);
      i := FindMatch(e.inflight, p, true);
    } else {
      DisconnectTxChangesOne(e, p);
      i := FindMatch(e.inflight, p, false);
    }
  }

  lemma ChangeAnswered(before: seq<Inflight>, o: Outcome, i: nat)
    requires |before| == MAX_INFLIGHT && ChangesOne(before, o, i)
    ensures |o.entity.inflight| == MAX_INFLIGHT
    ensures Transmissions(o.frames) == OpenedBy(before, o.entity.inflight, MAX_INFLIGHT)
                                     + RetriedBy(before, o.entity.inflight, MAX_INFLIGHT)
    ensures ReleasedIds(before, o.entity.inflight, MAX_INFLIGHT) == [] ||
            AnsweredIds(o.frames) == ReleasedIds(before, o.entity.inflight, MAX_INFLIGHT)
  {
    SingleChange(before, i, o.entity.inflight[i], MAX_INFLIGHT);
    assert o.frames == [o.frames[0]];
    OneAnswer(o.frames[0]);
    OneTransmission(o.frames[0]);
  }

  // Every release answers the controller exactly once, under the sequence id of its own request;
  // every transmission of a TX command opens a slot or is the one retry of a slot.
  lemma StepAnswers(e: Entity, ev: Event)
    requires e.Valid() && (ev.Timer? ==> |ev.links| == MAX_INFLIGHT)
    requires |Outcomes(e, ev).entity.inflight| == MAX_INFLIGHT
    ensures var o := Outcomes(e, ev);
      && Transmissions(o.frames) == OpenedBy(e.inflight, o.entity.inflight, MAX_INFLIGHT)
                                  + RetriedBy(e.inflight, o.entity.inflight, MAX_INFLIGHT)
      && (ev.Timer? || ReleasedIds(e.inflight, o.entity.inflight, MAX_INFLIGHT) != [] ==>
            AnsweredIds(o.frames) == ReleasedIds(e.inflight, o.entity.inflight, MAX_INFLIGHT))
  {
    var o := Outcomes(e, ev);
    match ev
    case Timer(now, links) =>
      TickAnswers(e.cfg, e.inflight, o.entity.inflight, now, links, MAX_INFLIGHT);
      TickTransmits(e.cfg, e.inflight, now, links, MAX_INFLIGHT);
      TickOpensNone(e.cfg, e.inflight, now, MAX_INFLIGHT);
    case Receive(p, now, link, count) =>
      if o.entity.inflight == e.inflight {
        SingleChange(e.inflight, 0, e.inflight[0], MAX_INFLIGHT);
        assert e.inflight[0 := e.inflight[0]] == e.inflight;
        assert Transmissions(o.frames) == 0 by { ReceiveSendsNone(e, p, now, link, count); }
      } else {
        assert o == ListenerMachine(e, p, now, link);
        var i := ListenerChangesOne(e, p, now, link);
        ChangeAnswered(e.inflight, o, i);
      }
  }

  lemma {:induction false} TickOpensNone(cfg: Config, slots: seq<Inflight>, now: nat, n: nat)
    requires n <= |slots|
    ensures OpenedBy(slots, TickSlots(cfg, slots, now, |slots|), n) == 0
  {
    if n == 0 {
    } else {
      TickOpensNone(cfg, slots, now, n - 1);
    }
  }

  lemma TalkerSendsNone(e: Entity, p: Pdu, count: nat)
    ensures Transmissions(TalkerMachine(e, p, count).frames) == 0
  {
    var fs := TalkerMachine(e, p, count).frames;
    if fs != [] { OneTransmission(fs[0]); }
  }

  // A command that takes no slot is refused.
  lemma CommandSendsNone(e: Entity, t: MessageType, p: Pdu, now: nat, link: bool)
    requires e.Valid() && (t.ConnectTxCommand? || t.DisconnectTxCommand?)
    requires TxCommand(e, t, p, now, link).entity.inflight == e.inflight
    ensures Transmissions(TxCommand(e, t, p, now, link).frames) == 0
  {
    var i := FindFree(e.inflight);
    assert i == MAX_INFLIGHT || TxCommand(e, t, p, now, link).entity.inflight[i].Active();
    OneTransmission(TxResponse(t, p, ListenerMisbehaving));
  }

  lemma ListenerSendsNone(e: Entity, p: Pdu, now: nat, link: bool)
    requires e.Valid() && ListenerMachine(e, p, now, link).entity.inflight == e.inflight
    ensures Transmissions(ListenerMachine(e, p, now, link).frames) == 0
  {
    var o := ListenerMachine(e, p, now, link);
    if o.frames != [] && !IsTransmission(o.frames[0]) {
      OneTransmission(o.frames[0]);
    } else if p.messageType.ConnectRxCommand? {
      CommandSendsNone(e, ConnectTxCommand, p, now, link);
    } else if p.messageType.DisconnectRxCommand? {
      CommandSendsNone(e, DisconnectTxCommand, p, now, link);
    }
  }

  lemma ReceiveSendsNone(e: Entity, p: Pdu, now: nat, link: bool, count: nat)
    requires e.Valid() && AcmpSpec.Receive(e, p, now, link, count).entity.inflight == e.inflight
    ensures Transmissions(AcmpSpec.Receive(e, p, now, link, count).frames) == 0
  {
    var fs := AcmpSpec.Receive(e, p, now, link, count).frames;
    if fs != [] {
      if IsTalkerCommand(p.messageType) && e.cfg.isTalker {
        TalkerSendsNone(e, p, count);
      } else {
        ListenerSendsNone(e, p, now, link);
      }
    }
  }

  // ---- Runs ----------------------------------------------------------------------------------

  ghost predicate Start(h: History) {
    && h.entity.Valid() && |h.openedAt| == |h.sends| == MAX_INFLIGHT
    && h.clock == h.lastTimer && h.taken == h.freed == h.transmissions == 0
    && forall i :: 0 <= i < MAX_INFLIGHT ==> !h.entity.inflight[i].Active()
  }

  // The state after a run whose events are all on time; None if some event is not.
  datatype Reached = Late | At(h: History)

  ghost function Run(h: History, evs: seq<Event>, d: nat): (r: Reached)
    requires h.entity.Valid() && |h.openedAt| == |h.sends| == MAX_INFLIGHT
    ensures r.At? ==>
      r.h.entity.Valid() && |r.h.openedAt| == |r.h.sends| == MAX_INFLIGHT && r.h.entity.cfg == h.entity.cfg
  {
    if evs == [] then At(h)
    else
      var before := Run(h, evs[..|evs| - 1], d);
      var ev := evs[|evs| - 1];
      if before.At? && OnTime(before.h, ev, d) then
        SameSize(before.h.entity, ev);
        At(Next(before.h, ev))
      else Late
  }

  // ---- The invariant ---------------------------------------------------------------------------

  // An active slot holds a TX command under its own sequence id, was sent once, or twice if retried,
  // and its timeout is one period after it was opened, or at most two periods and one timer gap if retried.
  predicate SlotOnTime(cfg: Config, s: Inflight, openedAt: nat, sends: nat, lastTimer: nat, clock: nat, d: nat) {
    var t := cfg.Period(s.command.messageType);
    s.Active() ==>
      && (s.command.messageType.ConnectTxCommand? || s.command.messageType.DisconnectTxCommand?)
      && s.command.sequenceId == s.originalSequenceId
      && openedAt <= clock
      && lastTimer < s.timeout
      && (if s.retried then sends == 2 && s.timeout <= openedAt + 2 * t + d
          else sends == 1 && s.timeout == openedAt + t)
  }

  ghost predicate Inv(h: History, d: nat) {
    && h.entity.Valid() && |h.openedAt| == |h.sends| == MAX_INFLIGHT
    && h.lastTimer <= h.clock <= h.lastTimer + d
    && h.taken == h.freed + ActiveSlots(h.entity.inflight, MAX_INFLIGHT)
    && h.transmissions <= 2 * h.freed + SendsInFlight(h.entity.inflight, h.sends, MAX_INFLIGHT)
    && forall i :: 0 <= i < MAX_INFLIGHT ==>
         SlotOnTime(h.entity.cfg, h.entity.inflight[i], h.openedAt[i], h.sends[i], h.lastTimer, h.clock, d)
  }

  lemma {:induction false} SlotsBalance(before: seq<Inflight>, after: seq<Inflight>, n: nat)
    requires n <= |before| && n <= |after|
    ensures ActiveSlots(before, n) + OpenedBy(before, after, n) == ActiveSlots(after, n) + ReleasedBy(before, after, n)
  {
    if n == 0 {
    } else {
      SlotsBalance(before, after, n - 1);
    }
  }

  predicate OpenedFor(cfg: Config, p: Pdu, now: nat, s: Inflight) {
    s == Opened(cfg, ConnectTxCommand, p, now) || s == Opened(cfg, DisconnectTxCommand, p, now)
  }

  // No command is sent a third time: what is released was sent at most twice.
  lemma {:induction false} SendsBalance(h: History, h': History, n: nat)
    requires n <= |h.entity.inflight| == |h'.entity.inflight| == |h.sends| == |h'.sends|
    requires forall i :: 0 <= i < n && h.entity.inflight[i].Active() ==> h.sends[i] <= 2
    requires forall i :: 0 <= i < n ==>
      h'.sends[i] == if Opens(h.entity.inflight[i], h'.entity.inflight[i]) then 1
                     else if Retries(h.entity.inflight[i], h'.entity.inflight[i]) then h.sends[i] + 1 else h.sends[i]
    ensures var before, after := h.entity.inflight, h'.entity.inflight;
      SendsInFlight(before, h.sends, n) + OpenedBy(before, after, n) + RetriedBy(before, after, n)
        <= SendsInFlight(after, h'.sends, n) + 2 * ReleasedBy(before, after, n)
  {
    if n == 0 {
    } else {
      SendsBalance(h, h', n - 1);
    }
  }

  lemma {:induction false} AtMostTwoSends(slots: seq<Inflight>, sends: seq<nat>, n: nat)
    requires n <= |slots| && n <= |sends|
    requires forall i :: 0 <= i < n && slots[i].Active() ==> sends[i] <= 2
    ensures SendsInFlight(slots, sends, n) <= 2 * ActiveSlots(slots, n)
  {
    if n == 0 {
    } else {
      AtMostTwoSends(slots, sends, n - 1);
    }
  }

  // A received frame leaves each slot alone, frees it, or opens it for a new command.
  lemma ReceiveSlots(e: Entity, p: Pdu, now: nat, link: bool, count: nat, i: nat)
    requires e.Valid() && i < MAX_INFLIGHT
    ensures var e' := AcmpSpec.Receive(e, p, now, link, count).entity;
            && |e'.inflight| == MAX_INFLIGHT
            && (e'.inflight[i] == e.inflight[i]
                || (e.inflight[i].Active() && e'.inflight[i] == FREE_SLOT)
                || (!e.inflight[i].Active() && OpenedFor(e.cfg, p, now, e'.inflight[i])))
  {}

  lemma StepKeepsSlot(h: History, ev: Event, d: nat, i: nat)
    requires Inv(h, d) && OnTime(h, ev, d) && i < MAX_INFLIGHT
    ensures var h' := Next(h, ev);
            |h'.entity.inflight| == MAX_INFLIGHT &&
            SlotOnTime(h'.entity.cfg, h'.entity.inflight[i], h'.openedAt[i], h'.sends[i], h'.lastTimer, h'.clock, d)
  {
    SameSize(h.entity, ev);
    assert SlotOnTime(h.entity.cfg, h.entity.inflight[i], h.openedAt[i], h.sends[i], h.lastTimer, h.clock, d);
    match ev
    case Receive(p, now, link, count) => ReceiveSlots(h.entity, p, now, link, count, i);
    case Timer(now, links) =>
      assert Next(h, ev).entity.inflight[i] == TimedSlot(h.entity.cfg, h.entity.inflight[i], now);
  }

  lemma StepKeepsInv(h: History, ev: Event, d: nat)
    requires Inv(h, d) && OnTime(h, ev, d)
    ensures Inv(Next(h, ev), d)
  {
    SameSize(h.entity, ev);
    SlotsBalance(h.entity.inflight, Outcomes(h.entity, ev).entity.inflight, MAX_INFLIGHT);
    StepAnswers(h.entity, ev);
    SendsBalance(h, Next(h, ev), MAX_INFLIGHT);
    forall i | 0 <= i < MAX_INFLIGHT
      ensures var h' := Next(h, ev);
        SlotOnTime(h'.entity.cfg, h'.entity.inflight[i], h'.openedAt[i], h'.sends[i], h'.lastTimer, h'.clock, d)
    {
      StepKeepsSlot(h, ev, d, i);
    }
  }

  lemma {:induction false} RunKeepsInv(h: History, evs: seq<Event>, d: nat)
    requires Start(h)
    ensures Run(h, evs, d).At? ==> Inv(Run(h, evs, d).h, d)
  {
    if evs == [] {
      NoneActive(h.entity.inflight, MAX_INFLIGHT);
    } else {
      RunKeepsInv(h, evs[..|evs| - 1], d);
      var before := Run(h, evs[..|evs| - 1], d);
      if before.At? && OnTime(before.h, evs[|evs| - 1], d) {
        StepKeepsInv(before.h, evs[|evs| - 1], d);
      }
    }
  }

  lemma {:induction false} NoneActive(slots: seq<Inflight>, n: nat)
    requires n <= |slots| && forall i :: 0 <= i < n ==> !slots[i].Active()
    ensures ActiveSlots(slots, n) == 0
  {
    if n == 0 {
    } else {
      NoneActive(slots, n - 1);
    }
  }

  // ---- Main results ----------------------------------------------------------------------------

  // Bounded resolution: if the timer runs at least every d, a slot that is still taken was opened less than two
  // periods and two timer gaps ago, its command has been sent at most twice, slots taken balance slots given back,
  // and the whole run sends no more than two TX commands for every slot taken.
  lemma BoundedResolution(h: History, evs: seq<Event>, d: nat)
    requires Start(h) && Run(h, evs, d).At?
    ensures var g := Run(h, evs, d).h;
      && g.taken == g.freed + ActiveSlots(g.entity.inflight, MAX_INFLIGHT)
      && g.transmissions <= 2 * g.taken
      && forall i :: 0 <= i < MAX_INFLIGHT && g.entity.inflight[i].Active() ==>
           var s := g.entity.inflight[i];
           && (s.command.messageType.ConnectTxCommand? || s.command.messageType.DisconnectTxCommand?)
           && s.command.sequenceId == s.originalSequenceId
           && g.clock < g.openedAt[i] + 2 * g.entity.cfg.Period(s.command.messageType) + 2 * d
           && 1 <= g.sends[i] <= 2
  {
    RunKeepsInv(h, evs, d);
    var g := Run(h, evs, d).h;
    forall i | 0 <= i < MAX_INFLIGHT && g.entity.inflight[i].Active()
      ensures SlotOnTime(g.entity.cfg, g.entity.inflight[i], g.openedAt[i], g.sends[i], g.lastTimer, g.clock, d)
    {}
    AtMostTwoSends(g.entity.inflight, g.sends, MAX_INFLIGHT);
  }

  // ---- Answers without a release -----------------------------------------------------------------

  ghost predicate HasMatch(slots: seq<Inflight>, p: Pdu, connectOnly: bool) {
    exists i :: 0 <= i < |slots| && Matches(slots[i], p, connectOnly)
  }

  // The message is answered on the spot: a command that is refused, or an answer of a talker that reports a
  // failure or has no command in flight any more.
  ghost predicate AnsweredOnly(e: Entity, p: Pdu) {
    e.cfg.isListener && p.listenerEntityId == e.cfg.entityId &&
    match p.messageType
    case ConnectRxCommand => !ValidListener(e, p.listenerUniqueId) || IsConnected(e, p)
    case DisconnectRxCommand => !ValidListener(e, p.listenerUniqueId) || !IsConnectedTo(e, p)
    case ConnectTxResponse =>
      ValidListener(e, p.listenerUniqueId) && !(p.status.Success? && HasMatch(e.inflight, p, true))
    case _ => false
  }

  ghost predicate AnsweredAs(before: seq<Inflight>, o: Outcome, ids: seq<nat>, released: bool)
    requires |before| == MAX_INFLIGHT && |o.entity.inflight| == MAX_INFLIGHT
  {
    && AnsweredIds(o.frames) == ids
    && ReleasedIds(before, o.entity.inflight, MAX_INFLIGHT) == if released then ids else []
  }

  lemma NoneReleased(slots: seq<Inflight>)
    requires |slots| == MAX_INFLIGHT
    ensures ReleasedIds(slots, slots, MAX_INFLIGHT) == []
  {
    SingleChange(slots, 0, slots[0], MAX_INFLIGHT);
    assert slots[0 := slots[0]] == slots;
  }

  // A command to a listener is answered if it is refused, and releases nothing in any case.
  lemma CommandAnswered(e: Entity, t: MessageType, p: Pdu, now: nat, link: bool)
    requires e.Valid() && (t.ConnectTxCommand? || t.DisconnectTxCommand?)
    ensures AnsweredAs(e.inflight, TxCommand(e, t, p, now, link), [], true)
  {
    var o := TxCommand(e, t, p, now, link);
    var i := FindFree(e.inflight);
    OneAnswer(o.frames[0]);
    if i < MAX_INFLIGHT {
      SingleChange(e.inflight, i, o.entity.inflight[i], MAX_INFLIGHT);
    } else {
      NoneReleased(e.inflight);
    }
  }

  lemma ConnectTxAnswered(e: Entity, p: Pdu)
    requires e.Valid() && ValidListener(e, p.listenerUniqueId) && p.messageType.ConnectTxResponse?
    ensures var o := ConnectTxAnswer(e, p);
      |o.entity.inflight| == MAX_INFLIGHT
      && if p.status.Success? && HasMatch(e.inflight, p, true) then
           |AnsweredIds(o.frames)| == 1 && AnsweredAs(e.inflight, o, AnsweredIds(o.frames), true)
         else o.entity == e && AnsweredAs(e.inflight, o, [p.sequenceId], false)
  {
    var o := ConnectTxAnswer(e, p);
    var i := FindMatch(e.inflight, p, true);
    OneAnswer(o.frames[0]);
    if p.status.Success? && HasMatch(e.inflight, p, true) {
      SingleChange(e.inflight, i, FREE_SLOT, MAX_INFLIGHT);
    } else {
      NoneReleased(e.inflight);
    }
  }

  lemma DisconnectTxAnswered(e: Entity, p: Pdu)
    requires e.Valid() && p.messageType.DisconnectTxResponse?
    ensures var o := DisconnectTxAnswer(e, p);
      |o.entity.inflight| == MAX_INFLIGHT && AnsweredAs(e.inflight, o, AnsweredIds(o.frames), true)
  {
    var o := DisconnectTxAnswer(e, p);
    var i := FindMatch(e.inflight, p, false);
    if o.frames == [] {
      NoneReleased(e.inflight);
    } else {
      OneAnswer(o.frames[0]);
      SingleChange(e.inflight, i, FREE_SLOT, MAX_INFLIGHT);
    }
  }

  lemma OthersUnanswered(e: Entity, p: Pdu, now: nat, link: bool, count: nat)
    requires e.Valid() && (IsListenerMessage(p.messageType) ==> p.messageType.GetRxStateCommand?)
    ensures var o := AcmpSpec.Receive(e, p, now, link, count);
      o.entity == e && AnsweredAs(e.inflight, o, [], true)
  {
    var o := AcmpSpec.Receive(e, p, now, link, count);
    NoneReleased(e.inflight);
    if o.frames != [] { OneAnswer(o.frames[0]); }
  }

  // Does an answer prove a release? Whatever an entity receives, the answers it sends to controllers are those of
  // the slots it releases, except in exactly the cases of AnsweredOnly: then there is one answer, under the
  // sequence id of the message received, and nothing changes.
  lemma AnswerProvesRelease(e: Entity, p: Pdu, now: nat, link: bool, count: nat)
    requires e.Valid()
    ensures var o := AcmpSpec.Receive(e, p, now, link, count);
      |o.entity.inflight| == MAX_INFLIGHT
      && (AnsweredIds(o.frames) == ReleasedIds(e.inflight, o.entity.inflight, MAX_INFLIGHT) <==> !AnsweredOnly(e, p))
      && (AnsweredOnly(e, p) ==> o.entity == e && AnsweredIds(o.frames) == [p.sequenceId])
      && (IsOwnStream(e, p) && p.messageType.ConnectTxResponse? ==> |AnsweredIds(o.frames)| == 1)
  {
    if !IsListenerMessage(p.messageType) || p.messageType.GetRxStateCommand? {
      OthersUnanswered(e, p, now, link, count);
    } else if !e.cfg.isListener || p.listenerEntityId != e.cfg.entityId {
      NoneReleased(e.inflight);
    } else {
      ListenerAnswers(e, p, now, link);
      assert AcmpSpec.Receive(e, p, now, link, count) == ListenerMachine(e, p, now, link);
    }
  }

  lemma ListenerAnswers(e: Entity, p: Pdu, now: nat, link: bool)
    requires e.Valid() && e.cfg.isListener && p.listenerEntityId == e.cfg.entityId
    requires IsListenerMessage(p.messageType) && !p.messageType.GetRxStateCommand?
    ensures var o := ListenerMachine(e, p, now, link);
      |o.entity.inflight| == MAX_INFLIGHT
      && (AnsweredIds(o.frames) == ReleasedIds(e.inflight, o.entity.inflight, MAX_INFLIGHT) <==> !AnsweredOnly(e, p))
      && (AnsweredOnly(e, p) ==> o.entity == e && AnsweredIds(o.frames) == [p.sequenceId])
      && (p.messageType.ConnectTxResponse? && ValidListener(e, p.listenerUniqueId) ==> |AnsweredIds(o.frames)| == 1)
  {
    var o := ListenerMachine(e, p, now, link);
    NoneReleased(e.inflight);
    match p.messageType {
      case ConnectRxCommand =>
        if AnsweredOnly(e, p) { OneAnswer(o.frames[0]); } else { CommandAnswered(e, ConnectTxCommand, p, now, link); }
      case DisconnectRxCommand =>
        if AnsweredOnly(e, p) { OneAnswer(o.frames[0]); }
          else { CommandAnswered(e, DisconnectTxCommand, p, now, link); }
      case ConnectTxResponse => if ValidListener(e, p.listenerUniqueId) { ConnectTxAnswered(e, p); }
      case _ => DisconnectTxAnswered(e, p);
    }
  }
}
