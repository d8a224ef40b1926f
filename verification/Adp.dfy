// ADP advertising: when an entity announces itself, and with which index and grandmaster.
module Adp {
  const VALID_TIME := 31
  const REANNOUNCE := 15_500_000       // in microseconds
  const UINT32 := 0x1_0000_0000

  datatype Message = Discover(target: nat) | OtherMessage

  // The frames that say whether the entity is there.
  datatype Frame = Available(time: nat, index: nat, grandmaster: nat) | Departing(time: nat, index: nat)

  datatype LinkReply = LinkUp | LinkDown | LinkError

  // clock is the time of the last step that got past the link query.
  datatype State = State(
    lastTime: nat,
    doAdvertise: bool,
    doTerminate: bool,
    lastLinkIsUp: bool,
    advertisedGrandmaster: nat,
    currentGrandmaster: nat,
    availableIndex: nat,
    frames: seq<Frame>,
    clock: nat)

  datatype Event =
    | Receive(message: Message)
    | SetGrandmaster(id: nat)
    | Terminate
    | Process(now: nat, link: LinkReply)

  // ---- One event -----------------------------------------------------------------------------

  // Half the validity time, which counts in two-second units, but at least a second.
  function ReannounceTime(validTime: nat): (r: nat)
    ensures validTime == VALID_TIME ==> r == REANNOUNCE
  {
    var t := validTime * 1000000 * 2 / 4;
    if t < 1000000 then 1000000 else t
  }

  function Announce(s: State, now: nat): State {
    s.(lastTime := now, doAdvertise := false, availableIndex := (s.availableIndex + 1) % UINT32,
       frames := s.frames + [Available(now, s.availableIndex, s.currentGrandmaster)])
  }

  function Leave(s: State, now: nat): State {
    s.(lastTime := now, doAdvertise := false, doTerminate := false, availableIndex := 0,
       frames := s.frames + [Departing(now, s.availableIndex)])
  }

  // Whether this step announces the entity.
  predicate Due(s: State, now: nat, up: bool) {
    || s.doAdvertise
    || now - s.lastTime > ReannounceTime(VALID_TIME)
    || (s.lastLinkIsUp != up && up)
    || s.currentGrandmaster != s.advertisedGrandmaster
  }

  function Step(s: State, e: Event, entityId: nat): State {
    match e
    case Receive(Discover(target)) => if target == 0 || target == entityId then s.(doAdvertise := true) else s
    case Receive(OtherMessage) => s
    case SetGrandmaster(id) => s.(currentGrandmaster := id)
    case Terminate => s.(doTerminate := true)
    case Process(now, LinkError) => s.(doAdvertise := s.doAdvertise || now - s.lastTime > ReannounceTime(VALID_TIME))
    case Process(now, link) =>
      var s1 := s.(lastLinkIsUp := link.LinkUp?, advertisedGrandmaster := s.currentGrandmaster, clock := now);
      var s2 := if Due(s, now, link.LinkUp?) then Announce(s1, now) else s1;
      if s.doTerminate then Leave(s2, now) else s2
  }

  // ---- The code ------------------------------------------------------------------------------

  class Advertiser {
    const entityId: nat
    var lastTime: nat
    var doAdvertise: bool
    var doTerminate: bool
    var linkIsUp: bool
    var lastLinkIsUp: bool
    var advertisedGrandmaster: nat
    var grandmaster: nat
    var availableIndex: nat
    ghost var frames: seq<Frame>
    ghost var clock: nat

    constructor (entityId: nat, linkUp: bool, grandmaster: nat)
      ensures this.entityId == entityId && Abs() == Fresh(linkUp, grandmaster)
    {
      this.entityId, this.grandmaster := entityId, grandmaster;
      lastTime, doAdvertise, doTerminate, advertisedGrandmaster := 0, true, false, 0;
      linkIsUp, lastLinkIsUp, availableIndex := false, linkUp, 0;
      frames, clock := [], 0;
    }

    ghost function Abs(): State
      reads this
    {
      State(lastTime, doAdvertise, doTerminate, lastLinkIsUp, advertisedGrandmaster, grandmaster, availableIndex,
        frames, clock)
    }

    method AdvertiseTxEntityAvailable(now: nat)
      modifies this`availableIndex, this`frames
      ensures availableIndex == (old(availableIndex) + 1) % UINT32
      ensures frames == old(frames) + [Available(now, old(availableIndex), grandmaster)]
    {
      frames := frames + [Available(now, availableIndex, grandmaster)];
      availableIndex := (availableIndex + 1) % UINT32;
    }

    method AdvertiseTxEntityDeparting(now: nat)
      modifies this`availableIndex, this`frames
      ensures availableIndex == 0 && frames == old(frames) + [Departing(now, old(availableIndex))]
    {
      frames := frames + [Departing(now, availableIndex)];
      availableIndex := 0;
    }

    method ReceiveProcess(message: Message)
      modifies this`doAdvertise
      ensures Abs() == Step(old(Abs()), Receive(message), entityId)
    {
      match message {
        case Discover(target) =>
          if target == 0 || target == entityId { doAdvertise := true; }
        case OtherMessage =>
      }
    }

    method SetGrandmasterId(id: nat)
      modifies this`grandmaster
      ensures Abs() == Step(old(Abs()), SetGrandmaster(id), entityId)
    {
      grandmaster := id;
    }

    method ChangeDeparting()
      modifies this`doTerminate
      ensures Abs() == Step(old(Abs()), Terminate, entityId)
    {
      doTerminate := true;
    }

    // The triggers of an announcement that come with a step.
    method Detect(now: nat, up: bool)
      requires now >= lastTime
      modifies this`linkIsUp, this`lastLinkIsUp, this`doAdvertise, this`advertisedGrandmaster
      ensures linkIsUp == lastLinkIsUp == up && advertisedGrandmaster == grandmaster
      ensures doAdvertise <==>
        old(doAdvertise) || (old(lastLinkIsUp) != up && up) || grandmaster != old(advertisedGrandmaster)
    {
      linkIsUp := up;
      if lastLinkIsUp != linkIsUp {
        lastLinkIsUp := linkIsUp;
        if linkIsUp { doAdvertise := true; }
      }
      if grandmaster != advertisedGrandmaster {
        advertisedGrandmaster := grandmaster;
        doAdvertise := true;
      }
    }

    // Sends what is due.
    method Act(now: nat)
      modifies this`lastTime, this`doAdvertise, this`doTerminate, this`availableIndex, this`frames
      ensures
        var s2 := if old(doAdvertise) then Announce(old(Abs()), now) else old(Abs());
        Abs() == if old(doTerminate) then Leave(s2, now) else s2
    {
      if doAdvertise {
        lastTime := now;
        AdvertiseTxEntityAvailable(now);
        doAdvertise := false;
      }
      if doTerminate {
        AdvertiseTxEntityDeparting(now);
        doTerminate := false;
        doAdvertise := false;
        lastTime := now;
        availableIndex := 0;
      }
    }

    method StateProcess(now: nat, link: LinkReply) returns (rc: int)
      requires now >= lastTime
      modifies this
      ensures Abs() == Step(old(Abs()), Process(now, link), entityId)
      ensures rc == if link.LinkError? then -1 else 0
    {
      var diffTime := now - lastTime;
      if diffTime > ReannounceTime(VALID_TIME) { doAdvertise := true; }
      if link.LinkError? { return -1; }
      clock := now;
      Detect(now, link.LinkUp?);
      Act(now);
      rc := 0;
    }
  }

  // ---- Whole runs ----------------------------------------------------------------------------

  function Fresh(linkUp: bool, grandmaster: nat): State {
    State(0, true, false, linkUp, 0, grandmaster, 0, [], 0)
  }

  function Run(s: State, es: seq<Event>, entityId: nat): State
    decreases es
  {
    if es == [] then s else Run(Step(s, es[0], entityId), es[1..], entityId)
  }

  // Time does not run backwards, and from the first frame on steps that can query the link are at most d apart.
  predicate Paced(s: State, es: seq<Event>, entityId: nat, d: nat)
    decreases es
  {
    es != [] ==>
      && (es[0].Process? ==> es[0].now >= s.lastTime && es[0].now >= s.clock
                             && (s.frames != [] && !es[0].link.LinkError? ==> es[0].now <= s.clock + d))
      && Paced(Step(s, es[0], entityId), es[1..], entityId, d)
  }

  // Frames are at most 15.5 seconds and one pause apart, and never more than 15.5 seconds old after a step.
  ghost predicate FreshFrames(s: State, d: nat) {
    && s.lastTime <= s.clock
    && (s.frames != [] ==> s.lastTime == s.frames[|s.frames| - 1].time && s.clock <= s.lastTime + REANNOUNCE)
    && (s.frames == [] ==> s.doAdvertise && s.clock == 0)
    && forall i :: 0 <= i < |s.frames| - 1 ==> s.frames[i + 1].time <= s.frames[i].time + REANNOUNCE + d
  }

  // Each AVAILABLE carries the number of AVAILABLEs since the last DEPARTING.
  function IndexAfter(frames: seq<Frame>): nat {
    if frames == [] || frames[|frames| - 1].Departing? then 0
    else (IndexAfter(frames[..|frames| - 1]) + 1) % UINT32
  }

  ghost predicate Indexed(s: State) {
    && s.availableIndex == IndexAfter(s.frames)
    && forall i :: 0 <= i < |s.frames| ==> s.frames[i].index == IndexAfter(s.frames[..i])
  }

  lemma OneMoreFrame(frames: seq<Frame>, f: Frame)
    ensures IndexAfter(frames + [f]) == if f.Departing? then 0 else (IndexAfter(frames) + 1) % UINT32
  {
    assert (frames + [f])[..|frames|] == frames;
  }

  lemma IndexedWith(s: State, s': State, f: Frame)
    requires Indexed(s) && s'.frames == s.frames + [f] && f.index == s.availableIndex
    requires s'.availableIndex == if f.Departing? then 0 else (s.availableIndex + 1) % UINT32
    ensures Indexed(s')
  {
    OneMoreFrame(s.frames, f);
    forall i | 0 <= i < |s'.frames| ensures s'.frames[i].index == IndexAfter(s'.frames[..i]) {
      if i < |s.frames| { assert s'.frames[..i] == s.frames[..i]; } else { assert s'.frames[..i] == s.frames; }
    }
  }

  lemma StepKeepsIndices(s: State, e: Event, entityId: nat)
    requires Indexed(s)
    ensures Indexed(Step(s, e, entityId))
  {
    if e.Process? && !e.link.LinkError? {
      var s1 := s.(lastLinkIsUp := e.link.LinkUp?, advertisedGrandmaster := s.currentGrandmaster, clock := e.now);
      var s2 := if Due(s, e.now, e.link.LinkUp?) then Announce(s1, e.now) else s1;
      if Due(s, e.now, e.link.LinkUp?) { IndexedWith(s1, s2, s2.frames[|s.frames|]); }
      if s.doTerminate { IndexedWith(s2, Leave(s2, e.now), Departing(e.now, s2.availableIndex)); }
    }
  }

  lemma StepKeepsFresh(s: State, e: Event, entityId: nat, d: nat)
    requires FreshFrames(s, d) && Paced(s, [e], entityId, d)
    ensures FreshFrames(Step(s, e, entityId), d)
  {}

  // There is a reason to announce the entity: it was asked for, the last frame is more than 15.5 seconds old, the
  // link has come up, or there is another grandmaster.
  predicate Reason(s: State, now: nat, up: bool) {
    || s.doAdvertise || now > s.lastTime + 15_500_000 || (up && !s.lastLinkIsUp)
    || s.currentGrandmaster != s.advertisedGrandmaster
  }

  // A step that gets past the link query announces the entity exactly if there is a reason to, with the current
  // grandmaster and the running index, and says goodbye exactly if it was told to; it then starts to count again.
  // Afterwards there is no reason left.
  lemma StepAnnounces(s: State, now: nat, link: LinkReply, entityId: nat)
    requires !link.LinkError?
    ensures var s', index := Step(s, Process(now, link), entityId), s.availableIndex;
      && s'.frames == s.frames
           + (if Reason(s, now, link == LinkUp) then [Available(now, index, s.currentGrandmaster)] else [])
           + (if !s.doTerminate then []
              else [Departing(now, if Reason(s, now, link == LinkUp) then (index + 1) % 0x1_0000_0000 else index)])
      && s'.availableIndex == (if s.doTerminate then 0
           else if Reason(s, now, link == LinkUp) then (index + 1) % 0x1_0000_0000 else index)
      && s'.advertisedGrandmaster == s'.currentGrandmaster == s.currentGrandmaster
      && (s'.frames != s.frames ==> s'.lastTime == now) && (s'.frames == s.frames ==> s'.lastTime == s.lastTime)
      && (now <= s'.lastTime + 15_500_000 ==> !Reason(s', now, link == LinkUp)) && !s'.doTerminate
  {
    assert s.frames + [] == s.frames;
  }

  // If the link query fails nothing is sent, and no reason is forgotten.
  lemma StepWithoutLink(s: State, now: nat, up: bool, entityId: nat)
    ensures var s' := Step(s, Process(now, LinkError), entityId);
      && s'.frames == s.frames && s'.availableIndex == s.availableIndex && s'.doTerminate == s.doTerminate
      && s'.lastTime == s.lastTime && (Reason(s, now, up) <==> Reason(s', now, up))
  {}

  // Some step gets past the link query.
  predicate Sending(es: seq<Event>) {
    exists k :: 0 <= k < |es| && es[k].Process? && !es[k].link.LinkError?
  }

  // A discovery for all or for this entity is answered by the next step that gets past the link query, whatever
  // comes in between; one for another entity changes nothing.
  lemma DiscoveryAnswered(s: State, target: nat, es: seq<Event>, now: nat, link: LinkReply, entityId: nat)
    requires !Sending(es) && !link.LinkError?
    ensures var s1 := Step(s, Receive(Discover(target)), entityId);
      var s2 := Run(s1, es, entityId);
      var s3 := Step(s2, Process(now, link), entityId);
      if target == 0 || target == entityId then
        && s2.frames == s.frames && |s3.frames| > |s.frames|
        && s3.frames[|s.frames|] == Available(now, s.availableIndex, s2.currentGrandmaster)
      else s1 == s
  {
    if target == 0 || target == entityId {
      StaysAsked(s.(doAdvertise := true), es, entityId);
    }
  }

  lemma {:induction false} StaysAsked(s: State, es: seq<Event>, entityId: nat)
    requires !Sending(es) && s.doAdvertise
    ensures var s' := Run(s, es, entityId);
      s'.doAdvertise && s'.frames == s.frames && s'.availableIndex == s.availableIndex
    decreases es
  {
    if es == [] {
    } else {
      assert !(es[0].Process? && !es[0].link.LinkError?);
      assert forall k :: 0 <= k < |es[1..]| ==> es[1..][k] == es[k + 1];
      StaysAsked(Step(s, es[0], entityId), es[1..], entityId);
    }
  }

  lemma {:induction false} RunKeepsIndices(s: State, es: seq<Event>, entityId: nat)
    requires Indexed(s)
    ensures Indexed(Run(s, es, entityId))
    decreases es
  {
    if es == [] {
    } else {
      StepKeepsIndices(s, es[0], entityId);
      RunKeepsIndices(Step(s, es[0], entityId), es[1..], entityId);
    }
  }

  lemma {:induction false} RunKeepsFresh(s: State, es: seq<Event>, entityId: nat, d: nat)
    requires FreshFrames(s, d) && Paced(s, es, entityId, d)
    ensures FreshFrames(Run(s, es, entityId), d)
    decreases es
  {
    if es == [] {
    } else {
      assert [es[0]][1..] == [];
      StepKeepsFresh(s, es[0], entityId, d);
      RunKeepsFresh(Step(s, es[0], entityId), es[1..], entityId, d);
    }
  }

  // From the start, over every run.
  lemma Freshness(linkUp: bool, grandmaster: nat, es: seq<Event>, entityId: nat, d: nat)
    requires Paced(Fresh(linkUp, grandmaster), es, entityId, d)
    ensures var s := Run(Fresh(linkUp, grandmaster), es, entityId);
      && Indexed(s)
      && (s.frames != [] ==> s.clock <= s.frames[|s.frames| - 1].time + REANNOUNCE)
      && forall i :: 0 <= i < |s.frames| - 1 ==> s.frames[i + 1].time <= s.frames[i].time + REANNOUNCE + d
  {
    RunKeepsFresh(Fresh(linkUp, grandmaster), es, entityId, d);
    RunKeepsIndices(Fresh(linkUp, grandmaster), es, entityId);
  }
}
