// The talker's main loop: fill, push, take back, and decide when to stop.
module TalkerLoop {
  import opened Cyclic
  import opened EavbDriver
  import opened EavbDevice
  import opened Payloads
  import opened TalkerFrames
  import opened SimpleTalker

  // What the environment does in one turn: the events that are ready, what the file and the driver
  // answer, and whether a signal or the loss of the last listener asks the talker to stop.
  datatype Round = Round(writable: bool, readable: bool, file: FileReply, push: WriteReply, take: ReadReply, stop: bool)

  datatype Exit = Finished | Failed | StillRunning

  // ---- What a run amounts to, in numbers -----------------------------------------------------

  datatype Counts = Counts(
    cursor: nat, repeat: int, inf: bool, waitflush: bool, readEnd: bool, filled: nat, accepted: nat, returned: nat)

  datatype Turned = Goes(c: Counts) | Fails(c: Counts)

  // What never changes: the slots of the ring, the payload of a frame and the length of the input.
  datatype Setting = Setting(entrynum: nat, ps: nat, total: nat)

  predicate InBounds(c: Counts, w: Setting) { c.filled <= w.entrynum && c.cursor <= w.total && w.ps > 0 }

  // How many bytes a batch reads, and how many frames it has to push, within the budget.
  function BytesRead(c: Counts, file: FileReply, w: Setting): nat
    requires InBounds(c, w)
  {
    if file.ReadError? then 0 else ReadSize(file.n, w.ps, w.entrynum - c.filled, w.total - c.cursor)
  }

  function FramesFilled(c: Counts, file: FileReply, w: Setting): nat
    requires InBounds(c, w)
  {
    if file.ReadError? then w.entrynum - c.filled else FrameCount(BytesRead(c, file, w), w.ps)
  }

  function OfferSize(c: Counts, frames: nat): int {
    if !c.inf && frames > c.repeat then c.repeat else frames
  }

  // How many frames of the batch are accepted, or -1.
  function Accepted(c: Counts, file: FileReply, push: WriteReply, w: Setting): int
    requires InBounds(c, w)
  {
    WriteResult(OfferSize(c, FramesFilled(c, file, w)), push)
  }

  function AfterRead(c: Counts, file: FileReply, w: Setting): Counts
    requires InBounds(c, w)
  {
    var n := BytesRead(c, file, w);
    c.(cursor := c.cursor + n, readEnd := c.readEnd || n == 0)
  }

  function Sent(c: Counts, tmp: int): Counts {
    if tmp < 0 then c else c.(filled := c.filled + tmp, accepted := c.accepted + tmp)
  }

  function Accounted(c: Counts, tmp: int): Counts {
    if c.inf then c
    else if c.repeat - tmp <= 0 then c.(repeat := c.repeat - tmp, readEnd := true, inf := true)
    else c.(repeat := c.repeat - tmp)
  }

  function AfterOffer(c: Counts, file: FileReply, push: WriteReply, w: Setting): Turned
    requires InBounds(c, w)
  {
    var tmp := Accepted(c, file, push, w);
    var sent := Sent(AfterRead(c, file, w), tmp);
    if tmp < 0 then Fails(sent) else Goes(Accounted(sent, tmp))
  }

  function Taken(c: Counts, tmp: int): Counts
    requires tmp <= c.filled
  {
    if tmp < 0 then c else c.(filled := c.filled - tmp, returned := c.returned + tmp)
  }

  function AfterTake(c: Counts, reply: ReadReply, thresh: nat): Turned {
    var tmp := ReadResult(if c.filled > thresh then thresh else c.filled, reply);
    if tmp < 0 then Fails(c) else Goes(Taken(c, tmp))
  }

  function AfterDecision(c: Counts, stop: bool): Counts {
    var d := if stop then c.(inf := false, waitflush := true) else c;
    if d.readEnd then d.(waitflush := true, inf := d.inf && d.filled != 0) else d
  }

  // The halves of a turn, each only if poll reports the event.
  function AfterWriting(c: Counts, round: Round, nowait: bool, w: Setting): Turned
    requires InBounds(c, w)
  {
    if !c.waitflush && (nowait || round.writable) then AfterOffer(c, round.file, round.push, w) else Goes(c)
  }

  function AfterReading(c: Counts, round: Round, nowait: bool, thresh: nat): Turned {
    if nowait || round.readable then AfterTake(c, round.take, thresh) else Goes(c)
  }

  function TurnCounts(c: Counts, round: Round, nowait: bool, w: Setting): Turned
    requires InBounds(c, w)
  {
    match AfterWriting(c, round, nowait, w)
    case Fails(d) => Fails(d)
    case Goes(d) =>
      match AfterReading(d, round, nowait, w.entrynum / 8)
      case Fails(e) => Fails(e)
      case Goes(e) => Goes(AfterDecision(e, round.stop))
  }

  // How the environment has played along: every batch offered was accepted whole and no read failed;
  // the frame limit cut a batch; only the end of the input made a read short.
  datatype Play = Play(whole: bool, cut: bool, steady: bool)

  predicate SteadyRead(c: Counts, file: FileReply, w: Setting)
    requires InBounds(c, w)
  {
    file.Bytes? ==> FullRead(file.n, w.ps, w.entrynum - c.filled)
  }

  function AfterBatch(p: Play, c: Counts, file: FileReply, push: WriteReply, w: Setting): Play
    requires InBounds(c, w)
  {
    var frames := FramesFilled(c, file, w);
    var size := OfferSize(c, frames);
    Play(p.whole && file.Bytes? && Accepted(c, file, push, w) == size >= 0,
         p.cut || size < frames,
         p.steady && SteadyRead(c, file, w))
  }

  function AfterRound(p: Play, c: Counts, round: Round, nowait: bool, w: Setting): Play
    requires InBounds(c, w)
  {
    if !c.waitflush && (nowait || round.writable) then AfterBatch(p, c, round.file, round.push, w) else p
  }

  lemma FramesFit(c: Counts, file: FileReply, w: Setting)
    requires InBounds(c, w)
    ensures FramesFilled(c, file, w) <= w.entrynum - c.filled && BytesRead(c, file, w) <= w.total - c.cursor
  {
    if file.Bytes? { FrameCountBound(BytesRead(c, file, w), w.ps, w.entrynum - c.filled); }
  }

  lemma OfferInBounds(c: Counts, file: FileReply, push: WriteReply, w: Setting)
    requires InBounds(c, w)
    ensures InBounds(AfterOffer(c, file, push, w).c, w)
  {
    FramesFit(c, file, w);
  }

  lemma TurnInBounds(c: Counts, round: Round, nowait: bool, w: Setting)
    requires InBounds(c, w)
    ensures InBounds(TurnCounts(c, round, nowait, w).c, w)
  {
    assert InBounds(AfterWriting(c, round, nowait, w).c, w) by { OfferInBounds(c, round.file, round.push, w); }
  }

  // Neither a signal nor the loss of the last listener.
  predicate NoStop(script: seq<Round>) { forall r :: 0 <= r < |script| ==> !script[r].stop }

  // A whole run: the counters it ends with, how the environment played along, and why it ended.
  function LoopCounts(c: Counts, p: Play, script: seq<Round>, nowait: bool, w: Setting): (Counts, Play, Exit)
    requires InBounds(c, w)
    decreases script
  {
    if !c.inf && c.waitflush then (c, p, Finished)
    else if script == [] then (c, p, StillRunning)
    else
      TurnInBounds(c, script[0], nowait, w);
      var q := AfterRound(p, c, script[0], nowait, w);
      match TurnCounts(c, script[0], nowait, w)
      case Fails(d) => (d, q, Failed)
      case Goes(d) => LoopCounts(d, q, script[1..], nowait, w)
  }

  // ---- A run with a driver and an input that are ready ---------------------------------------

  // A read gets what is asked for, what there is room for, or what is left, whichever is least.
  function Input(file: FileReply, room: nat, left: nat): nat {
    match file
    case ReadError => 0
    case Bytes(n) => if n <= room && n <= left then n else if room <= left then room else left
  }

  // The frames that hold what was read, or the whole batch after a failed read; but no more than are still wanted.
  function Wanted(file: FileReply, remain: nat, read: nat, ps: nat, framenums: int, repeat: int): int
    requires ps > 0
  {
    var frames := if file.ReadError? then remain else FrameCount(read, ps);
    if framenums != 0 && repeat < frames then repeat else frames
  }

  // A batch has been read with `remain` slots to fill, and offered.
  ghost predicate OffersBatch(c: Counts, d: Counts, round: Round, w: Setting, remain: nat, framenums: int, failed: bool)
    requires w.ps > 0 && c.cursor <= w.total
  {
    c.cursor <= d.cursor && var read := d.cursor - c.cursor;
    && read == Input(round.file, w.ps * remain, w.total - c.cursor)
    && (d.readEnd <==> read == 0 || (!failed && framenums != 0 && d.repeat == 0))
    && Writes(Wanted(round.file, remain, read, w.ps, framenums, c.repeat), round.push, d.accepted - c.accepted, failed)
    && d.filled - c.filled == d.accepted - c.accepted && d.returned == c.returned
    && d.repeat == (if framenums == 0 || failed then c.repeat else c.repeat - (d.accepted - c.accepted))
  }

  lemma OfferSays(c: Counts, round: Round, w: Setting, remain: nat, framenums: int)
    requires InBounds(c, w) && remain == w.entrynum - c.filled && !c.readEnd
    requires (c.inf <==> framenums == 0) && (framenums < 0 ==> c.repeat < 0) && (framenums > 0 ==> c.repeat > 0)
    ensures var o := AfterOffer(c, round.file, round.push, w);
      OffersBatch(c, o.c, round, w, remain, framenums, o.Fails?)
  {
    RoomIsProduct(w.ps, remain);
  }

  // A round in which the input and the driver are ready, and the driver accepts something and has something.
  predicate Obliging(round: Round) {
    && round.writable && round.readable && !round.stop && round.file.Bytes? && round.file.n > 0
    && round.push.Wrote? && round.push.n > 0 && round.take.Returned? && round.take.frames != []
  }

  predicate AllObliging(script: seq<Round>) { forall r :: 0 <= r < |script| ==> Obliging(script[r]) }

  // The driver accepts all that a ring of this size can be offered.
  predicate AllAccepted(script: seq<Round>, entrynum: nat) {
    forall r :: 0 <= r < |script| ==> script[r].push.Wrote? && script[r].push.n >= entrynum
  }

  // Before the input has ended: there is room for a frame, and one is wanted.
  predicate Filling(c: Counts, w: Setting) {
    InBounds(c, w) && c.filled < w.entrynum && !c.waitflush && !c.readEnd && (c.inf || c.repeat > 0)
  }

  // The input has ended or all frames have been pushed, and the driver still has some.
  predicate Flushing(c: Counts, w: Setting) { InBounds(c, w) && c.waitflush && c.readEnd && c.inf && c.filled > 0 }

  lemma SomethingRead(wish: nat, ps: nat, count: nat, left: nat)
    requires wish > 0 && ps > 0 && count > 0
    ensures left > 0 ==> 0 < ReadSize(wish, ps, count, left) <= left
    ensures left == 0 ==> ReadSize(wish, ps, count, left) == 0
    ensures forall n: nat :: n > 0 ==> FrameCount(n, ps) > 0
  {}

  // While there is input, every turn reads some of it and takes a frame back.
  lemma FillingTurn(c: Counts, round: Round, nowait: bool, w: Setting)
    requires Filling(c, w) && Obliging(round) && w.entrynum >= 8
    ensures TurnCounts(c, round, nowait, w).Goes?
    ensures var d := TurnCounts(c, round, nowait, w).c;
      && InBounds(d, w) && d.filled < w.entrynum
      && if c.cursor == w.total then
           d.cursor == w.total && d.readEnd && d.waitflush && d.inf == (c.inf && d.filled != 0) && d.repeat == c.repeat
         else
           && d.cursor > c.cursor
           && ((Filling(d, w) && d.inf == c.inf)
               || (!c.inf && d.repeat == 0 && d.readEnd && d.waitflush && d.inf == (d.filled != 0)))
  {
    FramesFit(c, round.file, w);
    SomethingRead(round.file.n, w.ps, w.entrynum - c.filled, w.total - c.cursor);
    hide ReadSize, FrameCount;
  }

  lemma FlushingTurn(c: Counts, round: Round, nowait: bool, w: Setting)
    requires Flushing(c, w) && Obliging(round) && w.entrynum >= 8
    ensures TurnCounts(c, round, nowait, w).Goes?
    ensures var d := TurnCounts(c, round, nowait, w).c;
      && d.filled < c.filled && d.inf == (d.filled != 0) && d.readEnd && d.waitflush
      && d.cursor == c.cursor && d.repeat == c.repeat
  {}

  lemma {:induction false} FlushingEnds(c: Counts, p: Play, script: seq<Round>, nowait: bool, w: Setting)
    requires InBounds(c, w) && c.readEnd && c.waitflush && c.inf == (c.filled != 0)
    requires AllObliging(script) && w.entrynum >= 8 && |script| >= c.filled
    ensures var (d, q, exit) := LoopCounts(c, p, script, nowait, w);
      exit == Finished && d.filled == 0 && d.cursor == c.cursor && d.repeat == c.repeat && q == p
    decreases script
  {
    if c.filled == 0 {
    } else {
      FlushingTurn(c, script[0], nowait, w);
      FlushingEnds(TurnCounts(c, script[0], nowait, w).c, p, script[1..], nowait, w);
    }
  }

  // Whatever is wanted, the loop ends: with a count when that many frames are through or the input is used up,
  // without one when all of the input is through.
  lemma {:induction false} ObligingEnds(c: Counts, p: Play, script: seq<Round>, nowait: bool, w: Setting)
    requires Filling(c, w) && AllObliging(script) && w.entrynum >= 8 && |script| > w.total - c.cursor + w.entrynum
    ensures var (d, q, exit) := LoopCounts(c, p, script, nowait, w);
      && exit == Finished
      && (c.inf ==> d.filled == 0 && d.cursor == w.total)
      && (!c.inf ==> (d.filled == 0 && d.repeat == 0) || d.cursor == w.total)
    decreases script
  {
    FillingTurn(c, script[0], nowait, w);
    var d, q := TurnCounts(c, script[0], nowait, w).c, AfterRound(p, c, script[0], nowait, w);
    if Filling(d, w) {
      ObligingEnds(d, q, script[1..], nowait, w);
    } else if d.inf || d.filled == 0 {
      FlushingEnds(d, q, script[1..], nowait, w);
    }
  }

  lemma WholeTurn(c: Counts, p: Play, round: Round, nowait: bool, w: Setting)
    requires InBounds(c, w) && (c.inf || c.waitflush || c.repeat >= 0) && p.whole
    requires round.file.Bytes? && round.push.Wrote? && round.push.n >= w.entrynum
    ensures var d, q := TurnCounts(c, round, nowait, w).c, AfterRound(p, c, round, nowait, w);
      && InBounds(d, w) && (d.inf || d.waitflush || d.repeat >= 0)
      && q.whole && (c.inf ==> q.cut == p.cut && (d.inf || d.waitflush))
  {
    hide BytesRead, FramesFilled, SteadyRead;
    TurnInBounds(c, round, nowait, w);
    FramesFit(c, round.file, w);
  }

  // If everything offered is accepted, nothing is lost on the way.
  lemma {:induction false} AcceptedStaysWhole(c: Counts, p: Play, script: seq<Round>, nowait: bool, w: Setting)
    requires InBounds(c, w) && (c.inf || c.waitflush || c.repeat >= 0) && p.whole
    requires AllObliging(script) && AllAccepted(script, w.entrynum)
    ensures LoopCounts(c, p, script, nowait, w).1.whole
    ensures c.inf ==> LoopCounts(c, p, script, nowait, w).1.cut == p.cut
    decreases script
  {
    hide TurnCounts, AfterRound;
    if (!c.inf && c.waitflush) || script == [] {
    } else {
      assert Obliging(script[0]);
      WholeTurn(c, p, script[0], nowait, w);
      var d, q := TurnCounts(c, script[0], nowait, w).c, AfterRound(p, c, script[0], nowait, w);
      if TurnCounts(c, script[0], nowait, w).Goes? { AcceptedStaysWhole(d, q, script[1..], nowait, w); }
    }
  }

  // ---- Witness -------------------------------------------------------------------------------

  // One frame of two has been pushed and is still with the driver when the input ends: the loop is left at once.
  lemma LeftWithFramesInDriver(p: Play)
    ensures var c := Counts(1, 1, false, false, false, 1, 1, 0);
      var round := Round(true, false, Bytes(1), WriteAgain, ReadAgain, false);
      var (d, q, exit) := LoopCounts(c, p, [round], false, Setting(8, 1, 1));
      exit == Finished && d.filled == 1 && d.repeat == 1
  {
    var c, w := Counts(1, 1, false, false, false, 1, 1, 0), Setting(8, 1, 1);
    var round := Round(true, false, Bytes(1), WriteAgain, ReadAgain, false);
    assert BytesRead(c, round.file, w) == 0 && FramesFilled(c, round.file, w) == 0;
    assert [round][1..] == [];
  }

  // ---- What a push and a take do to the stretch of the ring in the driver's hands ------------

  // A batch written from wp on leaves the pages in the driver's hands alone, and extends them when pushed.
  lemma HeldAfterPush(pages: seq<Packet>, rp: nat, wp: nat, remain: nat, filled: nat, fs: seq<Packet>, ret: nat)
    requires rp < |pages| && wp < |pages| && remain + filled == |pages| && rp == Wrap(wp + remain, |pages|)
    requires ret <= |fs| == remain
    ensures Slice(Splice(pages, wp, fs), rp, filled + ret) == Slice(pages, rp, filled) + fs[..ret]
  {
    var pages' := Splice(pages, wp, fs);
    SlicesJoin(pages', rp, wp, remain, filled, ret);
    SlicePrefix(pages, wp, fs, ret);
    forall k | 0 <= k < filled ensures Slice(pages', rp, filled)[k] == Slice(pages, rp, filled)[k] {
      assert Ahead(wp, Wrap(rp + k, |pages|), |pages|) == remain + k;
    }
    assert Slice(pages', rp, filled) == Slice(pages, rp, filled);
  }

  lemma FitAfterPush(queue: seq<Entry>, held: seq<Packet>, es: seq<Entry>, fs: seq<Packet>, ret: nat, first: nat)
    requires Fit(queue, held) && Fit(es, fs) && ret <= |es|
    ensures Fit(queue + Numbered(es[..ret], first), held + fs[..ret])
  {}

  // ---- What the run has produced so far ------------------------------------------------------

  // The frames accepted by the driver, as they were when pushed, and how it played along.
  datatype History = History(sent: seq<Packet>, play: Play)

  // The pages in the driver's hands still hold what was pushed, and each entry is as long as its frame.
  ghost predicate Held(sent: seq<Packet>, returned: nat, pages: seq<Packet>, rp: nat, filled: nat, queue: seq<Entry>)
    requires rp < |pages| && filled <= |pages|
  {
    returned <= |sent| && Slice(pages, rp, filled) == sent[returned..] && Fit(queue, sent[returned..])
  }

  // The payloads pushed are the bytes read, or a prefix of them when the frame limit cut the last batch.
  ghost predicate Conserved(h: History, source: seq<Byte>, cursor: nat, readEnd: bool) {
    && cursor <= |source|
    && (if h.play.cut then Cuts(h.sent) <= source[..cursor] && readEnd else Cuts(h.sent) == source[..cursor])
  }

  // The frames pushed are numbered consecutively.
  ghost predicate InSequence(h: History, source: seq<Byte>, cursor: nat, seqnum: nat, readEnd: bool) {
    h.play.steady ==> NumberedFrom(h.sent, 0) && (seqnum == |h.sent| || cursor == |source| || readEnd)
  }

  lemma HeldAfterBatch(sent: seq<Packet>, returned: nat, pages: seq<Packet>, rp: nat, wp: nat, remain: nat, filled: nat,
                       queue: seq<Entry>, fs: seq<Packet>, es: seq<Entry>, ret: nat, first: nat)
    requires rp < |pages| && wp < |pages| && remain + filled == |pages| && rp == Wrap(wp + remain, |pages|)
    requires ret <= |fs| == |es| == remain && Fit(es, fs) && Held(sent, returned, pages, rp, filled, queue)
    ensures Held(sent + fs[..ret], returned, Splice(pages, wp, fs), rp, filled + ret,
      queue + Numbered(es[..ret], first))
  {
    HeldAfterPush(pages, rp, wp, remain, filled, fs, ret);
    FitAfterPush(queue, sent[returned..], es, fs, ret, first);
    assert (sent + fs[..ret])[returned..] == sent[returned..] + fs[..ret];
  }

  lemma NumberedNone(es: seq<Entry>, first: nat)
    ensures Numbered(es[..0], first) == []
  {}

  lemma NoneMore<T>(s: seq<T>)
    ensures s + [] == s
  {}

  lemma HeldAfterTake(sent: seq<Packet>, returned: nat, pages: seq<Packet>, rp: nat, wp: nat, remain: nat, filled: nat,
                      queue: seq<Entry>, ret: nat, returned': nat, rp': nat, filled': nat, queue': seq<Entry>)
    requires rp < |pages| && wp < |pages| && remain + filled == |pages| && rp == Wrap(wp + remain, |pages|)
    requires ret <= filled && Held(sent, returned, pages, rp, filled, queue)
    requires returned' == returned + ret && rp' == Wrap(rp + ret, |pages|) && filled' == filled - ret
      && queue' == queue[ret..]
    ensures Held(sent, returned', pages, rp', filled', queue')
  {
    SliceRest(pages, rp, wp, remain, filled, ret);
    assert |sent[returned..]| == filled;
    assert sent[returned..][ret..] == sent[returned + ret..];
  }

  // A batch on its way from the file to the driver: `frames` of its frames are to be pushed. It was numbered
  // from `first` on and read from position `from` on; `pages` and `ring` are what it overwrote.
  datatype Lot = Lot(fs: seq<Packet>, es: seq<Entry>, frames: nat, first: nat, from: nat,
                     pages: seq<Packet>, ring: seq<Entry>,
                     good: bool, steady: bool)

  ghost predicate Read(b: Lot, source: seq<Byte>, cursor: nat, readEnd: bool) {
    && b.frames <= |b.fs| == |b.es| && b.from <= cursor <= |source|
    && Fit(b.es, b.fs) && NumberedFrom(b.fs, b.first)
    && Cuts(b.fs[..b.frames]) == source[b.from..cursor]
    && (b.from == cursor ==> b.frames == 0 && readEnd)
    && (b.steady ==> b.frames == |b.fs| || cursor == |source|)
  }

  // The history after `size` frames of a batch were accepted.
  function Grown(h: History, b: Lot, size: nat, play: Play): History
    requires size <= |b.fs|
  {
    History(h.sent + b.fs[..size], play)
  }

  function Played(p: Play, size: int, tmp: int, b: Lot): Play {
    Play(b.good && tmp == size >= 0, p.cut || size < b.frames, b.steady)
  }

  lemma GrownKeeps(h: History, source: seq<Byte>, cursor: nat, b: Lot, size: nat, end: bool) returns (h': History)
    requires b.from <= |source| && Conserved(h, source, b.from, false) && InSequence(h, source, b.from, b.first, false)
    requires Read(b, source, cursor, end) && size <= b.frames
    requires (size < b.frames ==> end) && (b.steady ==> h.play.steady)
    ensures h' == Grown(h, b, size, Play(true, h.play.cut || size < b.frames, b.steady))
    ensures Conserved(h', source, cursor, end) && InSequence(h', source, cursor, b.first + |b.fs|, end)
  {
    h' := Grown(h, b, size, Play(true, h.play.cut || size < b.frames, b.steady));
    assert Cuts(h'.sent) == source[..b.from] + Cuts(b.fs[..size]) by { CutsAppend(h.sent, b.fs[..size]); }
    assert Cuts(b.fs[..size]) <= source[b.from..cursor] by {
      assert b.fs[..b.frames][..size] == b.fs[..size];
      CutsPrefix(b.fs[..b.frames], size);
    }
    assert source[..cursor] == source[..b.from] + source[b.from..cursor];
  }

  // ---- The loop ------------------------------------------------------------------------------

  class Loop {
    const talker: Talker
    const framenums: int
    var repeat: int
    var inf: bool
    var waitflush: bool
    ghost var h: History

    constructor (talker: Talker, framenums: int)
      requires talker.Valid() && talker.dev.driver.accepted == [] && talker.dev.p == talker.dev.wp
      requires talker.cursor == talker.seqnum == 0 && !talker.readEnd
      ensures Valid() && AtHead() && this.talker == talker && this.framenums == framenums
      ensures !waitflush && h == History([], Play(true, false, true))
    {
      this.talker, this.framenums := talker, framenums;
      inf, waitflush := framenums == 0, false;
      repeat := if framenums == 0 then 1 else framenums;
      h := History([], Play(true, false, true));
    }

    // The loop's counters.
    ghost function Now(): Counts
      reads this, talker, talker.dev, talker.dev.driver
    {
      Counts(talker.cursor, repeat, inf, waitflush, talker.readEnd,
             talker.dev.filled, |talker.dev.driver.accepted|, talker.dev.driver.returned)
    }

    ghost function Where(): Setting {
      Setting(talker.dev.entrynum, talker.payloadSize, |talker.source|)
    }

    // The driver's account, the frame budget, and what holds as long as the driver plays along.
    ghost predicate Valid()
      reads this, talker, talker.dev, talker.dev.entrybuf, talker.dev.driver
    {
      && talker.Valid()
      && |h.sent| == |talker.dev.driver.accepted|
      && Budget()
      && (h.play.whole ==> Cooperative(talker.readEnd))
    }

    // The frames in the driver's hands are the ones pushed last, unchanged.
    ghost predicate InDriver()
      requires talker.Valid()
      reads this, talker, talker.dev, talker.dev.entrybuf, talker.dev.driver
    {
      Held(h.sent, talker.dev.driver.returned, talker.Contents(), talker.dev.rp, talker.dev.filled,
        talker.dev.driver.queue)
    }

    ghost predicate Cooperative(end: bool)
      requires talker.Valid()
      reads this, talker, talker.dev, talker.dev.entrybuf, talker.dev.driver
    {
      && (!end ==> talker.dev.p == talker.dev.wp)
      && InDriver()
      && Conserved(h, talker.source, talker.cursor, end)
      && InSequence(h, talker.source, talker.cursor, talker.seqnum, end)
    }

    // Never more frames than asked for; nothing more is read once they are all pushed.
    ghost predicate Budget()
      reads this, talker
    {
      && (framenums > 0 ==> |h.sent| + repeat == framenums && repeat >= 0 && (repeat == 0 ==> talker.readEnd))
      && (framenums < 0 ==> h.sent == [] && repeat == framenums)
    }

    // At the head of the loop, as long as it goes on.
    ghost predicate AtHead()
      reads this, talker
    {
      && (talker.readEnd ==> waitflush)
      && (inf || !waitflush ==> (waitflush <==> talker.readEnd) && (inf <==> framenums == 0 || repeat == 0))
    }

    // A batch has been filled and its first `size` frames are about to be offered.
    ghost predicate Loading(b: Lot, size: int)
      reads this, talker, talker.dev, talker.dev.entrybuf, talker.dev.driver
    {
      && talker.Valid() && |h.sent| == |talker.dev.driver.accepted| && Budget()
      && size <= b.frames <= |b.fs| == talker.dev.remain
      && (b.good ==>
            && talker.Holds(b.pages, b.ring, talker.dev.wp, b.fs, b.es)
            && Held(h.sent, talker.dev.driver.returned, b.pages, talker.dev.rp, talker.dev.filled,
              talker.dev.driver.queue)
            && b.from <= |talker.source| && Conserved(h, talker.source, b.from, false)
            && InSequence(h, talker.source, b.from, b.first, false)
            && Read(b, talker.source, talker.cursor, talker.readEnd)
            && talker.seqnum == b.first + |b.fs| && (b.steady ==> h.play.steady)
            && (!talker.readEnd ==> talker.dev.p == Wrap(talker.dev.wp + b.frames, talker.dev.entrynum)))
    }

    // Fills a batch of all the slots the application has.
    method FillBatch(file: FileReply) returns (frames: nat, ghost b: Lot)
      requires Valid() && !talker.readEnd
      modifies talker, talker.dev`p, talker.dev.entrybuf, talker.dev.driver`memory
      ensures b.frames == frames && Loading(b, frames)
      ensures repeat == old(repeat) && (framenums > 0 ==> repeat > 0)
      ensures b.good == (h.play.whole && file.Bytes?)
      ensures b.steady == (h.play.steady && SteadyRead(old(Now()), file, Where()))
      ensures frames == FramesFilled(old(Now()), file, Where()) && Now() == AfterRead(old(Now()), file, Where())
    {
      hide Held, Conserved, InSequence, NumberedFrom, Talker.Holds;
      ghost var good := h.play.whole && file.Bytes?;
      ghost var steady := h.play.steady && (file.Bytes? ==> FullRead(file.n, talker.payloadSize, talker.dev.remain));
      ghost var pages, ring, from, first := talker.Contents(), talker.dev.entrybuf[..], talker.cursor, talker.seqnum;
      ghost var fs, es;
      frames, fs, es := talker.TalkerProcess(talker.dev.remain, file);
      b := Lot(fs, es, frames, first, from, pages, ring, good, steady);
    }

    // Offers the first `size` frames of the batch.
    method PushBatch(size: int, push: WriteReply, ghost b: Lot) returns (tmp: int)
      requires Loading(b, size)
      modifies talker.dev`wp, talker.dev`remain, talker.dev`filled, talker.dev.entrybuf, talker.dev.workbuf
      modifies talker.dev.driver`queue, talker.dev.driver`lastSeqNo, talker.dev.driver`accepted
      ensures talker.Valid() && tmp == WriteResult(size, push)
      ensures |talker.dev.driver.accepted| == |old(talker.dev.driver.accepted)| + if tmp > 0 then tmp else 0
      ensures talker.dev.filled == old(talker.dev.filled) + if tmp > 0 then tmp else 0
      ensures talker.dev.wp == Wrap(old(talker.dev.wp) + if tmp > 0 then tmp else 0, talker.dev.entrynum)
      ensures b.good && tmp >= 0 ==>
        Held(h.sent + b.fs[..tmp], talker.dev.driver.returned, talker.Contents(), talker.dev.rp, talker.dev.filled,
            talker.dev.driver.queue)
    {
      ghost var d := talker.dev;
      ghost var rp, wp, remain, filled, queue, first, buf :=
        d.rp, d.wp, d.remain, d.filled, d.driver.queue, d.driver.lastSeqNo, d.entrybuf[..];
      tmp := talker.dev.PushEntry(size, push);
      if b.good && tmp >= 0 {
        SlicePrefix(b.ring, wp, b.es, tmp);
        NumberedNone(b.es, first);
        NoneMore(queue);
        HeldAfterBatch(h.sent, d.driver.returned, b.pages, rp, wp, remain, filled, queue, b.fs, b.es, tmp, first);
      }
    }

    // Records what was accepted of the batch.
    method Record(size: int, tmp: int, ghost b: Lot)
      requires talker.Valid() && b.frames <= |b.fs| && size <= b.frames && tmp <= (if size > 0 then size else 0)
      requires b.good && tmp == size >= 0 ==>
        var end := talker.readEnd || (!inf && repeat == tmp);
        && (size < b.frames ==> end) && (!end ==> talker.dev.p == talker.dev.wp)
        && Held(h.sent + b.fs[..tmp], talker.dev.driver.returned, talker.Contents(), talker.dev.rp, talker.dev.filled,
            talker.dev.driver.queue)
        && b.from <= |talker.source| && Conserved(h, talker.source, b.from, false)
        && InSequence(h, talker.source, b.from, b.first, false)
        && Read(b, talker.source, talker.cursor, talker.readEnd)
        && talker.seqnum == b.first + |b.fs| && (b.steady ==> h.play.steady)
      modifies this`h
      ensures h == Grown(old(h), b, if tmp > 0 then tmp else 0, Played(old(h.play), size, tmp, b))
      ensures h.play.whole ==> tmp >= 0 && Cooperative(talker.readEnd || (!inf && repeat == tmp))
    {
      if b.good && tmp == size >= 0 {
        h := GrownKeeps(h, talker.source, talker.cursor, b, tmp, talker.readEnd || (!inf && repeat == tmp));
      } else {
        h := Grown(h, b, if tmp > 0 then tmp else 0, Played(h.play, size, tmp, b));
      }
    }

    // Pushes the batch and records what was accepted.
    method SendBatch(size: int, push: WriteReply, ghost b: Lot) returns (tmp: int)
      requires Loading(b, size) && (size == b.frames || (!inf && size == repeat))
      modifies this`h, talker.dev`wp, talker.dev`remain, talker.dev`filled, talker.dev.entrybuf, talker.dev.workbuf
      modifies talker.dev.driver`queue, talker.dev.driver`lastSeqNo, talker.dev.driver`accepted
      ensures talker.Valid() && tmp == WriteResult(size, push)
      ensures Now() == Sent(old(Now()), tmp)
      ensures |h.sent| == |talker.dev.driver.accepted| == |old(h.sent)| + if tmp > 0 then tmp else 0
      ensures old(h.sent) <= h.sent && h.play == Played(old(h.play), size, tmp, b)
      ensures h.play.whole ==> tmp >= 0 && Cooperative(talker.readEnd || (!inf && repeat == tmp))
    {
      hide Held, Conserved, InSequence, Read, Fit;
      tmp := PushBatch(size, push, b);
      Record(size, tmp, b);
    }

    // The frame budget after a push of `tmp` frames.
    method Account(tmp: nat)
      requires talker.Valid() && |h.sent| == |talker.dev.driver.accepted|
      requires framenums >= 0 && (inf <==> framenums == 0)
      requires framenums > 0 ==> |h.sent| + repeat - tmp == framenums && repeat >= tmp
      requires h.play.whole ==> Cooperative(talker.readEnd || (!inf && repeat == tmp))
      modifies this`repeat, this`inf, talker`readEnd
      ensures Valid() && (inf <==> framenums == 0 || repeat == 0)
      ensures Now() == Accounted(old(Now()), tmp)
    {
      if !inf {
        repeat := repeat - tmp;
        if repeat <= 0 {
          talker.readEnd := true;
          inf := true;
        }
      }
    }

    // Fills a batch and says how much of it is to be offered.
    method Prepare(file: FileReply) returns (size: int, ghost b: Lot)
      requires Valid() && !talker.readEnd
      modifies talker, talker.dev`p, talker.dev.entrybuf, talker.dev.driver`memory
      ensures Loading(b, size) && (size == b.frames || (!inf && size == repeat))
      ensures framenums > 0 ==> repeat > 0
      ensures Now() == AfterRead(old(Now()), file, Where())
      ensures b.frames == FramesFilled(old(Now()), file, Where()) && size == OfferSize(old(Now()), b.frames)
      ensures b.good == (h.play.whole && file.Bytes?)
      ensures b.steady == (h.play.steady && SteadyRead(old(Now()), file, Where()))
    {
      var frames;
      frames, b := FillBatch(file);
      size := if !inf && frames > repeat then repeat else frames;
    }

    // Fills a batch and pushes as much of it as is wanted and accepted.
    method FillAndSend(file: FileReply, push: WriteReply) returns (tmp: int)
      requires Valid() && !talker.readEnd && (inf <==> framenums == 0)
      modifies this`h, talker, talker.dev, talker.dev.entrybuf, talker.dev.workbuf, talker.dev.driver
      ensures tmp == Accepted(old(Now()), file, push, Where())
        && Now() == Sent(AfterRead(old(Now()), file, Where()), tmp)
      ensures talker.Valid() && |h.sent| == |talker.dev.driver.accepted|
      ensures old(h.sent) <= h.sent && h.play == AfterBatch(old(h.play), old(Now()), file, push, Where())
      ensures tmp < 0 ==> Valid()
      ensures tmp >= 0 ==> framenums >= 0 && (framenums > 0 ==> |h.sent| + repeat - tmp == framenums && repeat >= tmp)
      ensures tmp >= 0 && h.play.whole ==> Cooperative(talker.readEnd || (!inf && repeat == tmp))
    {
      hide Cooperative, Held, Conserved, InSequence, Read;
      var size, b := Prepare(file);
      tmp := SendBatch(size, push, b);
    }

    lemma NowInBounds()
      requires Valid()
      ensures InBounds(Now(), Where()) && talker.dev.remain == talker.dev.entrynum - talker.dev.filled
      ensures framenums > 0 && !talker.readEnd ==> repeat > 0
    {}

    // The writing half of a turn: fills a batch and offers it, within the frame budget.
    method Offer(round: Round, nowait: bool) returns (failed: bool)
      requires Valid() && AtHead() && (inf || !waitflush)
      modifies this`h, this`repeat, this`inf, talker, talker.dev, talker.dev.entrybuf, talker.dev.workbuf,
        talker.dev.driver
      ensures Valid()
      ensures AfterWriting(old(Now()), round, nowait, Where()) == if failed then Fails(Now()) else Goes(Now())
      ensures old(h.sent) <= h.sent && h.play == AfterRound(old(h.play), old(Now()), round, nowait, Where())
      ensures failed || ((inf || !waitflush) && (inf <==> framenums == 0 || repeat == 0)
        && (waitflush ==> talker.readEnd))
      // A batch is read and offered if poll says that something can be written, or is not used; but no more once
      // the input has ended or all frames have been pushed.
      ensures !old(waitflush) && (nowait || round.writable) ==>
        OffersBatch(old(Now()), Now(), round, Where(), old(talker.dev.remain), framenums, failed)
      ensures old(waitflush) || !(nowait || round.writable) ==> !failed && Now() == old(Now())
      ensures talker.dev.driver.returned == old(talker.dev.driver.returned)
    {
      hide Cooperative, Talker.Valid, Accepted;
      failed := false;
      if !waitflush && (nowait || round.writable) {
        NowInBounds();
        OfferSays(Now(), round, Where(), talker.dev.remain, framenums);
        var tmp := FillAndSend(round.file, round.push);
        failed := tmp < 0;
        if !failed { Account(tmp); }
      }
    }

    // Takes at most `count` slots back; no page changes.
    method TakeSlots(count: nat, reply: ReadReply) returns (tmp: int, ghost ret: nat)
      requires talker.Valid() && count <= talker.dev.filled
      modifies talker.dev`rp, talker.dev`remain, talker.dev`filled, talker.dev.entrybuf, talker.dev.workbuf
      modifies talker.dev.driver`queue, talker.dev.driver`memory, talker.dev.driver`delivered,
        talker.dev.driver`returned
      ensures talker.Valid() && talker.dev.driver.memory == old(talker.dev.driver.memory) && ret <= count
      ensures tmp == ReadResult(count, reply) && ret == if tmp > 0 then tmp else 0
      ensures talker.dev.rp == Wrap(old(talker.dev.rp) + ret, talker.dev.entrynum)
      ensures talker.dev.filled == old(talker.dev.filled) - ret
      ensures |old(talker.dev.driver.queue)| >= ret && talker.dev.driver.queue == old(talker.dev.driver.queue)[ret..]
      ensures talker.dev.driver.returned == old(talker.dev.driver.returned) + ret
    {
      assert |Bases(talker.dev.driver.queue)| == talker.dev.filled;
      tmp := talker.dev.TakeEntry(count, reply);
      if tmp > 0 { ret := tmp; } else { ret := 0; }
    }

    // What is still in the driver's hands after a take is unchanged.
    method TakeHeld(count: nat, reply: ReadReply) returns (tmp: int)
      requires talker.Valid() && count <= talker.dev.filled && (h.play.whole ==> InDriver())
      modifies talker.dev`rp, talker.dev`remain, talker.dev`filled, talker.dev.entrybuf, talker.dev.workbuf
      modifies talker.dev.driver`queue, talker.dev.driver`memory, talker.dev.driver`delivered,
        talker.dev.driver`returned
      ensures talker.Valid() && (h.play.whole ==> InDriver())
      ensures tmp == ReadResult(count, reply) && Now() == Taken(old(Now()), tmp)
    {
      ghost var d := talker.dev;
      ghost var pages, rp, wp, remain, filled, queue, returned :=
        talker.Contents(), d.rp, d.wp, d.remain, d.filled, d.driver.queue, d.driver.returned;
      ghost var ret;
      tmp, ret := TakeSlots(count, reply);
      if h.play.whole {
        HeldAfterTake(h.sent, returned, pages, rp, wp, remain, filled, queue, ret, d.driver.returned, d.rp, d.filled,
          d.driver.queue);
      }
    }

    method TakeKept(count: nat, reply: ReadReply) returns (tmp: int)
      requires Valid() && count <= talker.dev.filled
      modifies talker.dev`rp, talker.dev`remain, talker.dev`filled, talker.dev.entrybuf, talker.dev.workbuf
      modifies talker.dev.driver`queue, talker.dev.driver`memory, talker.dev.driver`delivered,
        talker.dev.driver`returned
      ensures Valid()
      ensures tmp == ReadResult(count, reply) && Now() == Taken(old(Now()), tmp)
    {
      tmp := TakeHeld(count, reply);
    }

    // The reading half of a turn: takes some of the frames back that the driver has sent.
    method TakeBack(round: Round, nowait: bool, thresh: nat) returns (failed: bool)
      requires Valid()
      modifies talker.dev`rp, talker.dev`remain, talker.dev`filled, talker.dev.entrybuf, talker.dev.workbuf
      modifies talker.dev.driver`queue, talker.dev.driver`memory, talker.dev.driver`delivered,
        talker.dev.driver`returned
      ensures Valid()
      ensures AfterReading(old(Now()), round, nowait, thresh) == if failed then Fails(Now()) else Goes(Now())
      // Slots are asked for if poll says that something can be read, or is not used.
      ensures var back := talker.dev.driver.returned - old(talker.dev.driver.returned);
        if nowait || round.readable then
          Reads(if old(talker.dev.filled) < thresh then old(talker.dev.filled) else thresh, round.take, back, failed)
        else back == 0 && !failed
    {
      failed := false;
      if nowait || round.readable {
        var count := if talker.dev.filled > thresh then thresh else talker.dev.filled;
        var tmp := TakeKept(count, round.take);
        failed := tmp < 0;
      }
    }

    // One turn of the loop. Without a request to stop, the loop is left exactly when there is nothing more
    // to read and either the driver has sent everything or a frame count was asked for and not reached.
    method Turn(round: Round, nowait: bool, thresh: nat) returns (failed: bool)
      requires Valid() && AtHead() && (inf || !waitflush) && thresh == talker.dev.entrynum / 8
      modifies this, talker, talker.dev, talker.dev.entrybuf, talker.dev.workbuf, talker.dev.driver
      ensures Valid() && (!failed ==> AtHead())
      ensures TurnCounts(old(Now()), round, nowait, Where()) == if failed then Fails(Now()) else Goes(Now())
      ensures old(h.sent) <= h.sent && h.play == AfterRound(old(h.play), old(Now()), round, nowait, Where())
      ensures !failed && round.stop ==> !inf && waitflush
      ensures !failed && !round.stop ==>
        (!inf && waitflush <==> talker.readEnd && (talker.dev.filled == 0 || (framenums != 0 && repeat != 0)))
      // It reads and offers frames, and takes frames back, only if poll reports it or is not used.
      ensures old(waitflush) || !(nowait || round.writable) ==>
        talker.cursor == old(talker.cursor) && |h.sent| == |old(h.sent)| && repeat == old(repeat)
      ensures !(nowait || round.readable) ==> talker.dev.driver.returned == old(talker.dev.driver.returned)
    {
      hide Cooperative, Talker.Valid, AfterWriting, AfterReading, AfterDecision, AfterRound;
      failed := Offer(round, nowait);
      if failed { return; }
      failed := TakeBack(round, nowait, thresh);
      if failed { return; }
      Decide(round.stop);
    }

    // Whether to go on.
    method Decide(stop: bool)
      requires Valid() && (inf || !waitflush) && (inf <==> framenums == 0 || repeat == 0)
      requires waitflush ==> talker.readEnd
      modifies this`inf, this`waitflush
      ensures Valid() && AtHead() && Now() == AfterDecision(old(Now()), stop)
      ensures stop ==> !inf && waitflush
      ensures !stop ==>
        (!inf && waitflush <==> talker.readEnd && (talker.dev.filled == 0 || (framenums != 0 && repeat != 0)))
    {
      if stop {
        inf := false;
        waitflush := true;
      }
      if talker.readEnd {
        waitflush := true;
        if talker.dev.filled == 0 { inf := false; }
      }
    }

    // What a turn without a request to stop says about leaving the loop.
    ghost predicate Settled()
      reads this, talker, talker.dev
    {
      !inf && waitflush ==> talker.readEnd && (talker.dev.filled == 0 || (framenums != 0 && repeat != 0))
    }

    // Enough rounds in which input and driver are ready.
    ghost predicate Ready(script: seq<Round>, filled: nat, cursor: nat) {
      && AllObliging(script) && talker.dev.entrynum >= 8 && filled < talker.dev.entrynum
      && |script| > |talker.source| - cursor + talker.dev.entrynum
    }

    // The turns of the loop, until it ends or the script does.
    method Turns(nowait: bool, script: seq<Round>) returns (exit: Exit)
      requires Valid() && AtHead() && !waitflush
      modifies this, talker, talker.dev, talker.dev.entrybuf, talker.dev.workbuf, talker.dev.driver
      ensures LoopCounts(old(Now()), old(h.play), script, nowait, Where()) == (Now(), h.play, exit)
      ensures Valid() && old(h.sent) <= h.sent
      ensures exit.Finished? ==> !inf && waitflush && (NoStop(script) ==> Settled())
    {
      hide Cooperative, Talker.Valid, TurnCounts, AfterRound;
      var thresh := talker.dev.entrynum / 8;
      var r := 0;
      NowInBounds();
      ghost var w, start, play := Where(), Now(), h.play;
      assert script[0..] == script;
      while r < |script| && (inf || !waitflush)
        invariant 0 <= r <= |script| && Valid() && AtHead() && old(h.sent) <= h.sent && InBounds(Now(), w)
        invariant LoopCounts(start, play, script, nowait, w) == LoopCounts(Now(), h.play, script[r..], nowait, w)
        invariant NoStop(script) ==> Settled()
      {
        assert script[r..][1..] == script[r + 1..];
        TurnInBounds(Now(), script[r], nowait, w);
        var failed := Turn(script[r], nowait, thresh);
        if failed { return Failed; }
        r := r + 1;
      }
      exit := if inf || !waitflush then StillRunning else Finished;
    }

    method ProcessLoop(nowait: bool, script: seq<Round>) returns (exit: Exit)
      requires Valid() && AtHead() && !waitflush
      modifies this, talker, talker.dev, talker.dev.entrybuf, talker.dev.workbuf, talker.dev.driver
      // How far it gets, and whether the environment plays along, is what the numbers of the turns say.
      ensures LoopCounts(old(Now()), old(h.play), script, nowait, Where()) == (Now(), h.play, exit)
      ensures Valid() && old(h.sent) <= h.sent
      // Whatever the environment does: the frame budget, and what was sent while it plays along.
      ensures framenums > 0 ==> |talker.dev.driver.accepted| + repeat == framenums && repeat >= 0
      ensures h.play.whole ==> SentBytes()
      // The loop comes to its own end only when the input is used up or the frame count is reached; in the
      // second case the driver has sent every frame.
      ensures exit.Finished? && NoStop(script) ==>
        && talker.readEnd
        && (framenums > 0 && |h.sent| == framenums ==>
              talker.dev.filled == 0 && talker.dev.driver.queue == [] && talker.dev.driver.returned == framenums)
        && (framenums == 0 ==> talker.dev.filled == 0)
      // With an input and a driver that are ready it does come to its end: without a count when all of the input is
      // through, with one when that many frames are through or the input is used up. If besides everything offered
      // is accepted, the frames sent carry the whole input.
      ensures framenums >= 0 && Ready(script, old(talker.dev.filled), old(talker.cursor)) ==>
        && exit.Finished?
        && (framenums == 0 ==> talker.cursor == |talker.source| && talker.dev.filled == 0)
        && (framenums > 0 ==>
              (|h.sent| == framenums && talker.dev.filled == 0) || talker.cursor == |talker.source|)
        && (framenums == 0 && AllAccepted(script, talker.dev.entrynum) && old(h.play.whole && !h.play.cut) ==>
              Cuts(h.sent) == talker.source)
    {
      hide Cooperative, Talker.Valid, LoopCounts, Ready, AllAccepted;
      NowInBounds();
      if framenums >= 0 && Ready(script, talker.dev.filled, talker.cursor) { ComesToItsEnd(nowait, script); }
      exit := Turns(nowait, script);
      if talker.dev.filled == 0 { NothingHeld(); }
      if h.play.whole { BytesSent(); }
    }

    // The payloads sent, cut at their lengths, are the bytes read, or a prefix of them when the frame limit cut
    // the last batch; and they are numbered consecutively if only the end of the input made a read short.
    ghost predicate SentBytes()
      reads this, talker
    {
      && talker.cursor <= |talker.source|
      && Cuts(h.sent) <= talker.source[..talker.cursor]
      && (!h.play.cut ==> Cuts(h.sent) == talker.source[..talker.cursor])
      && (h.play.steady ==> NumberedFrom(h.sent, 0))
    }

    lemma BytesSent()
      requires Valid() && h.play.whole
      ensures SentBytes()
    {}

    // What the numbers say of a run with an input and a driver that are ready.
    lemma ComesToItsEnd(nowait: bool, script: seq<Round>)
      requires Valid() && AtHead() && !waitflush && framenums >= 0 && Ready(script, talker.dev.filled, talker.cursor)
      ensures InBounds(Now(), Where())
      ensures var (d, q, exit) := LoopCounts(Now(), h.play, script, nowait, Where());
        && exit == Finished
        && (framenums == 0 ==> d.filled == 0 && d.cursor == |talker.source|)
        && (framenums > 0 ==> (d.filled == 0 && d.repeat == 0) || d.cursor == |talker.source|)
        && (h.play.whole && AllAccepted(script, talker.dev.entrynum) ==>
              q.whole && (framenums == 0 ==> q.cut == h.play.cut))
    {
      NowInBounds();
      ObligingEnds(Now(), h.play, script, nowait, Where());
      if h.play.whole && AllAccepted(script, talker.dev.entrynum) {
        AcceptedStaysWhole(Now(), h.play, script, nowait, Where());
      }
    }

    lemma NothingHeld()
      requires talker.Valid() && talker.dev.filled == 0
      ensures talker.dev.driver.queue == [] && talker.dev.driver.returned == |talker.dev.driver.accepted|
    {
      assert |Bases(talker.dev.driver.queue)| == 0;
    }
  }
}
