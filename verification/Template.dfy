// The templates of the application command: what a command with escapes and $WORD$s expands to.
module Template {
  const MAXSTR := 200

  type Octet = b: nat | b < 256
  type UInt64 = n: nat | n < 0x1_0000_0000_0000_0000 witness 0

  // The settings that can be put into a command.
  datatype Context = Context(
    talker: bool,
    useGptp: bool,
    useSrp: bool,
    useAvdecc: bool,
    avdeccEntity: string,
    destAddr: seq<Octet>,
    streamId: seq<Octet>,
    srClass: UInt64,
    srPriority: UInt64,
    vid: UInt64,
    uid: UInt64,
    maxFrameSize: UInt64,
    frameIntervals: UInt64,
    latency: UInt64)
  {
    // What the fixed-size fields can hold.
    ghost predicate Valid() {
      |avdeccEntity| < MAXSTR && '\0' !in avdeccEntity && |destAddr| == 6 && |streamId| == 8
    }
  }

  // ---- Numbers and addresses -----------------------------------------------------------------

  const DIGITS := "0123456789abcdef"

  function Decimal(n: nat): (r: string)
    ensures r != [] && '\0' !in r
  {
    if n < 10 then [DIGITS[n]] else Decimal(n / 10) + [DIGITS[n % 10]]
  }

  function Digit(c: char): nat {
    if '0' <= c <= '9' then (c - '0') as nat else 0
  }

  function ReadDecimal(s: string): nat {
    if s == [] then 0 else ReadDecimal(s[..|s| - 1]) * 10 + Digit(s[|s| - 1])
  }

  lemma {:induction false} DecimalReadsBack(n: nat)
    ensures ReadDecimal(Decimal(n)) == n
  {
    if n >= 10 {
      DecimalReadsBack(n / 10);
      assert Decimal(n)[..|Decimal(n)| - 1] == Decimal(n / 10);
    } else {
      assert Decimal(n)[..0] == [];
    }
  }

  // Nothing but digits, and none too many in front.
  lemma {:induction false} DecimalIsPlain(n: nat)
    ensures forall i :: 0 <= i < |Decimal(n)| ==> '0' <= Decimal(n)[i] <= '9'
    ensures Decimal(n)[0] == '0' <==> n == 0
  {
    if n >= 10 { DecimalIsPlain(n / 10); }
  }

  function Hex2(b: Octet): (r: string)
    ensures |r| == 2 && '\0' !in r
  {
    [DIGITS[b / 16], DIGITS[b % 16]]
  }

  function Colons(bs: seq<Octet>): (r: string)
    ensures |r| == (if bs == [] then 0 else 3 * |bs| - 1) && '\0' !in r
  {
    if bs == [] then [] else if |bs| == 1 then Hex2(bs[0]) else Hex2(bs[0]) + ":" + Colons(bs[1..])
  }

  // Sixty-four bits need at most twenty digits.
  lemma {:induction false} DecimalLength(n: nat, k: nat)
    requires k > 0 && n < Pow10(k)
    ensures |Decimal(n)| <= k
    decreases k
  {
    if n < 10 {
    } else {
      DecimalLength(n / 10, k - 1);
    }
  }

  function Pow10(k: nat): (r: nat)
    ensures r > 0
  {
    if k == 0 then 1 else 10 * Pow10(k - 1)
  }

  // ---- Words ---------------------------------------------------------------------------------

  function Switch(on: bool): string { if on then "enable" else "disable" }

  // What a word, with its dollar signs, is replaced by; an unknown word stays.
  function Convert(ctx: Context, word: string): string {
    if word == "$MODE$" then (if ctx.talker then "talker" else "listener")
    else if word == "$GPTP$" then Switch(ctx.useGptp)
    else if word == "$SRP$" then Switch(ctx.useSrp)
    else if word == "$AVDECC$" then (if ctx.useAvdecc then ctx.avdeccEntity else "disable")
    else if word == "$DEST_ADDR$" then Colons(ctx.destAddr)
    else if word == "$STREAM_ID$" then Colons(ctx.streamId)
    else if word == "$SR_CLASS$" then Decimal(ctx.srClass)
    else if word == "$SR_PRIORITY$" then Decimal(ctx.srPriority)
    else if word == "$VLAN_ID$" then Decimal(ctx.vid)
    else if word == "$UNIQUE_ID$" then Decimal(ctx.uid)
    else if word == "$MAX_FRAMESIZE$" then Decimal(ctx.maxFrameSize)
    else if word == "$FRAME_INTERVALS$" then Decimal(ctx.frameIntervals)
    else if word == "$LATENCY$" then Decimal(ctx.latency)
    else word
  }

  // ---- Settings read back --------------------------------------------------------------------

  function HexDigit(c: char): nat {
    if '0' <= c <= '9' then (c - '0') as nat else if 'a' <= c <= 'f' then (c - 'a') as nat + 10 else 256
  }

  // Two digits for each byte, with a colon in front of the next one.
  function ReadAddress(s: string): seq<nat> {
    if |s| < 2 then []
    else [HexDigit(s[0]) * 16 + HexDigit(s[1])] + if |s| > 2 && s[2] == ':' then ReadAddress(s[3..]) else []
  }

  lemma ByteReadsBack(b: Octet)
    ensures HexDigit(Hex2(b)[0]) * 16 + HexDigit(Hex2(b)[1]) == b
  {
    DigitReadsBack(b / 16);
    DigitReadsBack(b % 16);
  }

  lemma DigitReadsBack(d: nat)
    requires d < 16
    ensures HexDigit(DIGITS[d]) == d
  {}

  lemma {:induction false} AddressReadsBack(bs: seq<Octet>)
    ensures ReadAddress(Colons(bs)) == bs
  {
    hide HexDigit, Hex2;
    if |bs| <= 1 {
      if bs != [] { ByteReadsBack(bs[0]); }
    } else {
      ByteReadsBack(bs[0]);
      assert Colons(bs)[3..] == Colons(bs[1..]);
      AddressReadsBack(bs[1..]);
    }
  }

  // Every setting reads back from the replacement of its own word.
  lemma SettingsReadBack(ctx: Context)
    ensures ReadAddress(Convert(ctx, "$DEST_ADDR$")) == ctx.destAddr
    ensures ReadAddress(Convert(ctx, "$STREAM_ID$")) == ctx.streamId
    ensures ReadDecimal(Convert(ctx, "$SR_CLASS$")) == ctx.srClass
    ensures ReadDecimal(Convert(ctx, "$SR_PRIORITY$")) == ctx.srPriority
    ensures ReadDecimal(Convert(ctx, "$VLAN_ID$")) == ctx.vid
    ensures ReadDecimal(Convert(ctx, "$UNIQUE_ID$")) == ctx.uid
    ensures ReadDecimal(Convert(ctx, "$MAX_FRAMESIZE$")) == ctx.maxFrameSize
    ensures ReadDecimal(Convert(ctx, "$FRAME_INTERVALS$")) == ctx.frameIntervals
    ensures ReadDecimal(Convert(ctx, "$LATENCY$")) == ctx.latency
    ensures Convert(ctx, "$MODE$") == if ctx.talker then "talker" else "listener"
    ensures Convert(ctx, "$GPTP$") == if ctx.useGptp then "enable" else "disable"
    ensures Convert(ctx, "$SRP$") == if ctx.useSrp then "enable" else "disable"
    ensures Convert(ctx, "$AVDECC$") == if ctx.useAvdecc then ctx.avdeccEntity else "disable"
  {
    AddressReadsBack(ctx.destAddr);
    AddressReadsBack(ctx.streamId);
    DecimalReadsBack(ctx.srClass);
    DecimalReadsBack(ctx.srPriority);
    DecimalReadsBack(ctx.vid);
    DecimalReadsBack(ctx.uid);
    DecimalReadsBack(ctx.maxFrameSize);
    DecimalReadsBack(ctx.frameIntervals);
    DecimalReadsBack(ctx.latency);
    hide ReadAddress, ReadDecimal, Colons, Decimal;
  }

  // Any other word stays as it is.
  lemma OtherWordsStay(ctx: Context, word: string)
    requires word !in {"$MODE$", "$GPTP$", "$SRP$", "$AVDECC$", "$DEST_ADDR$", "$STREAM_ID$", "$SR_CLASS$",
      "$SR_PRIORITY$", "$VLAN_ID$", "$UNIQUE_ID$", "$MAX_FRAMESIZE$", "$FRAME_INTERVALS$", "$LATENCY$"}
    ensures Convert(ctx, word) == word
  {}

  lemma ConvertFits(ctx: Context, word: string)
    requires ctx.Valid() && |word| < MAXSTR && '\0' !in word
    ensures |Convert(ctx, word)| < MAXSTR && '\0' !in Convert(ctx, word)
  {
    NumberFits(ctx.srClass);
    NumberFits(ctx.srPriority);
    NumberFits(ctx.vid);
    NumberFits(ctx.uid);
    NumberFits(ctx.maxFrameSize);
    NumberFits(ctx.frameIntervals);
    NumberFits(ctx.latency);
  }

  lemma NumberFits(n: UInt64)
    ensures |Decimal(n)| <= 20
  {
    assert Pow10(20) == 100000000000000000000 by {
      assert Pow10(5) == 100000;
      assert Pow10(10) == 10000000000;
      assert Pow10(15) == 1000000000000000;
    }
    DecimalLength(n, 20);
  }

  // ---- Expansion -----------------------------------------------------------------------------

  // A backslash protects the next character; a $WORD$ is replaced; a word left open is copied. A backslash
  // at the very end is dropped, and with it the word it stands in.
  function Expand(ctx: Context, s: string): string
    decreases |s|
  {
    if s == [] then []
    else if s[0] == '\\' then (if |s| == 1 then [] else [s[1]] + Expand(ctx, s[2..]))
    else if s[0] == '$' then ExpandWord(ctx, s[1..], ['$'])
    else [s[0]] + Expand(ctx, s[1..])
  }

  function ExpandWord(ctx: Context, s: string, word: string): string
    decreases |s|
  {
    if s == [] then word
    else if s[0] == '\\' then (if |s| == 1 then [] else ExpandWord(ctx, s[2..], word + [s[1]]))
    else if s[0] == '$' then Convert(ctx, word + ['$']) + Expand(ctx, s[1..])
    else ExpandWord(ctx, s[1..], word + [s[0]])
  }

  // ---- Escapes -------------------------------------------------------------------------------

  predicate Special(c: char) { c == '\\' || c == '$' }

  function EscapeChar(c: char): string { if Special(c) then ['\\', c] else [c] }

  function Escape(s: string): string {
    if s == [] then [] else EscapeChar(s[0]) + Escape(s[1..])
  }

  // ---- Whole commands ------------------------------------------------------------------------

  // t is a way to write s: special characters must have a backslash in front of them, others may.
  predicate Writes(t: string, s: string)
    decreases |s|
  {
    if s == [] then t == []
    else
      || (|t| >= 2 && t[0] == '\\' && t[1] == s[0] && Writes(t[2..], s[1..]))
      || (t != [] && !Special(s[0]) && t[0] == s[0] && Writes(t[1..], s[1..]))
  }

  // Text that stands for itself, and words to be replaced.
  datatype Piece = Literal(text: string, written: string) | Word(name: string, written: string)

  // How a command may end behind its last piece: in order, in a word left open, or in a backslash with nothing to
  // protect, outside a word or inside one.
  datatype Finish =
    | InOrder
    | OpenWord(name: string, written: string)
    | Backslash
    | OpenBackslash(name: string, written: string)

  predicate Proper(p: Piece) { Writes(p.written, if p.Literal? then p.text else p.name) }
  predicate ProperEnd(f: Finish) { f.OpenWord? || f.OpenBackslash? ==> Writes(f.written, f.name) }

  function Written(p: Piece): string { if p.Literal? then p.written else ['$'] + p.written + ['$'] }

  function Shown(ctx: Context, p: Piece): string {
    match p
    case Literal(text, _) => text
    case Word(name, _) => Convert(ctx, ['$'] + name + ['$'])
  }

  function Command(ps: seq<Piece>): string { if ps == [] then [] else Written(ps[0]) + Command(ps[1..]) }

  function ShownAll(ctx: Context, ps: seq<Piece>): string {
    if ps == [] then [] else Shown(ctx, ps[0]) + ShownAll(ctx, ps[1..])
  }

  function WrittenEnd(f: Finish): string {
    match f
    case InOrder => []
    case OpenWord(_, written) => ['$'] + written
    case Backslash => ['\\']
    case OpenBackslash(_, written) => ['$'] + (written + ['\\'])
  }

  function ShownEnd(f: Finish): string { if f.OpenWord? then ['$'] + f.name else [] }

  lemma {:induction false} WritingStands(ctx: Context, t: string, s: string, rest: string)
    requires Writes(t, s)
    ensures Expand(ctx, t + rest) == s + Expand(ctx, rest)
    decreases |s|
  {
    if s == [] {
      assert t + rest == rest && s + Expand(ctx, rest) == Expand(ctx, rest);
    } else {
      assert [s[0]] + (s[1..] + Expand(ctx, rest)) == s + Expand(ctx, rest);
      if |t| >= 2 && t[0] == '\\' && t[1] == s[0] && Writes(t[2..], s[1..]) {
        assert (t + rest)[2..] == t[2..] + rest;
        WritingStands(ctx, t[2..], s[1..], rest);
      } else {
        assert (t + rest)[1..] == t[1..] + rest;
        WritingStands(ctx, t[1..], s[1..], rest);
      }
    }
  }

  lemma {:induction false} EscapeWrites(s: string)
    ensures Writes(Escape(s), s)
  {
    if s == [] {
    } else {
      EscapeWrites(s[1..]);
      var t := Escape(s);
      if Special(s[0]) { assert t[2..] == Escape(s[1..]); } else { assert t[1..] == Escape(s[1..]); }
    }
  }

  // Escaped text stands for itself whatever the settings.
  lemma EscapeRoundTrip(ctx: Context, s: string)
    ensures Expand(ctx, Escape(s)) == s
  {
    EscapeWrites(s);
    WritingStands(ctx, Escape(s), s, []);
    assert Escape(s) + [] == Escape(s) && s + [] == s;
  }

  // The name of a word is collected character by character.
  lemma {:induction false} NameCollected(ctx: Context, t: string, name: string, word: string, rest: string)
    requires Writes(t, name)
    ensures ExpandWord(ctx, t + rest, word) == ExpandWord(ctx, rest, word + name)
    decreases |name|
  {
    if name == [] {
      assert t + rest == rest && word + name == word;
    } else {
      assert word + [name[0]] + name[1..] == word + name;
      if |t| >= 2 && t[0] == '\\' && t[1] == name[0] && Writes(t[2..], name[1..]) {
        assert (t + rest)[2..] == t[2..] + rest;
        NameCollected(ctx, t[2..], name[1..], word + [name[0]], rest);
      } else {
        assert (t + rest)[1..] == t[1..] + rest;
        NameCollected(ctx, t[1..], name[1..], word + [name[0]], rest);
      }
    }
  }

  // A closed word is replaced wherever it stands, whatever its name and however that is written.
  lemma WordReplaced(ctx: Context, written: string, name: string, rest: string)
    requires Writes(written, name)
    ensures Expand(ctx, ['$'] + written + ['$'] + rest) == Convert(ctx, ['$'] + name + ['$']) + Expand(ctx, rest)
  {
    var s := ['$'] + written + ['$'] + rest;
    assert s[1..] == written + (['$'] + rest);
    NameCollected(ctx, written, name, ['$'], ['$'] + rest);
    assert (['$'] + rest)[1..] == rest;
  }

  lemma EndShown(ctx: Context, f: Finish)
    requires ProperEnd(f)
    ensures Expand(ctx, WrittenEnd(f)) == ShownEnd(f)
  {
    match f
    case OpenWord(name, written) =>
      assert WrittenEnd(f)[1..] == written + [];
      NameCollected(ctx, written, name, ['$'], []);
    case OpenBackslash(name, written) =>
      assert WrittenEnd(f)[1..] == written + ['\\'];
      NameCollected(ctx, written, name, ['$'], ['\\']);
    case _ =>
  }

  lemma PieceShown(ctx: Context, p: Piece, rest: string)
    requires Proper(p)
    ensures Expand(ctx, Written(p) + rest) == Shown(ctx, p) + Expand(ctx, rest)
  {
    match p
    case Literal(text, written) => WritingStands(ctx, written, text, rest);
    case Word(name, written) => WordReplaced(ctx, written, name, rest);
  }

  ghost predicate AllProper(ps: seq<Piece>) { forall k :: 0 <= k < |ps| ==> Proper(ps[k]) }

  lemma OneMorePiece(ctx: Context, p: Piece, ps: seq<Piece>, end: string)
    ensures Command([p] + ps) + end == Written(p) + (Command(ps) + end)
    ensures ShownAll(ctx, [p] + ps) == Shown(ctx, p) + ShownAll(ctx, ps)
  {
    assert ([p] + ps)[1..] == ps;
  }

  // A command is expanded piece by piece: text stands for itself, a word for its replacement, an open word for
  // itself; a backslash at the end is dropped, and with it the word it stands in.
  lemma {:induction false} CommandExpands(ctx: Context, ps: seq<Piece>, f: Finish)
    requires AllProper(ps) && ProperEnd(f)
    ensures Expand(ctx, Command(ps) + WrittenEnd(f)) == ShownAll(ctx, ps) + ShownEnd(f)
    decreases ps
  {
    hide Expand, Written, Shown, WrittenEnd, ShownEnd;
    if ps == [] {
      EndShown(ctx, f);
      assert Command(ps) + WrittenEnd(f) == WrittenEnd(f) && ShownAll(ctx, ps) + ShownEnd(f) == ShownEnd(f);
    } else {
      assert ps == [ps[0]] + ps[1..];
      OneMorePiece(ctx, ps[0], ps[1..], WrittenEnd(f));
      PieceShown(ctx, ps[0], Command(ps[1..]) + WrittenEnd(f));
      CommandExpands(ctx, ps[1..], f);
    }
  }

  // ---- Every command is made of such pieces ----------------------------------------------------

  ghost predicate Consists(s: string, ps: seq<Piece>, f: Finish) {
    s == Command(ps) + WrittenEnd(f) && AllProper(ps) && ProperEnd(f)
  }

  lemma ConsistsMore(p: Piece, s: string, ps: seq<Piece>, f: Finish)
    requires Proper(p) && Consists(s, ps, f)
    ensures Consists(Written(p) + s, [p] + ps, f)
  {
    hide Proper, Written, WrittenEnd, ProperEnd;
    assert ([p] + ps)[1..] == ps;
  }

  lemma OneCharacter(u: string, c: char)
    requires u == ['\\', c] || (u == [c] && !Special(c))
    ensures Writes(u, [c])
  {
    assert u[|u|..] == [] && [c][1..] == [];
  }

  lemma {:induction false} EveryCommand(s: string) returns (ps: seq<Piece>, f: Finish)
    ensures Consists(s, ps, f)
    decreases |s|, 0
  {
    hide Consists, Writes;
    if s == [] {
      ps, f := [], InOrder;
      Ends(s, f);
    } else if s == ['\\'] {
      ps, f := [], Backslash;
      Ends(s, f);
    } else if s[0] == '$' {
      WritesNothing();
      ps, f := EveryWord(s[1..], [], []);
      assert ['$'] + [] + s[1..] == s;
    } else {
      var n := if s[0] == '\\' then 2 else 1;
      OneCharacter(s[..n], s[n - 1]);
      ps, f := EveryCommand(s[n..]);
      var p := Literal([s[n - 1]], s[..n]);
      ConsistsMore(p, s[n..], ps, f);
      assert s[..n] + s[n..] == s;
      ps := [p] + ps;
    }
  }

  lemma {:induction false} EveryWord(s: string, written: string, name: string) returns (ps: seq<Piece>, f: Finish)
    requires Writes(written, name)
    ensures Consists(['$'] + written + s, ps, f)
    decreases |s|, 1
  {
    hide Consists, Writes;
    if s == [] {
      ps, f := [], OpenWord(name, written);
      Ends(['$'] + written + s, f);
    } else if s == ['\\'] {
      ps, f := [], OpenBackslash(name, written);
      Ends(['$'] + written + s, f);
    } else if s[0] == '$' {
      ps, f := EveryCommand(s[1..]);
      ConsistsMore(Word(name, written), s[1..], ps, f);
      assert ['$'] + written + ['$'] + s[1..] == ['$'] + written + s;
      ps := [Word(name, written)] + ps;
    } else {
      var n := if s[0] == '\\' then 2 else 1;
      WritesMore(written, name, s[..n], s[n - 1]);
      ps, f := EveryWord(s[n..], written + s[..n], name + [s[n - 1]]);
      assert ['$'] + (written + s[..n]) + s[n..] == ['$'] + written + s;
    }
  }

  lemma WritesNothing()
    ensures Writes([], [])
  {}

  lemma Ends(s: string, f: Finish)
    requires s == WrittenEnd(f) && ProperEnd(f)
    ensures Consists(s, [], f)
  {}

  lemma {:induction false} WritesMore(t: string, s: string, u: string, c: char)
    requires Writes(t, s) && (u == ['\\', c] || (u == [c] && !Special(c)))
    ensures Writes(t + u, s + [c])
    decreases |s|
  {
    if s == [] {
      assert t + u == u && s + [c] == [c] && u[|u|..] == [] && [c][1..] == [];
    } else {
      assert (s + [c])[1..] == s[1..] + [c];
      if |t| >= 2 && t[0] == '\\' && t[1] == s[0] && Writes(t[2..], s[1..]) {
        assert (t + u)[2..] == t[2..] + u;
        WritesMore(t[2..], s[1..], u, c);
      } else {
        assert (t + u)[1..] == t[1..] + u;
        WritesMore(t[1..], s[1..], u, c);
      }
    }
  }
}
