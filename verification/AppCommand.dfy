// The state machine that expands the application command in fixed-size character buffers.
module AppCommand {
  import opened CStrings
  import opened Template
  import opened CommandWords

  datatype State =
    | Initial
    | Escape
    | Other
    | End
    | FirstDollar
    | DollarEscape
    | DollarDollar
    | DollarOther
    | DollarEnd

  // The states from the first dollar on.
  predicate InWord(state: State) {
    state in {FirstDollar, DollarEscape, DollarDollar, DollarOther, DollarEnd}
  }

  function ChangeNextState(cmd: char, now: State): State {
    if cmd == '\\' then (if InWord(now) then DollarEscape else Escape)
    else if cmd == '$' then (if InWord(now) then DollarDollar else FirstDollar)
    else if cmd == '\0' then (if InWord(now) then DollarEnd else End)
    else (if InWord(now) then DollarOther else Other)
  }

  // ---- Buffers -------------------------------------------------------------------------------

  // A buffer overwritten from its start.
  function Overlay(buf: seq<char>, w: string): (r: seq<char>)
    requires |w| <= |buf|
    ensures |r| == |buf|
  {
    w + buf[|w|..]
  }

  // ---- What the machine does with the buffers ------------------------------------------------

  // How a scan of the command ends: at its end, inside a word (with what the word buffer held before it), at a
  // lone backslash, with a word that does not fit, or by writing past the buffer.
  datatype Ending = Plain | Open(word: string, buf: seq<char>) | Cut | TooLong | Overrun
  datatype Scanned = Scanned(out: string, ending: Ending)

  function Scan(ctx: Context, s: string, out: string, buf: seq<char>): Scanned
    requires |buf| == MAXSTR && |s| + 2 <= MAXSTR
    decreases |s|
  {
    if s == [] then Scanned(out, if |out| + 1 < MAXSTR then Plain else Overrun)
    else if s[0] == '\\' then
      if |s| == 1 then Scanned(out, Cut)
      else if |out| + 1 < MAXSTR then Scan(ctx, s[2..], out + [s[1]], buf) else Scanned(out, Overrun)
    else if s[0] == '$' then ScanWord(ctx, s[1..], out, ['$'], buf)
    else if |out| + 1 < MAXSTR then Scan(ctx, s[1..], out + [s[0]], buf) else Scanned(out, Overrun)
  }

  function ScanWord(ctx: Context, s: string, out: string, word: string, buf: seq<char>): Scanned
    requires |buf| == MAXSTR && |word| + |s| + 2 <= MAXSTR
    decreases |s|
  {
    if s == [] then Scanned(out, Open(word, buf))
    else if s[0] == '\\' then
      if |s| == 1 then Scanned(out, Cut) else ScanWord(ctx, s[2..], out, word + [s[1]], buf)
    else if s[0] == '$' then
      var conv := Convert(ctx, word + ['$']);
      if |out| + |conv| < MAXSTR then Scan(ctx, s[1..], out + conv, Overlay(buf, word + ['$', '\0']))
      else Scanned(out, TooLong)
    else ScanWord(ctx, s[1..], out, word + [s[0]], buf)
  }

  // An open word is copied if the string in the word buffer, which may reach into an earlier word, fits.
  predicate Succeeds(r: Scanned) {
    match r.ending
    case Plain => true
    case Cut => true
    case Open(word, buf) => |word| <= |buf| && |CStr(Overlay(buf, word))| + |r.out| < MAXSTR
    case _ => false
  }

  function Text(r: Scanned): string {
    if r.ending.Open? then r.out + r.ending.word else r.out
  }

  function Zeros(): (r: seq<char>)
    ensures |r| == MAXSTR && forall k :: 0 <= k < |r| ==> r[k] == '\0'
  {
    seq(MAXSTR, _ => '\0')
  }

  // ---- The machine and the expansion ---------------------------------------------------------

  ghost predicate Matches(r: Scanned, text: string) {
    match r.ending
    case TooLong => |text| >= MAXSTR
    case Overrun => |text| + 1 >= MAXSTR
    case _ => Text(r) == text
  }

  lemma {:induction false} ScanExpands(ctx: Context, s: string, out: string, buf: seq<char>)
    requires |buf| == MAXSTR && |s| + 2 <= MAXSTR
    ensures Matches(Scan(ctx, s, out, buf), out + Expand(ctx, s))
    decreases |s|
  {
    if s == [] {
      assert out + [] == out;
    } else if s[0] == '\\' {
      if |s| > 1 {
        ScanExpands(ctx, s[2..], out + [s[1]], buf);
        assert out + [s[1]] + Expand(ctx, s[2..]) == out + ([s[1]] + Expand(ctx, s[2..]));
      } else {
        assert out + [] == out;
      }
    } else if s[0] == '$' {
      ScanWordExpands(ctx, s[1..], out, ['$'], buf);
    } else {
      ScanExpands(ctx, s[1..], out + [s[0]], buf);
      assert out + [s[0]] + Expand(ctx, s[1..]) == out + ([s[0]] + Expand(ctx, s[1..]));
    }
  }

  lemma {:induction false} ScanWordExpands(ctx: Context, s: string, out: string, word: string, buf: seq<char>)
    requires |buf| == MAXSTR && |word| + |s| + 2 <= MAXSTR
    ensures Matches(ScanWord(ctx, s, out, word, buf), out + ExpandWord(ctx, s, word))
    decreases |s|
  {
    if s == [] {
    } else if s[0] == '\\' {
      if |s| > 1 { ScanWordExpands(ctx, s[2..], out, word + [s[1]], buf); } else { assert out + [] == out; }
    } else if s[0] == '$' {
      var conv := Convert(ctx, word + ['$']);
      if |out| + |conv| < MAXSTR {
        ScanExpands(ctx, s[1..], out + conv, Overlay(buf, word + ['$', '\0']));
        assert out + conv + Expand(ctx, s[1..]) == out + (conv + Expand(ctx, s[1..]));
      }
    } else {
      ScanWordExpands(ctx, s[1..], out, word + [s[0]], buf);
    }
  }

  // ---- The machine ---------------------------------------------------------------------------

  class Conversion {
    const ctx: Context
    const cmd: array<char>
    const conv: array<char>
    const word: array<char>
    const tmp: array<char>
    ghost const text: string       // the command
    ghost const goal: Scanned      // what the scan of the command must give
    var state: State
    var searchP: nat
    var tmpP: nat
    var wordP: nat
    ghost var before: seq<char>    // the word buffer when the current word began

    constructor (ctx: Context, cmd: array<char>)
      requires ctx.Valid() && cmd.Length == MAXSTR && |CStr(cmd[..])| + 2 <= MAXSTR
      requires !Scan(ctx, CStr(cmd[..]), [], Zeros()).ending.Overrun?
      ensures fresh(conv) && fresh(word) && fresh(tmp)
      ensures this.cmd == cmd && this.ctx == ctx && text == CStr(cmd[..]) && goal == Scan(ctx, text, [], Zeros())
      ensures state == Initial && Going(false)
    {
      this.ctx, this.cmd := ctx, cmd;
      text := CStr(cmd[..]);
      goal := Scan(ctx, CStr(cmd[..]), [], Zeros());
      conv := new char[MAXSTR](_ => '\0');
      word := new char[MAXSTR](_ => '\0');
      tmp := new char[MAXSTR](_ => '\0');
      state, searchP, tmpP, wordP := Initial, 0, 0, 0;
      new;
      before := word[..];
      assert word[..] == Zeros();
      assert text[0..] == text;
      assert tmp[..0] == [];
    }

    ghost predicate Frame()
      reads this, cmd, conv, word, tmp
    {
      && ctx.Valid() && cmd.Length == conv.Length == word.Length == tmp.Length == MAXSTR
      && cmd != conv && cmd != word && cmd != tmp && conv != word && conv != tmp && word != tmp
      && CStr(cmd[..]) == text && |text| + 2 <= MAXSTR && !goal.ending.Overrun?
    }

    // tmp holds a string of tmpP characters.
    ghost predicate Buffers()
      reads this, cmd, conv, word, tmp
    {
      && Frame()
      && tmpP < MAXSTR
      && (forall k :: 0 <= k < tmpP ==> tmp[k] != '\0') && (forall k :: tmpP <= k < MAXSTR ==> tmp[k] == '\0')
      && word[MAXSTR - 1] == '\0'
    }

    // The part of the command from searchP on is still to be scanned.
    ghost predicate Going(inWord: bool)
      reads this, cmd, conv, word, tmp
    {
      && Buffers() && searchP <= |text|
      && if inWord then
           && 0 < wordP && wordP + (|text| - searchP) + 2 <= MAXSTR
           && |before| == MAXSTR && word[..] == Overlay(before, word[..wordP]) && '\0' !in word[..wordP]
           && goal == ScanWord(ctx, text[searchP..], tmp[..tmpP], word[..wordP], before)
         else
           goal == Scan(ctx, text[searchP..], tmp[..tmpP], word[..])
    }

    // Nothing is left but to read the result: either the scan has ended and its text is in tmp, or it failed.
    ghost predicate Finished(error: bool)
      reads this, cmd, conv, word, tmp
    {
      && Frame() && (error <==> !Succeeds(goal))
      && (!error ==> tmp[MAXSTR - 1] == '\0' && CStr(tmp[..]) == Text(goal))
    }

    method TmpLength() returns (n: nat)
      requires Buffers()
      ensures n == tmpP
    {
      CStrAt(tmp[..], tmpP);
      n := StrLen(tmp);
    }

    // A character of the command that stands for itself.
    method ProcessOther() returns (error: bool)
      requires Going(false) && searchP < |text| && !Special(text[searchP])
      modifies this`searchP, this`tmpP, tmp
      ensures !error && Going(false) && searchP == old(searchP) + 1
    {
      error := false;
      var n := TmpLength();
      CmdAt(searchP);
      TextStep(searchP, 1);
      if n < MAXSTR {
        PutTmp(cmd[searchP]);
        searchP := searchP + 1;
        tmpP := tmpP + 1;
      } else {
        error := true;
      }
    }

    // What the scan says about a backslash, inside or outside a word.
    lemma EscapeStep(inWord: bool)
      requires Going(inWord) && searchP < |text| && text[searchP] == '\\'
      ensures searchP + 1 == |text| ==> goal == Scanned(tmp[..tmpP], Cut)
      ensures searchP + 1 < |text| ==>
        if inWord then
          wordP + (|text| - (searchP + 2)) + 3 <= MAXSTR
          && goal == ScanWord(ctx, text[searchP + 2..], tmp[..tmpP], word[..wordP] + [text[searchP + 1]], before)
        else tmpP + 1 < MAXSTR && goal == Scan(ctx, text[searchP + 2..], tmp[..tmpP] + [text[searchP + 1]], word[..])
    {
      TextStep(searchP, 1);
      if searchP + 1 < |text| {
        TextStep(searchP, 2);
        assert text[searchP..][1] == text[searchP + 1];
      }
    }

    // A backslash and the character behind it; at the end of the command, the backslash alone.
    method ProcessEscape() returns (error: bool)
      requires Going(false) && searchP < |text| && text[searchP] == '\\'
      modifies this`searchP, this`tmpP, tmp
      ensures !error && searchP == old(searchP) + 2
      ensures if searchP <= |text| then Going(false) else Finished(false)
    {
      error := false;
      var n := TmpLength();
      CmdAt(searchP + 1);
      EscapeStep(false);
      if n < MAXSTR {
        PutTmp(cmd[searchP + 1]);
        searchP := searchP + 2;
        tmpP := tmpP + 1;
      } else {
        error := true;
      }
    }

    // One more character of tmp; a NUL changes nothing.
    method PutTmp(c: char)
      requires Buffers() && (c != '\0' ==> tmpP + 1 < MAXSTR)
      modifies tmp
      ensures c == '\0' ==> tmp[MAXSTR - 1] == '\0' && CStr(tmp[..]) == old(tmp[..tmpP])
      ensures c != '\0' ==>
        tmp[..tmpP + 1] == old(tmp[..tmpP]) + [c] && (forall k :: 0 <= k < tmpP + 1 ==> tmp[k] != '\0')
                            && (forall k :: tmpP + 1 <= k < MAXSTR ==> tmp[k] == '\0')
    {
      tmp[tmpP] := c;
      if c == '\0' { CStrAt(tmp[..], tmpP); }
    }

    // The dollar sign that opens a word.
    method ProcessFirstDollar() returns (error: bool)
      requires Going(false) && searchP < |text| && text[searchP] == '$'
      modifies this`searchP, this`wordP, this`before, word
      ensures !error && Going(true) && searchP == old(searchP) + 1
    {
      error := false;
      CmdAt(searchP);
      TextStep(searchP, 1);
      before := word[..];
      var n := StrLen(word);
      if n < MAXSTR {
        wordP := 0;
        word[wordP] := cmd[searchP];
        assert word[..1] == ['$'];
        wordP := wordP + 1;
        searchP := searchP + 1;
      } else {
        error := true;
      }
    }

    // One more character of the word buffer.
    method PutWord(c: char)
      requires Frame() && wordP + 2 <= MAXSTR && word[MAXSTR - 1] == '\0'
      requires |before| == MAXSTR && word[..] == Overlay(before, word[..wordP])
      modifies word
      ensures word[..] == Overlay(before, word[..wordP + 1]) && word[..wordP + 1] == old(word[..wordP]) + [c]
      ensures word[MAXSTR - 1] == '\0'
    {
      ghost var w := word[..wordP];
      word[wordP] := c;
      assert word[..wordP + 1] == w + [c];
    }

    method ProcessDollarOther() returns (error: bool)
      requires Going(true) && searchP < |text| && !Special(text[searchP])
      modifies this`searchP, this`wordP, word
      ensures !error && Going(true) && searchP == old(searchP) + 1
    {
      error := false;
      CmdAt(searchP);
      TextStep(searchP, 1);
      var n := StrLen(word);
      if n < MAXSTR {
        PutWord(cmd[searchP]);
        searchP := searchP + 1;
        wordP := wordP + 1;
      } else {
        error := true;
      }
    }

    method ProcessDollarEscape() returns (error: bool)
      requires Going(true) && searchP < |text| && text[searchP] == '\\'
      modifies this`searchP, this`wordP, word
      ensures !error && searchP == old(searchP) + 2
      ensures if searchP <= |text| then Going(true) else Finished(false)
    {
      hide Convert, Scan, ScanWord, CStr, Overlay;
      error := false;
      CmdAt(searchP + 1);
      EscapeStep(true);
      CStrAt(tmp[..], tmpP);
      var n := StrLen(word);
      if n < MAXSTR {
        PutWord(cmd[searchP + 1]);
        wordP := wordP + 1;
        searchP := searchP + 2;
      } else {
        error := true;
      }
    }

    // snprintf of a text that fits.
    static method Print(dst: array<char>, s: string) returns (num: nat)
      requires |s| < dst.Length && '\0' !in s
      modifies dst
      ensures num == |s| && dst[..num] == s && dst[num] == '\0' && CStr(dst[..]) == s
    {
      num := 0;
      while num < |s|
        invariant num <= |s| && dst[..num] == s[..num]
      {
        dst[num] := s[num];
        num := num + 1;
      }
      dst[num] := '\0';
      assert forall k :: 0 <= k < num ==> dst[k] == s[k];
      CStrAt(dst[..], num);
    }

    method ConvertWord(ghost w: string) returns (num: nat)
      requires Frame() && CStr(word[..]) == w && |w| < MAXSTR
      modifies conv
      ensures num == |Convert(ctx, w)| < MAXSTR && CStr(conv[..]) == Convert(ctx, w)
    {
      var n := StrLen(word);
      ConvertFits(ctx, w);
      num := Print(conv, Convert(ctx, word[..n]));
    }

    // Appends the string of another buffer to tmp, with num + 1 characters copied or padded.
    method Append(src: array<char>, num: nat, ghost t: string)
      requires Buffers() && src != tmp && CStr(src[..]) == t && |t| <= num < src.Length && tmpP + num < MAXSTR
      modifies tmp
      ensures tmp[..tmpP + |t|] == old(tmp[..tmpP]) + t
      ensures forall k :: 0 <= k < tmpP + |t| ==> tmp[k] != '\0'
      ensures forall k :: tmpP + |t| <= k < MAXSTR ==> tmp[k] == '\0'
      ensures CStr(tmp[..]) == old(tmp[..tmpP]) + t
    {
      ghost var out := tmp[..tmpP];
      StrNCpy(tmp, tmpP, src, num + 1);
      assert tmp[..tmpP + |t|] == out + t;
      CStrAt(tmp[..], tmpP + |t|);
    }

    // The dollar sign that closes a word: its replacement is appended, if it fits.
    method ProcessDollarDollar() returns (error: bool)
      requires Going(true) && searchP < |text| && text[searchP] == '$'
      modifies this`searchP, this`tmpP, this`state, word, conv, tmp
      ensures if error then Finished(true) else Going(false) && searchP == old(searchP) + 1 && state == Initial
    {
      ghost var w := word[..wordP];
      CloseWord();
      var num := ConvertWord(w + ['$']);
      error := AppendWord(num, Convert(ctx, w + ['$']));
    }

    method AppendWord(num: nat, ghost t: string) returns (error: bool)
      requires Buffers() && searchP < |text| && CStr(conv[..]) == t && num == |t| < MAXSTR
      requires goal == if tmpP + |t| < MAXSTR then Scan(ctx, text[searchP + 1..], tmp[..tmpP] + t,
          word[..]) else Scanned(tmp[..tmpP], TooLong)
      modifies this`searchP, this`tmpP, this`state, tmp
      ensures if error then Finished(true) else Going(false) && searchP == old(searchP) + 1 && state == Initial
    {
      var n := TmpLength();
      if n + num < MAXSTR {
        Append(conv, num, t);
        tmpP := tmpP + num;
        searchP := searchP + 1;
        state := Initial;
        error := false;
      } else {
        error := true;
      }
    }

    method CloseWord()
      requires Going(true) && searchP < |text| && text[searchP] == '$'
      modifies word
      ensures CStr(word[..]) == old(word[..wordP]) + ['$'] && word[MAXSTR - 1] == '\0'
      ensures
        var t := Convert(ctx, old(word[..wordP]) + ['$']);
        goal == if tmpP + |t| < MAXSTR then Scan(ctx, text[searchP + 1..], tmp[..tmpP] + t,
            word[..]) else Scanned(tmp[..tmpP], TooLong)
    {
      hide Convert, Scan;
      ghost var w := word[..wordP];
      CmdAt(searchP);
      TextStep(searchP, 1);
      PutWord(cmd[searchP]);
      word[wordP + 1] := '\0';
      assert word[..wordP + 1] == w + ['$'];
      assert word[..wordP + 2] == w + ['$', '\0'];
      assert word[..] == Overlay(before, w + ['$', '\0']);
      CStrAt(word[..], wordP + 1);
    }

    // The end of the command.
    method ProcessEnd() returns (error: bool)
      requires Going(false) && searchP == |text|
      modifies tmp
      ensures !error && Finished(false)
    {
      error := false;
      var n := TmpLength();
      if n < MAXSTR {
        tmp[tmpP + 1] := '\0';
        CStrAt(tmp[..], tmpP);
      } else {
        error := true;
      }
    }

    // The end of the command inside a word: the length tested is that of the whole buffer, but only the
    // current word is copied.
    method ProcessDollarEnd() returns (error: bool)
      requires Going(true) && searchP == |text|
      modifies word, tmp
      ensures Finished(error)
    {
      ghost var w := word[..wordP];
      var num := StrLen(word);
      var n := TmpLength();
      if num < MAXSTR && n + num < MAXSTR {
        assert wordP <= num;
        word[wordP] := '\0';
        assert word[..wordP] == w;
        CStrAt(word[..], wordP);
        Append(word, num, w);
        error := false;
      } else {
        error := true;
      }
    }

    // The state fits the next character of the command.
    ghost predicate Ready()
      reads this, cmd, conv, word, tmp
    {
      && searchP <= |text|
      && var c := if searchP < |text| then text[searchP] else '\0';
         || (state in {Initial, ChangeNextState(c, Initial)} && Going(false))
         || (state == ChangeNextState(c, FirstDollar) && Going(true))
    }

    // What the code does in a state, up to the choice of the next one.
    method Dispatch() returns (error: bool)
      requires Ready()
      modifies this`searchP, this`tmpP, this`wordP, this`state, this`before, conv, word, tmp
      ensures error || state in {End, DollarEnd} ==> Finished(error)
      ensures !error && state !in {End, DollarEnd} ==>
        if searchP <= |text| then Going(InWord(state)) else Finished(false)
      ensures !error && state !in {End, DollarEnd} ==>
        searchP <= |text| + 1 && (searchP > old(searchP) || (old(state) == Initial && searchP == old(searchP)))
    {
      CmdAt(searchP);
      error := false;
      match state {
        case Initial =>
        case Escape => error := ProcessEscape();
        case Other => error := ProcessOther();
        case End => error := ProcessEnd();
        case FirstDollar => error := ProcessFirstDollar();
        case DollarEscape => error := ProcessDollarEscape();
        case DollarDollar => error := ProcessDollarDollar();
        case DollarOther => error := ProcessDollarOther();
        case DollarEnd => error := ProcessDollarEnd();
      }
    }

    method Run() returns (error: bool)
      requires state == Initial && Going(false)
      modifies this`searchP, this`tmpP, this`wordP, this`state, this`before, conv, word, tmp
      ensures Finished(error)
    {
      error := false;
      var len := StrLen(cmd);
      while searchP <= len && !error
        invariant searchP <= |text| + 1 && !error
        invariant if searchP <= |text| then Ready() else Finished(false)
        decreases len + 2 - searchP, state == Initial
      {
        error := Dispatch();
        if state == End || state == DollarEnd || error { break; }
        Advance();
      }
    }

    // The next state is chosen by the next character, even behind the end of the command.
    method Advance()
      requires searchP <= |text| + 1 && if searchP <= |text| then Going(InWord(state)) else Finished(false)
      modifies this`state
      ensures if searchP <= |text| then Ready() && state != Initial else Finished(false) && state != Initial
    {
      if searchP <= |text| { CmdAt(searchP); }
      state := ChangeNextState(cmd[searchP], state);
    }

    // The command's characters are those of its string.
    lemma CmdAt(i: nat)
      requires Buffers() && i <= |text|
      ensures i < |text| ==> cmd[i] == text[i] != '\0'
      ensures i == |text| ==> cmd[i] == '\0'
    {}

    lemma TextStep(i: nat, k: nat)
      requires i + k <= |text| && k > 0
      ensures |text[i..]| >= k && text[i..][k..] == text[i + k..] && text[i..][0] == text[i]
    {}
  }

  // ---- Which commands succeed ----------------------------------------------------------------

  // How far the string in a buffer reaches that is overwritten with n characters.
  function Reach(buf: seq<char>, n: nat): nat
    requires n <= |buf|
  {
    n + |CStr(buf[n..])|
  }

  // An overwritten buffer reaches as far as the last closed word that was long enough.
  ghost predicate LeftOver(buf: seq<char>, closed: seq<nat>) {
    |buf| == MAXSTR && forall n :: 0 < n < MAXSTR ==> Reach(buf, n) == Longest(closed, n)
  }

  lemma ReachAt(buf: seq<char>, n: nat, m: nat)
    requires n <= m < |buf| && buf[m] == '\0' && forall k :: n <= k < m ==> buf[k] != '\0'
    ensures Reach(buf, n) == m
  {
    CStrAt(buf[n..], m - n);
  }

  lemma {:induction false} OverlayReach(buf: seq<char>, w: string, n: nat)
    requires n <= |w| <= |buf| && '\0' !in w
    ensures Reach(Overlay(buf, w), n) == Reach(buf, |w|)
    decreases |w| - n
  {
    var b := Overlay(buf, w);
    if n == |w| {
      assert b[n..] == buf[n..];
    } else {
      OverlayReach(buf, w, n + 1);
      assert b[n..][1..] == b[n + 1..] && b[n..][0] == w[n];
    }
  }

  lemma NothingLeftOver()
    ensures LeftOver(Zeros(), [])
  {
    forall n | 0 < n < MAXSTR ensures Reach(Zeros(), n) == n { ReachAt(Zeros(), n, n); }
  }

  lemma ClosedWordLeftOver(buf: seq<char>, closed: seq<nat>, w: string)
    requires LeftOver(buf, closed) && 0 < |w| && |w| + 1 < MAXSTR && '\0' !in w
    ensures LeftOver(Overlay(buf, w + ['\0']), closed + [|w|])
  {
    var b := Overlay(buf, w + ['\0']);
    forall n | 0 < n < MAXSTR ensures Reach(b, n) == Longest(closed + [|w|], n) {
      LongestAfter(closed, |w|, n);
      if n <= |w| { ReachAt(b, n, |w|); } else { assert b[n..] == buf[n..]; }
    }
  }

  // How a scan ends, told by the words of the command alone.
  ghost predicate EndsAs(r: Scanned, l: Layout) {
    match r.ending
    case TooLong => true
    case Overrun => true
    case Open(word, buf) =>
      && r.out == l.text && word == l.open != [] && |word| <= |buf|
      && |CStr(Overlay(buf, word))| == Longest(l.closed, |word|)
    case _ => l.open == []
  }

  lemma {:induction false} ScanEnds(ctx: Context, s: string, out: string, buf: seq<char>, closed: seq<nat>)
    requires LeftOver(buf, closed) && |s| + 2 <= MAXSTR && '\0' !in s
    ensures EndsAs(Scan(ctx, s, out, buf), LayoutOf(ctx, s, out, closed))
    decreases |s|
  {
    if s == [] || (s[0] == '\\' && |s| == 1) {
    } else if s[0] == '\\' {
      ScanEnds(ctx, s[2..], out + [s[1]], buf, closed);
    } else if s[0] == '$' {
      ScanWordEnds(ctx, s[1..], out, ['$'], buf, closed);
    } else {
      ScanEnds(ctx, s[1..], out + [s[0]], buf, closed);
    }
  }

  lemma {:induction false} ScanWordEnds(ctx: Context, s: string, out: string, word: string, buf: seq<char>,
                                        closed: seq<nat>)
    requires LeftOver(buf, closed) && 0 < |word| && |word| + |s| + 2 <= MAXSTR && '\0' !in s && '\0' !in word
    ensures EndsAs(ScanWord(ctx, s, out, word, buf), LayoutOfWord(ctx, s, out, word, closed))
    decreases |s|
  {
    if s == [] {
      OverlayReach(buf, word, 0);
      assert Overlay(buf, word)[0..] == Overlay(buf, word);
    } else if s[0] == '\\' {
      if |s| > 1 { ScanWordEnds(ctx, s[2..], out, word + [s[1]], buf, closed); }
    } else if s[0] == '$' {
      ClosedWordLeftOver(buf, closed, word + ['$']);
      assert word + ['$'] + ['\0'] == word + ['$', '\0'];
      ScanEnds(ctx, s[1..], out + Convert(ctx, word + ['$']), Overlay(buf, word + ['$', '\0']), closed + [|word| + 1]);
    } else {
      ScanWordEnds(ctx, s[1..], out, word + [s[0]], buf, closed);
    }
  }

  // A command whose expansion leaves two characters free is expanded, or refused for the word it ends in.
  lemma FittingScan(ctx: Context, cmd: string)
    requires |cmd| + 2 <= MAXSTR && |Expand(ctx, cmd)| + 2 <= MAXSTR
    ensures var r := Scan(ctx, cmd, [], Zeros());
      !r.ending.Overrun? && !r.ending.TooLong? && Text(r) == Expand(ctx, cmd)
  {
    ScanExpands(ctx, cmd, [], Zeros());
    assert [] + Expand(ctx, cmd) == Expand(ctx, cmd);
  }

  // Among the commands whose expansion has at most 198 characters exactly those are refused that end in an open
  // word without room for it.
  lemma FittingCommands(ctx: Context, cmd: string)
    requires |cmd| + 2 <= MAXSTR && |Expand(ctx, cmd)| + 2 <= MAXSTR && '\0' !in cmd
    ensures Succeeds(Scan(ctx, cmd, [], Zeros())) <==> HasRoom(ctx, cmd)
  {
    FittingScan(ctx, cmd);
    NothingLeftOver();
    ScanEnds(ctx, cmd, [], Zeros(), []);
  }

  // ---- The conversion ------------------------------------------------------------------------

  // convert_app_cmd: rewrites the command in place. A command whose expansion leaves two characters of the buffer
  // free is refused only if it ends in an open word and the word buffer still holds the end of a longer one.
  method ConvertAppCmd(ctx: Context, appCmd: array<char>) returns (rc: int)
    requires ctx.Valid() && appCmd.Length == MAXSTR && |CStr(appCmd[..])| + 2 <= MAXSTR
    requires !Scan(ctx, CStr(appCmd[..]), [], Zeros()).ending.Overrun?
    modifies appCmd
    ensures rc == if Succeeds(Scan(ctx, old(CStr(appCmd[..])), [], Zeros())) then 0 else -1
    ensures |Expand(ctx, old(CStr(appCmd[..])))| + 2 <= MAXSTR ==> (rc == 0 <==> HasRoom(ctx, old(CStr(appCmd[..]))))
    ensures rc == 0 ==> CStr(appCmd[..]) == Expand(ctx, old(CStr(appCmd[..])))
    ensures rc != 0 ==> appCmd[..] == old(appCmd[..])
  {
    ghost var cmd := CStr(appCmd[..]);
    ScanExpands(ctx, cmd, [], Zeros());
    assert [] + Expand(ctx, cmd) == Expand(ctx, cmd);
    if |Expand(ctx, cmd)| + 2 <= MAXSTR { FittingCommands(ctx, cmd); }
    var m := new Conversion(ctx, appCmd);
    var error := m.Run();
    rc := -1;
    if !error {
      CopyString(m.tmp, appCmd);
      rc := 0;
    }
  }

  method CopyString(src: array<char>, dst: array<char>)
    requires src != dst && src.Length == dst.Length && |CStr(src[..])| < src.Length
    modifies dst
    ensures CStr(dst[..]) == CStr(src[..])
  {
    var num := StrLen(src);
    StrNCpy(dst, 0, src, num + 1);
    CStrAt(dst[..], num);
    assert dst[..num] == src[..num];
  }

  // ---- Special commands ----------------------------------------------------------------------

  lemma {:induction false} EscapedNeverOpen(ctx: Context, s: string, out: string, buf: seq<char>)
    requires |buf| == MAXSTR && |Template.Escape(s)| + 2 <= MAXSTR
    ensures !Scan(ctx, Template.Escape(s), out, buf).ending.Open?
    decreases |s|
  {
    if s != [] {
      var e, tail := Template.Escape(s), Template.Escape(s[1..]);
      if Special(s[0]) { assert e[2..] == tail; } else { assert e[1..] == tail; }
      EscapedNeverOpen(ctx, s[1..], out + [s[0]], buf);
    }
  }

  // Escaped text that fits always succeeds and gives the text back.
  lemma EscapedSucceeds(ctx: Context, s: string)
    requires |Template.Escape(s)| + 2 <= MAXSTR
    ensures Succeeds(Scan(ctx, Template.Escape(s), [], Zeros()))
      && Text(Scan(ctx, Template.Escape(s), [], Zeros())) == s
  {
    EscapeRoundTrip(ctx, s);
    EscapeGrows(s);
    FittingScan(ctx, Template.Escape(s));
    EscapedNeverOpen(ctx, s, [], Zeros());
  }

  lemma {:induction false} EscapeGrows(s: string)
    ensures |s| <= |Template.Escape(s)|
  {
    if s == [] {
    } else {
      EscapeGrows(s[1..]);
    }
  }

  ghost predicate PlainName(name: string) {
    forall i :: 0 <= i < |name| ==> !Special(name[i])
  }

  lemma {:induction false} WordScanned(ctx: Context, name: string, rest: string, out: string, word: string,
      buf: seq<char>)
    requires PlainName(name) && |buf| == MAXSTR && |word| + |name| + |rest| + 2 <= MAXSTR
    ensures ScanWord(ctx, name + rest, out, word, buf) == ScanWord(ctx, rest, out, word + name, buf)
    decreases |name|
  {
    if name == [] {
      assert name + rest == rest && word + name == word;
    } else {
      assert (name + rest)[1..] == name[1..] + rest && (name + rest)[0] == name[0] && !Special(name[0]);
      WordScanned(ctx, name[1..], rest, out, word + [name[0]], buf);
      assert word + [name[0]] + name[1..] == word + name;
    }
  }

  function LongName(): (r: string)
    ensures |r| == 100 && PlainName(r) && '\0' !in r
  {
    seq(100, _ => 'a')
  }

  // An unknown word of a hundred letters, and behind it a short word left open.
  lemma OpenWordRefused(ctx: Context)
    ensures var cmd := ['$'] + (LongName() + "$$b");
      |Expand(ctx, cmd)| == 104 && !Succeeds(Scan(ctx, cmd, [], Zeros()))
  {
    var name, rest := LongName(), "$$b";
    var cmd, w := ['$'] + (name + rest), ['$'] + name;
    assert cmd[1..] == name + rest;
    WordScanned(ctx, name, rest, [], ['$'], Zeros());
    assert Convert(ctx, w + ['$']) == w + ['$'];
    assert rest[1..] == "$b" && "$b"[1..] == "b" && "b"[1..] == [];
    assert [] + (w + ['$']) == w + ['$'];
    var buf := Overlay(Zeros(), w + ['$', '\0']);
    assert ['$'] + ['b'] == "$b";
    assert Scan(ctx, cmd, [], Zeros()) == Scanned(w + ['$'], Open("$b", buf));
    CStrAt(Overlay(buf, "$b"), 102);
    ScanExpands(ctx, cmd, [], Zeros());
    assert [] + Expand(ctx, cmd) == Expand(ctx, cmd);
  }
}
