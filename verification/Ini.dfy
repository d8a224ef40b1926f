// What an INI file means: the calls its lines make, and the first line that fails.
module Ini {
  import opened CStrings

  const INI_MAX_LINE := 200
  const MAX_SECTION := 50
  const MAX_NAME := 50

  // ---- Characters and strings ----------------------------------------------------------------

  predicate IsSpace(c: char) { c == ' ' || '\t' <= c <= '\r' }

  function RTrim(s: string): (r: string)
    ensures |r| <= |s|
  {
    if s != [] && IsSpace(s[|s| - 1]) then RTrim(s[..|s| - 1]) else s
  }

  function LTrim(s: string): (r: string)
    ensures |r| <= |s|
  {
    if s != [] && IsSpace(s[0]) then LTrim(s[1..]) else s
  }

  // The first of these characters, or the first semicolon behind whitespace; the length if there is neither.
  function Find(s: string, chars: string, wasSpace: bool): (i: nat)
    ensures i <= |s|
  {
    if s == [] || s[0] in chars || (wasSpace && s[0] == ';') then 0 else 1 + Find(s[1..], chars, IsSpace(s[0]))
  }

  // What a buffer of `size` characters keeps of a string.
  function Kept(s: string, size: nat): string
    requires size > 0
  {
    if |s| < size then s else s[..size - 1]
  }

  // ---- Lines ---------------------------------------------------------------------------------

  // A UTF-8 byte-order mark.
  predicate StartsWithBom(line: string) {
    |line| >= 3 && line[0] == '\U{EF}' && line[1] == '\U{BB}' && line[2] == '\U{BF}'
  }

  datatype Line = Nothing | Section(name: string) | Pair(name: string, value: string) | More(value: string) | Bad

  // The text of a line without a byte-order mark and without the whitespace around it.
  function Body(line: string, first: bool): string {
    LTrim(RTrim(if first && StartsWithBom(line) then line[3..] else line))
  }

  // The text does not begin at the start of the line.
  predicate Indented(line: string, first: bool) {
    || (first && StartsWithBom(line))
    || |LTrim(RTrim(line))| < |RTrim(line)|
  }

  // A value, without an inline comment.
  function ValueOf(s: string): string {
    var value := LTrim(s);
    RTrim(value[..Find(value, "", false)])
  }

  function ParsePair(body: string): Line {
    var i := Find(body, "=:", false);
    if i < |body| && body[i] in "=:" then Pair(RTrim(body[..i]), ValueOf(body[i + 1..])) else Bad
  }

  function ParseSection(rest: string): Line {
    var i := Find(rest, "]", false);
    if i < |rest| && rest[i] == ']' then Section(rest[..i]) else Bad
  }

  function ClassifyBody(body: string, indented: bool, prevName: string): Line {
    if body == [] || body[0] == ';' || body[0] == '#' then Nothing
    else if prevName != [] && indented then More(body)
    else if body[0] == '[' then ParseSection(body[1..])
    else ParsePair(body)
  }

  function Classify(line: string, first: bool, prevName: string): Line {
    ClassifyBody(Body(line, first), Indented(line, first), prevName)
  }

  // ---- The file ------------------------------------------------------------------------------

  datatype Call = Call(section: string, name: string, value: string)

  datatype Parser = Parser(section: string, prevName: string, lineno: nat, error: nat, calls: seq<Call>)

  const START := Parser([], [], 0, 0, [])

  // What a line is, and the call it makes.
  function LineOf(p: Parser, line: string): Line { Classify(CStr(line), p.lineno == 0, p.prevName) }

  function CallOf(p: Parser, l: Line): Call
    requires l.Pair? || l.More?
  {
    if l.Pair? then Call(p.section, l.name, l.value) else Call(p.section, p.prevName, l.value)
  }

  // The handler's answer to its n-th call is replies(n).
  predicate Fails(p: Parser, line: string, replies: nat -> bool) {
    var l := LineOf(p, line);
    l.Bad? || ((l.Pair? || l.More?) && !replies(|p.calls|))
  }

  function Step(p: Parser, line: string, replies: nat -> bool): Parser {
    var l := LineOf(p, line);
    var q := p.(lineno := p.lineno + 1,
      error := if p.error == 0 && Fails(p, line, replies) then p.lineno + 1 else p.error);
    match l
    case Section(name) => q.(section := Kept(name, MAX_SECTION), prevName := [])
    case Pair(name, value) => q.(prevName := Kept(name, MAX_NAME), calls := p.calls + [CallOf(p, l)])
    case More(value) => q.(calls := p.calls + [CallOf(p, l)])
    case _ => q
  }

  function Parse(p: Parser, lines: seq<string>, replies: nat -> bool): Parser
    decreases lines
  {
    if lines == [] then p else Parse(Step(p, lines[0], replies), lines[1..], replies)
  }

  lemma {:induction false} ParseAppend(p: Parser, a: seq<string>, b: seq<string>, replies: nat -> bool)
    ensures Parse(p, a + b, replies) == Parse(Parse(p, a, replies), b, replies)
    decreases a
  {
    if a == [] {
      assert a + b == b;
    } else {
      assert (a + b)[1..] == a[1..] + b;
      ParseAppend(Step(p, a[0], replies), a[1..], b, replies);
    }
  }

  // How many lines come before the first one that cannot be parsed or whose call fails.
  function Good(p: Parser, lines: seq<string>, replies: nat -> bool): (n: nat)
    ensures n <= |lines|
    decreases lines
  {
    if lines == [] || Fails(p, lines[0], replies) then 0 else 1 + Good(Step(p, lines[0], replies), lines[1..], replies)
  }

  // The result is the number of that line, zero if there is none; parsing goes on to the end all the same.
  lemma {:induction false} FirstFailure(p: Parser, lines: seq<string>, replies: nat -> bool)
    requires p.error == 0
    ensures Parse(p, lines, replies).error
      == if Good(p, lines, replies) < |lines| then p.lineno + Good(p, lines, replies) + 1 else 0
    decreases lines
  {
    if lines != [] {
      var q := Step(p, lines[0], replies);
      if Fails(p, lines[0], replies) {
        ErrorStays(q, lines[1..], replies);
      } else {
        FirstFailure(q, lines[1..], replies);
      }
    }
  }

  lemma {:induction false} ErrorStays(p: Parser, lines: seq<string>, replies: nat -> bool)
    requires p.error > 0
    ensures Parse(p, lines, replies).error == p.error
    decreases lines
  {
    if lines == [] {
    } else {
      ErrorStays(Step(p, lines[0], replies), lines[1..], replies);
    }
  }

  // A value continued on an indented line is reported under the same name only if that has fewer than 50 characters.
  lemma ContinuationName(p: Parser, line: string, next: string, replies: nat -> bool)
    requires LineOf(p, line).Pair?
    requires LineOf(Step(p, line, replies), next).More?
    ensures var q := Step(p, line, replies);
      (CallOf(q, LineOf(q, next)).name == CallOf(p, LineOf(p, line)).name <==> |LineOf(p, line).name| < MAX_NAME)
  {}
}
