// The line parser of the INI reader, cutting its line buffer in place.
module IniParser {
  import opened CStrings
  import opened Ini

  // The buffer holds this string at this position.
  ghost predicate StrAt(a: seq<char>, at: nat, s: string) {
    && at + |s| < |a| && a[at + |s|] == '\0'
    && forall k :: 0 <= k < |s| ==> a[at + k] == s[k] != '\0'
  }

  // Outside a stretch the buffer did not change.
  ghost predicate SameOutside(a: seq<char>, b: seq<char>, from: nat, to: nat) {
    |a| == |b| && forall k :: 0 <= k < |a| && !(from <= k < to) ==> a[k] == b[k]
  }

  lemma StrAtTail(a: seq<char>, at: nat, s: string, k: nat)
    requires StrAt(a, at, s) && k <= |s|
    ensures StrAt(a, at + k, s[k..])
  {}

  lemma StrAtKept(a: seq<char>, b: seq<char>, at: nat, s: string, from: nat, to: nat)
    requires StrAt(a, at, s) && SameOutside(a, b, from, to) && (at + |s| < from || to <= at)
    ensures StrAt(b, at, s)
  {}

  method StrLength(a: array<char>, at: nat, ghost s: string) returns (n: nat)
    requires StrAt(a[..], at, s)
    ensures n == |s|
  {
    n := 0;
    while a[at + n] != '\0'
      invariant n <= |s| && (n < |s| ==> a[at + n] == s[n] != '\0')
      decreases |s| - n
    {
      n := n + 1;
    }
  }

  // rstrip: overwrites the whitespace at the end with NULs.
  method RStrip(a: array<char>, at: nat, ghost s: string)
    requires StrAt(a[..], at, s)
    modifies a
    ensures StrAt(a[..], at, RTrim(s)) && SameOutside(old(a[..]), a[..], at, at + |s|)
    ensures forall k :: at <= k < at + |RTrim(s)| ==> a[k] == old(a[k])
  {
    var n := StrLength(a, at, s);
    assert s[..n] == s;
    while n > 0 && IsSpace(a[at + n - 1])
      invariant n <= |s| && RTrim(s) == RTrim(s[..n]) && StrAt(a[..], at, s[..n])
      invariant SameOutside(old(a[..]), a[..], at, at + |s|)
      invariant forall k :: at <= k < at + n ==> a[k] == old(a[k])
    {
      assert s[..n][..n - 1] == s[..n - 1];
      n := n - 1;
      a[at + n] := '\0';
    }
  }

  // lskip: the position of the first character that is not whitespace.
  method LSkip(a: array<char>, at: nat, ghost s: string) returns (p: nat)
    requires StrAt(a[..], at, s)
    ensures p == at + (|s| - |LTrim(s)|) && StrAt(a[..], p, LTrim(s)) && LTrim(s) == s[p - at..]
  {
    p := at;
    assert s[0..] == s;
    while a[p] != '\0' && IsSpace(a[p])
      invariant at <= p <= at + |s| && LTrim(s) == LTrim(s[p - at..])
      decreases at + |s| - p
    {
      assert s[p - at..][1..] == s[p - at + 1..];
      p := p + 1;
    }
    StrAtTail(a[..], at, s, p - at);
  }

  // find_chars_or_comment.
  method FindCharsOrComment(a: array<char>, at: nat, chars: string, ghost s: string) returns (p: nat)
    requires StrAt(a[..], at, s)
    ensures p == at + Find(s, chars, false)
  {
    p := at;
    var wasSpace := false;
    assert s[0..] == s;
    while a[p] != '\0' && a[p] !in chars && !(wasSpace && a[p] == ';')
      invariant at <= p <= at + |s| && Find(s, chars, false) == p - at + Find(s[p - at..], chars, wasSpace)
      decreases at + |s| - p
    {
      assert s[p - at..][1..] == s[p - at + 1..];
      wasSpace := IsSpace(a[p]);
      p := p + 1;
    }
  }

  // Cutting a string in two with a NUL.
  method CutAt(a: array<char>, at: nat, end: nat, ghost s: string)
    requires StrAt(a[..], at, s) && at <= end < at + |s|
    modifies a
    ensures StrAt(a[..], at, s[..end - at]) && StrAt(a[..], end + 1, s[end - at + 1..])
    ensures SameOutside(old(a[..]), a[..], end, end + 1)
  {
    a[end] := '\0';
  }

  // strncpy0 into a whole buffer.
  method StrNCpy0(dst: array<char>, src: array<char>, at: nat, ghost s: string)
    requires dst != src && dst.Length > 0 && StrAt(src[..], at, s)
    modifies dst
    ensures StrAt(dst[..], 0, Kept(s, dst.Length))
  {
    var i := 0;
    while i < dst.Length && src[at + i] != '\0'
      invariant 0 <= i <= dst.Length && i <= |s| && (i < |s| ==> src[at + i] == s[i] != '\0')
      invariant forall k :: 0 <= k < i ==> dst[k] == s[k]
      decreases dst.Length - i
    {
      dst[i] := src[at + i];
      i := i + 1;
    }
    while i < dst.Length
      invariant 0 <= i <= dst.Length && (i < dst.Length ==> |s| <= i)
      invariant forall k :: 0 <= k < i ==> dst[k] == if k < |s| then s[k] else '\0'
    {
      dst[i] := '\0';
      i := i + 1;
    }
    dst[dst.Length - 1] := '\0';
  }

  // The string at a position, as the handler sees it.
  method StringAt(a: array<char>, at: nat, ghost s: string) returns (r: string)
    requires StrAt(a[..], at, s)
    ensures r == s
  {
    var n := StrLength(a, at, s);
    r := a[at..at + n];
  }

  class IniReader {
    const line: array<char>
    const section: array<char>
    const prevName: array<char>
    const replies: nat -> bool      // what the handler answers to its n-th call
    var lineno: nat
    var error: nat
    var calls: seq<Call>
    ghost var p: Parser             // the state this object stands for

    constructor (replies: nat -> bool)
      ensures Valid() && p == START && this.replies == replies && fresh(line) && fresh(section) && fresh(prevName)
    {
      this.replies := replies;
      line := new char[INI_MAX_LINE](_ => '\0');
      section := new char[MAX_SECTION](_ => '\0');
      prevName := new char[MAX_NAME](_ => '\0');
      lineno, error, calls, p := 0, 0, [], START;
    }

    ghost predicate Shape()
      reads this
    {
      && line.Length == INI_MAX_LINE && section.Length == MAX_SECTION && prevName.Length == MAX_NAME
      && line != section && line != prevName && section != prevName
    }

    ghost predicate Valid()
      reads this, section, prevName
    {
      && Shape()
      && StrAt(section[..], 0, p.section) && StrAt(prevName[..], 0, p.prevName)
      && p.error == error && p.calls == calls && p.lineno == lineno
    }

    // One line has been counted but not yet dealt with: the names are still those of the state before it.
    ghost predicate Within()
      reads this, section, prevName
    {
      && Shape()
      && StrAt(section[..], 0, p.section) && StrAt(prevName[..], 0, p.prevName)
      && p.error == error && p.calls == calls && p.lineno + 1 == lineno
    }

    // fgets: the line and a NUL behind it.
    method Fill(raw: string)
      requires Shape() && |raw| < INI_MAX_LINE
      modifies line
      ensures StrAt(line[..], 0, CStr(raw))
    {
      var i := 0;
      while i < |raw|
        invariant 0 <= i <= |raw| && forall k :: 0 <= k < i ==> line[k] == raw[k]
      {
        line[i] := raw[i];
        i := i + 1;
      }
      line[i] := '\0';
      PrefixOfRaw(raw);
    }

    lemma PrefixOfRaw(raw: string)
      ensures var s := CStr(raw); |s| <= |raw| && s == raw[..|s|] && '\0' !in s && (|s| < |raw| ==> raw[|s|] == '\0')
    {}

    method Handle(name: string, value: string, ghost l: Line)
      requires Shape() && StrAt(section[..], 0, p.section) && p.calls == calls && (l.Pair? || l.More?)
      requires Call(p.section, name, value) == CallOf(p, l)
      modifies this`error, this`calls
      ensures calls == old(calls) + [CallOf(p, l)]
      ensures error == if old(error) == 0 && !replies(|p.calls|) then lineno else old(error)
    {
      var sec := StringAt(section, 0, p.section);
      var ok := replies(|calls|);
      calls := calls + [Call(sec, name, value)];
      if !ok && error == 0 { error := lineno; }
    }

    // A "[section]" line: the text behind the bracket is `rest`.
    method TakeSection(start: nat, ghost rest: string)
      requires Within() && StrAt(line[..], start + 1, rest)
      modifies line, section, prevName, this`error
      ensures
        var l := ParseSection(rest);
        && StrAt(section[..], 0, if l.Section? then Kept(l.name, MAX_SECTION) else p.section)
        && StrAt(prevName[..], 0, if l.Section? then [] else p.prevName)
        && error == if l.Bad? && old(error) == 0 then lineno else old(error)
    {
      var end := FindCharsOrComment(line, start + 1, "]", rest);
      if line[end] == ']' {
        CutAt(line, start + 1, end, rest);
        StrNCpy0(section, line, start + 1, rest[..end - start - 1]);
        prevName[0] := '\0';
      } else if error == 0 {
        error := lineno;
      }
    }

    // The value behind the separator, without an inline comment and without whitespace at its end.
    method TakeValue(at: nat, ghost v: string) returns (value: nat)
      requires Shape() && StrAt(line[..], at, v)
      modifies line
      ensures at <= value && SameOutside(old(line[..]), line[..], at, at + |v|)
      ensures StrAt(line[..], value, ValueOf(v))
    {
      value := LSkip(line, at, v);
      ghost var t := LTrim(v);
      var end := FindCharsOrComment(line, value, "", t);
      assert t[..|t|] == t;
      if line[end] != '\0' { CutAt(line, value, end, t); }
      RStrip(line, value, t[..end - value]);
    }

    // Cuts a name=value line into its name, at `start`, and its value.
    method SplitPair(start: nat, ghost body: string) returns (found: bool, value: nat)
      requires Shape() && StrAt(line[..], start, body)
      modifies line
      ensures
        var l := ParsePair(body);
        && (l.Pair? || l.Bad?) && (found <==> l.Pair?)
        && (found ==> StrAt(line[..], start, l.name) && StrAt(line[..], value, l.value))
    {
      var end := FindCharsOrComment(line, start, "=:", body);
      value := end;
      found := line[end] == '=' || line[end] == ':';
      if found { value := CutPair(start, end, body); }
    }

    method CutPair(start: nat, end: nat, ghost body: string) returns (value: nat)
      requires Shape() && StrAt(line[..], start, body) && start <= end < start + |body|
      modifies line
      ensures StrAt(line[..], start, RTrim(body[..end - start]))
        && StrAt(line[..], value, ValueOf(body[end - start + 1..]))
    {
      ghost var name, tail := body[..end - start], body[end - start + 1..];
      CutAt(line, start, end, body);
      RStrip(line, start, name);
      ghost var cut := line[..];
      value := TakeValue(end + 1, tail);
      StrAtKept(cut, line[..], start, RTrim(name), end + 1, end + 1 + |tail|);
    }

    // A name=value line.
    method TakePair(start: nat, ghost body: string)
      requires Within() && StrAt(line[..], start, body)
      modifies line, prevName, this`error, this`calls
      ensures
        var l := ParsePair(body);
        && StrAt(prevName[..], 0, if l.Pair? then Kept(l.name, MAX_NAME) else p.prevName)
        && calls == (if l.Pair? then old(calls) + [CallOf(p, l)] else old(calls))
        && error == if old(error) == 0 && (l.Pair? ==> !replies(|p.calls|)) then lineno else old(error)
    {
      ghost var l := ParsePair(body);
      var found, value := SplitPair(start, body);
      if found {
        var name := StringAt(line, start, l.name);
        var text := StringAt(line, value, l.value);
        StrNCpy0(prevName, line, start, l.name);
        Handle(name, text, l);
      } else if error == 0 {
        error := lineno;
      }
    }

    // What to do with a line whose text begins at `start`.
    method Dispatch(start: nat, ghost body: string, ghost indented: bool)
      requires Within() && StrAt(line[..], start, body) && (indented <==> start > 0)
      modifies line, section, prevName, this`error, this`calls
      ensures
        var l := ClassifyBody(body, indented, p.prevName);
        && StrAt(section[..], 0, if l.Section? then Kept(l.name, MAX_SECTION) else p.section)
        && StrAt(prevName[..], 0, if l.Section? then [] else if l.Pair? then Kept(l.name, MAX_NAME) else p.prevName)
        && calls == (if l.Pair? || l.More? then old(calls) + [CallOf(p, l)] else old(calls))
        && error == if old(error) == 0 && (l.Bad? || ((l.Pair? || l.More?) && !replies(|p.calls|)))
                    then lineno else old(error)
    {
      assert if body == [] then line[start] == '\0' else line[start] == body[0] != '\0';
      assert prevName[0] != '\0' <==> p.prevName != [] by { assert p.prevName != [] ==> prevName[0] == p.prevName[0]; }
      if line[start] == ';' || line[start] == '#' {
      } else if prevName[0] != '\0' && line[start] != '\0' && start > 0 {
        var name := StringAt(prevName, 0, p.prevName);
        var text := StringAt(line, start, body);
        Handle(name, text, More(body));
      } else if line[start] == '[' {
        StrAtTail(line[..], start, body, 1);
        TakeSection(start, body[1..]);
      } else if line[start] != '\0' {
        TakePair(start, body);
      }
    }

    // The first characters of the line buffer.
    lemma Front(s: string)
      requires Shape() && StrAt(line[..], 0, s)
      ensures forall k :: 0 <= k < 3 && k < |s| ==> line[k] == s[k] != '\0'
      ensures |s| < 3 ==> line[|s|] == '\0'
    {}

    // Where the text of a line begins once the whitespace at its end is gone.
    method Strip(ghost s: string) returns (start: nat)
      requires Shape() && StrAt(line[..], 0, s)
      modifies line
      ensures StrAt(line[..], start, Body(s, lineno == 1)) && (start > 0 <==> Indented(s, lineno == 1))
    {
      start := 0;
      ghost var bom := lineno == 1 && StartsWithBom(s);
      Front(s);
      if lineno == 1 && line[0] == '\U{EF}' && line[1] == '\U{BB}' && line[2] == '\U{BF}' {
        start := 3;
      }
      ghost var t := if bom then s[3..] else s;
      StrAtTail(line[..], 0, s, start);
      assert s[0..] == s;
      RStrip(line, start, t);
      start := LSkip(line, start, RTrim(t));
    }

    method ParseLine(raw: string)
      requires Valid() && |raw| < INI_MAX_LINE
      modifies this, line, section, prevName
      ensures Valid() && p == Step(old(p), raw, replies)
    {
      Fill(raw);
      ghost var s := CStr(raw);
      lineno := lineno + 1;
      var start := Strip(s);
      Dispatch(start, Body(s, lineno == 1), Indented(s, lineno == 1));
      p := Step(p, raw, replies);
    }
  }

  method IniParseStream(lines: seq<string>, replies: nat -> bool) returns (error: nat, calls: seq<Call>)
    requires forall k :: 0 <= k < |lines| ==> |lines[k]| < INI_MAX_LINE
    ensures error == Parse(START, lines, replies).error && calls == Parse(START, lines, replies).calls
    ensures error == if Good(START, lines, replies) < |lines| then Good(START, lines, replies) + 1 else 0
  {
    var reader := new IniReader(replies);
    var k := 0;
    assert lines[0..] == lines;
    while k < |lines|
      invariant 0 <= k <= |lines| && reader.Valid() && reader.replies == replies
      invariant fresh(reader) && fresh(reader.line) && fresh(reader.section) && fresh(reader.prevName)
      invariant Parse(START, lines, replies) == Parse(reader.p, lines[k..], replies)
    {
      assert lines[k..][1..] == lines[k + 1..];
      reader.ParseLine(lines[k]);
      k := k + 1;
    }
    FirstFailure(START, lines, replies);
    error, calls := reader.error, reader.calls;
  }
}
