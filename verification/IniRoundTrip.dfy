// Writing an INI file line by line, and what parsing it calls.
module IniRoundTrip {
  import opened CStrings
  import opened Ini

  // ---- Writing -------------------------------------------------------------------------------

  // What a line may be. Blank space may stand before and behind everything, and text behind the end of a header. A
  // note is blank space behind a value, or a comment set off by it.
  datatype Item =
    | Blank(space: string)
    | Comment(indent: string, text: string)
    | Header(indent: string, name: string, tail: string)
    | Entry(indent: string, name: string, before: string, sep: char, after: string, value: string, note: string)
    | Continued(indent: string, text: string, tail: string)
    | Junk(indent: string, text: string, tail: string)

  function LineFor(item: Item): string {
    match item
    case Blank(space) => space + "\n"
    case Comment(indent, text) => indent + text + "\n"
    case Header(indent, name, tail) => indent + ("[" + name + "]") + tail + "\n"
    case Entry(indent, name, before, sep, after, value, note) =>
      indent + (name + before + [sep]) + (after + value + note) + "\n"
    case Continued(indent, text, tail) => indent + text + tail + "\n"
    case Junk(indent, text, tail) => indent + text + tail + "\n"
  }

  function Lines(items: seq<Item>): seq<string> {
    if items == [] then [] else [LineFor(items[0])] + Lines(items[1..])
  }

  // ---- Meaning -------------------------------------------------------------------------------

  // The section, and the name whose value an indented line continues; empty if there is none.
  datatype Place = Place(section: string, name: string)

  function After(at: Place, item: Item): Place {
    match item
    case Header(_, name, _) => Place(Kept(name, MAX_SECTION), [])
    case Entry(_, name, _, _, _, _, _) => at.(name := Kept(name, MAX_NAME))
    case _ => at
  }

  // The handler is called for every entry and for every line that continues a value.
  function CallsOf(at: Place, item: Item): seq<Call> {
    match item
    case Entry(_, name, _, _, _, value, _) => [Call(at.section, name, value)]
    case Continued(_, text, _) => [Call(at.section, at.name, text)]
    case _ => []
  }

  function Calls(at: Place, items: seq<Item>): seq<Call>
    decreases items
  {
    if items == [] then [] else CallsOf(at, items[0]) + Calls(After(at, items[0]), items[1..])
  }

  // A line fails if it is none of the known kinds or if its call is refused.
  predicate Refused(item: Item, calls: nat, replies: nat -> bool) {
    item.Junk? || ((item.Entry? || item.Continued?) && !replies(calls))
  }

  // How many lines come before the first that fails.
  function Accepted(at: Place, items: seq<Item>, calls: nat, replies: nat -> bool): (n: nat)
    ensures n <= |items|
    decreases items
  {
    if items == [] || Refused(items[0], calls, replies) then 0
    else 1 + Accepted(After(at, items[0]), items[1..], calls + |CallsOf(at, items[0])|, replies)
  }

  // ---- What may be written -------------------------------------------------------------------

  predicate Spaces(s: string) { forall i :: 0 <= i < |s| ==> IsSpace(s[i]) }

  // No whitespace is followed by a semicolon, which would begin a comment.
  predicate Quiet(s: string) {
    forall i :: 0 <= i < |s| - 1 && IsSpace(s[i]) ==> s[i + 1] != ';'
  }

  predicate Trimmed(s: string) { s != [] ==> !IsSpace(s[0]) && !IsSpace(s[|s| - 1]) }

  predicate OneLine(s: string) { '\0' !in s && '\n' !in s }

  predicate IsNote(value: string, note: string) {
    || Spaces(note)
    || (value != [] && exists i :: 0 < i < |note| && Spaces(note[..i]) && note[i] == ';')
  }

  predicate WritableEntry(name: string, before: string, sep: char, after: string, value: string, note: string) {
    && Trimmed(name) && Quiet(name) && '=' !in name && ':' !in name && (name == [] ==> before == [])
    && (name != [] ==> name[0] !in "[;#")
    && Spaces(before) && sep in "=:" && Spaces(after) && Trimmed(value) && Quiet(value) && IsNote(value, note)
  }

  // Behind a name only its continuation may be indented.
  predicate Writable(at: Place, item: Item) {
    && OneLine(LineFor(item)[..|LineFor(item)| - 1]) && |LineFor(item)| < INI_MAX_LINE
    && match item
       case Blank(space) => Spaces(space)
       case Comment(indent, text) => Spaces(indent) && text != [] && text[0] in ";#"
       case Header(indent, name, _) =>
         Spaces(indent) && (at.name != [] ==> indent == []) && ']' !in name && Quiet(name)
       case Entry(indent, name, before, sep, after, value, note) =>
         && Spaces(indent) && (at.name != [] ==> indent == [])
         && WritableEntry(name, before, sep, after, value, note)
       case Continued(indent, text, tail) =>
         && Spaces(indent) && indent != [] && at.name != [] && Spaces(tail)
         && Trimmed(text) && text != [] && text[0] !in ";#"
       case Junk(indent, text, tail) =>
         && Spaces(indent) && (at.name != [] ==> indent == []) && Spaces(tail)
         && Trimmed(text) && text != [] && text[0] !in ";#"
         && (if text[0] == '[' then ']' !in text else '=' !in text && ':' !in text)
  }

  predicate AllWritable(at: Place, items: seq<Item>)
    decreases items
  {
    items != [] ==> Writable(at, items[0]) && AllWritable(After(at, items[0]), items[1..])
  }

  // ---- Trimming and finding ------------------------------------------------------------------

  lemma {:induction false} SpacesTrimmed(s: string)
    requires Spaces(s)
    ensures RTrim(s) == []
  {
    if s == [] {
    } else {
      SpacesTrimmed(s[..|s| - 1]);
    }
  }

  // Behind a character that is not blank, trimming goes no further.
  lemma {:induction false} TrimmedBehind(a: string, b: string)
    requires a != [] && !IsSpace(a[|a| - 1])
    ensures RTrim(a + b) == a + RTrim(b)
    decreases |b|
  {
    if b == [] {
      assert a + b == a;
    } else if IsSpace(b[|b| - 1]) {
      assert (a + b)[..|a + b| - 1] == a + b[..|b| - 1];
      TrimmedBehind(a, b[..|b| - 1]);
    }
  }

  lemma {:induction false} SkippedBefore(a: string, b: string)
    requires Spaces(a) && (b != [] ==> !IsSpace(b[0]))
    ensures LTrim(a + b) == b
  {
    if a == [] {
      assert a + b == b;
    } else {
      assert (a + b)[1..] == a[1..] + b;
      SkippedBefore(a[1..], b);
    }
  }

  // Nothing in s stops the search, so it goes on to what follows.
  lemma {:induction false} FindPast(s: string, chars: string, wasSpace: bool, rest: string)
    requires forall i :: 0 <= i < |s| ==> s[i] !in chars
    requires Quiet(s) && !(wasSpace && s != [] && s[0] == ';')
    requires rest == [] || rest[0] in chars || (rest[0] == ';' && (if s == [] then wasSpace else IsSpace(s[|s| - 1])))
    ensures Find(s + rest, chars, wasSpace) == |s|
    decreases s
  {
    if s == [] {
      assert s + rest == rest;
    } else {
      assert (s + rest)[1..] == s[1..] + rest && (s + rest)[0] == s[0];
      FindPast(s[1..], chars, IsSpace(s[0]), rest);
    }
  }

  // ---- One line ------------------------------------------------------------------------------

  // What stands between the blank space of a line.
  lemma LineBody(indent: string, core: string, tail: string)
    requires Spaces(indent) && core != [] && !IsSpace(core[0]) && !IsSpace(core[|core| - 1])
    ensures Body(indent + core + tail + "\n", false) == core + RTrim(tail + "\n")
    ensures Indented(indent + core + tail + "\n", false) <==> indent != []
  {
    hide RTrim, LTrim;
    var line, rest := indent + core + tail + "\n", RTrim(tail + "\n");
    var front := indent + core;
    assert line == front + (tail + "\n") && front[|front| - 1] == core[|core| - 1];
    TrimmedBehind(front, tail + "\n");
    assert front + rest == indent + (core + rest);
    SkippedBefore(indent, core + rest);
  }

  lemma SpacesLine(tail: string)
    requires Spaces(tail)
    ensures RTrim(tail + "\n") == []
  {
    SpacesTrimmed(tail + "\n");
  }

  lemma BlankIsSkipped(space: string, prevName: string)
    requires Spaces(space)
    ensures Classify(LineFor(Blank(space)), false, prevName) == Nothing
  {
    SpacesLine(space);
  }

  lemma CommentIsSkipped(indent: string, text: string, prevName: string)
    requires Spaces(indent) && text != [] && text[0] in ";#"
    ensures Classify(LineFor(Comment(indent, text)), false, prevName) == Nothing
  {
    assert indent + text + "\n" == indent + [text[0]] + text[1..] + "\n";
    LineBody(indent, [text[0]], text[1..]);
  }

  // A header ends with the first closing bracket; what follows does not matter.
  lemma HeaderIsRead(indent: string, name: string, tail: string, prevName: string)
    requires Spaces(indent) && (prevName != [] ==> indent == []) && ']' !in name && Quiet(name)
    ensures Classify(LineFor(Header(indent, name, tail)), false, prevName) == Section(name)
  {
    var core, rest := "[" + name + "]", RTrim(tail + "\n");
    LineBody(indent, core, tail);
    assert (core + rest)[1..] == name + ("]" + rest);
    FindPast(name, "]", false, "]" + rest);
    assert (name + ("]" + rest))[..|name|] == name;
  }

  // A value behind blank space, and in front of more of it or of a comment.
  lemma ValueIsRead(after: string, value: string, note: string)
    requires Spaces(after) && Trimmed(value) && Quiet(value) && IsNote(value, note)
    ensures ValueOf(RTrim(after + value + note + "\n")) == value
  {
    var line := after + value + note + "\n";
    if value == [] {
      SpacesTrimmed(line);
    } else {
      var rest := RTrim(note + "\n");
      assert line == (after + value) + (note + "\n");
      TrimmedBehind(after + value, note + "\n");
      assert after + value + rest == after + (value + rest);
      SkippedBefore(after, value + rest);
      if Spaces(note) {
        SpacesLine(note);
        ValueAlone(value);
      } else {
        ValueWithComment(value, note);
      }
    }
  }

  lemma ValueAlone(value: string)
    requires Trimmed(value) && Quiet(value) && value != []
    ensures value + [] == value && RTrim(value[..Find(value, "", false)]) == value
  {
    FindPast(value, "", false, []);
    assert value + [] == value && value[..|value|] == value;
  }

  lemma SplitAt<T>(s: seq<T>, i: nat, t: seq<T>, r: seq<T>)
    requires i < |s|
    ensures s + t == s[..i + 1] + (s[i + 1..] + t)
    ensures s[..i + 1] + r == s[..i] + ([s[i]] + r)
  {}

  lemma NoteTrimmed(note: string, i: nat, rest: string)
    requires i < |note| && note[i] == ';' && rest == RTrim(note[i + 1..] + "\n")
    ensures RTrim(note + "\n") == note[..i] + (";" + rest)
  {
    var tail := note[i + 1..] + "\n";
    SplitAt(note, i, "\n", rest);
    TrimmedBehind(note[..i + 1], tail);
    hide RTrim;
  }

  // The search stops at a semicolon behind blank space, which is then trimmed.
  lemma CommentCut(value: string, gap: string, rest: string)
    requires Trimmed(value) && Quiet(value) && value != [] && Spaces(gap) && gap != []
    ensures var v := value + (gap + (";" + rest)); RTrim(v[..Find(v, "", false)]) == value
  {
    var s, v := value + gap, value + (gap + (";" + rest));
    assert v == s + (";" + rest) && v[..|s|] == s;
    assert Quiet(s) && IsSpace(s[|s| - 1]);
    FindPast(s, "", false, ";" + rest);
    TrimmedBehind(value, gap);
    SpacesTrimmed(gap);
    assert value + [] == value;
  }

  lemma ValueWithComment(value: string, note: string)
    requires Trimmed(value) && Quiet(value) && value != [] && IsNote(value, note) && !Spaces(note)
    ensures var v := value + RTrim(note + "\n"); RTrim(v[..Find(v, "", false)]) == value
  {
    var i :| 0 < i < |note| && Spaces(note[..i]) && note[i] == ';';
    var rest := RTrim(note[i + 1..] + "\n");
    NoteTrimmed(note, i, rest);
    CommentCut(value, note[..i], rest);
  }

  lemma PairIsParsed(name: string, before: string, sep: char, rest: string)
    requires Trimmed(name) && Quiet(name) && '=' !in name && ':' !in name && (name == [] ==> before == [])
    requires Spaces(before) && sep in "=:"
    ensures ParsePair(name + before + [sep] + rest) == Pair(name, ValueOf(rest))
  {
    var body, key := name + before + [sep] + rest, name + before;
    assert Find(body, "=:", false) == |key| by {
      assert body == key + ([sep] + rest);
      assert Quiet(key);
      FindPast(key, "=:", false, [sep] + rest);
    }
    KeyTrimmed(name, before);
    hide Find, RTrim, ValueOf, Quiet, Spaces;
    assert body[..|key|] == key && body[|key|] == sep && body[|key| + 1..] == rest;
  }

  lemma KeyTrimmed(name: string, before: string)
    requires Trimmed(name) && Spaces(before) && (name == [] ==> before == [])
    ensures RTrim(name + before) == name
  {
    SpacesTrimmed(before);
    if name == [] {
      assert name + before == [];
    } else {
      TrimmedBehind(name, before);
      assert name + [] == name;
    }
  }

  lemma EntryIsRead(indent: string, name: string, before: string, sep: char, after: string, value: string, note: string,
      prevName: string)
    requires Spaces(indent) && (prevName != [] ==> indent == [])
    requires WritableEntry(name, before, sep, after, value, note)
    ensures var line := LineFor(Entry(indent, name, before, sep, after, value, note));
      Classify(line, false, prevName) == Pair(name, value)
  {
    hide Quiet, IsNote, Spaces, Trimmed, Body, Indented, ParsePair, ValueOf, RTrim;
    var core, tail := name + before + [sep], after + value + note;
    var rest := RTrim(tail + "\n");
    EntryCore(name, before, sep, after, value, note);
    LineBody(indent, core, tail);
    PairIsParsed(name, before, sep, rest);
    ValueIsRead(after, value, note);
    assert (core + rest)[0] == core[0];
  }

  lemma EntryCore(name: string, before: string, sep: char, after: string, value: string, note: string)
    requires WritableEntry(name, before, sep, after, value, note)
    ensures var core := name + before + [sep];
      !IsSpace(core[0]) && !IsSpace(core[|core| - 1]) && core[0] !in "[;#"
  {}

  lemma ContinuationIsRead(indent: string, text: string, tail: string, prevName: string)
    requires Spaces(indent) && indent != [] && prevName != [] && Spaces(tail)
    requires Trimmed(text) && text != [] && text[0] !in ";#"
    ensures Classify(LineFor(Continued(indent, text, tail)), false, prevName) == More(text)
  {
    LineBody(indent, text, tail);
    SpacesLine(tail);
    assert text + [] == text;
  }

  // A line without a separator, or a header that is not closed.
  lemma JunkIsBad(indent: string, text: string, tail: string, prevName: string)
    requires Spaces(indent) && (prevName != [] ==> indent == []) && Spaces(tail)
    requires Trimmed(text) && text != [] && text[0] !in ";#"
    requires if text[0] == '[' then ']' !in text else '=' !in text && ':' !in text
    ensures Classify(LineFor(Junk(indent, text, tail)), false, prevName) == Bad
  {
    LineBody(indent, text, tail);
    SpacesLine(tail);
    assert text + [] == text;
  }

  // ---- One step ------------------------------------------------------------------------------

  // The line must not begin like a byte-order mark when it is the first.
  predicate NotMarked(p: Parser, line: string) { p.lineno == 0 ==> !StartsWithBom(line) }

  lemma LineWithoutMark(p: Parser, line: string)
    requires '\0' !in line && NotMarked(p, line)
    ensures LineOf(p, line) == Classify(line, false, p.prevName)
  {
    CStrWhole(line);
  }

  function PlaceOf(p: Parser): Place { Place(p.section, p.prevName) }

  function MeaningOf(item: Item): Line {
    match item
    case Blank(_) => Nothing
    case Comment(_, _) => Nothing
    case Header(_, name, _) => Section(name)
    case Entry(_, name, _, _, _, value, _) => Pair(name, value)
    case Continued(_, text, _) => More(text)
    case Junk(_, _, _) => Bad
  }

  lemma ItemIsRead(p: Parser, item: Item)
    requires Writable(PlaceOf(p), item) && NotMarked(p, LineFor(item))
    ensures LineOf(p, LineFor(item)) == MeaningOf(item)
  {
    var line := LineFor(item);
    assert line == line[..|line| - 1] + "\n";
    LineWithoutMark(p, line);
    hide Classify, LineFor;
    match item
    case Blank(space) => BlankIsSkipped(space, p.prevName);
    case Comment(indent, text) => CommentIsSkipped(indent, text, p.prevName);
    case Header(indent, name, tail) => HeaderIsRead(indent, name, tail, p.prevName);
    case Entry(indent, name, before, sep, after, value, note) =>
      EntryIsRead(indent, name, before, sep, after, value, note, p.prevName);
    case Continued(indent, text, tail) => ContinuationIsRead(indent, text, tail, p.prevName);
    case Junk(indent, text, tail) => JunkIsBad(indent, text, tail, p.prevName);
  }

  lemma StepItem(p: Parser, item: Item, replies: nat -> bool) returns (q: Parser)
    requires Writable(PlaceOf(p), item) && NotMarked(p, LineFor(item))
    ensures q == Step(p, LineFor(item), replies) && q.lineno == p.lineno + 1
    ensures q.calls == p.calls + CallsOf(PlaceOf(p), item) && PlaceOf(q) == After(PlaceOf(p), item)
    ensures q.error == if p.error == 0 && Refused(item, |p.calls|, replies) then p.lineno + 1 else p.error
  {
    ItemIsRead(p, item);
    hide LineOf, LineFor, Writable;
    q := Step(p, LineFor(item), replies);
  }

  lemma SkippedBody(indent: string, c: char, rest: string)
    requires Spaces(indent) && c in ";#"
    ensures var body := LTrim(RTrim(indent + [c] + rest)); body != [] && body[0] == c
  {
    hide RTrim, LTrim;
    TrimmedBehind(indent + [c], rest);
    var r := RTrim(rest);
    assert indent + [c] + r == indent + ([c] + r);
    SkippedBefore(indent, [c] + r);
  }

  // A line that is blank, or whose first character that is not blank is a semicolon or a number sign, changes only
  // the number of lines, whatever came before.
  lemma SkippedLine(p: Parser, line: string, i: nat, replies: nat -> bool)
    requires i <= |line| && Spaces(line[..i]) && (i < |line| ==> line[i] in ";#")
    ensures Step(p, line, replies) == p.(lineno := p.lineno + 1)
  {
    hide RTrim, LTrim, CStr;
    var s := CStr(line);
    SkippedPrefix(line, i);
    assert !StartsWithBom(s) by { if |s| >= 3 && i > 0 { assert s[..i][0] == s[0] && IsSpace(line[..i][0]); } }
    if i < |line| {
      assert s == s[..i] + [s[i]] + s[i + 1..];
      SkippedBody(s[..i], s[i], s[i + 1..]);
    } else {
      assert s[..i] == s;
      SpacesTrimmed(s);
      SkippedBefore([], []);
    }
  }

  // No blank character ends a string.
  lemma {:induction false} SkippedPrefix(line: string, i: nat)
    requires i <= |line| && Spaces(line[..i]) && (i < |line| ==> line[i] in ";#")
    ensures |CStr(line)| >= i && CStr(line)[..i] == line[..i]
    ensures i < |line| ==> |CStr(line)| > i && CStr(line)[i] == line[i]
    ensures i == |line| ==> CStr(line) == line
  {
    if i == 0 {
    } else {
      assert IsSpace(line[..i][0]) && line[1..][..i - 1] == line[..i][1..];
      SkippedPrefix(line[1..], i - 1);
    }
  }

  // A byte-order mark in front of the first line is skipped.
  lemma MarkIsSkipped(p: Parser, line: string, replies: nat -> bool)
    requires p.lineno == 0 && p.prevName == [] && !StartsWithBom(line) && '\0' !in line
    ensures Step(p, "\U{EF}\U{BB}\U{BF}" + line, replies) == Step(p, line, replies)
  {
    hide RTrim, LTrim, ParsePair, ParseSection;
    var marked := "\U{EF}\U{BB}\U{BF}" + line;
    CStrWhole(line);
    CStrWhole(marked);
    assert marked[3..] == line;
  }

  // ---- The file ------------------------------------------------------------------------------

  // Parsing what was written calls the handler with exactly the triples written, in order, and reports the first
  // line that is junk or whose call is refused.
  lemma {:induction false} DocumentIsRead(p: Parser, items: seq<Item>, replies: nat -> bool) returns (q: Parser)
    requires AllWritable(PlaceOf(p), items) && (items != [] ==> NotMarked(p, LineFor(items[0])))
    ensures q == Parse(p, Lines(items), replies) && q.calls == p.calls + Calls(PlaceOf(p), items)
    ensures var n := Accepted(PlaceOf(p), items, |p.calls|, replies);
      q.error == if p.error == 0 && n < |items| then p.lineno + n + 1 else p.error
    decreases items
  {
    hide Writable, LineFor, CallsOf, After, PlaceOf, Step;
    if items == [] {
      q := p;
    } else {
      var p1 := StepItem(p, items[0], replies);
      q := DocumentIsRead(p1, items[1..], replies);
      assert Lines(items)[1..] == Lines(items[1..]);
      assert p.calls + CallsOf(PlaceOf(p), items[0]) + Calls(PlaceOf(p1), items[1..]) == p.calls + Calls(PlaceOf(p),
        items);
    }
  }

  // ---- Reading lines -------------------------------------------------------------------------

  // fgets: up to and including the first newline, but no more than fits into the buffer.
  function ChunkLength(text: string, room: nat): (n: nat)
    ensures n <= |text| && n <= room && (text != [] && room > 0 ==> n > 0)
  {
    if text == [] || room == 0 then 0 else if text[0] == '\n' then 1 else 1 + ChunkLength(text[1..], room - 1)
  }

  function Chunks(text: string): seq<string> {
    if text == [] then []
    else
      var n := ChunkLength(text, INI_MAX_LINE - 1);
      [text[..n]] + Chunks(text[n..])
  }

  function Joined(lines: seq<string>): string {
    if lines == [] then [] else lines[0] + Joined(lines[1..])
  }

  predicate IsLine(s: string) { 0 < |s| < INI_MAX_LINE && s[|s| - 1] == '\n' && '\n' !in s[..|s| - 1] }

  lemma {:induction false} ChunkOfLine(s: string, rest: string, room: nat)
    requires s != [] && |s| <= room && s[|s| - 1] == '\n' && '\n' !in s[..|s| - 1]
    ensures ChunkLength(s + rest, room) == |s|
    decreases s
  {
    if |s| <= 1 {
    } else {
      assert (s + rest)[1..] == s[1..] + rest && s[0] in s[..|s| - 1];
      assert s[1..][..|s| - 2] == s[..|s| - 1][1..];
      ChunkOfLine(s[1..], rest, room - 1);
    }
  }

  lemma {:induction false} ChunksOfLines(lines: seq<string>)
    requires forall k :: 0 <= k < |lines| ==> IsLine(lines[k])
    ensures Chunks(Joined(lines)) == lines
  {
    if lines == [] {
    } else {
      var text, rest := Joined(lines), Joined(lines[1..]);
      ChunkOfLine(lines[0], rest, INI_MAX_LINE - 1);
      assert text[..|lines[0]|] == lines[0] && text[|lines[0]|..] == rest;
      ChunksOfLines(lines[1..]);
    }
  }

  lemma {:induction false} AllAreLines(at: Place, items: seq<Item>)
    requires AllWritable(at, items)
    ensures forall k :: 0 <= k < |Lines(items)| ==> IsLine(Lines(items)[k])
    decreases items
  {
    if items == [] {
    } else {
      AllAreLines(After(at, items[0]), items[1..]);
    }
  }

  // fgets neither adds nor drops a character.
  lemma {:induction false} ChunksJoined(text: string)
    ensures Joined(Chunks(text)) == text
    decreases |text|
  {
    if text == [] {
    } else {
      ChunksJoined(text[ChunkLength(text, INI_MAX_LINE - 1)..]);
    }
  }

  // The round trip through the text of the file: the calls are those of the entries and continued values, whatever
  // comments and blank lines stand between and behind them, and the result is the number of the first line that is
  // junk or whose call is refused, or zero.
  lemma RoundTrip(items: seq<Item>, replies: nat -> bool)
    requires AllWritable(Place([], []), items) && (items != [] ==> !StartsWithBom(LineFor(items[0])))
    ensures var q, n := Parse(START, Chunks(Joined(Lines(items))), replies), Accepted(Place([], []), items, 0, replies);
      q.calls == Calls(Place([], []), items) && q.error == if n < |items| then n + 1 else 0
  {
    assert Chunks(Joined(Lines(items))) == Lines(items) by {
      AllAreLines(Place([], []), items);
      ChunksOfLines(Lines(items));
    }
    var q := DocumentIsRead(START, items, replies);
    assert [] + Calls(Place([], []), items) == Calls(Place([], []), items);
  }

  // Without junk, and if no call is refused, the result is zero.
  lemma {:induction false} AllAccepted(at: Place, items: seq<Item>, calls: nat, replies: nat -> bool)
    requires forall k :: 0 <= k < |items| ==> !items[k].Junk?
    requires forall k: nat :: replies(k)
    ensures Accepted(at, items, calls, replies) == |items|
    decreases items
  {
    if items == [] {
    } else {
      AllAccepted(After(at, items[0]), items[1..], calls + |CallsOf(at, items[0])|, replies);
    }
  }

  // ---- A name that is cut --------------------------------------------------------------------

  function LongName(): (r: string)
    ensures |r| == MAX_NAME && forall i :: 0 <= i < |r| ==> r[i] == 'n'
  {
    seq(MAX_NAME, _ => 'n')
  }

  function LongEntry(): Item { Entry([], LongName(), [], '=', [], "v", []) }

  lemma LongEntryWritable(at: Place)
    ensures Writable(at, LongEntry()) && !StartsWithBom(LineFor(LongEntry()))
    ensures After(at, LongEntry()).name == LongName()[..MAX_NAME - 1]
  {
    var line := LineFor(LongEntry());
    assert line == LongName() + "=v\n" && line[..|line| - 1] == LongName() + "=v";
  }

  // A name of fifty characters, and a line that continues its value.
  lemma LongNameIsCut(p: Parser, replies: nat -> bool)
    ensures var line := LineFor(LongEntry());
      var q := Step(p, line, replies);
      && LineOf(p, line) == Pair(LongName(), "v") && LineOf(q, " w\n") == More("w")
      && CallOf(q, LineOf(q, " w\n")).name == LongName()[..MAX_NAME - 1]
  {
    LongEntryWritable(PlaceOf(p));
    hide LineOf, Writable, Step, LongName, After;
    var next := Continued(" ", "w", []);
    assert LineFor(next) == " w\n";
    ItemIsRead(p, LongEntry());
    var q := StepItem(p, LongEntry(), replies);
    assert Writable(PlaceOf(q), next) by { NextWritable(PlaceOf(q)); }
    ItemIsRead(q, next);
  }

  lemma NextWritable(at: Place)
    requires at.name != []
    ensures Writable(at, Continued(" ", "w", []))
  {
    assert LineFor(Continued(" ", "w", [])) == " w\n";
  }
}
