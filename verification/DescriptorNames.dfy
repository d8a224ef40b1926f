// The names of the descriptor types.
module DescriptorNames {
  import opened CStrings
  import opened EntityTokens
  import opened EntityRoundTrip

  function DescriptorName(i: nat): string
  {
    if i == 0 then "entity"
    else if i == 1 then "configuration"
    else if i == 2 then "audio_unit"
    else if i == 3 then "video_unit"
    else if i == 4 then "sensor_unit"
    else if i == 5 then "stream_input"
    else if i == 6 then "stream_output"
    else if i == 7 then "jack_input"
    else if i == 8 then "jack_output"
    else if i == 9 then "avb_interface"
    else if i == 10 then "clock_source"
    else if i == 11 then "memory_object"
    else if i == 12 then "locale"
    else if i == 13 then "strings"
    else if i == 14 then "stream_port_input"
    else if i == 15 then "stream_port_output"
    else if i == 16 then "external_port_input"
    else if i == 17 then "external_port_output"
    else if i == 18 then "internal_port_input"
    else if i == 19 then "internal_port_output"
    else if i == 20 then "audio_cluster"
    else if i == 21 then "video_cluster"
    else if i == 22 then "sensor_cluster"
    else if i == 23 then "audio_map"
    else if i == 24 then "video_map"
    else if i == 25 then "sensor_map"
    else if i == 26 then "control"
    else if i == 27 then "signal_selector"
    else if i == 28 then "mixer"
    else if i == 29 then "matrix"
    else if i == 30 then "matrix_signal"
    else if i == 31 then "signal_splitter"
    else if i == 32 then "signal_combiner"
    else if i == 33 then "signal_demultiplexer"
    else if i == 34 then "signal_multiplexer"
    else if i == 35 then "signal_transcoder"
    else if i == 36 then "clock_domain"
    else "control_block"
  }

  // No two names agree in length, first letter and fourth letter from the end. This function reads the type off these
  // three, so that the names need not be compared in pairs: names with the same letters have the same type.
  function TypeOfLetters(len: nat, c: char, d: char): nat {
    if len == 5 then (28)
    else if len == 6 then (if c == 't' && d == 'e' then 0 else if c == 'c' && d == 'l' then 12 else 29)
    else if len == 7 then (if c == 'i' && d == 's' then 13 else 26)
    else if len == 9 then (if c == '_' && d == 'a' then 23 else 24)
    else if len == 10 then (
      if c == 'u' && d == 'a' then 2
      else if c == 'u' && d == 'v' then 3
      else if c == 'n' && d == 'j' then 7
      else 25)
    else if len == 11 then (if c == 'u' && d == 's' then 4 else 8)
    else if len == 12 then (if c == 'n' && d == 's' then 5 else if c == 'u' && d == 'c' then 10 else 36)
    else if len == 13 then (
      if c == 't' && d == 'c' then 1
      else if c == 't' && d == 's' then 6
      else if c == 'f' && d == 'a' then 9
      else if c == 'j' && d == 'm' then 11
      else if c == 's' && d == 'a' then 20
      else if c == 's' && d == 'v' then 21
      else if c == 'g' && d == 'm' then 30
      else 37)
    else if len == 14 then (22)
    else if len == 15 then (if c == 'c' && d == 's' then 27 else if c == 't' && d == 's' then 31 else 32)
    else if len == 17 then (if c == 'n' && d == 's' then 14 else 35)
    else if len == 18 then (if c == 't' && d == 's' then 15 else 34)
    else if len == 19 then (if c == 'n' && d == 'e' then 16 else 18)
    else if len == 20 then (if c == 't' && d == 'e' then 17 else if c == 't' && d == 'i' then 19 else 33)
    else 0
  }

  predicate Upper(c: char) { 'A' <= c <= 'Z' }

  predicate Tells(s: string, i: nat) {
    |s| >= 4 && !Upper(s[0]) && !Upper(s[|s| - 4]) && TypeOfLetters(|s|, s[|s| - 4], s[0]) == i
  }

  lemma FirstNamesTell(i: nat)
    requires i < 13
    ensures Tells(DescriptorName(i), i)
  {}

  lemma MiddleNamesTell(i: nat)
    requires 13 <= i < 26
    ensures Tells(DescriptorName(i), i)
  {}

  lemma LastNamesTell(i: nat)
    requires 26 <= i < NUM_DESCRIPTOR_TYPES
    ensures Tells(DescriptorName(i), i)
  {}

  lemma NamesTell(i: nat)
    requires i < NUM_DESCRIPTOR_TYPES
    ensures Tells(DescriptorName(i), i)
  {
    if i < 13 { FirstNamesTell(i); } else if i < 26 { MiddleNamesTell(i); } else { LastNamesTell(i); }
  }

  // However its letters are written, a name is found under its own type.
  lemma NameFindsType<D>(fmt: Format<D>, name: string, i: nat)
    requires fmt.typeName == DescriptorName && i < NUM_DESCRIPTOR_TYPES && SameName(name, DescriptorName(i))
    ensures FindType(fmt, name, 0) == i
  {
    FoundFrom(fmt, name, i, 0);
  }

  lemma {:induction false} FoundFrom<D>(fmt: Format<D>, name: string, i: nat, k: nat)
    requires fmt.typeName == DescriptorName && k <= i < NUM_DESCRIPTOR_TYPES && SameName(name, DescriptorName(i))
    ensures FindType(fmt, name, k) == i
    decreases i - k
  {
    if k >= i {
    } else {
      Differ(i, k);
      FoundFrom(fmt, name, i, k + 1);
    }
  }

  lemma Differ(i: nat, k: nat)
    requires k < i < NUM_DESCRIPTOR_TYPES
    ensures !SameName(DescriptorName(i), DescriptorName(k))
  {
    NamesTell(i);
    NamesTell(k);
    if SameName(DescriptorName(i), DescriptorName(k)) { SameLetters(DescriptorName(i), DescriptorName(k), i, k); }
  }

  lemma SameLetters(a: string, b: string, i: nat, k: nat)
    requires Tells(a, i) && Tells(b, k) && SameName(a, b)
    ensures i == k
  {
    assert |a| == |Lower(a)| == |b|;
    assert Lower(a)[0] == Lower(b)[0] && Lower(a)[|a| - 4] == Lower(b)[|a| - 4];
  }

  // A pair behind the descriptors is read as one of a stream input.
  lemma TrailingPairReadAsStream(p: Pair)
    ensures var c := ConfigurationTree([], [Group("stream_input", [])], [p]);
      ConfigurationOf(Log(DescriptorName), c) == Whole(ConfigurationData(Entries(5, [p]), [])) && Entries(5, [p]) != []
  {
    hide FindType, ConfigurationOf, Entries, CStr, CONFIGURATION;
    var name := DescriptorName(5);
    assert CStr(name) == name by { CStrWhole(name); }
    NameFindsType(Log(DescriptorName), name, 5);
    PairBehindGroup(DescriptorName, Group(name, []), p);
  }
}
