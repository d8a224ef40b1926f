// The description of an AVDECC entity as the reader sees it: YAML block tokens in, a device entity out.
module EntityTokens {
  import opened CStrings

  datatype Option<T> = None | Some(value: T)

  datatype Token =
    | StreamStart
    | StreamEnd
    | BlockSequenceStart
    | BlockMappingStart
    | BlockEnd
    | BlockEntry
    | Key
    | Value
    | Scalar(text: string)
    | OtherToken

  const TEXT_MAX := 1024       // the key and value buffers
  const ENTITY := 0
  const CONFIGURATION := 1
  const NUM_DESCRIPTOR_TYPES := 38

  // ---- Texts ---------------------------------------------------------------------------------

  function LowerChar(c: char): char { if 'A' <= c <= 'Z' then c + 32 as char else c }

  function Lower(s: string): (r: string)
    ensures |r| == |s| && forall i :: 0 <= i < |s| ==> r[i] == LowerChar(s[i])
  {
    seq(|s|, i requires 0 <= i < |s| => LowerChar(s[i]))
  }

  // strcasecmp gives 0.
  predicate SameName(a: string, b: string) { Lower(a) == Lower(b) }

  // Two letters are the same but for their case.
  predicate SameLetter(c: char, d: char) {
    || c == d
    || ('A' <= c <= 'Z' && d as int == c as int + 32) || ('A' <= d <= 'Z' && c as int == d as int + 32)
  }

  lemma SameNameIgnoresCase(a: string, b: string)
    ensures SameName(a, b) <==> |a| == |b| && forall i :: 0 <= i < |a| ==> SameLetter(a[i], b[i])
  {
    if SameName(a, b) {
      forall i | 0 <= i < |a| ensures SameLetter(a[i], b[i]) { assert Lower(a)[i] == Lower(b)[i]; }
    }
  }

  // ---- What is read --------------------------------------------------------------------------

  // The table of descriptor types: their names, how one key and value change a descriptor of a type (None when
  // they are refused), and a fresh descriptor.
  datatype Format<!D> = Format(typeName: nat -> string, assign: (nat, D, string, string) -> Option<D>, blank: nat -> D)

  // The first type from i on whose name is this one.
  function FindType<D>(fmt: Format<D>, name: string, i: nat): (r: nat)
    requires i <= NUM_DESCRIPTOR_TYPES
    ensures i <= r <= NUM_DESCRIPTOR_TYPES
    decreases NUM_DESCRIPTOR_TYPES - i
  {
    if i == NUM_DESCRIPTOR_TYPES || SameName(name, fmt.typeName(i)) then i else FindType(fmt, name, i + 1)
  }

  datatype ConfigurationData<D> = ConfigurationData(data: D, descriptors: seq<D>)
  datatype EntityData<D> = EntityData(entity: D, configurations: seq<ConfigurationData<D>>)

  function AddConfiguration<D>(fmt: Format<D>, dev: EntityData<D>): EntityData<D> {
    dev.(configurations := dev.configurations + [ConfigurationData(fmt.blank(ENTITY), [])])
  }

  function Last<T>(s: seq<T>): T requires s != [] { s[|s| - 1] }

  function SetLast<T>(s: seq<T>, x: T): seq<T> requires s != [] { s[|s| - 1 := x] }

  function AddDescriptor<D>(fmt: Format<D>, dev: EntityData<D>, kind: nat): EntityData<D>
    requires dev.configurations != []
  {
    var c := Last(dev.configurations);
    dev.(configurations := SetLast(dev.configurations, c.(descriptors := c.descriptors + [fmt.blank(kind)])))
  }

  // ---- The machine ---------------------------------------------------------------------------

  datatype ParseState =
    | Idle
    | Start
    | EntityStart
    | EntityFound
    | EntitySequence
    | InEntity
    | ConfigurationFound
    | ConfigurationSequence
    | InConfiguration
    | DescriptorsFound
    | DescriptorsStart
    | DescriptorFound
    | DescriptorSequence
    | InDescriptor

  datatype Reader<D> =
    | Reading(dev: EntityData<D>, state: ParseState, flag: nat, valueNext: bool, key: string)
    | Stopped(dev: EntityData<D>)    // an unknown type name ends the reading early
    | Refused                          // a pair was refused: the whole entity is released

  // The states below a configuration.
  predicate Inside(state: ParseState) {
    match state
    case InConfiguration => true
    case DescriptorsFound => true
    case DescriptorsStart => true
    case DescriptorFound => true
    case DescriptorSequence => true
    case InDescriptor => true
    case _ => false
  }

  // Inside a configuration or a descriptor there is one.
  ghost predicate WellFormed<D>(r: Reader<D>) {
    r.Reading? ==>
      && (Inside(r.state) ==> r.dev.configurations != [])
      && (r.state == InDescriptor ==> Last(r.dev.configurations).descriptors != [])
  }

  function OnSequenceStart<D>(r: Reader<D>): Reader<D>
    requires r.Reading?
  {
    match r.state
    case EntityFound => r.(state := EntitySequence, flag := ENTITY)
    case ConfigurationFound => r.(state := ConfigurationSequence, flag := CONFIGURATION)
    case DescriptorFound => r.(state := DescriptorSequence)
    case _ => r
  }

  function OnMappingStart<D>(fmt: Format<D>, r: Reader<D>): Reader<D>
    requires r.Reading? && WellFormed(r)
  {
    match r.state
    case Start => r.(state := EntityStart)
    case EntitySequence => r.(state := InEntity)
    case ConfigurationSequence => r.(state := InConfiguration, dev := AddConfiguration(fmt, r.dev),
      flag := CONFIGURATION)
    case DescriptorsFound => r.(state := DescriptorsStart)
    case DescriptorSequence => r.(state := InDescriptor, dev := AddDescriptor(fmt, r.dev, r.flag))
    case _ => r
  }

  function OnBlockEnd(state: ParseState): ParseState {
    match state
    case InDescriptor => DescriptorSequence
    case DescriptorSequence => DescriptorsStart
    case DescriptorsStart => InConfiguration
    case InConfiguration => ConfigurationSequence
    case ConfigurationSequence => InEntity
    case InEntity => EntitySequence
    case EntitySequence => EntityStart
    case EntityStart => Start
    case _ => state
  }

  // Where a value goes depends on the state; how it is read, on the type last seen.
  function Put<D>(fmt: Format<D>, dev: EntityData<D>, state: ParseState, flag: nat, key: string,
      value: string): Option<EntityData<D>>
    requires WellFormed(Reading(dev, state, flag, true, key))
  {
    match state
    case InEntity =>
      (match fmt.assign(flag, dev.entity, key, value)
       case None => None
       case Some(d) => Some(dev.(entity := d)))
    case InConfiguration =>
      var c := Last(dev.configurations);
      (match fmt.assign(flag, c.data, key, value)
       case None => None
       case Some(d) => Some(dev.(configurations := SetLast(dev.configurations, c.(data := d)))))
    case InDescriptor =>
      var c := Last(dev.configurations);
      (match fmt.assign(flag, Last(c.descriptors), key, value)
       case None => None
       case Some(d) => Some(dev.(configurations := SetLast(dev.configurations,
         c.(descriptors := SetLast(c.descriptors, d))))))
    case _ => Some(dev)
  }

  function OnKey<D>(fmt: Format<D>, r: Reader<D>, key: string): Reader<D>
    requires r.Reading?
  {
    var r1 := r.(key := key);
    match r.state
    case EntityStart => if SameName(key, "entity") then r1.(state := EntityFound) else r1
    case InEntity => if SameName(key, "configurations") then r1.(state := ConfigurationFound) else r1
    case InConfiguration => if SameName(key, "descriptors") then r1.(state := DescriptorsFound) else r1
    case DescriptorsStart =>
      var i := FindType(fmt, key, 0);
      if i == NUM_DESCRIPTOR_TYPES then Stopped(r.dev) else r1.(state := DescriptorFound, flag := i)
    case _ => r1
  }

  function OnScalar<D>(fmt: Format<D>, r: Reader<D>, text: string): Reader<D>
    requires r.Reading? && WellFormed(r)
  {
    if r.valueNext then
      match Put(fmt, r.dev, r.state, r.flag, r.key, CStr(text))
      case None => Refused
      case Some(dev) => r.(dev := dev)
    else
      OnKey(fmt, r, CStr(text))
  }

  function Step<D>(fmt: Format<D>, r: Reader<D>, token: Token): (r': Reader<D>)
    requires WellFormed(r)
    ensures WellFormed(r')
    ensures !r.Reading? ==> r' == r
  {
    if !r.Reading? then r else
      match token
      case StreamStart => r.(state := Start)
      case BlockSequenceStart => OnSequenceStart(r)
      case BlockMappingStart => OnMappingStart(fmt, r)
      case BlockEnd => r.(state := OnBlockEnd(r.state))
      case Key => r.(valueNext := false)
      case Value => r.(valueNext := true)
      case Scalar(text) => OnScalar(fmt, r, text)
      case _ => r
  }

  function Run<D>(fmt: Format<D>, r: Reader<D>, tokens: seq<Token>): (r': Reader<D>)
    requires WellFormed(r)
    ensures WellFormed(r')
    decreases tokens
  {
    if tokens == [] then r else Run(fmt, Step(fmt, r, tokens[0]), tokens[1..])
  }

  function Fresh<D>(fmt: Format<D>): (r: Reader<D>)
    ensures WellFormed(r)
  {
    Reading(EntityData(fmt.blank(ENTITY), []), Idle, 0, false, "")
  }

  lemma {:induction false} RunAppend<D>(fmt: Format<D>, r: Reader<D>, a: seq<Token>, b: seq<Token>)
    requires WellFormed(r)
    ensures Run(fmt, r, a + b) == Run(fmt, Run(fmt, r, a), b)
    decreases a
  {
    if a == [] {
      assert a + b == b;
    } else {
      assert (a + b)[1..] == a[1..] + b;
      RunAppend(fmt, Step(fmt, r, a[0]), a[1..], b);
    }
  }

  lemma {:induction false} RunHalted<D>(fmt: Format<D>, r: Reader<D>, tokens: seq<Token>)
    requires !r.Reading?
    ensures Run(fmt, r, tokens) == r
    decreases tokens
  {
    if tokens == [] {
    } else {
      RunHalted(fmt, r, tokens[1..]);
    }
  }

  // Tokens that tell the reader nothing: they change neither what is read nor where it goes.
  function Telling(tokens: seq<Token>): seq<Token> {
    if tokens == [] then []
    else (if tokens[0] in {BlockEntry, OtherToken, StreamEnd} then [] else [tokens[0]]) + Telling(tokens[1..])
  }

  lemma {:induction false} OthersTellNothing<D>(fmt: Format<D>, r: Reader<D>, tokens: seq<Token>)
    requires WellFormed(r)
    ensures Run(fmt, r, tokens) == Run(fmt, r, Telling(tokens))
    decreases tokens
  {
    if tokens == [] {
    } else {
      OthersTellNothing(fmt, Step(fmt, r, tokens[0]), tokens[1..]);
      var rest := Telling(tokens[1..]);
      assert [] + rest == rest && ([tokens[0]] + rest)[1..] == rest;
    }
  }

  // A value matters only inside the entity, a configuration or a descriptor; a key that opens nothing is only
  // remembered.
  lemma ScalarsElsewhere<D>(fmt: Format<D>, r: Reader<D>, text: string)
    requires r.Reading? && WellFormed(r)
    ensures r.valueNext && r.state !in {InEntity, InConfiguration, InDescriptor} ==> Step(fmt, r, Scalar(text)) == r
    ensures !r.valueNext && r.state !in {EntityStart, InEntity, InConfiguration, DescriptorsStart} ==>
      Step(fmt, r, Scalar(text)) == r.(key := CStr(text))
  {}

  lemma RunThree<D>(fmt: Format<D>, r: Reader<D>, a: seq<Token>, b: seq<Token>, c: seq<Token>)
    requires WellFormed(r)
    ensures Run(fmt, r, a + b + c) == Run(fmt, Run(fmt, Run(fmt, r, a), b), c)
  {
    RunAppend(fmt, r, a + b, c);
    RunAppend(fmt, r, a, b);
  }

  lemma {:induction false} RunThenOne<D>(fmt: Format<D>, r: Reader<D>, a: seq<Token>, t: Token, r1: Reader<D>)
    requires WellFormed(r) && Run(fmt, r, a) == r1
    ensures Run(fmt, r, a + [t]) == Step(fmt, r1, t)
  {
    RunAppend(fmt, r, a, [t]);
    assert [t][1..] == [];
  }
}
