// The token loop that reads a device entity, updating its variables in place.
module EntityReader {
  import opened CStrings
  import opened EntityTokens

  // How the handling of a token ends: on to the next, straight to the end, or to the end with an error.
  datatype Next = Continue | Leave | Fail

  class TokenReader<D> {
    const fmt: Format<D>
    var entity: D
    var configurations: seq<ConfigurationData<D>>
    var state: ParseState
    var flag: nat
    var keyValueState: nat
    var tkKey: string

    constructor (fmt: Format<D>)
      ensures this.fmt == fmt && Abs() == Fresh(fmt)
    {
      this.fmt := fmt;
      entity, configurations := fmt.blank(ENTITY), [];
      state, flag, keyValueState, tkKey := Idle, 0, 0, "";
    }

    ghost function Abs(): (r: Reader<D>)
      reads this
      ensures r.Reading?
    {
      Reading(EntityData(entity, configurations), state, flag, keyValueState != 0, tkKey)
    }

    // What a token leads to.
    ghost function After(next: Next): Reader<D>
      reads this
    {
      match next
      case Continue => Abs()
      case Leave => Stopped(EntityData(entity, configurations))
      case Fail => Refused
    }

    method SequenceStart()
      modifies this
      ensures Abs() == OnSequenceStart(old(Abs()))
    {
      match state {
        case EntityFound =>
          state := EntitySequence;
          flag := ENTITY;
        case ConfigurationFound =>
          state := ConfigurationSequence;
          flag := CONFIGURATION;
        case DescriptorFound =>
          state := DescriptorSequence;
        case _ =>
      }
    }

    method AddNewConfiguration()
      modifies this`configurations
      ensures configurations == old(configurations) + [ConfigurationData(fmt.blank(ENTITY), [])]
    {
      configurations := configurations + [ConfigurationData(fmt.blank(ENTITY), [])];
    }

    method AddNewDescriptor(kind: nat)
      requires configurations != []
      modifies this`configurations
      ensures EntityData(entity, configurations) == AddDescriptor(fmt, old(EntityData(entity, configurations)), kind)
    {
      var latest := configurations[|configurations| - 1];
      latest := latest.(descriptors := latest.descriptors + [fmt.blank(kind)]);
      configurations := configurations[|configurations| - 1 := latest];
    }

    method MappingStart()
      requires WellFormed(Abs())
      modifies this
      ensures Abs() == OnMappingStart(fmt, old(Abs()))
    {
      match state {
        case Start =>
          state := EntityStart;
        case EntitySequence =>
          state := InEntity;
        case ConfigurationSequence =>
          state := InConfiguration;
          AddNewConfiguration();
          flag := CONFIGURATION;
        case DescriptorsFound =>
          state := DescriptorsStart;
        case DescriptorSequence =>
          AddNewDescriptor(flag);
          state := InDescriptor;
        case _ =>
      }
    }

    method BlockEnds()
      modifies this`state
      ensures state == OnBlockEnd(old(state))
    {
      match state {
        case InDescriptor => state := DescriptorSequence;
        case DescriptorSequence => state := DescriptorsStart;
        case DescriptorsStart => state := InConfiguration;
        case InConfiguration => state := ConfigurationSequence;
        case ConfigurationSequence => state := InEntity;
        case InEntity => state := EntitySequence;
        case EntitySequence => state := EntityStart;
        case EntityStart => state := Start;
        case _ =>
      }
    }

    // strncpy of a scalar into a cleared buffer.
    method CopyText(text: string) returns (r: string)
      requires |text| < TEXT_MAX
      ensures r == CStr(text)
    {
      r := [];
      var i := 0;
      while i < |text| && text[i] != '\0'
        invariant 0 <= i <= |CStr(text)| && r == text[..i]
      {
        r := r + [text[i]];
        i := i + 1;
      }
    }

    method LookUpType(key: string) returns (i: nat)
      ensures i == FindType(fmt, key, 0)
    {
      i := 0;
      while i < NUM_DESCRIPTOR_TYPES
        invariant 0 <= i <= NUM_DESCRIPTOR_TYPES && FindType(fmt, key, 0) == FindType(fmt, key, i)
      {
        if SameName(key, fmt.typeName(i)) { return; }
        i := i + 1;
      }
    }

    method ScalarValue(value: string) returns (next: Next)
      requires WellFormed(Abs())
      modifies this`entity, this`configurations
      ensures After(next) == match Put(fmt, old(Abs()).dev, state, flag, tkKey, value)
                             case None => Refused
                             case Some(dev) => old(Abs()).(dev := dev)
    {
      var rc := 0;
      match state {
        case InEntity =>
          match fmt.assign(flag, entity, tkKey, value) {
            case None => rc := -1;
            case Some(d) => entity := d;
          }
        case InConfiguration =>
          var c := configurations[|configurations| - 1];
          match fmt.assign(flag, c.data, tkKey, value) {
            case None => rc := -1;
            case Some(d) => configurations := configurations[|configurations| - 1 := c.(data := d)];
          }
        case InDescriptor =>
          var c := configurations[|configurations| - 1];
          match fmt.assign(flag, c.descriptors[|c.descriptors| - 1], tkKey, value) {
            case None => rc := -1;
            case Some(d) =>
              configurations :=
                configurations[|configurations| - 1 := c.(descriptors := c.descriptors[|c.descriptors| - 1 := d])];
          }
        case _ =>
      }
      next := if rc < 0 then Fail else Continue;
    }

    method ScalarKey(key: string) returns (next: Next)
      modifies this`tkKey, this`state, this`flag
      ensures After(next) == OnKey(fmt, old(Abs()), key)
    {
      next := Continue;
      tkKey := key;
      match state {
        case EntityStart =>
          if SameName(tkKey, "entity") { state := EntityFound; }
        case InEntity =>
          if SameName(tkKey, "configurations") { state := ConfigurationFound; }
        case InConfiguration =>
          if SameName(tkKey, "descriptors") { state := DescriptorsFound; }
        case DescriptorsStart =>
          var i := LookUpType(tkKey);
          if i == NUM_DESCRIPTOR_TYPES {
            next := Leave;
          } else {
            flag := i;
            state := DescriptorFound;
          }
        case _ =>
      }
    }

    method OnToken(token: Token) returns (next: Next)
      requires WellFormed(Abs()) && (token.Scalar? ==> |token.text| < TEXT_MAX)
      modifies this
      ensures After(next) == Step(fmt, old(Abs()), token)
    {
      next := Continue;
      match token {
        case StreamStart => state := Start;
        case BlockSequenceStart => SequenceStart();
        case BlockMappingStart => MappingStart();
        case BlockEnd => BlockEnds();
        case Key => keyValueState := 0;
        case Value => keyValueState := 1;
        case Scalar(text) =>
          var buf := CopyText(text);
          if keyValueState != 0 {
            next := ScalarValue(buf);
          } else {
            next := ScalarKey(buf);
          }
        case _ =>
      }
    }
  }

  // The outcome of a reading: nothing when a pair was refused.
  function Outcome<D>(r: Reader<D>): Option<EntityData<D>> {
    if r.Refused? then None else Some(r.dev)
  }

  // The tokens up to and including the first end of the stream.
  function UpToEnd(tokens: seq<Token>): seq<Token> {
    if tokens == [] then [] else if tokens[0].StreamEnd? then [tokens[0]] else [tokens[0]] + UpToEnd(tokens[1..])
  }

  method ReadDeviceEntity<D>(fmt: Format<D>, tokens: seq<Token>) returns (r: Option<EntityData<D>>)
    requires exists i :: 0 <= i < |tokens| && tokens[i].StreamEnd?
    requires forall i :: 0 <= i < |tokens| ==> (tokens[i].Scalar? ==> |tokens[i].text| < TEXT_MAX)
    ensures r == Outcome(Run(fmt, Fresh(fmt), UpToEnd(tokens)))
  {
    var reader := new TokenReader(fmt);
    var next := Continue;
    var i := 0;
    assert tokens[0..] == tokens;
    while true
      invariant 0 <= i <= |tokens|
      invariant exists k :: i <= k < |tokens| && tokens[k].StreamEnd?
      invariant WellFormed(reader.Abs()) && reader.fmt == fmt
      invariant Run(fmt, Fresh(fmt), UpToEnd(tokens)) == Run(fmt, reader.Abs(), UpToEnd(tokens[i..]))
      decreases |tokens| - i
    {
      var token := tokens[i];
      assert tokens[i..][1..] == tokens[i + 1..];
      ghost var rest := UpToEnd(tokens[i..])[1..];
      next := reader.OnToken(token);
      assert Run(fmt, Fresh(fmt), UpToEnd(tokens)) == Run(fmt, reader.After(next), rest);
      if next != Continue {
        RunHalted(fmt, reader.After(next), rest);
        break;
      }
      if token.StreamEnd? { break; }
      i := i + 1;
    }
    r := if next.Fail? then None else Some(EntityData(reader.entity, reader.configurations));
  }
}
