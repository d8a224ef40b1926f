// Writing an entity tree as block tokens and reading it back.
module EntityRoundTrip {
  import opened CStrings
  import opened EntityTokens
  import opened EntityReader

  datatype Pair = Pair(key: string, value: string)

  // The descriptors of one type, and the trees above them. `trailing` are pairs written after the nested block.
  datatype Group = Group(name: string, members: seq<seq<Pair>>)
  datatype ConfigurationTree = ConfigurationTree(pairs: seq<Pair>, groups: seq<Group>, trailing: seq<Pair>)
  datatype EntityTree = EntityTree(pairs: seq<Pair>, configurations: seq<ConfigurationTree>, trailing: seq<Pair>)

  // ---- Writing -------------------------------------------------------------------------------

  function KeyTokens(key: string): seq<Token> { [Key, Scalar(key), Value] }

  function PairTokens(ps: seq<Pair>): seq<Token> {
    if ps == [] then [] else KeyTokens(ps[0].key) + [Scalar(ps[0].value)] + PairTokens(ps[1..])
  }

  function MemberTokens(ps: seq<Pair>): seq<Token> { [BlockEntry, BlockMappingStart] + PairTokens(ps) + [BlockEnd] }

  function MembersTokens(ms: seq<seq<Pair>>): seq<Token> {
    if ms == [] then [] else MemberTokens(ms[0]) + MembersTokens(ms[1..])
  }

  function GroupTokens(g: Group): seq<Token> {
    KeyTokens(g.name) + [BlockSequenceStart] + MembersTokens(g.members) + [BlockEnd]
  }

  function GroupsTokens(gs: seq<Group>): seq<Token> {
    if gs == [] then [] else GroupTokens(gs[0]) + GroupsTokens(gs[1..])
  }

  // What follows the pairs of a configuration.
  function RestTokens(c: ConfigurationTree): seq<Token> {
    KeyTokens("descriptors") + [BlockMappingStart] + GroupsTokens(c.groups) + [BlockEnd] +
      (PairTokens(c.trailing) + [BlockEnd])
  }

  function ConfigurationTokens(c: ConfigurationTree): seq<Token> {
    [BlockEntry, BlockMappingStart] + (PairTokens(c.pairs) + RestTokens(c))
  }

  function ConfigurationsTokens(cs: seq<ConfigurationTree>): seq<Token> {
    if cs == [] then [] else ConfigurationTokens(cs[0]) + ConfigurationsTokens(cs[1..])
  }

  function HeadTokens(): seq<Token> {
    [StreamStart, BlockMappingStart] + KeyTokens("entity") + [BlockSequenceStart] + [BlockEntry] + [BlockMappingStart]
  }

  function NestedTokens(cs: seq<ConfigurationTree>): seq<Token> {
    KeyTokens("configurations") + [BlockSequenceStart] + ConfigurationsTokens(cs) + [BlockEnd]
  }

  function TailTokens(ps: seq<Pair>): seq<Token> {
    PairTokens(ps) + ([BlockEnd, BlockEnd] + [BlockEnd, StreamEnd])
  }

  function TreeTokens(t: EntityTree): seq<Token> {
    HeadTokens() + (PairTokens(t.pairs) + (NestedTokens(t.configurations) + TailTokens(t.trailing)))
  }

  // Keys that open a nested block must not be used for values.
  ghost predicate Plain(ps: seq<Pair>, word: string) {
    forall i :: 0 <= i < |ps| ==> !SameName(CStr(ps[i].key), word)
  }

  ghost predicate PlainConfiguration(c: ConfigurationTree) {
    Plain(c.pairs, "descriptors") && Plain(c.trailing, "descriptors")
  }

  ghost predicate PlainTree(t: EntityTree) {
    && Plain(t.pairs, "configurations") && Plain(t.trailing, "configurations")
    && forall i :: 0 <= i < |t.configurations| ==> PlainConfiguration(t.configurations[i])
  }

  // ---- What a tree means ---------------------------------------------------------------------

  // All of it, all up to an unknown type name, or nothing because a pair was refused.
  datatype Part<T> = Whole(value: T) | UpTo(value: T) | Bad

  function AddPairs<D>(fmt: Format<D>, kind: nat, d: D, ps: seq<Pair>): Option<D>
    decreases ps
  {
    if ps == [] then Some(d) else
      match fmt.assign(kind, d, CStr(ps[0].key), CStr(ps[0].value))
      case None => None
      case Some(d') => AddPairs(fmt, kind, d', ps[1..])
  }

  function Members<D>(fmt: Format<D>, kind: nat, ms: seq<seq<Pair>>): Option<seq<D>>
    decreases ms
  {
    if ms == [] then Some([]) else
      match AddPairs(fmt, kind, fmt.blank(kind), ms[0])
      case None => None
      case Some(d) =>
        match Members(fmt, kind, ms[1..])
        case None => None
        case Some(ds) => Some([d] + ds)
  }

  function GroupKind<D>(fmt: Format<D>, g: Group): (r: nat)
    ensures r <= NUM_DESCRIPTOR_TYPES
  {
    FindType(fmt, CStr(g.name), 0)
  }

  // What was not refused was read to the end.
  function AllOf<T>(read: Option<T>): Part<T> {
    match read
    case None => Bad
    case Some(x) => Whole(x)
  }

  function GroupOf<D>(fmt: Format<D>, g: Group): Part<seq<D>> {
    if GroupKind(fmt, g) == NUM_DESCRIPTOR_TYPES then UpTo([]) else AllOf(Members(fmt, GroupKind(fmt, g), g.members))
  }

  function Joined<T>(first: seq<T>, part: Part<seq<T>>): Part<seq<T>> {
    match part
    case Whole(rest) => Whole(first + rest)
    case UpTo(rest) => UpTo(first + rest)
    case Bad => Bad
  }

  function Groups<D>(fmt: Format<D>, gs: seq<Group>): Part<seq<D>>
    decreases gs
  {
    if gs == [] then Whole([]) else
      match GroupOf(fmt, gs[0])
      case Whole(ds) => Joined(ds, Groups(fmt, gs[1..]))
      case UpTo(ds) => UpTo(ds)
      case Bad => Bad
  }

  // The type last seen decides how trailing pairs are read.
  function LastKind<D>(fmt: Format<D>, kind: nat, gs: seq<Group>): nat {
    if gs == [] then kind else GroupKind(fmt, gs[|gs| - 1])
  }

  function ConfigurationOf<D>(fmt: Format<D>, c: ConfigurationTree): Part<ConfigurationData<D>> {
    match AddPairs(fmt, CONFIGURATION, fmt.blank(ENTITY), c.pairs)
    case None => Bad
    case Some(d) =>
      match Groups(fmt, c.groups)
      case Bad => Bad
      case UpTo(ds) => UpTo(ConfigurationData(d, ds))
      case Whole(ds) =>
        match AddPairs(fmt, LastKind(fmt, CONFIGURATION, c.groups), d, c.trailing)
        case None => Bad
        case Some(d') => Whole(ConfigurationData(d', ds))
  }

  function Configurations<D>(fmt: Format<D>, cs: seq<ConfigurationTree>): Part<seq<ConfigurationData<D>>>
    decreases cs
  {
    if cs == [] then Whole([]) else
      match ConfigurationOf(fmt, cs[0])
      case Bad => Bad
      case UpTo(c) => UpTo([c])
      case Whole(c) => Joined([c], Configurations(fmt, cs[1..]))
  }

  function LastKindOf<D>(fmt: Format<D>, kind: nat, cs: seq<ConfigurationTree>): nat {
    if cs == [] then kind else LastKind(fmt, CONFIGURATION, cs[|cs| - 1].groups)
  }

  function EntityOf<D>(fmt: Format<D>, t: EntityTree): Part<EntityData<D>> {
    match AddPairs(fmt, ENTITY, fmt.blank(ENTITY), t.pairs)
    case None => Bad
    case Some(d) =>
      match Configurations(fmt, t.configurations)
      case Bad => Bad
      case UpTo(cs) => UpTo(EntityData(d, cs))
      case Whole(cs) =>
        match AddPairs(fmt, LastKindOf(fmt, CONFIGURATION, t.configurations), d, t.trailing)
        case None => Bad
        case Some(d') => Whole(EntityData(d', cs))
  }

  // ---- Reading back --------------------------------------------------------------------------

  // The reader has done `part`: it goes on in `state` with type `flag`, has stopped, or has refused.
  ghost predicate Did<D>(r: Reader<D>, part: Part<EntityData<D>>, state: ParseState, flag: nat) {
    match part
    case Whole(dev) => r.Reading? && r.dev == dev && r.state == state && r.flag == flag
    case UpTo(dev) => r == Stopped(dev)
    case Bad => r == Refused
  }

  lemma RunOne<D>(fmt: Format<D>, r: Reader<D>, a: Token)
    requires WellFormed(r)
    ensures Run(fmt, r, [a]) == Step(fmt, r, a)
  {
    assert [a][1..] == [];
  }

  lemma RunTwo<D>(fmt: Format<D>, r: Reader<D>, a: Token, b: Token)
    requires WellFormed(r)
    ensures Run(fmt, r, [a, b]) == Step(fmt, Step(fmt, r, a), b)
  {
    assert [a, b] == [a] + [b];
    RunAppend(fmt, r, [a], [b]);
    RunOne(fmt, r, a);
    RunOne(fmt, Step(fmt, r, a), b);
  }

  // A block that has done its part is closed.
  lemma RunEnclosed<D>(fmt: Format<D>, r: Reader<D>, open: seq<Token>, body: seq<Token>,
      r1: Reader<D>,
                                          part: Part<EntityData<D>>, state: ParseState, flag: nat)
    requires WellFormed(r) && Run(fmt, r, open) == r1 && Did(Run(fmt, r1, body), part, state, flag)
    ensures Did(Run(fmt, r, open + body + [BlockEnd]), part, OnBlockEnd(state), flag)
  {
    RunAppend(fmt, r, open, body);
    RunThenOne(fmt, r, open + body, BlockEnd, Run(fmt, r1, body));
  }

  lemma RunKey<D>(fmt: Format<D>, r: Reader<D>, key: string)
    requires WellFormed(r) && r.Reading?
    ensures Run(fmt, r, KeyTokens(key)) == Step(fmt, OnKey(fmt, r.(valueNext := false), CStr(key)), Value)
  {
    assert KeyTokens(key) == [Key, Scalar(key)] + [Value];
    RunAppend(fmt, r, [Key, Scalar(key)], [Value]);
    RunTwo(fmt, r, Key, Scalar(key));
    RunOne(fmt, Run(fmt, r, [Key, Scalar(key)]), Value);
  }

  // The pairs put where the state says.
  function PutAll<D>(fmt: Format<D>, dev: EntityData<D>, state: ParseState, flag: nat,
      ps: seq<Pair>): Option<EntityData<D>>
    requires WellFormed(Reading(dev, state, flag, true, ""))
    decreases ps
  {
    if ps == [] then Some(dev) else
      match Put(fmt, dev, state, flag, CStr(ps[0].key), CStr(ps[0].value))
      case None => None
      case Some(dev') => PutAll(fmt, dev', state, flag, ps[1..])
  }

  ghost predicate Holding(state: ParseState, ps: seq<Pair>) {
    || (state == InEntity && Plain(ps, "configurations"))
    || (state == InConfiguration && Plain(ps, "descriptors"))
    || state == InDescriptor
  }

  // One pair: its value is put where the state says.
  lemma RunPair<D>(fmt: Format<D>, r: Reader<D>, p: Pair)
    requires WellFormed(r) && r.Reading? && Holding(r.state, [p])
    ensures Run(fmt, r, KeyTokens(p.key) + [Scalar(p.value)]) ==
            match Put(fmt, r.dev, r.state, r.flag, CStr(p.key), CStr(p.value))
            case None => Refused
            case Some(dev) => r.(dev := dev, valueNext := true, key := CStr(p.key))
  {
    hide Run, Put;
    var k, v := KeyTokens(p.key), [Scalar(p.value)];
    RunAppend(fmt, r, k, v);
    RunKey(fmt, r, p.key);
    assert [p][0] == p;
    RunOne(fmt, Run(fmt, r, k), Scalar(p.value));
  }

  lemma {:induction false} RunPairs<D>(fmt: Format<D>, r: Reader<D>, ps: seq<Pair>)
    requires WellFormed(r) && r.Reading? && Holding(r.state, ps)
    ensures Did(Run(fmt, r, PairTokens(ps)), AllOf(PutAll(fmt, r.dev, r.state, r.flag, ps)), r.state, r.flag)
    decreases ps
  {
    if ps == [] {
    } else {
      hide Run, Put, CStr;
      var first, rest := KeyTokens(ps[0].key) + [Scalar(ps[0].value)], PairTokens(ps[1..]);
      RunAppend(fmt, r, first, rest);
      RunPair(fmt, r, ps[0]);
      var r1 := Run(fmt, r, first);
      if r1.Reading? { RunPairs(fmt, r1, ps[1..]); } else { RunHalted(fmt, r1, rest); }
    }
  }

  // What the pairs do to the entity, to the last configuration, and to its last descriptor.
  lemma {:induction false} PutInEntity<D>(fmt: Format<D>, dev: EntityData<D>, flag: nat, ps: seq<Pair>)
    ensures PutAll(fmt, dev, InEntity, flag, ps) ==
            match AddPairs(fmt, flag, dev.entity, ps)
            case None => None
            case Some(d) => Some(dev.(entity := d))
    decreases ps
  {
    if ps == [] {
    } else {
      match fmt.assign(flag, dev.entity, CStr(ps[0].key), CStr(ps[0].value))
      case None =>
      case Some(d) => PutInEntity(fmt, dev.(entity := d), flag, ps[1..]);
    }
  }

  function WithLast<D>(e: D, cs: seq<ConfigurationData<D>>, data: D, ds: seq<D>): (r: EntityData<D>)
    ensures r.configurations != [] && Last(r.configurations) == ConfigurationData(data, ds)
  {
    EntityData(e, cs + [ConfigurationData(data, ds)])
  }

  lemma SetLastOf<T>(s: seq<T>, x: T, y: T)
    ensures Last(s + [x]) == x && SetLast(s + [x], y) == s + [y]
  {}

  lemma {:induction false} PutInConfiguration<D>(fmt: Format<D>, e: D, cs: seq<ConfigurationData<D>>, data: D,
      ds: seq<D>, flag: nat, ps: seq<Pair>)
    ensures PutAll(fmt, WithLast(e, cs, data, ds), InConfiguration, flag, ps) ==
            match AddPairs(fmt, flag, data, ps)
            case None => None
            case Some(d) => Some(WithLast(e, cs, d, ds))
    decreases ps
  {
    if ps == [] {
    } else {
      match fmt.assign(flag, data, CStr(ps[0].key), CStr(ps[0].value))
      case None =>
      case Some(d) =>
        SetLastOf(cs, ConfigurationData(data, ds), ConfigurationData(d, ds));
        PutInConfiguration(fmt, e, cs, d, ds, flag, ps[1..]);
    }
  }

  lemma {:induction false} PutInDescriptor<D>(fmt: Format<D>, e: D, cs: seq<ConfigurationData<D>>, data: D, ds: seq<D>,
      x: D, flag: nat, ps: seq<Pair>)
    ensures PutAll(fmt, WithLast(e, cs, data, ds + [x]), InDescriptor, flag, ps) ==
            match AddPairs(fmt, flag, x, ps)
            case None => None
            case Some(d) => Some(WithLast(e, cs, data, ds + [d]))
    decreases ps
  {
    if ps == [] {
    } else {
      match fmt.assign(flag, x, CStr(ps[0].key), CStr(ps[0].value))
      case None =>
      case Some(d) =>
        SetLastOf(ds, x, d);
        SetLastOf(cs, ConfigurationData(data, ds + [x]), ConfigurationData(data, ds + [d]));
        PutInDescriptor(fmt, e, cs, data, ds, d, flag, ps[1..]);
    }
  }

  // One descriptor of the type being read.
  lemma OpenMember<D>(fmt: Format<D>, r: Reader<D>, e: D, cs: seq<ConfigurationData<D>>, data: D,
      ds: seq<D>) returns (r1: Reader<D>)
    requires r.Reading? && r.state == DescriptorSequence && r.dev == WithLast(e, cs, data, ds)
    ensures r1 == r.(state := InDescriptor, dev := WithLast(e, cs, data, ds + [fmt.blank(r.flag)]))
    ensures Run(fmt, r, [BlockEntry, BlockMappingStart]) == r1
  {
    var x := fmt.blank(r.flag);
    RunTwo(fmt, r, BlockEntry, BlockMappingStart);
    SetLastOf(cs, ConfigurationData(data, ds), ConfigurationData(data, ds + [x]));
    r1 := r.(state := InDescriptor, dev := WithLast(e, cs, data, ds + [x]));
  }

  lemma RunMember<D>(fmt: Format<D>, r: Reader<D>, e: D, cs: seq<ConfigurationData<D>>, data: D,
      ds: seq<D>, ps: seq<Pair>)
    requires r.Reading? && r.state == DescriptorSequence && r.dev == WithLast(e, cs, data, ds)
    ensures match AddPairs(fmt, r.flag, fmt.blank(r.flag), ps)
            case None => Run(fmt, r, MemberTokens(ps)) == Refused
            case Some(d) => Did(Run(fmt, r, MemberTokens(ps)), Whole(WithLast(e, cs, data, ds + [d])),
              DescriptorSequence, r.flag)
  {
    hide Put, AddPairs, CStr;
    var x := fmt.blank(r.flag);
    RunThree(fmt, r, [BlockEntry, BlockMappingStart], PairTokens(ps), [BlockEnd]);
    var r1 := OpenMember(fmt, r, e, cs, data, ds);
    RunPairs(fmt, r1, ps);
    PutInDescriptor(fmt, e, cs, data, ds, x, r.flag, ps);
    RunOne(fmt, Run(fmt, r1, PairTokens(ps)), BlockEnd);
  }

  // A part of a configuration's descriptors, in its place.
  function Placed<D>(e: D, cs: seq<ConfigurationData<D>>, data: D, ds: seq<D>,
      part: Part<seq<D>>): Part<EntityData<D>> {
    match part
    case Whole(more) => Whole(WithLast(e, cs, data, ds + more))
    case UpTo(more) => UpTo(WithLast(e, cs, data, ds + more))
    case Bad => Bad
  }

  // The descriptors read so far, and the rest of their group.
  lemma PlacedNext<D>(fmt: Format<D>, e: D, cs: seq<ConfigurationData<D>>, data: D, ds: seq<D>, kind: nat,
      ms: seq<seq<Pair>>)
    requires ms != []
    ensures Placed(e, cs, data, ds, AllOf(Members(fmt, kind, ms))) ==
            match AddPairs(fmt, kind, fmt.blank(kind), ms[0])
            case None => Bad
            case Some(d) => Placed(e, cs, data, ds + [d], AllOf(Members(fmt, kind, ms[1..])))
  {
    match AddPairs(fmt, kind, fmt.blank(kind), ms[0])
    case None =>
    case Some(d) =>
      match Members(fmt, kind, ms[1..])
      case None =>
      case Some(more) => assert ds + [d] + more == ds + ([d] + more);
  }

  lemma {:induction false} RunMembers<D>(fmt: Format<D>, r: Reader<D>, e: D, cs: seq<ConfigurationData<D>>, data: D,
      ds: seq<D>, ms: seq<seq<Pair>>)
    requires r.Reading? && r.state == DescriptorSequence && r.dev == WithLast(e, cs, data, ds)
    ensures Did(Run(fmt, r, MembersTokens(ms)), Placed(e, cs, data, ds, AllOf(Members(fmt, r.flag, ms))),
      DescriptorSequence, r.flag)
    decreases ms
  {
    if ms == [] {
      assert ds + [] == ds;
    } else {
      hide Run, Step, AddPairs, WithLast, Placed, AllOf, Members;
      RunAppend(fmt, r, MemberTokens(ms[0]), MembersTokens(ms[1..]));
      RunMember(fmt, r, e, cs, data, ds, ms[0]);
      PlacedNext(fmt, e, cs, data, ds, r.flag, ms);
      var r1 := Run(fmt, r, MemberTokens(ms[0]));
      match AddPairs(fmt, r.flag, fmt.blank(r.flag), ms[0])
      case None => RunHalted(fmt, r1, MembersTokens(ms[1..]));
      case Some(d) => RunMembers(fmt, r1, e, cs, data, ds + [d], ms[1..]);
    }
  }

  // A group opens with its type name: a known name selects the type, an unknown one ends the reading.
  lemma OpenGroup<D>(fmt: Format<D>, r: Reader<D>, name: string)
    requires r.Reading? && r.state == DescriptorsStart && WellFormed(r)
    ensures var kind, r' := FindType(fmt, CStr(name), 0), Run(fmt, r, KeyTokens(name) + [BlockSequenceStart]);
      if kind == NUM_DESCRIPTOR_TYPES then r' == Stopped(r.dev)
      else r' == r.(state := DescriptorSequence, flag := kind, valueNext := true, key := CStr(name))
  {
    hide Run;
    RunKey(fmt, r, name);
    RunThenOne(fmt, r, KeyTokens(name), BlockSequenceStart, Run(fmt, r, KeyTokens(name)));
  }

  lemma RunGroup<D>(fmt: Format<D>, r: Reader<D>, e: D, cs: seq<ConfigurationData<D>>, data: D,
      ds: seq<D>, g: Group)
    requires r.Reading? && r.state == DescriptorsStart && r.dev == WithLast(e, cs, data, ds)
    ensures Did(Run(fmt, r, GroupTokens(g)), Placed(e, cs, data, ds, GroupOf(fmt, g)), DescriptorsStart,
      GroupKind(fmt, g))
  {
    hide Run, Step, Members, AddPairs;
    var open, members := KeyTokens(g.name) + [BlockSequenceStart], MembersTokens(g.members);
    OpenGroup(fmt, r, g.name);
    var r1 := Run(fmt, r, open);
    var part := Placed(e, cs, data, ds, GroupOf(fmt, g));
    if r1.Reading? {
      RunMembers(fmt, r1, e, cs, data, ds, g.members);
    } else {
      RunHalted(fmt, r1, members);
      assert ds + [] == ds;
    }
    RunEnclosed(fmt, r, open, members, r1, part, DescriptorSequence, GroupKind(fmt, g));
  }

  lemma {:induction false} RunGroups<D>(fmt: Format<D>, r: Reader<D>, e: D, cs: seq<ConfigurationData<D>>, data: D,
      ds: seq<D>, gs: seq<Group>)
    requires r.Reading? && r.state == DescriptorsStart && r.dev == WithLast(e, cs, data, ds)
    ensures Did(Run(fmt, r, GroupsTokens(gs)), Placed(e, cs, data, ds, Groups(fmt, gs)), DescriptorsStart,
      LastKind(fmt, r.flag, gs))
    decreases gs
  {
    if gs == [] {
      assert ds + [] == ds;
    } else {
      var rest := GroupsTokens(gs[1..]);
      RunAppend(fmt, r, GroupTokens(gs[0]), rest);
      RunGroup(fmt, r, e, cs, data, ds, gs[0]);
      var r1 := Run(fmt, r, GroupTokens(gs[0]));
      match GroupOf(fmt, gs[0])
      case Bad => RunHalted(fmt, r1, rest);
      case UpTo(more) => RunHalted(fmt, r1, rest);
      case Whole(more) =>
        RunGroups(fmt, r1, e, cs, data, ds + more, gs[1..]);
        assert LastKind(fmt, r1.flag, gs[1..]) == LastKind(fmt, r.flag, gs);
        PlacedAfter(e, cs, data, ds, more, Groups(fmt, gs[1..]));
    }
  }

  lemma PlacedAfter<D>(e: D, cs: seq<ConfigurationData<D>>, data: D, ds: seq<D>, more: seq<D>,
      part: Part<seq<D>>)
    ensures Placed(e, cs, data, ds + more, part) == Placed(e, cs, data, ds, Joined(more, part))
  {
    if !part.Bad? { assert ds + more + part.value == ds + (more + part.value); }
  }

  // ---- Configurations ------------------------------------------------------------------------

  // A word that opens a nested block moves the reader on.
  lemma RunWord<D>(fmt: Format<D>, r: Reader<D>, word: string, found: ParseState)
    requires r.Reading? && WellFormed(r) && '\0' !in word && found != InDescriptor
    requires OnKey(fmt, r.(valueNext := false), word) == r.(valueNext := false, key := word, state := found)
    ensures Run(fmt, r, KeyTokens(word)) == r.(valueNext := true, key := word, state := found)
  {
    hide Run;
    RunKey(fmt, r, word);
    CStrWhole(word);
  }

  lemma RunDescriptorsKey<D>(fmt: Format<D>, r: Reader<D>)
    requires r.Reading? && r.state == InConfiguration && WellFormed(r)
    ensures Run(fmt, r, KeyTokens("descriptors")) == r.(valueNext := true, key := "descriptors",
      state := DescriptorsFound)
  {
    assert SameName("descriptors", "descriptors");
    RunWord(fmt, r, "descriptors", DescriptorsFound);
  }

  lemma OpenDescriptors<D>(fmt: Format<D>, r: Reader<D>)
    requires r.Reading? && r.state == InConfiguration && WellFormed(r)
    ensures Run(fmt, r, KeyTokens("descriptors") + [BlockMappingStart]) ==
            r.(state := DescriptorsStart, valueNext := true, key := "descriptors")
  {
    hide Run, KeyTokens, OnKey;
    var r1 := r.(valueNext := true, key := "descriptors", state := DescriptorsFound);
    assert Run(fmt, r, KeyTokens("descriptors")) == r1 by { RunDescriptorsKey(fmt, r); }
    RunThenOne(fmt, r, KeyTokens("descriptors"), BlockMappingStart, r1);
  }

  lemma OpenConfiguration<D>(fmt: Format<D>, r: Reader<D>, e: D, cs: seq<ConfigurationData<D>>)
    requires r.Reading? && r.state == ConfigurationSequence && r.dev == EntityData(e, cs)
    ensures Run(fmt, r, [BlockEntry, BlockMappingStart]) ==
            r.(state := InConfiguration, dev := WithLast(e, cs, fmt.blank(ENTITY), []), flag := CONFIGURATION)
  {
    RunTwo(fmt, r, BlockEntry, BlockMappingStart);
  }

  // The nested block of a configuration.
  lemma RunDescriptors<D>(fmt: Format<D>, r: Reader<D>, e: D, cs: seq<ConfigurationData<D>>, data: D,
      gs: seq<Group>)
    requires r.Reading? && r.state == InConfiguration && r.dev == WithLast(e, cs, data, [])
    ensures Did(Run(fmt, r, KeyTokens("descriptors") + [BlockMappingStart] + GroupsTokens(gs) + [BlockEnd]),
                Placed(e, cs, data, [], Groups(fmt, gs)), InConfiguration, LastKind(fmt, r.flag, gs))
  {
    OpenDescriptors(fmt, r);
    RunGroupsBlock(fmt, r, KeyTokens("descriptors") + [BlockMappingStart], e, cs, data, gs);
  }

  lemma RunGroupsBlock<D>(fmt: Format<D>, r: Reader<D>, open: seq<Token>, e: D,
      cs: seq<ConfigurationData<D>>, data: D, gs: seq<Group>)
    requires WellFormed(r) && r.Reading? && Did(Run(fmt, r, open), Whole(WithLast(e, cs, data, [])), DescriptorsStart,
      r.flag)
    ensures Did(Run(fmt, r, open + GroupsTokens(gs) + [BlockEnd]),
                Placed(e, cs, data, [], Groups(fmt, gs)), InConfiguration, LastKind(fmt, r.flag, gs))
  {
    var r1 := Run(fmt, r, open);
    RunGroups(fmt, r1, e, cs, data, [], gs);
    RunEnclosed(fmt, r, open, GroupsTokens(gs), r1, Placed(e, cs, data, [], Groups(fmt, gs)), DescriptorsStart,
        LastKind(fmt, r.flag, gs));
  }

  // Pairs of the last configuration.
  lemma RunConfigurationPairs<D>(fmt: Format<D>, r: Reader<D>, e: D, cs: seq<ConfigurationData<D>>,
      data: D, ds: seq<D>, ps: seq<Pair>)
    requires r.Reading? && r.state == InConfiguration && r.dev == WithLast(e, cs, data, ds) && Plain(ps, "descriptors")
    ensures match AddPairs(fmt, r.flag, data, ps)
            case None => Run(fmt, r, PairTokens(ps)) == Refused
            case Some(d) => Did(Run(fmt, r, PairTokens(ps)), Whole(WithLast(e, cs, d, ds)), InConfiguration, r.flag)
  {
    RunPairs(fmt, r, ps);
    PutInConfiguration(fmt, e, cs, data, ds, r.flag, ps);
  }

  // The pairs behind the nested block, and the end of the configuration.
  lemma RunTrailing<D>(fmt: Format<D>, r: Reader<D>, e: D, cs: seq<ConfigurationData<D>>, data: D,
      ds: seq<D>, ps: seq<Pair>)
    requires r.Reading? && r.state == InConfiguration && r.dev == WithLast(e, cs, data, ds) && Plain(ps, "descriptors")
    ensures match AddPairs(fmt, r.flag, data, ps)
            case None => Run(fmt, r, PairTokens(ps) + [BlockEnd]) == Refused
            case Some(d) => Did(Run(fmt, r, PairTokens(ps) + [BlockEnd]), Whole(WithLast(e, cs, d, ds)),
              ConfigurationSequence, r.flag)
  {
    RunAppend(fmt, r, PairTokens(ps), [BlockEnd]);
    RunConfigurationPairs(fmt, r, e, cs, data, ds, ps);
    RunOne(fmt, Run(fmt, r, PairTokens(ps)), BlockEnd);
  }

  function Appended<D>(e: D, cs: seq<ConfigurationData<D>>,
      part: Part<seq<ConfigurationData<D>>>): Part<EntityData<D>> {
    match part
    case Whole(more) => Whole(EntityData(e, cs + more))
    case UpTo(more) => UpTo(EntityData(e, cs + more))
    case Bad => Bad
  }

  function Single<T>(part: Part<T>): Part<seq<T>> {
    match part
    case Whole(c) => Whole([c])
    case UpTo(c) => UpTo([c])
    case Bad => Bad
  }

  lemma RunConfiguration<D>(fmt: Format<D>, r: Reader<D>, e: D, cs: seq<ConfigurationData<D>>,
      c: ConfigurationTree)
    requires r.Reading? && r.state == ConfigurationSequence && r.dev == EntityData(e, cs) && PlainConfiguration(c)
    ensures Did(Run(fmt, r, ConfigurationTokens(c)), Appended(e, cs, Single(ConfigurationOf(fmt, c))),
                ConfigurationSequence, LastKind(fmt, CONFIGURATION, c.groups))
  {
    var open, pairs, rest := [BlockEntry, BlockMappingStart], PairTokens(c.pairs), RestTokens(c);
    RunAppend(fmt, r, open, pairs + rest);
    OpenConfiguration(fmt, r, e, cs);
    var r1 := Run(fmt, r, open);
    RunAppend(fmt, r1, pairs, rest);
    RunConfigurationPairs(fmt, r1, e, cs, fmt.blank(ENTITY), [], c.pairs);
    var r2 := Run(fmt, r1, pairs);
    match AddPairs(fmt, CONFIGURATION, fmt.blank(ENTITY), c.pairs)
    case None => RunHalted(fmt, r2, rest);
    case Some(d) => RunRest(fmt, r2, e, cs, d, c);
  }

  lemma RunRest<D>(fmt: Format<D>, r: Reader<D>, e: D, cs: seq<ConfigurationData<D>>, d: D,
      c: ConfigurationTree)
    requires r.Reading? && r.state == InConfiguration && r.dev == WithLast(e, cs, d, []) && r.flag == CONFIGURATION
    requires Plain(c.trailing, "descriptors") && AddPairs(fmt, CONFIGURATION, fmt.blank(ENTITY), c.pairs) == Some(d)
    ensures Did(Run(fmt, r, RestTokens(c)), Appended(e, cs, Single(ConfigurationOf(fmt, c))), ConfigurationSequence,
        LastKind(fmt, CONFIGURATION, c.groups))
  {
    var nested := KeyTokens("descriptors") + [BlockMappingStart] + GroupsTokens(c.groups) + [BlockEnd];
    var trailing := PairTokens(c.trailing) + [BlockEnd];
    RunAppend(fmt, r, nested, trailing);
    RunDescriptors(fmt, r, e, cs, d, c.groups);
    var r1 := Run(fmt, r, nested);
    match Groups(fmt, c.groups)
    case Bad => RunHalted(fmt, r1, trailing);
    case UpTo(ds) =>
      assert [] + ds == ds;
      RunHalted(fmt, r1, trailing);
    case Whole(ds) =>
      assert [] + ds == ds;
      RunTrailing(fmt, r1, e, cs, d, ds, c.trailing);
  }

  lemma {:induction false} RunConfigurations<D>(fmt: Format<D>, r: Reader<D>, e: D, cs: seq<ConfigurationData<D>>,
      ts: seq<ConfigurationTree>)
    requires r.Reading? && r.state == ConfigurationSequence && r.dev == EntityData(e, cs)
    requires forall i :: 0 <= i < |ts| ==> PlainConfiguration(ts[i])
    ensures Did(Run(fmt, r, ConfigurationsTokens(ts)), Appended(e, cs, Configurations(fmt, ts)), ConfigurationSequence,
                LastKindOf(fmt, r.flag, ts))
    decreases ts
  {
    if ts == [] {
      assert cs + [] == cs;
    } else {
      var rest := ConfigurationsTokens(ts[1..]);
      RunAppend(fmt, r, ConfigurationTokens(ts[0]), rest);
      RunConfiguration(fmt, r, e, cs, ts[0]);
      var r1 := Run(fmt, r, ConfigurationTokens(ts[0]));
      match ConfigurationOf(fmt, ts[0])
      case Bad => RunHalted(fmt, r1, rest);
      case UpTo(c) => RunHalted(fmt, r1, rest);
      case Whole(c) =>
        RunConfigurations(fmt, r1, e, cs + [c], ts[1..]);
        assert LastKindOf(fmt, r1.flag, ts[1..]) == LastKindOf(fmt, r.flag, ts);
        AppendedAfter(e, cs, [c], Configurations(fmt, ts[1..]));
    }
  }

  lemma AppendedAfter<D>(e: D, cs: seq<ConfigurationData<D>>, first: seq<ConfigurationData<D>>,
      part: Part<seq<ConfigurationData<D>>>)
    ensures Appended(e, cs + first, part) == Appended(e, cs, Joined(first, part))
  {
    if !part.Bad? { assert cs + first + part.value == cs + (first + part.value); }
  }

  // ---- The whole entity ----------------------------------------------------------------------

  lemma OpenEntityWord<D>(fmt: Format<D>)
    ensures Run(fmt, Fresh(fmt), [StreamStart, BlockMappingStart] + KeyTokens("entity")) ==
            Fresh(fmt).(state := EntityFound, valueNext := true, key := "entity")
  {
    var r := Fresh(fmt);
    RunAppend(fmt, r, [StreamStart, BlockMappingStart], KeyTokens("entity"));
    RunTwo(fmt, r, StreamStart, BlockMappingStart);
    RunWord(fmt, r.(state := EntityStart), "entity", EntityFound);
  }

  lemma OpenEntity<D>(fmt: Format<D>)
    ensures Run(fmt, Fresh(fmt), HeadTokens()) == Reading(EntityData(fmt.blank(ENTITY), []), InEntity, ENTITY, true,
      "entity")
  {
    var word := [StreamStart, BlockMappingStart] + KeyTokens("entity");
    OpenEntityWord(fmt);
    OpenSequence(fmt, Fresh(fmt), word);
  }

  lemma OpenSequence<D>(fmt: Format<D>, r: Reader<D>, word: seq<Token>)
    requires WellFormed(r) && Run(fmt, r, word).Reading? && Run(fmt, r, word).state == EntityFound
    ensures Run(fmt, r, word + [BlockSequenceStart] + [BlockEntry] + [BlockMappingStart]) ==
            Run(fmt, r, word).(state := InEntity, flag := ENTITY)
  {
    var r1 := Run(fmt, r, word);
    RunThenOne(fmt, r, word, BlockSequenceStart, r1);
    var r2 := Step(fmt, r1, BlockSequenceStart);
    RunThenOne(fmt, r, word + [BlockSequenceStart], BlockEntry, r2);
    RunThenOne(fmt, r, word + [BlockSequenceStart] + [BlockEntry], BlockMappingStart, r2);
  }

  lemma RunConfigurationsKey<D>(fmt: Format<D>, r: Reader<D>)
    requires r.Reading? && r.state == InEntity
    ensures Run(fmt, r, KeyTokens("configurations")) == r.(valueNext := true, key := "configurations",
      state := ConfigurationFound)
  {
    assert SameName("configurations", "configurations");
    RunWord(fmt, r, "configurations", ConfigurationFound);
  }

  lemma OpenConfigurations<D>(fmt: Format<D>, r: Reader<D>)
    requires r.Reading? && r.state == InEntity
    ensures Run(fmt, r, KeyTokens("configurations") + [BlockSequenceStart]) ==
            r.(state := ConfigurationSequence, flag := CONFIGURATION, valueNext := true, key := "configurations")
  {
    hide Run, KeyTokens, OnKey;
    var r1 := r.(valueNext := true, key := "configurations", state := ConfigurationFound);
    assert Run(fmt, r, KeyTokens("configurations")) == r1 by { RunConfigurationsKey(fmt, r); }
    RunThenOne(fmt, r, KeyTokens("configurations"), BlockSequenceStart, r1);
  }

  lemma RunNested<D>(fmt: Format<D>, r: Reader<D>, e: D, ts: seq<ConfigurationTree>)
    requires r.Reading? && r.state == InEntity && r.dev == EntityData(e, [])
    requires forall i :: 0 <= i < |ts| ==> PlainConfiguration(ts[i])
    ensures Did(Run(fmt, r, NestedTokens(ts)), Appended(e, [], Configurations(fmt, ts)), InEntity,
      LastKindOf(fmt, CONFIGURATION, ts))
  {
    OpenConfigurations(fmt, r);
    RunConfigurationsBlock(fmt, r, KeyTokens("configurations") + [BlockSequenceStart], e, ts);
  }

  lemma RunConfigurationsBlock<D>(fmt: Format<D>, r: Reader<D>, open: seq<Token>, e: D,
      ts: seq<ConfigurationTree>)
    requires WellFormed(r) && Did(Run(fmt, r, open), Whole(EntityData(e, [])), ConfigurationSequence, CONFIGURATION)
    requires forall i :: 0 <= i < |ts| ==> PlainConfiguration(ts[i])
    ensures Did(Run(fmt, r, open + ConfigurationsTokens(ts) + [BlockEnd]), Appended(e, [], Configurations(fmt, ts)),
        InEntity, LastKindOf(fmt, CONFIGURATION, ts))
  {
    hide Run, Step, Configurations, LastKindOf;
    var r1, body, part, kind := Run(fmt, r, open), ConfigurationsTokens(ts), Appended(e, [],
        Configurations(fmt, ts)), LastKindOf(fmt, CONFIGURATION, ts);
    assert Did(Run(fmt, r1, body), part, ConfigurationSequence, kind) by {
      RunConfigurations(fmt, r1, e, [], ts);
    }
    RunEnclosed(fmt, r, open, body, r1, part, ConfigurationSequence, kind);
  }

  lemma RunTail<D>(fmt: Format<D>, r: Reader<D>, ps: seq<Pair>)
    requires r.Reading? && r.state == InEntity && Plain(ps, "configurations")
    ensures match AddPairs(fmt, r.flag, r.dev.entity, ps)
            case None => Run(fmt, r, TailTokens(ps)) == Refused
            case Some(d) => Did(Run(fmt, r, TailTokens(ps)), Whole(r.dev.(entity := d)), Start, r.flag)
  {
    hide Put, AddPairs, CStr;
    var ends := [BlockEnd, BlockEnd] + [BlockEnd, StreamEnd];
    RunAppend(fmt, r, PairTokens(ps), ends);
    RunPairs(fmt, r, ps);
    PutInEntity(fmt, r.dev, r.flag, ps);
    var r1 := Run(fmt, r, PairTokens(ps));
    if r1.Reading? {
      RunAppend(fmt, r1, [BlockEnd, BlockEnd], [BlockEnd, StreamEnd]);
      RunTwo(fmt, r1, BlockEnd, BlockEnd);
      RunTwo(fmt, r1.(state := EntityStart), BlockEnd, StreamEnd);
    } else {
      RunHalted(fmt, r1, ends);
    }
  }

  // The round trip: running the machine over a written tree performs exactly its pairs on the right objects,
  // rebuilds configurations and descriptors in order, and ends at the start again.
  lemma RoundTrip<D>(fmt: Format<D>, t: EntityTree)
    requires PlainTree(t)
    ensures Did(Run(fmt, Fresh(fmt), TreeTokens(t)), EntityOf(fmt, t), Start,
      LastKindOf(fmt, CONFIGURATION, t.configurations))
  {
    hide Run, Step, AddPairs, Configurations, LastKindOf, PairTokens, NestedTokens, TailTokens, HeadTokens;
    var r, pairs, rest := Fresh(fmt), PairTokens(t.pairs), NestedTokens(t.configurations) + TailTokens(t.trailing);
    RunAppend(fmt, r, HeadTokens(), pairs + rest);
    OpenEntity(fmt);
    var r1 := Run(fmt, r, HeadTokens());
    RunAppend(fmt, r1, pairs, rest);
    RunPairs(fmt, r1, t.pairs);
    PutInEntity(fmt, r1.dev, ENTITY, t.pairs);
    var r2 := Run(fmt, r1, pairs);
    match AddPairs(fmt, ENTITY, fmt.blank(ENTITY), t.pairs)
    case None => RunHalted(fmt, r2, rest);
    case Some(d) => RunBody(fmt, r2, d, t);
  }

  lemma RunBody<D>(fmt: Format<D>, r: Reader<D>, d: D, t: EntityTree)
    requires r.Reading? && r.state == InEntity && r.dev == EntityData(d, []) && PlainTree(t)
    requires AddPairs(fmt, ENTITY, fmt.blank(ENTITY), t.pairs) == Some(d)
    ensures Did(Run(fmt, r, NestedTokens(t.configurations) + TailTokens(t.trailing)), EntityOf(fmt, t), Start,
        LastKindOf(fmt, CONFIGURATION, t.configurations))
  {
    var nested, tail := NestedTokens(t.configurations), TailTokens(t.trailing);
    RunAppend(fmt, r, nested, tail);
    RunNested(fmt, r, d, t.configurations);
    var r1 := Run(fmt, r, nested);
    match Configurations(fmt, t.configurations)
    case Bad => RunHalted(fmt, r1, tail);
    case UpTo(cs) =>
      assert [] + cs == cs;
      RunHalted(fmt, r1, tail);
    case Whole(cs) =>
      assert [] + cs == cs;
      RunTail(fmt, r1, t.trailing);
  }

  // ---- The file as a whole -------------------------------------------------------------------

  ghost predicate NoEnd(ts: seq<Token>) {
    StreamEnd !in ts
  }

  lemma {:induction false} PairsNoEnd(ps: seq<Pair>)
    ensures NoEnd(PairTokens(ps))
  {
    if ps == [] {
    } else {
      PairsNoEnd(ps[1..]);
    }
  }

  lemma {:induction false} MembersNoEnd(ms: seq<seq<Pair>>)
    ensures NoEnd(MembersTokens(ms))
  {
    if ms == [] {
    } else {
      PairsNoEnd(ms[0]);
      MembersNoEnd(ms[1..]);
    }
  }

  lemma {:induction false} GroupsNoEnd(gs: seq<Group>)
    ensures NoEnd(GroupsTokens(gs))
  {
    if gs == [] {
    } else {
      MembersNoEnd(gs[0].members);
      GroupsNoEnd(gs[1..]);
    }
  }

  lemma {:induction false} ConfigurationsNoEnd(cs: seq<ConfigurationTree>)
    ensures NoEnd(ConfigurationsTokens(cs))
  {
    if cs == [] {
    } else {
      PairsNoEnd(cs[0].pairs);
      GroupsNoEnd(cs[0].groups);
      PairsNoEnd(cs[0].trailing);
      ConfigurationsNoEnd(cs[1..]);
    }
  }

  lemma {:induction false} UpToEndOf(ts: seq<Token>, rest: seq<Token>)
    requires NoEnd(ts)
    ensures UpToEnd(ts + rest) == ts + UpToEnd(rest)
  {
    if ts == [] {
      assert ts + rest == rest && ts + UpToEnd(rest) == UpToEnd(rest);
    } else {
      assert (ts + rest)[1..] == ts[1..] + rest;
      UpToEndOf(ts[1..], rest);
      assert [ts[0]] + (ts[1..] + UpToEnd(rest)) == ts + UpToEnd(rest);
    }
  }

  lemma WholeFile(t: EntityTree)
    ensures UpToEnd(TreeTokens(t)) == TreeTokens(t)
  {
    PairsNoEnd(t.pairs);
    ConfigurationsNoEnd(t.configurations);
    PairsNoEnd(t.trailing);
    var body := HeadTokens() + (PairTokens(t.pairs) +
      (NestedTokens(t.configurations) + (PairTokens(t.trailing) + [BlockEnd, BlockEnd, BlockEnd])));
    assert TreeTokens(t) == body + [StreamEnd];
    UpToEndOf(body, [StreamEnd]);
  }

  // What reading a file gives: the tree's entity, the part before an unknown type name, or nothing.
  lemma ReadBack<D>(fmt: Format<D>, t: EntityTree)
    requires PlainTree(t)
    ensures Outcome(Run(fmt, Fresh(fmt), UpToEnd(TreeTokens(t)))) ==
            match EntityOf(fmt, t)
            case Whole(dev) => Some(dev)
            case UpTo(dev) => Some(dev)
            case Bad => None
  {
    WholeFile(t);
    RoundTrip(fmt, t);
  }

  // ---- Pairs behind the nested block ---------------------------------------------------------

  // A format that writes down with which type each pair was read.
  datatype Entry = Entry(kind: nat, key: string, value: string)

  function Log(names: nat -> string): Format<seq<Entry>> {
    Format(names, (kind: nat, d: seq<Entry>, key: string, value: string) => Some(d + [Entry(kind, key, value)]),
      (kind: nat) => [])
  }

  function Entries(kind: nat, ps: seq<Pair>): (r: seq<Entry>)
    ensures |r| == |ps| && forall i :: 0 <= i < |ps| ==> r[i].kind == kind
  {
    if ps == [] then [] else [Entry(kind, CStr(ps[0].key), CStr(ps[0].value))] + Entries(kind, ps[1..])
  }

  lemma {:induction false} LogPairs(names: nat -> string, kind: nat, d: seq<Entry>, ps: seq<Pair>)
    ensures AddPairs(Log(names), kind, d, ps) == Some(d + Entries(kind, ps))
    decreases ps
  {
    if ps == [] {
      assert d + [] == d;
    } else {
      var e := Entry(kind, CStr(ps[0].key), CStr(ps[0].value));
      LogPairs(names, kind, d + [e], ps[1..]);
      assert d + [e] + Entries(kind, ps[1..]) == d + ([e] + Entries(kind, ps[1..]));
    }
  }

  // The pairs of a configuration are all read as a configuration's exactly when none is written behind the
  // descriptors, or the last group of descriptors happens to be of that type.
  lemma TrailingPairsReadByLastType(names: nat -> string, c: ConfigurationTree)
    requires ConfigurationOf(Log(names), c).Whole?
    ensures (forall e <- ConfigurationOf(Log(names), c).value.data :: e.kind == CONFIGURATION)
            <==> (c.trailing == [] || LastKind(Log(names), CONFIGURATION, c.groups) == CONFIGURATION)
  {
    var first, last := Entries(CONFIGURATION, c.pairs),
      Entries(LastKind(Log(names), CONFIGURATION, c.groups), c.trailing);
    LogPairs(names, CONFIGURATION, [], c.pairs);
    assert [] + first == first;
    LogPairs(names, LastKind(Log(names), CONFIGURATION, c.groups), first, c.trailing);
    assert ConfigurationOf(Log(names), c).value.data == first + last;
    if c.trailing != [] { assert last[0] in first + last; }
  }

  lemma EntityPairsReadByLastType(names: nat -> string, t: EntityTree)
    requires EntityOf(Log(names), t).Whole?
    ensures (forall e <- EntityOf(Log(names), t).value.entity :: e.kind == ENTITY)
            <==> (t.trailing == [] || LastKindOf(Log(names), CONFIGURATION, t.configurations) == ENTITY)
  {
    var first, last := Entries(ENTITY, t.pairs), Entries(LastKindOf(Log(names), CONFIGURATION, t.configurations),
      t.trailing);
    LogPairs(names, ENTITY, [], t.pairs);
    assert [] + first == first;
    LogPairs(names, LastKindOf(Log(names), CONFIGURATION, t.configurations), first, t.trailing);
    assert EntityOf(Log(names), t).value.entity == first + last;
    if t.trailing != [] { assert last[0] in first + last; }
  }

  // Behind an empty group of a known type a pair is read as one of that type.
  lemma PairBehindGroup(names: nat -> string, g: Group, p: Pair)
    requires g.members == [] && GroupKind(Log(names), g) != NUM_DESCRIPTOR_TYPES
    ensures ConfigurationOf(Log(names), ConfigurationTree([], [g], [p])) ==
            Whole(ConfigurationData(Entries(GroupKind(Log(names), g), [p]), []))
  {
    hide CStr, FindType;
    var fmt := Log(names);
    var kind := GroupKind(fmt, g);
    assert Groups(fmt, [g]) == Whole([]) by {
      var none: seq<seq<Entry>> := [];
      assert GroupOf(fmt, g) == Whole(none) && none + none == none;
      assert [g][1..] == [] && Groups(fmt, []) == Whole(none);
    }
    LogPairs(names, kind, [], [p]);
    assert [] + Entries(kind, [p]) == Entries(kind, [p]);
  }
}
