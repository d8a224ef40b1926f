// The second pass over a device entity: numbering the descriptors and counting them per type; and their look-up.
module EntityTables {
  import opened AcmpTypes

  const ENTITY := 0
  const CONFIGURATION := 1
  const AUDIO_UNIT := 2
  const VIDEO_UNIT := 3
  const JACK_INPUT := 7
  const JACK_OUTPUT := 8
  const AVB_INTERFACE := 9
  const CLOCK_SOURCE := 0xA
  const LOCALE := 0xC
  const STRINGS := 0xD
  const STREAM_PORT_INPUT := 0xE
  const STREAM_PORT_OUTPUT := 0xF
  const AUDIO_CLUSTER := 0x14
  const VIDEO_CLUSTER := 0x15
  const AUDIO_MAP := 0x17
  const VIDEO_MAP := 0x18
  const CLOCK_DOMAIN := 0x24
  const NUM_DESCRIPTOR_TYPES := 0x26

  const UINT16 := 0x1_0000     // indices and counts are sixteen bits wide

  function Low16(n: nat): (r: nat)
    ensures r < UINT16 && (n < UINT16 ==> r == n)
  {
    n % UINT16
  }

  datatype Count = Count(descriptorType: nat, count: nat)

  datatype Configuration = Configuration(index: nat, counts: seq<Count>, descriptors: seq<Descriptor>)

  predicate Supported(t: nat) {
    || t == AUDIO_UNIT || t == VIDEO_UNIT || t == STREAM_INPUT || t == STREAM_OUTPUT
    || t == JACK_INPUT || t == JACK_OUTPUT || t == AVB_INTERFACE || t == CLOCK_SOURCE
    || t == LOCALE || t == STRINGS || t == STREAM_PORT_INPUT || t == STREAM_PORT_OUTPUT
    || t == AUDIO_CLUSTER || t == VIDEO_CLUSTER || t == AUDIO_MAP || t == VIDEO_MAP || t == CLOCK_DOMAIN
  }

  // The codes of these types in the table of IEEE 1722.1; the others are not numbered.
  lemma SupportedCodes(t: nat)
    ensures Supported(t) <==> t in {2, 3, 5, 6, 7, 8, 9, 10, 12, 13, 14, 15, 20, 21, 23, 24, 36}
  {}

  // ---- Specification -------------------------------------------------------------------------

  // How many descriptors of a type there are.
  function CountOf(ds: seq<Descriptor>, t: nat): (r: nat)
    ensures r <= |ds|
  {
    if ds == [] then 0
    else CountOf(ds[..|ds| - 1], t) + if ds[|ds| - 1].descriptorType == t then 1 else 0
  }

  // Every descriptor of a supported type is numbered by the descriptors of its type before it.
  function Renumbered(ds: seq<Descriptor>, j: nat): Descriptor
    requires j < |ds|
  {
    if Supported(ds[j].descriptorType)
    then ds[j].(descriptorIndex := Low16(CountOf(ds[..j], ds[j].descriptorType)))
    else ds[j]
  }

  ghost predicate IsNumbered(before: seq<Descriptor>, after: seq<Descriptor>) {
    |after| == |before| && forall j :: 0 <= j < |before| ==> after[j] == Renumbered(before, j)
  }

  // The entries of the count table for the types below k.
  function CountsBelow(ds: seq<Descriptor>, k: nat): (r: seq<Count>)
    ensures |r| <= k
  {
    if k == 0 then []
    else
      CountsBelow(ds, k - 1) +
      if Supported(k - 1) && CountOf(ds, k - 1) != 0 then [Count(k - 1, Low16(CountOf(ds, k - 1)))] else []
  }

  // How many entries are allocated: one each time a type's index is zero.
  function Allocated(ds: seq<Descriptor>): nat {
    if ds == [] then 0
    else
      var d := ds[|ds| - 1];
      var n := CountOf(ds[..|ds| - 1], d.descriptorType);
      Allocated(ds[..|ds| - 1]) + if Supported(d.descriptorType) && Low16(n) == 0 then 1 else 0
  }

  // The table: the entries written, and cleared ones behind them if more were allocated.
  ghost predicate IsCountTable(counts: seq<Count>, ds: seq<Descriptor>) {
    var written := CountsBelow(ds, NUM_DESCRIPTOR_TYPES);
    && |counts| == Allocated(ds) >= |written|
    && (forall k :: 0 <= k < |written| ==> counts[k] == written[k])
    && (forall k :: |written| <= k < |counts| ==> counts[k] == Count(0, 0))
  }

  // A configuration after the pass.
  ghost predicate IsSetUp(before: Configuration, after: Configuration, c: nat) {
    after.index == Low16(c) && IsNumbered(before.descriptors, after.descriptors)
      && IsCountTable(after.counts, before.descriptors)
  }

  // ---- Look-up -------------------------------------------------------------------------------

  datatype Found = EntityItself | ConfigurationAt(c: nat) | DescriptorAt(c: nat, j: nat) | NotFound

  // The first descriptor from position `from` on with this type and index.
  function FirstDescriptor(ds: seq<Descriptor>, t: nat, i: nat, from: nat): (j: nat)
    requires from <= |ds|
    ensures from <= j <= |ds|
    ensures j < |ds| ==> ds[j].descriptorType == t && ds[j].descriptorIndex == i
    ensures forall k :: from <= k < j ==> !(ds[k].descriptorType == t && ds[k].descriptorIndex == i)
    decreases |ds| - from
  {
    if from == |ds| || (ds[from].descriptorType == t && ds[from].descriptorIndex == i) then from
    else FirstDescriptor(ds, t, i, from + 1)
  }

  function FirstConfiguration(cs: seq<Configuration>, i: nat, from: nat): (c: nat)
    requires from <= |cs|
    ensures from <= c <= |cs|
    ensures c < |cs| ==> cs[c].index == i
    ensures forall k :: from <= k < c ==> cs[k].index != i
    decreases |cs| - from
  {
    if from == |cs| || cs[from].index == i then from else FirstConfiguration(cs, i, from + 1)
  }

  // Every configuration with this index is searched, in order.
  function Search(cs: seq<Configuration>, c: nat, t: nat, i: nat, from: nat): Found
    requires from <= |cs|
    decreases |cs| - from
  {
    if from == |cs| then NotFound
    else
      var j := FirstDescriptor(cs[from].descriptors, t, i, 0);
      if cs[from].index == c && j < |cs[from].descriptors| then DescriptorAt(from, j) else Search(cs, c, t, i, from + 1)
  }

  function Lookup(entityIndex: nat, cs: seq<Configuration>, c: nat, t: nat, i: nat): Found {
    if t == ENTITY then (if entityIndex == i then EntityItself else NotFound)
    else if t == CONFIGURATION then
      var k := FirstConfiguration(cs, i, 0);
      if k < |cs| then ConfigurationAt(k) else NotFound
    else Search(cs, c, t, i, 0)
  }

  // ---- What a look-up finds ------------------------------------------------------------------

  // Configuration k is the first with this index.
  ghost predicate IsConfiguration(cs: seq<Configuration>, i: nat, k: nat) {
    k < |cs| && cs[k].index == i && forall m :: 0 <= m < k ==> cs[m].index != i
  }

  // Descriptor j of configuration k, which has index c, has this type and index.
  predicate Fits(cs: seq<Configuration>, c: nat, t: nat, i: nat, k: nat, j: nat) {
    k < |cs| && cs[k].index == c && j < |cs[k].descriptors| && cs[k].descriptors[j] == Descriptor(t, i)
  }

  // It is the first, configuration by configuration.
  ghost predicate IsDescriptor(cs: seq<Configuration>, c: nat, t: nat, i: nat, k: nat, j: nat) {
    && Fits(cs, c, t, i, k, j)
    && (forall m: nat :: m < j ==> !Fits(cs, c, t, i, k, m))
    && forall l: nat, m: nat :: l < k ==> !Fits(cs, c, t, i, l, m)
  }

  // The entity by its own index, a configuration or a descriptor by the first in list order that fits.
  ghost predicate Finds(found: Found, entityIndex: nat, cs: seq<Configuration>, c: nat, t: nat, i: nat) {
    match found
    case EntityItself => t == ENTITY && i == entityIndex
    case ConfigurationAt(k) => t == CONFIGURATION && IsConfiguration(cs, i, k)
    case DescriptorAt(k, j) => t != ENTITY && t != CONFIGURATION && IsDescriptor(cs, c, t, i, k, j)
    case NotFound =>
      && (t == ENTITY ==> i != entityIndex)
      && (t == CONFIGURATION ==> forall k: nat :: !IsConfiguration(cs, i, k))
      && (t != ENTITY && t != CONFIGURATION ==> forall k: nat, j: nat :: !Fits(cs, c, t, i, k, j))
  }

  lemma {:induction false} SearchFinds(cs: seq<Configuration>, c: nat, t: nat, i: nat, from: nat)
    requires from <= |cs| && t != ENTITY && t != CONFIGURATION
    requires forall l: nat, m: nat :: l < from ==> !Fits(cs, c, t, i, l, m)
    ensures Finds(Search(cs, c, t, i, from), 0, cs, c, t, i)
    decreases |cs| - from
  {
    if from < |cs| {
      var ds := cs[from].descriptors;
      var j := FirstDescriptor(ds, t, i, 0);
      forall m: nat | m < j ensures !Fits(cs, c, t, i, from, m) {}
      if cs[from].index == c && j < |ds| {
        assert IsDescriptor(cs, c, t, i, from, j);
      } else {
        SearchFinds(cs, c, t, i, from + 1);
      }
    }
  }

  // There is exactly one answer, and the look-up gives it.
  lemma LookupFinds(entityIndex: nat, cs: seq<Configuration>, c: nat, t: nat, i: nat)
    ensures Finds(Lookup(entityIndex, cs, c, t, i), entityIndex, cs, c, t, i)
    ensures forall found :: Finds(found, entityIndex, cs, c, t, i) ==> found == Lookup(entityIndex, cs, c, t, i)
  {
    var answer := Lookup(entityIndex, cs, c, t, i);
    assert Finds(answer, entityIndex, cs, c, t, i) by {
      if t != ENTITY && t != CONFIGURATION { SearchFinds(cs, c, t, i, 0); }
    }
    hide Lookup;
    forall found | Finds(found, entityIndex, cs, c, t, i) ensures found == answer {
      if found.DescriptorAt? && answer.DescriptorAt? {
        assert Fits(cs, c, t, i, found.c, found.j) && Fits(cs, c, t, i, answer.c, answer.j);
      }
    }
  }

  // ---- The allocation is always large enough -------------------------------------------------

  function Blocks(n: nat): nat { (n + UINT16 - 1) / UINT16 }

  function BlocksBelow(ds: seq<Descriptor>, k: nat): nat {
    if k == 0 then 0 else BlocksBelow(ds, k - 1) + if Supported(k - 1) then Blocks(CountOf(ds, k - 1)) else 0
  }

  lemma {:induction false} BlocksOfNone(k: nat)
    ensures BlocksBelow([], k) == 0
  {
    if k == 0 {
    } else {
      BlocksOfNone(k - 1);
    }
  }

  lemma {:induction false} BlocksStep(ds: seq<Descriptor>, k: nat)
    requires ds != []
    ensures var d := ds[|ds| - 1];
      BlocksBelow(ds, k) == BlocksBelow(ds[..|ds| - 1], k) +
        if d.descriptorType < k && Supported(d.descriptorType)
          && Low16(CountOf(ds[..|ds| - 1], d.descriptorType)) == 0 then 1 else 0
  {
    if k == 0 {
    } else {
      BlocksStep(ds, k - 1);
    }
  }

  lemma {:induction false} AllocatedIsBlocks(ds: seq<Descriptor>)
    ensures Allocated(ds) == BlocksBelow(ds, NUM_DESCRIPTOR_TYPES)
  {
    if ds == [] {
      BlocksOfNone(NUM_DESCRIPTOR_TYPES);
    } else {
      AllocatedIsBlocks(ds[..|ds| - 1]);
      BlocksStep(ds, NUM_DESCRIPTOR_TYPES);
    }
  }

  lemma {:induction false} EntriesVersusBlocks(ds: seq<Descriptor>, k: nat)
    ensures |CountsBelow(ds, k)| <= BlocksBelow(ds, k)
    ensures |CountsBelow(ds, k)| == BlocksBelow(ds, k) <==>
      forall t: nat :: t < k && Supported(t) ==> CountOf(ds, t) <= UINT16
  {
    if k == 0 {
    } else {
      EntriesVersusBlocks(ds, k - 1);
    }
  }

  lemma NoneYet()
    ensures Allocated([]) == 0 && forall t: nat :: CountOf([], t) == 0
  {}

  // One more descriptor.
  lemma CountStep(ds: seq<Descriptor>, j: nat)
    requires j < |ds|
    ensures var d := ds[j].descriptorType;
      && (forall t: nat :: CountOf(ds[..j + 1], t) == CountOf(ds[..j], t) + if t == d then 1 else 0)
      && Allocated(ds[..j + 1]) == Allocated(ds[..j]) + if Supported(d) && Low16(CountOf(ds[..j], d)) == 0 then 1 else 0
  {
    assert ds[..j + 1][..j] == ds[..j];
  }

  // Exactly as many entries are written as were allocated, unless a type has more than 65536 descriptors.
  lemma TableFillsAllocation(ds: seq<Descriptor>)
    ensures |CountsBelow(ds, NUM_DESCRIPTOR_TYPES)| <= Allocated(ds)
    ensures |CountsBelow(ds, NUM_DESCRIPTOR_TYPES)| == Allocated(ds) <==>
      forall t: nat :: Supported(t) ==> CountOf(ds, t) <= UINT16
  {
    AllocatedIsBlocks(ds);
    EntriesVersusBlocks(ds, NUM_DESCRIPTOR_TYPES);
  }

  function AudioUnits(n: nat): (r: seq<Descriptor>)
    ensures |r| == n
  {
    seq(n, _ => Descriptor(AUDIO_UNIT, 0))
  }

  lemma {:induction false} CountAudioUnits(n: nat)
    ensures CountOf(AudioUnits(n), AUDIO_UNIT) == n
  {
    if n == 0 {
    } else {
      assert AudioUnits(n)[..n - 1] == AudioUnits(n - 1);
      CountAudioUnits(n - 1);
    }
  }

  // One audio unit too many, and an entry is allocated that is not written.
  lemma EntryNotWritten()
    ensures |CountsBelow(AudioUnits(UINT16 + 1), NUM_DESCRIPTOR_TYPES)| < Allocated(AudioUnits(UINT16 + 1))
  {
    hide CountsBelow, Allocated;
    CountAudioUnits(UINT16 + 1);
    TableFillsAllocation(AudioUnits(UINT16 + 1));
    assert Supported(AUDIO_UNIT);
  }

  // ---- The pass ------------------------------------------------------------------------------

  class DeviceEntity {
    var entityIndex: nat
    var configurationsCount: nat
    var configurations: seq<Configuration>

    constructor (configurations: seq<Configuration>)
      ensures this.configurations == configurations
    {
      this.configurations := configurations;
      entityIndex, configurationsCount := 0, 0;
    }

    // Numbers the descriptors of one configuration and counts them per type.
    method NumberDescriptors(ds: seq<Descriptor>)
      returns (numbered: seq<Descriptor>, descNums: array<nat>, descCountsCount: nat)
      ensures IsNumbered(ds, numbered) && descCountsCount == Allocated(ds)
      ensures fresh(descNums) && descNums.Length == NUM_DESCRIPTOR_TYPES
      ensures forall t: nat :: t < NUM_DESCRIPTOR_TYPES ==> descNums[t] == if Supported(t) then CountOf(ds, t) else 0
    {
      hide CountOf, Allocated;
      NoneYet();
      descNums := new nat[NUM_DESCRIPTOR_TYPES](_ => 0);
      descCountsCount := 0;
      numbered := ds;
      var j := 0;
      while j < |ds|
        invariant 0 <= j <= |ds| == |numbered|
        invariant forall k :: 0 <= k < |ds| ==> numbered[k] == if k < j then Renumbered(ds, k) else ds[k]
        invariant descCountsCount == Allocated(ds[..j])
        invariant forall t: nat :: t < NUM_DESCRIPTOR_TYPES ==>
          descNums[t] == if Supported(t) then CountOf(ds[..j], t) else 0
      {
        CountStep(ds, j);
        var descType := numbered[j].descriptorType;
        if Supported(descType) {
          var descIndex := Low16(descNums[descType]);
          descNums[descType] := descNums[descType] + 1;
          if descIndex == 0 { descCountsCount := descCountsCount + 1; }
          numbered := numbered[j := numbered[j].(descriptorIndex := descIndex)];
        }
        j := j + 1;
      }
      assert ds[..j] == ds;
    }

    // Allocates the count table and fills it in ascending order of the types.
    method FillCounts(ghost ds: seq<Descriptor>, descNums: array<nat>, descCountsCount: nat)
      returns (counts: array<Count>)
      requires descCountsCount == Allocated(ds) && descNums.Length == NUM_DESCRIPTOR_TYPES
      requires forall t: nat :: t < NUM_DESCRIPTOR_TYPES ==> descNums[t] == if Supported(t) then CountOf(ds, t) else 0
      ensures fresh(counts) && IsCountTable(counts[..], ds)
    {
      hide CountOf, CountsBelow, Supported, Allocated;
      assert |CountsBelow(ds, NUM_DESCRIPTOR_TYPES)| <= descCountsCount by { TableFillsAllocation(ds); }
      counts := new Count[descCountsCount](_ => Count(0, 0));
      var next := 0;
      var i := 0;
      while i < NUM_DESCRIPTOR_TYPES
        invariant 0 <= i <= NUM_DESCRIPTOR_TYPES && next == |CountsBelow(ds, i)| <= counts.Length
        invariant forall k :: 0 <= k < counts.Length ==>
          counts[k] == if k < next then CountsBelow(ds, i)[k] else Count(0, 0)
      {
        assert |CountsBelow(ds, i + 1)| <= counts.Length by { CountsGrow(ds, i + 1, NUM_DESCRIPTOR_TYPES); }
        ghost var before, after := CountsBelow(ds, i), CountsBelow(ds, i + 1);
        CountsStep(ds, i);
        assert after == before + if descNums[i] != 0 then [Count(i, Low16(descNums[i]))] else [];
        if descNums[i] != 0 {
          counts[next] := Count(i, Low16(descNums[i]));
          next := next + 1;
        }
        i := i + 1;
      }
    }

    // The search for a descriptor by configuration, type and index.
    method AecpValidDescriptor(c: nat, t: nat, i: nat) returns (found: Found)
      ensures found == Lookup(entityIndex, configurations, c, t, i)
      ensures Finds(found, entityIndex, configurations, c, t, i)
      ensures t == ENTITY ==> found == if i == entityIndex then EntityItself else NotFound
    {
      LookupFinds(entityIndex, configurations, c, t, i);
      if t == ENTITY {
        if entityIndex == i { return EntityItself; }
      } else if t == CONFIGURATION {
        var k := 0;
        while k < |configurations|
          invariant 0 <= k <= |configurations|
          invariant FirstConfiguration(configurations, i, 0) == FirstConfiguration(configurations, i, k)
        {
          if configurations[k].index == i { return ConfigurationAt(k); }
          k := k + 1;
        }
      } else {
        var k := 0;
        while k < |configurations|
          invariant 0 <= k <= |configurations|
          invariant Search(configurations, c, t, i, 0) == Search(configurations, c, t, i, k)
        {
          if configurations[k].index == c {
            var ds := configurations[k].descriptors;
            var j := 0;
            while j < |ds|
              invariant 0 <= j <= |ds| && FirstDescriptor(ds, t, i, 0) == FirstDescriptor(ds, t, i, j)
            {
              if ds[j].descriptorType == t && ds[j].descriptorIndex == i { return DescriptorAt(k, j); }
              j := j + 1;
            }
          }
          k := k + 1;
        }
      }
      return NotFound;
    }

    method SetupDescriptorData()
      modifies this
      ensures entityIndex == 0 && configurationsCount == Low16(|configurations|)
      ensures |configurations| == |old(configurations)|
      ensures forall c :: 0 <= c < |configurations| ==> IsSetUp(old(configurations)[c], configurations[c], c)
    {
      entityIndex := 0;
      var configurationCount := 0;
      while configurationCount < |configurations|
        invariant 0 <= configurationCount <= |configurations| == |old(configurations)| && entityIndex == 0
        invariant forall c :: 0 <= c < configurationCount ==> IsSetUp(old(configurations)[c], configurations[c], c)
        invariant forall c :: configurationCount <= c < |configurations| ==> configurations[c] == old(configurations)[c]
      {
        var ds := configurations[configurationCount].descriptors;
        var numbered, descNums, descCountsCount := NumberDescriptors(ds);
        var counts := FillCounts(ds, descNums, descCountsCount);
        configurations := configurations[configurationCount := Configuration(Low16(configurationCount), counts[..],
          numbered)];
        configurationCount := configurationCount + 1;
      }
      configurationsCount := Low16(configurationCount);
    }
  }

  lemma CountsStep(ds: seq<Descriptor>, i: nat)
    ensures CountsBelow(ds, i + 1) == CountsBelow(ds, i) +
      if Supported(i) && CountOf(ds, i) != 0 then [Count(i, Low16(CountOf(ds, i)))] else []
  {}

  lemma {:induction false} CountsGrow(ds: seq<Descriptor>, k: nat, n: nat)
    requires k <= n
    ensures |CountsBelow(ds, k)| <= |CountsBelow(ds, n)|
    decreases n - k
  {
    if k >= n {
    } else {
      CountsGrow(ds, k + 1, n);
    }
  }

  // ---- The count table -----------------------------------------------------------------------

  // The count a table gives for a type: that of its first entry, zero when there is none.
  function Advertised(counts: seq<Count>, t: nat): nat {
    if counts == [] then 0 else if counts[0].descriptorType == t then counts[0].count else Advertised(counts[1..], t)
  }

  // The entries are for types that are present, in strictly ascending order, ...
  lemma {:induction false} CountsAscend(ds: seq<Descriptor>, k: nat)
    ensures forall a :: 0 <= a < |CountsBelow(ds, k)| ==> IsEntry(CountsBelow(ds, k)[a], ds, k)
    ensures forall a, b :: 0 <= a < b < |CountsBelow(ds, k)| ==>
      CountsBelow(ds, k)[a].descriptorType < CountsBelow(ds, k)[b].descriptorType
  {
    if k == 0 {
    } else {
      CountsAscend(ds, k - 1);
    }
  }

  ghost predicate IsEntry(e: Count, ds: seq<Descriptor>, k: nat) {
    e.descriptorType < k && Supported(e.descriptorType) && CountOf(ds, e.descriptorType) != 0
    && e.count == Low16(CountOf(ds, e.descriptorType))
  }

  // ... and every type present has one.
  lemma {:induction false} EntryOf(ds: seq<Descriptor>, k: nat, t: nat) returns (a: nat)
    requires t < k && Supported(t) && CountOf(ds, t) != 0
    ensures a < |CountsBelow(ds, k)| && CountsBelow(ds, k)[a] == Count(t, Low16(CountOf(ds, t)))
  {
    if t == k - 1 { a := |CountsBelow(ds, k - 1)|; } else { a := EntryOf(ds, k - 1, t); }
  }

  lemma {:induction false} AdvertisedAt(counts: seq<Count>, t: nat, a: nat)
    requires a < |counts| && counts[a].descriptorType == t
    requires forall b :: 0 <= b < a ==> counts[b].descriptorType != t
    ensures Advertised(counts, t) == counts[a].count
  {
    if a == 0 {
    } else {
      AdvertisedAt(counts[1..], t, a - 1);
    }
  }

  lemma {:induction false} AdvertisedNowhere(counts: seq<Count>, t: nat)
    requires forall b :: 0 <= b < |counts| ==> counts[b].descriptorType != t
    ensures Advertised(counts, t) == 0
  {
    if counts == [] {
    } else {
      AdvertisedNowhere(counts[1..], t);
    }
  }

  lemma AdvertisedIsCount(counts: seq<Count>, ds: seq<Descriptor>, t: nat)
    requires IsCountTable(counts, ds) && Supported(t)
    ensures Advertised(counts, t) == Low16(CountOf(ds, t))
  {
    var written := CountsBelow(ds, NUM_DESCRIPTOR_TYPES);
    CountsAscend(ds, NUM_DESCRIPTOR_TYPES);
    if CountOf(ds, t) != 0 {
      var a := EntryOf(ds, NUM_DESCRIPTOR_TYPES, t);
      AdvertisedAt(counts, t, a);
    } else {
      AdvertisedNowhere(counts, t);
    }
  }

  // ---- Counts and positions ------------------------------------------------------------------

  lemma {:induction false} CountGrows(ds: seq<Descriptor>, t: nat, j: nat, k: nat)
    requires j <= k <= |ds|
    ensures CountOf(ds[..j], t) <= CountOf(ds[..k], t)
    ensures j < k && ds[j].descriptorType == t ==> CountOf(ds[..j], t) < CountOf(ds[..k], t)
    decreases k - j
  {
    if j >= k {
    } else {
      assert ds[..j + 1][..j] == ds[..j];
      CountGrows(ds, t, j + 1, k);
    }
  }

  // The i-th descriptor of a type.
  lemma {:induction false} Nth(ds: seq<Descriptor>, t: nat, i: nat) returns (j: nat)
    requires i < CountOf(ds, t)
    ensures j < |ds| && ds[j].descriptorType == t && CountOf(ds[..j], t) == i
  {
    var n := |ds| - 1;
    if i < CountOf(ds[..n], t) {
      j := Nth(ds[..n], t, i);
      assert ds[..n][..j] == ds[..j];
    } else {
      j := n;
    }
  }

  // Looking for index i of a supported type finds its i-th descriptor, if there are that many.
  lemma FindNumbered(before: seq<Descriptor>, after: seq<Descriptor>, t: nat, i: nat)
    requires IsNumbered(before, after) && Supported(t) && i < UINT16
    ensures var j := FirstDescriptor(after, t, i, 0);
      && (j < |after| <==> i < CountOf(before, t))
      && (j < |after| ==> before[j].descriptorType == t && CountOf(before[..j], t) == i)
  {
    var j := FirstDescriptor(after, t, i, 0);
    assert before[..|before|] == before;
    if j < |after| { CountGrows(before, t, j, |before|); }
    if i < CountOf(before, t) {
      var n := Nth(before, t, i);
      assert after[n] == Renumbered(before, n);
      assert j <= n;
      CountGrows(before, t, j, n);
    }
  }

  // ---- Advertised counts are what can be read ------------------------------------------------

  ghost predicate AllSetUp(before: seq<Configuration>, after: seq<Configuration>) {
    |after| == |before| && forall c :: 0 <= c < |before| ==> IsSetUp(before[c], after[c], c)
  }

  // A configuration can be read exactly when its number is below the advertised number of configurations, and
  // a descriptor exactly when, besides, its index is below the count advertised for its type.
  ghost predicate Agrees(cs: seq<Configuration>, configurationsCount: nat) {
    && (forall c: nat :: c < UINT16 ==> (Readable(cs, c, CONFIGURATION, c) <==> c < configurationsCount))
    && (forall c: nat, t: nat, i: nat :: c < UINT16 && Supported(t) && i < UINT16 ==>
          (Readable(cs, c, t, i) <==> c < configurationsCount && c < |cs| && i < Advertised(cs[c].counts, t)))
  }

  predicate Readable(cs: seq<Configuration>, c: nat, t: nat, i: nat) {
    Lookup(0, cs, c, t, i) != NotFound
  }

  ghost predicate Countable(cs: seq<Configuration>) {
    |cs| < UINT16 && forall c, t: nat :: 0 <= c < |cs| && Supported(t) ==> CountOf(cs[c].descriptors, t) < UINT16
  }

  lemma {:induction false} SearchOnly(cs: seq<Configuration>, c: nat, t: nat, i: nat, from: nat)
    requires from <= |cs| <= UINT16 && forall k :: 0 <= k < |cs| ==> cs[k].index == k
    ensures Search(cs, c, t, i, from) ==
      if from <= c < |cs| && FirstDescriptor(cs[c].descriptors, t, i, 0) < |cs[c].descriptors|
      then DescriptorAt(c, FirstDescriptor(cs[c].descriptors, t, i, 0)) else NotFound
    decreases |cs| - from
  {
    if from >= |cs| {
    } else {
      SearchOnly(cs, c, t, i, from + 1);
    }
  }

  // Reading descriptor i of a type gives the i-th of that type, in list order.
  lemma ReadsNth(before: seq<Configuration>, after: seq<Configuration>, c: nat, t: nat, i: nat)
    requires AllSetUp(before, after) && |before| < UINT16 && Supported(t) && i < UINT16
    ensures var found := Lookup(0, after, c, t, i);
      if c < |before| && i < CountOf(before[c].descriptors, t) then
        && found.DescriptorAt? && found.c == c && found.j < |before[c].descriptors|
        && before[c].descriptors[found.j].descriptorType == t && CountOf(before[c].descriptors[..found.j], t) == i
      else found == NotFound
  {
    SearchOnly(after, c, t, i, 0);
    if c < |before| { FindNumbered(before[c].descriptors, after[c].descriptors, t, i); }
  }

  // After the pass the entity is read under index 0, and configuration i under index i.
  lemma ReadsConfigurations(before: seq<Configuration>, after: seq<Configuration>, c: nat, i: nat)
    requires AllSetUp(before, after) && i < UINT16
    ensures Lookup(0, after, c, ENTITY, i) == if i == 0 then EntityItself else NotFound
    ensures Lookup(0, after, c, CONFIGURATION, i) == if i < |before| then ConfigurationAt(i) else NotFound
  {
    LookupFinds(0, after, c, ENTITY, i);
    LookupFinds(0, after, c, CONFIGURATION, i);
    forall k | 0 <= k < |after| && k < UINT16 ensures after[k].index == k { assert IsSetUp(before[k], after[k], k); }
    if i < |after| { assert IsConfiguration(after, i, i); }
  }

  // The counts agree with what can be read exactly when there are at most 65535 configurations and at most
  // 65535 descriptors of each supported type in each of them.
  lemma AdvertisedCountsAgree(before: seq<Configuration>, after: seq<Configuration>)
    requires AllSetUp(before, after)
    ensures Agrees(after, Low16(|after|)) <==> Countable(before)
  {
    if Countable(before) { CountableAgrees(before, after); }
    if Agrees(after, Low16(|after|)) { AgreesCountable(before, after); }
  }

  lemma AgreesAt(before: seq<Configuration>, after: seq<Configuration>, c: nat, t: nat, i: nat)
    requires AllSetUp(before, after) && Countable(before) && Supported(t) && i < UINT16
    ensures Readable(after, c, t, i) <==> c < |after| && i < Advertised(after[c].counts, t)
  {
    ReadsNth(before, after, c, t, i);
    if c < |after| { AdvertisedIsCount(after[c].counts, before[c].descriptors, t); }
  }

  lemma CountableAgrees(before: seq<Configuration>, after: seq<Configuration>)
    requires AllSetUp(before, after) && Countable(before)
    ensures Agrees(after, Low16(|after|))
  {
    forall c: nat | c < UINT16 ensures Readable(after, c, CONFIGURATION, c) <==> c < |after| {
      if c < |after| { assert after[c].index == c; }
    }
    forall c: nat, t: nat, i: nat | c < UINT16 && Supported(t) && i < UINT16
      ensures Readable(after, c, t, i) <==> c < |after| && i < Advertised(after[c].counts, t)
    {
      AgreesAt(before, after, c, t, i);
    }
  }

  lemma AgreesCountable(before: seq<Configuration>, after: seq<Configuration>)
    requires AllSetUp(before, after) && Agrees(after, Low16(|after|))
    ensures Countable(before)
  {
    var top := UINT16 - 1;
    if |before| >= UINT16 {
      assert after[top].index == top;
      assert Readable(after, top, CONFIGURATION, top);
      assert false;
    }
    forall c, t: nat | 0 <= c < |before| && Supported(t) ensures CountOf(before[c].descriptors, t) < UINT16 {
      if CountOf(before[c].descriptors, t) >= UINT16 {
        ReadsNth(before, after, c, t, top);
        assert Readable(after, c, t, top);
        AdvertisedIsCount(after[c].counts, before[c].descriptors, t);
        assert false;
      }
    }
  }
}
