// How the stream records of every configuration are allocated and numbered before ACMP starts.
module AcmpTables {
  import opened AcmpTypes

  // The indices of the descriptors of one type, in list order.
  function IndicesOf(ds: seq<Descriptor>, t: nat): (r: seq<nat>)
    ensures |r| <= |ds|
  {
    if ds == [] then []
    else
      var rest := IndicesOf(ds[..|ds| - 1], t);
      var d := ds[|ds| - 1];
      if d.descriptorType == t then rest + [d.descriptorIndex] else rest
  }

  function Inputs(ds: seq<Descriptor>): nat { |IndicesOf(ds, STREAM_INPUT)| }

  // The counter is not cleared between configurations, so a table also gets one record
  // for every stream input of the configuration before it.
  function TableLength(configs: seq<seq<Descriptor>>, c: nat): nat
    requires c < |configs|
  {
    Inputs(configs[c]) + if c > 0 then Inputs(configs[c - 1]) else 0
  }

  function Record(ids: seq<nat>, k: nat): ListenerInfo {
    ZERO_LISTENER.(listenerUniqueId := if k < |ids| then ids[k] else 0)
  }

  ghost predicate IsTable(table: seq<ListenerInfo>, ds: seq<Descriptor>) {
    var ids := IndicesOf(ds, STREAM_INPUT);
    |ids| <= |table| && forall k :: 0 <= k < |table| ==> table[k] == Record(ids, k)
  }

  method CtxInit(configs: seq<seq<Descriptor>>) returns (tables: seq<array<ListenerInfo>>)
    ensures |tables| == |configs| && forall c :: 0 <= c < |tables| ==> fresh(tables[c])
    ensures forall c :: 0 <= c < |tables| ==>
      tables[c].Length == TableLength(configs, c) && IsTable(tables[c][..], configs[c])
  {
    tables := [];
    var inputCount := 0;
    var c := 0;
    while c < |configs|
      invariant c <= |configs| && |tables| == c
      invariant inputCount == if c > 0 then Inputs(configs[c - 1]) else 0
      invariant forall d :: 0 <= d < c ==> fresh(tables[d])
      invariant forall d :: 0 <= d < c ==>
        tables[d].Length == TableLength(configs, d) && IsTable(tables[d][..], configs[d])
    {
      var ds := configs[c];
      var carried := inputCount;
      var k := 0;
      while k < |ds|
        invariant k <= |ds|
        invariant inputCount == carried + |IndicesOf(ds[..k], STREAM_INPUT)|
      {
        assert ds[..k + 1][..k] == ds[..k];
        if ds[k].descriptorType == STREAM_INPUT { inputCount := inputCount + 1; }
        k := k + 1;
      }
      assert ds[..k] == ds;
      var infos := FillTable(ds, inputCount);
      tables := tables + [infos];
      inputCount := Inputs(ds);
      c := c + 1;
    }
  }

  method FillTable(ds: seq<Descriptor>, length: nat) returns (infos: array<ListenerInfo>)
    requires Inputs(ds) <= length
    ensures fresh(infos) && infos.Length == length && IsTable(infos[..], ds)
  {
    infos := new ListenerInfo[length](_ => ZERO_LISTENER);
    var inputCount := 0;
    var k := 0;
    PrefixBound(ds, 0);
    while k < |ds|
      invariant k <= |ds|
      invariant inputCount == |IndicesOf(ds[..k], STREAM_INPUT)| <= Inputs(ds)
      invariant forall m :: 0 <= m < length ==> infos[m] == Record(IndicesOf(ds[..k], STREAM_INPUT), m)
    {
      assert ds[..k + 1][..k] == ds[..k];
      PrefixBound(ds, k + 1);
      if ds[k].descriptorType == STREAM_INPUT {
        infos[inputCount] := infos[inputCount].(listenerUniqueId := ds[k].descriptorIndex);
        inputCount := inputCount + 1;
      }
      k := k + 1;
    }
    assert ds[..k] == ds;
  }

  lemma {:induction false} PrefixBound(ds: seq<Descriptor>, k: nat)
    requires k <= |ds|
    ensures |IndicesOf(ds[..k], STREAM_INPUT)| <= Inputs(ds)
    decreases |ds| - k
  {
    if k == |ds| {
      assert ds[..k] == ds;
    } else {
      assert ds[..k + 1][..k] == ds[..k];
      PrefixBound(ds, k + 1);
    }
  }

  // With one stream input in each of two configurations the second table has a record too many, which carries the
  // unique id of the first.
  lemma SecondTableTooLong(table: seq<ListenerInfo>)
    requires var configs := [[Descriptor(STREAM_INPUT, 0)], [Descriptor(STREAM_INPUT, 0)]];
      |table| == TableLength(configs, 1) && IsTable(table, configs[1])
    ensures |table| == 2 && table[0].listenerUniqueId == table[1].listenerUniqueId == 0
  {
    var ds := [Descriptor(STREAM_INPUT, 0)];
    assert ds[..0] == [] && IndicesOf(ds, STREAM_INPUT) == [0];
    assert table[0] == Record([0], 0) && table[1] == Record([0], 1);
  }

  // A table is as long as its stream inputs if and only if the configuration before it has none.
  lemma TableFits(configs: seq<seq<Descriptor>>, c: nat)
    requires c < |configs|
    ensures TableLength(configs, c) == |IndicesOf(configs[c], STREAM_INPUT)|
      <==> c == 0 || STREAM_INPUT !in Types(configs[c - 1])
  {
    if c > 0 { NoIndices(configs[c - 1], STREAM_INPUT); }
  }

  function Types(ds: seq<Descriptor>): set<nat> { set d | d in ds :: d.descriptorType }

  lemma {:induction false} NoIndices(ds: seq<Descriptor>, t: nat)
    ensures IndicesOf(ds, t) == [] <==> t !in Types(ds)
  {
    if ds == [] {
    } else {
      NoIndices(ds[..|ds| - 1], t);
      assert ds == ds[..|ds| - 1] + [ds[|ds| - 1]];
    }
  }

  // What numbering the descriptors of each type from zero gives (see EntityTables.Numbered).
  ghost predicate InputsNumbered(ds: seq<Descriptor>) {
    var ids := IndicesOf(ds, STREAM_INPUT);
    && |ids| < 256
    && forall k :: 0 <= k < |ids| ==> ids[k] == k
  }
}
