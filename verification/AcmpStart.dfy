// From the description of an entity to the first state of its listener: what the numbering pass and the
// allocation of the stream records give is a state the ACMP invariants start from.
module AcmpStart {
  import opened AcmpTypes
  import opened AcmpTables
  import opened AcmpExclusivity
  import EntityTables

  lemma {:induction false} NumberedInputs(before: seq<Descriptor>, after: seq<Descriptor>)
    requires EntityTables.IsNumbered(before, after) && EntityTables.CountOf(before, STREAM_INPUT) <= EntityTables.UINT16
    ensures |IndicesOf(after, STREAM_INPUT)| == EntityTables.CountOf(before, STREAM_INPUT)
    ensures forall k :: 0 <= k < |IndicesOf(after, STREAM_INPUT)| ==> IndicesOf(after, STREAM_INPUT)[k] == k
  {
    if before == [] {
    } else {
      var n := |before| - 1;
      var before', after' := before[..n], after[..n];
      forall j | 0 <= j < n ensures after'[j] == EntityTables.Renumbered(before', j) {
        assert before'[..j] == before[..j];
      }
      NumberedInputs(before', after');
      assert after[n] == EntityTables.Renumbered(before, n);
    }
  }

  // Each configuration's stream records start unconnected, with record j carrying unique id j.
  lemma RecordsStartInOrder(before: seq<Descriptor>, after: seq<Descriptor>, table: seq<ListenerInfo>)
    requires EntityTables.IsNumbered(before, after) && EntityTables.CountOf(before, STREAM_INPUT) < 256
    requires IsTable(table, after)
    ensures InputsNumbered(after)
    ensures SlotIds(table) && forall j :: 0 <= j < |table| ==> !table[j].connected
    ensures |table| >= EntityTables.CountOf(before, STREAM_INPUT)
    ensures forall id :: 0 <= id < EntityTables.CountOf(before, STREAM_INPUT) ==> table[id].listenerUniqueId == id
  {
    NumberedInputs(before, after);
    forall j | 0 <= j < |table|
      ensures !table[j].connected && (table[j].listenerUniqueId == j || table[j] == ZERO_LISTENER)
    {
      assert table[j] == Record(IndicesOf(after, STREAM_INPUT), j);
    }
  }
}
