// The table of listeners attached to a stream.
module Msrp {
  const MSRP_MAX_STREAMS := 8

  datatype Declaration = Ignore | AskingFailed | Ready | ReadyFailed
  datatype Kind = Leave | New | Join | Other

  datatype Notify = Notify(kind: Kind, streamId: nat, substate: Declaration, registrar: nat)

  datatype Slot = Slot(attached: bool, address: nat)

  // A declaration that counts as attached.
  predicate IsReady(d: Declaration) { d.Ready? || d.ReadyFailed? }

  // ---- Specification: a set of addresses -----------------------------------------------------

  predicate Attaches(n: Notify, streamId: nat) { n.streamId == streamId && !n.kind.Leave? && IsReady(n.substate) }
  predicate Detaches(n: Notify, streamId: nat) { n.streamId == streamId && n.kind.Leave? }

  // What the notifications say, without a limit.
  function Announced(s: set<nat>, ns: seq<Notify>, streamId: nat): set<nat>
    decreases ns
  {
    if ns == [] then s else Announced(AnnouncedStep(s, ns[0], streamId), ns[1..], streamId)
  }

  function AnnouncedStep(s: set<nat>, n: Notify, streamId: nat): set<nat> {
    if Detaches(n, streamId) then s - {n.registrar} else if Attaches(n, streamId) then s + {n.registrar} else s
  }

  // What a table of eight slots keeps of it: a newcomer is ignored while the table is full.
  function Kept(s: set<nat>, ns: seq<Notify>, streamId: nat): set<nat>
    decreases ns
  {
    if ns == [] then s else Kept(KeptStep(s, ns[0], streamId), ns[1..], streamId)
  }

  function KeptStep(s: set<nat>, n: Notify, streamId: nat): set<nat> {
    var t := AnnouncedStep(s, n, streamId);
    if |t| <= MSRP_MAX_STREAMS then t else s
  }

  // ---- The table -----------------------------------------------------------------------------

  // The addresses in the first k slots.
  function Addresses(slots: seq<Slot>, k: nat): (r: set<nat>)
    requires k <= |slots|
  {
    if k == 0 then {} else Addresses(slots, k - 1) + if slots[k - 1].attached then {slots[k - 1].address} else {}
  }

  function Used(slots: seq<Slot>, k: nat): (r: nat)
    requires k <= |slots|
    ensures r <= k
  {
    if k == 0 then 0 else Used(slots, k - 1) + if slots[k - 1].attached then 1 else 0
  }

  // No address is attached twice.
  ghost predicate Distinct(slots: seq<Slot>) {
    forall i, j :: 0 <= i < j < |slots| && slots[i].attached && slots[j].attached ==>
      slots[i].address != slots[j].address
  }

  lemma {:induction false} AddressAt(slots: seq<Slot>, k: nat, a: nat)
    requires k <= |slots|
    ensures a in Addresses(slots, k) <==> exists i :: 0 <= i < k && slots[i].attached && slots[i].address == a
  {
    if k == 0 {
    } else {
      AddressAt(slots, k - 1, a);
    }
  }

  lemma {:induction false} UsedIsSize(slots: seq<Slot>, k: nat)
    requires k <= |slots| && Distinct(slots)
    ensures |Addresses(slots, k)| == Used(slots, k)
  {
    if k == 0 {
    } else {
      var rest, a := Addresses(slots, k - 1), slots[k - 1].address;
      UsedIsSize(slots, k - 1);
      assert slots[k - 1].attached ==> a !in rest by { AddressAt(slots, k - 1, a); }
      assert a !in rest ==> |rest + {a}| == |rest| + 1;
    }
  }

  lemma {:induction false} SlotChanged(slots: seq<Slot>, i: nat, x: Slot, k: nat)
    requires i < |slots| && k <= |slots|
    ensures Used(slots[i := x], k) ==
      Used(slots, k) + (if i < k && x.attached then 1 else 0) - (if i < k && slots[i].attached then 1 else 0)
  {
    if k == 0 {
    } else {
      SlotChanged(slots, i, x, k - 1);
    }
  }

  lemma {:induction false} FullTable(slots: seq<Slot>, k: nat)
    requires k <= |slots| && forall i :: 0 <= i < k ==> slots[i].attached
    ensures Used(slots, k) == k
  {
    if k == 0 {
    } else {
      FullTable(slots, k - 1);
    }
  }

  // Attaching in a free slot and detaching change the set by one address.
  lemma Attached(slots: seq<Slot>, i: nat, a: nat)
    requires i < |slots| && !slots[i].attached && Distinct(slots)
    requires forall k :: 0 <= k < |slots| && slots[k].attached ==> slots[k].address != a
    ensures Distinct(slots[i := Slot(true, a)])
    ensures Addresses(slots[i := Slot(true, a)], |slots|) == Addresses(slots, |slots|) + {a}
  {
    var slots' := slots[i := Slot(true, a)];
    forall b: nat ensures b in Addresses(slots', |slots|) <==> b in Addresses(slots, |slots|) + {a} {
      AddressAt(slots, |slots|, b);
      AddressAt(slots', |slots|, b);
      if b == a { assert slots'[i].attached && slots'[i].address == a; }
      if k :| 0 <= k < |slots| && slots[k].attached && slots[k].address == b { assert slots'[k] == slots[k]; }
    }
  }

  lemma Detached(slots: seq<Slot>, i: nat)
    requires i < |slots| && slots[i].attached && Distinct(slots)
    ensures Distinct(slots[i := Slot(false, 0)])
    ensures Addresses(slots[i := Slot(false, 0)], |slots|) == Addresses(slots, |slots|) - {slots[i].address}
  {
    var slots' := slots[i := Slot(false, 0)];
    forall b: nat ensures b in Addresses(slots', |slots|) <==> b in Addresses(slots, |slots|) - {slots[i].address} {
      AddressAt(slots, |slots|, b);
      AddressAt(slots', |slots|, b);
      if k :| 0 <= k < |slots| && k != i && slots[k].attached && slots[k].address == b { assert slots'[k] == slots[k]; }
    }
  }

  class Monitor {
    const streamId: nat
    const devices: array<Slot>
    var listeners: int

    constructor (streamId: nat)
      ensures Valid() && Members() == {} && this.streamId == streamId && fresh(devices)
    {
      this.streamId := streamId;
      devices := new Slot[MSRP_MAX_STREAMS](_ => Slot(false, 0));
      listeners := 0;
      new;
      NothingAttached(devices[..], MSRP_MAX_STREAMS);
    }

    // The counter equals the number of attached slots, and their addresses are pairwise distinct.
    ghost predicate Valid()
      reads this, devices
    {
      devices.Length == MSRP_MAX_STREAMS && Distinct(devices[..]) && listeners == Used(devices[..], MSRP_MAX_STREAMS)
    }

    ghost function Members(): set<nat>
      reads this, devices
      requires devices.Length == MSRP_MAX_STREAMS
    {
      Addresses(devices[..], MSRP_MAX_STREAMS)
    }

    // Returns 0 if the registrar was attached.
    method MonitorListenerAdd(n: Notify) returns (rc: int)
      requires Valid()
      modifies devices
      ensures Distinct(devices[..]) && (rc == 0 || (rc == -1 && devices[..] == old(devices[..])))
      ensures rc == 0 <==> n.streamId == streamId && n.registrar !in old(Members()) && listeners < MSRP_MAX_STREAMS
      ensures rc == 0 ==>
        Members() == old(Members()) + {n.registrar} && Used(devices[..], MSRP_MAX_STREAMS) == listeners + 1
    {
      if streamId != n.streamId { return -1; }
      AddressAt(devices[..], MSRP_MAX_STREAMS, n.registrar);
      var i := 0;
      while i < MSRP_MAX_STREAMS
        invariant 0 <= i <= MSRP_MAX_STREAMS
        invariant forall k :: 0 <= k < i && devices[k].attached ==> devices[k].address != n.registrar
      {
        if devices[i].attached && devices[i].address == n.registrar { return -1; }
        i := i + 1;
      }
      i := 0;
      while i < MSRP_MAX_STREAMS
        invariant 0 <= i <= MSRP_MAX_STREAMS && devices[..] == old(devices[..])
        invariant forall k :: 0 <= k < i ==> devices[k].attached
      {
        if !devices[i].attached {
          Attached(devices[..], i, n.registrar);
          SlotChanged(devices[..], i, Slot(true, n.registrar), MSRP_MAX_STREAMS);
          devices[i] := Slot(true, n.registrar);
          assert devices[..] == old(devices[..])[i := Slot(true, n.registrar)];
          assert listeners < MSRP_MAX_STREAMS;
          return 0;
        }
        i := i + 1;
      }
      FullTable(devices[..], MSRP_MAX_STREAMS);
      return -1;
    }

    // Returns 0 if the registrar was detached.
    method MonitorListenerRemove(n: Notify) returns (rc: int)
      requires Valid()
      modifies devices
      ensures Distinct(devices[..]) && (rc == 0 || (rc == -1 && devices[..] == old(devices[..])))
      ensures rc == 0 <==> n.streamId == streamId && n.registrar in old(Members())
      ensures rc == 0 ==>
        Members() == old(Members()) - {n.registrar} && Used(devices[..], MSRP_MAX_STREAMS) == listeners - 1
    {
      if streamId == n.streamId {
        AddressAt(devices[..], MSRP_MAX_STREAMS, n.registrar);
        var i := 0;
        while i < MSRP_MAX_STREAMS
          invariant 0 <= i <= MSRP_MAX_STREAMS && devices[..] == old(devices[..])
          invariant forall k :: 0 <= k < i && devices[k].attached ==> devices[k].address != n.registrar
        {
          if devices[i].attached && devices[i].address == n.registrar {
            Detached(devices[..], i);
            SlotChanged(devices[..], i, Slot(false, 0), MSRP_MAX_STREAMS);
            devices[i] := Slot(false, 0);
            assert devices[..] == old(devices[..])[i := Slot(false, 0)];
            return 0;
          }
          i := i + 1;
        }
      }
      return -1;
    }

    // One notification: the table refines the set of at most eight addresses.
    method ListenerAttributeProcess(n: Notify)
      requires Valid()
      modifies this`listeners, devices
      ensures Valid() && Members() == KeptStep(old(Members()), n, streamId)
      ensures listeners == |Members()| <= MSRP_MAX_STREAMS
      // Who leaves is out; who is ready, if only in part, is in as long as there is room; nothing else matters.
      ensures n.streamId != streamId ==> Members() == old(Members())
      ensures n.streamId == streamId && n.kind == Leave ==> Members() == old(Members()) - {n.registrar}
      ensures n.streamId == streamId && n.kind != Leave && n.substate in {Ready, ReadyFailed} ==>
        Members() == if |old(Members())| < 8 then old(Members()) + {n.registrar} else old(Members())
      ensures n.kind != Leave && n.substate in {Ignore, AskingFailed} ==> Members() == old(Members())
    {
      hide Used, Addresses, Distinct;
      UsedIsSize(devices[..], MSRP_MAX_STREAMS);
      if n.kind.Leave? {
        var rc := MonitorListenerRemove(n);
        if rc == 0 { listeners := listeners - 1; }
      } else if IsReady(n.substate) {
        var rc := MonitorListenerAdd(n);
        if rc == 0 { listeners := listeners + 1; }
      }
      UsedIsSize(devices[..], MSRP_MAX_STREAMS);
    }

    method Monitor(ns: seq<Notify>)
      requires Valid()
      modifies this`listeners, devices
      ensures Valid() && Members() == Kept(old(Members()), ns, streamId)
      ensures listeners == |Members()| <= MSRP_MAX_STREAMS
    {
      var i := 0;
      assert ns[0..] == ns;
      UsedIsSize(devices[..], MSRP_MAX_STREAMS);
      while i < |ns|
        invariant 0 <= i <= |ns| && Valid() && listeners == |Members()| <= MSRP_MAX_STREAMS
        invariant Kept(Members(), ns[i..], streamId) == Kept(old(Members()), ns, streamId)
      {
        assert ns[i..][1..] == ns[i + 1..];
        ListenerAttributeProcess(ns[i]);
        i := i + 1;
      }
    }
  }

  lemma {:induction false} NothingAttached(slots: seq<Slot>, k: nat)
    requires k <= |slots| && forall i :: 0 <= i < |slots| ==> !slots[i].attached
    ensures Used(slots, k) == 0 && Addresses(slots, k) == {}
  {
    if k == 0 {
    } else {
      NothingAttached(slots, k - 1);
    }
  }

  // ---- The limit -----------------------------------------------------------------------------

  // The notifications never announce more than eight listeners at a time.
  predicate WithinCapacity(s: set<nat>, ns: seq<Notify>, streamId: nat)
    decreases ns
  {
    |s| <= MSRP_MAX_STREAMS && (ns != [] ==> WithinCapacity(AnnouncedStep(s, ns[0], streamId), ns[1..], streamId))
  }

  // After every prefix the table holds exactly what was announced.
  predicate AlwaysExact(s: set<nat>, t: set<nat>, ns: seq<Notify>, streamId: nat)
    decreases ns
  {
    s == t && (ns != [] ==>
      AlwaysExact(KeptStep(s, ns[0], streamId), AnnouncedStep(t, ns[0], streamId), ns[1..], streamId))
  }

  // The table is exact throughout if and only if the capacity is never exceeded.
  lemma {:induction false} ExactWithinCapacity(s: set<nat>, ns: seq<Notify>, streamId: nat)
    requires |s| <= MSRP_MAX_STREAMS
    ensures AlwaysExact(s, s, ns, streamId) <==> WithinCapacity(s, ns, streamId)
    decreases ns
  {
    if ns == [] {
    } else {
      var t := AnnouncedStep(s, ns[0], streamId);
      if |t| <= MSRP_MAX_STREAMS { ExactWithinCapacity(t, ns[1..], streamId); }
    }
  }
}
