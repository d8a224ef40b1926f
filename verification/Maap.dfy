// The destination addresses taken from a block reserved with the MAAP daemon.
module Maap {
  const ETH_ALEN := 6

  type Octet = b: nat | b < 256

  // The bytes of the low 48 bits, most significant first.
  function Shifted(addr: nat, bits: nat): Octet
    requires bits in {0, 8, 16, 24, 32, 40}
  {
    var q: nat :=
      if bits == 0 then addr else if bits == 8 then addr / 0x100 else if bits == 16 then addr / 0x1_0000
      else if bits == 24 then addr / 0x100_0000 else if bits == 32 then addr / 0x1_0000_0000
        else addr / 0x100_0000_0000;
    q % 256
  }

  // The bytes of the low 48 bits, most significant first.
  function Bytes(addr: nat): (r: seq<Octet>)
    ensures |r| == ETH_ALEN
  {
    [Shifted(addr, 40), Shifted(addr, 32), Shifted(addr, 24), Shifted(addr, 16), Shifted(addr, 8), Shifted(addr, 0)]
  }

  function Pack(bytes: seq<Octet>): nat {
    if bytes == [] then 0 else Pack(bytes[..|bytes| - 1]) * 256 + bytes[|bytes| - 1]
  }

  function LowBytes(addr: nat, k: nat): (r: seq<Octet>)
    ensures |r| == k
  {
    if k == 0 then [] else LowBytes(addr / 256, k - 1) + [addr % 256]
  }

  function Pow256(k: nat): (r: nat)
    ensures r > 0
  {
    if k == 0 then 1 else 256 * Pow256(k - 1)
  }

  // Packing the low k bytes again gives the address back exactly when it fits in them.
  lemma {:induction false} PackLowBytes(addr: nat, k: nat)
    ensures Pack(LowBytes(addr, k)) < Pow256(k)
    ensures Pack(LowBytes(addr, k)) == addr <==> addr < Pow256(k)
  {
    if k == 0 {
    } else {
      var bytes := LowBytes(addr, k);
      assert bytes[..k - 1] == LowBytes(addr / 256, k - 1);
      PackLowBytes(addr / 256, k - 1);
    }
  }

  lemma Halves(addr: nat)
    ensures addr / 0x100 / 0x100 == addr / 0x1_0000 && addr / 0x1_0000 / 0x100 == addr / 0x100_0000
    ensures addr / 0x100_0000 / 0x100 == addr / 0x1_0000_0000 && addr / 0x1_0000_0000 / 0x100 == addr / 0x100_0000_0000
  {}

  lemma BytesAreLowBytes(addr: nat)
    ensures Bytes(addr) == LowBytes(addr, ETH_ALEN)
  {
    Halves(addr);
    var q1, q2, q3, q4, q5 := addr / 0x100, addr / 0x1_0000, addr / 0x100_0000, addr / 0x1_0000_0000,
      addr / 0x100_0000_0000;
    assert LowBytes(q5, 1) == [Shifted(addr, 40)] by { assert LowBytes(q5 / 256, 0) == []; }
    assert LowBytes(q4, 2) == [Shifted(addr, 40), Shifted(addr, 32)];
    assert LowBytes(q3, 3) == [Shifted(addr, 40), Shifted(addr, 32), Shifted(addr, 24)];
    assert LowBytes(q2, 4) == [Shifted(addr, 40), Shifted(addr, 32), Shifted(addr, 24), Shifted(addr, 16)];
    assert LowBytes(q1, 5) == [Shifted(addr, 40), Shifted(addr, 32), Shifted(addr, 24), Shifted(addr, 16),
      Shifted(addr, 8)];
  }

  lemma PackBytes(addr: nat)
    ensures Pack(Bytes(addr)) == addr <==> addr < 0x1_0000_0000_0000
  {
    BytesAreLowBytes(addr);
    PackLowBytes(addr, ETH_ALEN);
    assert Pow256(6) == 0x1_0000_0000_0000 by { assert Pow256(2) == 0x1_0000 && Pow256(4) == 0x1_0000_0000; }
  }

  // Different addresses of a block that fits in 48 bits get different bytes.
  lemma BytesDiffer(a: nat, b: nat)
    requires a < b < 0x1_0000_0000_0000
    ensures Bytes(a) != Bytes(b)
  {
    PackBytes(a);
    PackBytes(b);
  }

  datatype Context = Context(useMaap: bool, destAddr: seq<Octet>)

  // How many of the first k contexts use MAAP.
  function Reserved(cs: seq<Context>, k: nat): (r: nat)
    requires k <= |cs|
    ensures r <= k
  {
    if k == 0 then 0 else Reserved(cs, k - 1) + if cs[k - 1].useMaap then 1 else 0
  }

  method MaapUpdateAddress(ctx: array<Context>, start: nat)
    modifies ctx
    ensures forall i :: 0 <= i < ctx.Length ==>
      ctx[i] == if old(ctx[i].useMaap) then old(ctx[i]).(destAddr := Bytes(start + Reserved(old(ctx[..]), i)))
        else old(ctx[i])
  {
    var addr := start;
    var i := 0;
    while i < ctx.Length
      invariant 0 <= i <= ctx.Length && addr == start + Reserved(old(ctx[..]), i)
      invariant forall k :: i <= k < ctx.Length ==> ctx[k] == old(ctx[k])
      invariant forall k :: 0 <= k < i ==>
        ctx[k] == if old(ctx[k].useMaap) then old(ctx[k]).(destAddr := Bytes(start + Reserved(old(ctx[..]), k)))
          else old(ctx[k])
    {
      if ctx[i].useMaap {
        ctx[i] := ctx[i].(destAddr := Bytes(addr));
        addr := addr + 1;
      }
      i := i + 1;
    }
  }

  // The packing loop of the reservation command.
  method PackAddress(bytes: seq<Octet>) returns (tmp: nat)
    ensures tmp == Pack(bytes)
  {
    tmp := 0;
    var i := 0;
    while i < |bytes|
      invariant 0 <= i <= |bytes| && tmp == Pack(bytes[..i])
    {
      assert bytes[..i + 1][..i] == bytes[..i];
      tmp := tmp * 256 + bytes[i];
      i := i + 1;
    }
    assert bytes[..i] == bytes;
  }

  lemma {:induction false} ReservedGrows(cs: seq<Context>, j: nat, k: nat)
    requires j < k <= |cs|
    ensures Reserved(cs, j) <= Reserved(cs, k) && (cs[j].useMaap ==> Reserved(cs, j) < Reserved(cs, k))
    decreases k - j
  {
    if j + 1 >= k {
    } else {
      ReservedGrows(cs, j + 1, k);
    }
  }

  // The first context that uses MAAP gets the start of the block, and the next one the address behind it.
  lemma {:induction false} AddressesFollow(cs: seq<Context>, j: nat, k: nat)
    requires j <= k <= |cs| && forall i :: j <= i < k ==> !cs[i].useMaap
    ensures Reserved(cs, k) == Reserved(cs, j)
    ensures j == 0 ==> Reserved(cs, k) == 0
    ensures j > 0 && cs[j - 1].useMaap ==> Reserved(cs, k) == Reserved(cs, j - 1) + 1
    decreases k - j
  {
    if j >= k {
    } else {
      AddressesFollow(cs, j, k - 1);
    }
  }

  // Contexts that use MAAP get pairwise different addresses of the reserved block, which can be packed again.
  lemma AddressesDistinct(cs: seq<Context>, start: nat, i: nat, j: nat)
    requires i < j < |cs| && cs[i].useMaap && cs[j].useMaap
    requires start + Reserved(cs, |cs|) <= 0x1_0000_0000_0000
    ensures Bytes(start + Reserved(cs, i)) != Bytes(start + Reserved(cs, j))
    ensures Reserved(cs, j) < Reserved(cs, |cs|) && Pack(Bytes(start + Reserved(cs, j))) == start + Reserved(cs, j)
  {
    ReservedGrows(cs, i, j);
    ReservedGrows(cs, j, |cs|);
    BytesDiffer(start + Reserved(cs, i), start + Reserved(cs, j));
    PackBytes(start + Reserved(cs, j));
  }
}
