// Positions on a ring, and slices that run past its end.
module Cyclic {
  // The ring position of an offset that is less than two laps long.
  function Wrap(a: nat, n: nat): (r: nat)
    requires a < 2 * n
    ensures r < n
  {
    if a < n then a else a - n
  }

  lemma ModIsWrap(a: nat, n: nat)
    requires a < 2 * n
    ensures a % n == Wrap(a, n)
  {
    if a >= n {
      assert a == 1 * n + (a - n);
      ModOfSum(a - n, n);
    }
  }

  lemma ModOfSum(b: nat, n: nat)
    requires b < n
    ensures (n + b) % n == b
  {}

  // How far position i lies after position `from`.
  function Ahead(from: nat, i: nat, n: nat): (r: nat)
    requires from < n && i < n
    ensures r < n && Wrap(from + r, n) == i
  {
    if i >= from then i - from else i + n - from
  }

  // The k elements that start at `from`, going round the end.
  function Slice<T>(s: seq<T>, from: nat, k: nat): (r: seq<T>)
    requires from < |s| && k <= |s|
    ensures |r| == k && forall i :: 0 <= i < k ==> r[i] == s[Wrap(from + i, |s|)]
  {
    seq(k, i requires 0 <= i < k => s[Wrap(from + i, |s|)])
  }

  lemma AppendNext<T>(a: seq<T>, b: seq<T>, i: nat)
    requires i < |b|
    ensures a + b[..i] + [b[i]] == a + b[..i + 1]
  {
    assert b[..i + 1] == b[..i] + [b[i]];
  }

  // The ring with t written at `from`, going round the end.
  function Splice<T>(s: seq<T>, from: nat, t: seq<T>): (r: seq<T>)
    requires from < |s| && |t| <= |s|
    ensures |r| == |s| && forall i :: 0 <= i < |s| ==>
      r[i] == if Ahead(from, i, |s|) < |t| then t[Ahead(from, i, |s|)] else s[i]
  {
    seq(|s|, i requires 0 <= i < |s| => if Ahead(from, i, |s|) < |t| then t[Ahead(from, i, |s|)] else s[i])
  }

  lemma SliceOfSplice<T>(s: seq<T>, from: nat, t: seq<T>)
    requires from < |s| && |t| <= |s|
    ensures Slice(Splice(s, from, t), from, |t|) == t
  {
    forall i | 0 <= i < |t| ensures Splice(s, from, t)[Wrap(from + i, |s|)] == t[i] {
      assert Ahead(from, Wrap(from + i, |s|), |s|) == i;
    }
  }
}
