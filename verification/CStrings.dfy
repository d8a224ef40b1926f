// Strings in character buffers, ended by a NUL.
module CStrings {
  // The string a buffer holds: what stands before its first NUL.
  function CStr(a: seq<char>): (r: string)
    ensures |r| <= |a| && r == a[..|r|] && '\0' !in r
    ensures |r| < |a| ==> a[|r|] == '\0'
  {
    if a == [] || a[0] == '\0' then [] else [a[0]] + CStr(a[1..])
  }

  lemma {:induction false} CStrAt(a: seq<char>, n: nat)
    requires n < |a| && a[n] == '\0' && forall k :: 0 <= k < n ==> a[k] != '\0'
    ensures CStr(a) == a[..n]
  {
    if n == 0 {
    } else {
      CStrAt(a[1..], n - 1);
      assert a[..n] == [a[0]] + a[1..][..n - 1];
    }
  }

  // Text without a NUL is copied whole.
  lemma {:induction false} CStrWhole(s: string)
    requires '\0' !in s
    ensures CStr(s) == s
  {
    if s == [] {
    } else {
      CStrWhole(s[1..]);
    }
  }

  method StrLen(a: array<char>) returns (n: nat)
    requires |CStr(a[..])| < a.Length
    ensures n == |CStr(a[..])|
  {
    n := 0;
    while a[n] != '\0'
      invariant n <= |CStr(a[..])|
      decreases |CStr(a[..])| - n
    {
      n := n + 1;
    }
  }

  // strncpy to position `at`: n characters of the source, padded with NULs behind its string.
  method StrNCpy(dst: array<char>, at: nat, src: array<char>, n: nat)
    requires dst != src && at + n <= dst.Length && n <= src.Length
    modifies dst
    ensures forall k :: 0 <= k < dst.Length ==>
      dst[k] == if at <= k < at + n then (if k - at < |CStr(src[..])| then src[k - at] else '\0') else old(dst[k])
  {
    ghost var s := CStr(src[..]);
    var i := 0;
    while i < n && src[i] != '\0'
      invariant 0 <= i <= n && i <= |s|
      invariant forall k :: 0 <= k < dst.Length ==> dst[k] == if at <= k < at + i then src[k - at] else old(dst[k])
    {
      dst[at + i] := src[i];
      i := i + 1;
    }
    while i < n
      invariant 0 <= i <= n && (i == n || |s| <= i)
      invariant forall k :: 0 <= k < dst.Length ==>
        dst[k] == if at <= k < at + i then (if k - at < |s| then src[k - at] else '\0') else old(dst[k])
    {
      dst[at + i] := '\0';
      i := i + 1;
    }
  }
}
