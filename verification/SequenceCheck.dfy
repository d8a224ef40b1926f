// The listener's check of AVTP sequence numbers.
module SequenceCheck {

  const SEQUENCE_NUM_COUNT := 256

  type SequenceNum = n: nat | n < SEQUENCE_NUM_COUNT

  // Position i is flagged when its number is not the successor of the one before it.
  predicate Flagged(nums: seq<SequenceNum>, i: nat)
    requires i < |nums|
  {
    i > 0 && nums[i] != (nums[i - 1] + 1) % SEQUENCE_NUM_COUNT
  }

  // How many flagged positions the stream ends with.
  function TrailingErrors(nums: seq<SequenceNum>): nat {
    if nums != [] && Flagged(nums, |nums| - 1) then 1 + TrailingErrors(nums[..|nums| - 1]) else 0
  }

  // The stream ends with n flagged positions, and in front of them stands one that is not.
  lemma {:induction false} TrailingRun(nums: seq<SequenceNum>)
    ensures var n := TrailingErrors(nums);
      && n <= |nums| && (forall i :: |nums| - n <= i < |nums| ==> Flagged(nums, i))
      && (n < |nums| ==> !Flagged(nums, |nums| - n - 1))
  {
    if nums != [] && Flagged(nums, |nums| - 1) {
      var rest := nums[..|nums| - 1];
      TrailingRun(rest);
      assert forall i :: 0 <= i < |rest| ==> (Flagged(rest, i) <==> Flagged(nums, i));
    }
  }

  lemma OneLap(x: nat)
    ensures (x + SEQUENCE_NUM_COUNT) % SEQUENCE_NUM_COUNT == x % SEQUENCE_NUM_COUNT
  {}

  class Checker {
    var seqno: int               // the number expected next, -1 before the first packet
    var error: int               // the length of the current run of errors, -1 when there is none
    ghost var seen: seq<SequenceNum>

    ghost predicate Valid()
      reads this
    {
      && seqno == (if seen == [] then -1 else (seen[|seen| - 1] + 1) % SEQUENCE_NUM_COUNT)
      && error == if TrailingErrors(seen) == 0 then -1 else TrailingErrors(seen)
    }

    constructor ()
      ensures Valid() && seen == []
    {
      seqno, error, seen := -1, -1, [];
    }

    method VerifyPacket(tmp: SequenceNum) returns (ret: int)
      requires Valid()
      modifies this
      ensures Valid() && seen == old(seen) + [tmp]
      ensures ret == if Flagged(seen, |seen| - 1) then -1 else 0
    {
      ghost var before := seen;
      seen := seen + [tmp];
      assert seen[..|seen| - 1] == before;
      if seqno != tmp && seqno != -1 {
        if error == -1 { error := 1; } else { error := error + 1; }
        ret := -1;
      } else {
        if error != -1 { error := -1; }
        ret := 0;
      }
      seqno := (tmp + 1 + SEQUENCE_NUM_COUNT) % SEQUENCE_NUM_COUNT;
      assert seqno == (tmp + 1) % SEQUENCE_NUM_COUNT by { OneLap(tmp + 1); }
    }
  }

  // ---- What the check can and cannot see -------------------------------------------------------

  // The numbers a sender gives to its frames first, first + 1, ...
  function Consecutive(first: nat, n: nat): (r: seq<SequenceNum>)
    ensures |r| == n && forall i :: 0 <= i < n ==> r[i] == (first + i) % SEQUENCE_NUM_COUNT
  {
    seq(n, i requires 0 <= i < n => (first + i) % SEQUENCE_NUM_COUNT)
  }

  // Consecutively numbered frames, of which `lost` are missing after the first n: the check reports exactly one
  // error, at the gap, unless the number of lost frames is a multiple of 256; then it sees nothing at all.
  lemma LossIsFlaggedUnlessMultiple(first: nat, n: nat, lost: nat, m: nat)
    requires n > 0 && m > 0
    ensures var nums := Consecutive(first, n) + Consecutive(first + n + lost, m);
      && (forall i :: 0 <= i < n + m && i != n ==> !Flagged(nums, i))
      && (Flagged(nums, n) <==> lost % SEQUENCE_NUM_COUNT != 0)
  {
    var a, b := Consecutive(first, n), Consecutive(first + n + lost, m);
    var nums := a + b;
    forall i | 0 <= i < n + m && i != n ensures !Flagged(nums, i) {
      if 0 < i < n {
        assert nums[i] == a[i] && nums[i - 1] == a[i - 1];
        Successor(first + (i - 1));
      } else if i > n {
        assert nums[i] == b[i - n] && nums[i - 1] == b[i - n - 1];
        Successor(first + n + lost + (i - n - 1));
      }
    }
    assert nums[n] == b[0] && nums[n - 1] == a[n - 1];
    Successor(first + (n - 1));
    Shift(first + n, lost);
  }

  lemma Successor(x: nat)
    ensures (x % SEQUENCE_NUM_COUNT + 1) % SEQUENCE_NUM_COUNT == (x + 1) % SEQUENCE_NUM_COUNT
  {}

  lemma Shift(x: nat, k: nat)
    ensures (x + k) % SEQUENCE_NUM_COUNT == x % SEQUENCE_NUM_COUNT <==> k % SEQUENCE_NUM_COUNT == 0
  {}
}
