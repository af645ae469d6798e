/**
 * The player rotation: an endless cycle over a fixed, non-empty list of
 * players, represented by the index of the current player in that list.
 */
module Rotation {

  /** One step of the cycle: the next index, wrapping from the last to the first. */
  function Advance(i: nat, len: nat): (next: nat)
    requires i < len
    ensures next < len
    ensures i + 1 < len ==> next == i + 1
    ensures i + 1 == len ==> next == 0
  {
    (i + 1) % len
  }

  /** The index reached after `k` steps of the cycle from `i`. */
  function AdvanceTimes(i: nat, len: nat, k: nat): (j: nat)
    requires i < len
    ensures j < len
  {
    if k == 0 then i else Advance(AdvanceTimes(i, len, k - 1), len)
  }

  /** Within one lap the position moves forward k places, wrapping once past the end. */
  lemma {:induction false} StepsWithinLap(i: nat, len: nat, k: nat)
    requires i < len && k <= len
    ensures AdvanceTimes(i, len, k) == if i + k < len then i + k else i + k - len
  {
    if k > 0 {
      StepsWithinLap(i, len, k - 1);
    }
  }

  /** A full lap of as many steps as there are players brings the rotation back to where it started. */
  lemma FullLap(i: nat, len: nat)
    requires i < len
    ensures AdvanceTimes(i, len, len) == i
  {
    StepsWithinLap(i, len, len);
  }

  /** With two players, each step swaps the position, so k steps land on the start iff k is even. */
  lemma {:induction false} TwoPlayerSteps(i: nat, k: nat)
    requires i < 2
    ensures AdvanceTimes(i, 2, k) == if k % 2 == 0 then i else 1 - i
  {
    if k > 0 {
      TwoPlayerSteps(i, k - 1);
    }
  }

  /**
   * With two players, k steps bring the rotation back to its starting
   * player exactly when k is even (the players being distinct).
   */
  lemma {:induction false} TwoPlayersParity<P>(players: seq<P>, i: nat, k: nat)
    requires |players| == 2 && players[0] != players[1] && i < 2
    ensures players[AdvanceTimes(i, 2, k)] == players[i] <==> k % 2 == 0
  {
    TwoPlayerSteps(i, k);
  }
}
