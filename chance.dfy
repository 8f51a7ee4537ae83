/**
 * Randomness. Every `Math.random()` of the source becomes a caller-supplied
 * roll in [0, 1), and `Math.floor(Math.random() * n)` becomes PickIndex.
 */
module Chance {
  /** A value `Math.random()` can return. */
  predicate IsRoll(roll: real) {
    0.0 <= roll < 1.0
  }

  /** All rolls of a stream are values `Math.random()` can return. */
  predicate AllRolls(rolls: seq<real>) {
    forall i :: 0 <= i < |rolls| ==> IsRoll(rolls[i])
  }

  /** `Math.floor(roll * n)`: an index into a non-empty array of length n. */
  function PickIndex(roll: real, n: nat): (i: nat)
    requires IsRoll(roll) && n > 0
    ensures i < n
    ensures i as real <= roll * n as real < i as real + 1.0
  {
    RollScales(roll, n);
    (roll * n as real).Floor
  }

  lemma RollScales(roll: real, n: nat)
    requires IsRoll(roll) && n > 0
    ensures 0.0 <= roll * n as real < n as real
  {
    var k := n as real;
    assert roll * k <= k * roll;
    assert k * roll < k * 1.0;
  }

  /** What is left of a stream of rolls is still a stream of rolls. */
  lemma RollsFrom(rolls: seq<real>, pos: nat)
    requires AllRolls(rolls) && pos <= |rolls|
    ensures AllRolls(rolls[pos..])
  {
    assert forall i :: 0 <= i < |rolls| - pos ==> rolls[pos..][i] == rolls[pos + i];
  }

  /** Two streams of rolls one after the other are a stream of rolls. */
  lemma RollsAppend(a: seq<real>, b: seq<real>)
    requires AllRolls(a) && AllRolls(b)
    ensures AllRolls(a + b)
  {
    assert forall i :: 0 <= i < |a| + |b| ==> (a + b)[i] == if i < |a| then a[i] else b[i - |a|];
  }
}
