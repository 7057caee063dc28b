/**
 * Clamped health, as defenders and the tower keep it: damage is subtracted
 * and the result clamped into [0, maximum].
 */
module Health {
  import opened Numerics

  /** Health after taking the given damage, clamped into [0, max]. */
  function Damaged(current: int, amount: int, max: int): (h: int)
    ensures 0 <= max ==> 0 <= h <= max
    ensures 0 <= current - amount <= max ==> h == current - amount
    ensures 0 <= amount && 0 <= current ==> h <= current
    ensures 0 < max ==> (h == 0 <==> current - amount <= 0)
  {
    Clamp(current - amount, 0, max)
  }

  /** A run of non-negative hits never raises health, from any health within [0, max]. */
  lemma {:induction false} HitsNeverHeal(current: int, amounts: seq<int>, max: int)
    requires 0 <= current <= max
    requires forall k :: 0 <= k < |amounts| ==> 0 <= amounts[k]
    ensures 0 <= AfterHits(current, amounts, max) <= current
  {
    if amounts != [] {
      HitsNeverHeal(current, amounts[..|amounts| - 1], max);
    }
  }

  /** Health after a run of hits, one after another. */
  function AfterHits(current: int, amounts: seq<int>, max: int): int
  {
    if amounts == [] then current
    else Damaged(AfterHits(current, amounts[..|amounts| - 1], max), amounts[|amounts| - 1], max)
  }

  /**
   * Clamped and unclamped damage agree exactly while health stays
   * non-negative; otherwise the clamped health is 0 where an enemy's
   * unclamped health would be negative.
   */
  lemma ClampedVersusUnclamped(current: int, amount: int, max: int)
    requires 0 <= current <= max && 0 <= amount
    ensures Damaged(current, amount, max) >= current - amount
    ensures Damaged(current, amount, max) == current - amount <==> current - amount >= 0
  {
  }
}
