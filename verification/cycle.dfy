/**
  The increment-and-wrap-to-zero step of the weight, camera and weight-variant
  selectors, and its modular reading, which the vehicle selector computes
  directly.
 */
module Cycle {

  /** One press of a cyclic selector over `count` values. */
  function Succ(k: int, count: int): (r: int)
    ensures 0 <= k < count ==> 0 <= r < count
    ensures 0 <= k < count ==> r == (k + 1) % count
  {
    if k + 1 >= count then 0 else k + 1
  }

  /** `m` presses of the selector, starting from `k`. */
  function Steps(k: int, count: int, m: nat): (r: int)
    requires 0 <= k < count
    ensures 0 <= r < count
  {
    if m == 0 then k else Succ(Steps(k, count, m - 1), count)
  }

  lemma ModOfShift(a: int, count: int)
    requires count > 0 && 0 <= a
    ensures ((a % count) + 1) % count == (a + 1) % count
  {
    var q, r := a / count, a % count;
    assert a == q * count + r;
    if r + 1 < count {
      ModUnique(a + 1, count, q, r + 1);
      ModUnique(r + 1, count, 0, r + 1);
    } else {
      assert (q + 1) * count == q * count + count;
      ModUnique(a + 1, count, q + 1, 0);
      ModUnique(r + 1, count, 1, 0);
    }
  }

  lemma ModUnique(a: int, count: int, q: int, r: int)
    requires count > 0 && 0 <= r < count && a == q * count + r
    ensures a % count == r
  {
    var q', r' := a / count, a % count;
    assert a == q' * count + r';
    var d := q - q';
    assert d * count == r' - r by {
      assert q * count - q' * count == (q - q') * count;
    }
    MultipleBounds(d, count);
  }

  lemma MultipleBounds(d: int, count: int)
    requires count > 0
    ensures d >= 1 ==> d * count >= count
    ensures d <= -1 ==> d * count <= -count
  {
    if d >= 1 {
      assert d * count == (d - 1) * count + count;
    } else if d <= -1 {
      assert d * count == (d + 1) * count - count;
    }
  }

  /** Pressing `m` times moves the selector `m` places, modulo `count`. */
  lemma {:induction false} StepsIsModular(k: int, count: int, m: nat)
    requires 0 <= k < count
    ensures Steps(k, count, m) == (k + m) % count
  {
    if m == 0 {
      ModUnique(k, count, 0, k);
    } else {
      StepsIsModular(k, count, m - 1);
      ModOfShift(k + m - 1, count);
    }
  }

  /** A selector over `count` values returns to its start after exactly `count` presses, and no sooner. */
  lemma Period(k: int, count: int)
    requires 0 <= k < count
    ensures Steps(k, count, count) == k
    ensures forall m: nat :: 0 < m < count ==> Steps(k, count, m) != k
  {
    StepsIsModular(k, count, count);
    ModUnique(k + count, count, 1, k);
    forall m: nat | 0 < m < count
      ensures Steps(k, count, m) != k
    {
      StepsIsModular(k, count, m);
      if k + m < count {
        ModUnique(k + m, count, 0, k + m);
      } else {
        ModUnique(k + m, count, 1, k + m - count);
      }
    }
  }
}
