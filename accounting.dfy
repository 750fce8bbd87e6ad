/**
 * The arithmetic of `updateCost` in scheduler.c: the wait of a car is its departure time
 * minus its arrival time, and its cost is the square of that wait, passed through a
 * `+ 0.5` and an `(int)` cast.
 */
module Accounting {
  import opened Defs

  /**
   * The guard `(c->dt && c->at) && (c->dt > 0)`. When it fails, the mock panic only
   * prints, and `waited` keeps its initial value 0.
   */
  predicate TimesSet(at: int, dt: int)
  {
    dt != 0 && at != 0 && dt > 0
  }

  /**
   * `(int)(x + 0.5)` for an integer square x: the sum is a double, and the cast
   * truncates toward zero, which for a nonnegative double is the floor.
   */
  function RoundCast(x: int): int
    requires x >= 0
  {
    ((x as real) + 0.5).Floor
  }

  /** Adding one half and truncating leaves an integer unchanged. */
  lemma RoundCastExact(x: int)
    requires x >= 0
    ensures RoundCast(x) == x
  {
  }

  /** The cost `updateCost` adds to the sum for a car with these timestamps. */
  function Cost(at: int, dt: int): (cost: int)
    ensures cost >= 0
    ensures TimesSet(at, dt) ==> cost == (dt - at) * (dt - at)
    ensures !TimesSet(at, dt) ==> cost == 0
  {
    var waited := if TimesSet(at, dt) then dt - at else 0;
    RoundCastExact(waited * waited);
    RoundCast(waited * waited)
  }

  /**
   * While the wait is at most 46340 ms either way, `waited*waited` and the cost stay
   * within a 32-bit `int`, so the exact square is what the C code adds.
   */
  lemma CostFitsInt(at: int, dt: int)
    requires -46340 <= dt - at <= 46340
    ensures (dt - at) * (dt - at) <= INT_MAX
    ensures 0 <= Cost(at, dt) <= INT_MAX
  {
    var w := if dt - at >= 0 then dt - at else at - dt;
    assert (dt - at) * (dt - at) == w * w;
    MulMonotone(w, w, 46340);
    MulMonotone(46340, w, 46340);
  }

  /** Multiplying by a nonnegative factor keeps an inequality. */
  lemma MulMonotone(a: int, b: int, c: int)
    requires 0 <= a && b <= c
    ensures a * b <= a * c
  {
  }

  /** One millisecond more and the square no longer fits: the bound above is tight. */
  lemma CostBoundTight()
    ensures TimesSet(1, 46342) && Cost(1, 46342) > INT_MAX
  {
  }

  /**
   * A car whose departure time is still the sentinel -1, or whose arrival time is 0
   * (also a car that really arrived within the first millisecond), costs nothing.
   */
  lemma UnsetTimesCostNothing(at: int, dt: int)
    requires dt <= 0 || at == 0
    ensures Cost(at, dt) == 0
  {
  }
}
