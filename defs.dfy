/** The declarations of defs.h: the compass direction of a car and the car record. */
module Defs {

  /** Every car takes this many milliseconds to cross the intersection. */
  const MOVE := 500

  /** Largest value of a 32-bit C `int`. */
  const INT_MAX := 0x7fff_ffff
  /** Smallest value of a 32-bit C `int`. */
  const INT_MIN := -0x8000_0000

  /** The C enum `direction`: NORTH = 0, SOUTH = 1, EAST = 2, WEST = 3. */
  datatype Direction = North | South | East | West

  /** The integer value the C enum gives each direction. */
  function Ordinal(d: Direction): (n: nat)
    ensures n < 4
  {
    match d
    case North => 0
    case South => 1
    case East => 2
    case West => 3
  }

  /** Distinct directions have distinct enum values, so the value identifies the direction. */
  lemma OrdinalInjective(d: Direction, e: Direction)
    ensures Ordinal(d) == Ordinal(e) <==> d == e
  {
  }

  /**
   * `struct car`. The direction and the number are fixed when the car is spawned;
   * the arrival time `at` and the departure time `dt` are written in place later.
   */
  class Car {
    const dir: Direction
    const num: int
    var at: int
    var dt: int

    /** A freshly spawned car: no arrival time yet (0) and the departure sentinel -1. */
    constructor (d: Direction, n: int)
      ensures dir == d && num == n
      ensures at == 0 && dt == -1
    {
      dir := d;
      num := n;
      at := 0;
      dt := -1;
    }
  }
}
