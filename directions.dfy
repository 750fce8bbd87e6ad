/**
 * Direction handling in scheduler.c: `dir_to_string`, the thread-argument switch of
 * `produceCars` and the one of `p2_produceCars`, which also derives the opposite
 * (parallel) direction.
 */
module Directions {
  import opened Defs

  /** The direction across the intersection: NORTH with SOUTH, EAST with WEST. */
  function Opposite(d: Direction): (o: Direction)
    ensures o != d
    ensures Ordinal(o) / 2 == Ordinal(d) / 2
  {
    match d
    case North => South
    case South => North
    case East => West
    case West => East
  }

  /** Taking the opposite twice returns to the start. */
  lemma OppositeInvolution(d: Direction)
    ensures Opposite(Opposite(d)) == d
  {
  }

  /**
   * `dir_to_string`: the C enum may carry any integer; 0..3 get their names and
   * anything else reaches the (printing-only) panic and gets the empty string.
   */
  function DirToString(d: int): (s: string)
    ensures s != "" <==> 0 <= d < 4
    ensures s in {"NORTH", "SOUTH", "EAST", "WEST", ""}
  {
    if d == 0 then "NORTH"
    else if d == 1 then "SOUTH"
    else if d == 2 then "EAST"
    else if d == 3 then "WEST"
    else ""
  }

  /** Each valid direction gets its own name, so the printed name identifies it. */
  lemma DirToStringInjective(d: Direction, e: Direction)
    ensures DirToString(Ordinal(d)) == DirToString(Ordinal(e)) <==> d == e
  {
  }

  /** The name printed for each direction of the enum. */
  lemma DirToStringNames()
    ensures DirToString(Ordinal(North)) == "NORTH" && DirToString(Ordinal(South)) == "SOUTH"
    ensures DirToString(Ordinal(East)) == "EAST" && DirToString(Ordinal(West)) == "WEST"
  {
  }

  /**
   * The `switch(a)` that starts `produceCars`: the thread argument 0..3 selects the
   * direction with that enum value; any other argument panics (prints) and falls back to WEST.
   */
  function DirectionOfArg(a: nat): (d: Direction)
    ensures a < 4 ==> Ordinal(d) == a
    ensures a >= 4 ==> d == West
  {
    if a == 0 then North
    else if a == 1 then South
    else if a == 2 then East
    else West
  }

  /** Passing a direction's own enum value as the argument gives that direction back. */
  lemma DirectionOfArgRoundTrip(d: Direction)
    ensures DirectionOfArg(Ordinal(d)) == d
  {
  }

  /**
   * The `switch(a)` that starts `p2_produceCars`: the same direction as `produceCars`
   * picks, together with its `parallel_dir`; the fallback pair is (WEST, EAST).
   */
  function ParallelDirsOfArg(a: nat): (p: (Direction, Direction))
    ensures p.0 == DirectionOfArg(a)
    ensures p.1 == Opposite(p.0)
  {
    if a == 0 then (North, South)
    else if a == 1 then (South, North)
    else if a == 2 then (East, West)
    else (West, East)
  }

  /**
   * The directions whose parallel-policy producer spawns two cars per production:
   * the test `(d==0) || (d==2)`, that is NORTH and EAST.
   */
  predicate Paired(d: Direction)
  {
    Ordinal(d) == 0 || Ordinal(d) == 2
  }

  /** Exactly one direction of each opposite pair produces in pairs. */
  lemma PairedSplitsOpposites(d: Direction)
    ensures Paired(d) != Paired(Opposite(d))
  {
  }
}
