/** Shared vocabulary: optional values, the time unit and small numeric helpers. */
module Basics {
  datatype Option<+T> = None | Some(value: T)

  /** Instants and durations are whole microseconds, the resolution of the program's timestamps. */
  const SECOND: int := 1_000_000

  function Min(a: real, b: real): real { if a <= b then a else b }

  function Max(a: real, b: real): real { if a >= b then a else b }

  function MinInt(a: int, b: int): int { if a <= b then a else b }

  function MaxInt(a: int, b: int): int { if a >= b then a else b }

  lemma {:induction false} SubsetSize<T>(a: set<T>, b: set<T>)
    requires a <= b
    ensures |a| <= |b|
  {
    if a != {} {
      var x :| x in a;
      SubsetSize(a - {x}, b - {x});
    }
  }
}
