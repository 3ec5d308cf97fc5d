/** Two kinds of event that must take turns, followed through a trace. */
module Alternation {
  import opened Protocol

  /** Follows `up` and `down` through a trace: whether the last of them was `up`,
      or nothing at all if two of a kind ever followed each other. */
  ghost function Toggle<T>(trace: seq<T>, up: T, down: T): Option<bool>
    decreases |trace|
  {
    if trace == [] then Some(false)
    else
      var before, last := Toggle(trace[..|trace| - 1], up, down), trace[|trace| - 1];
      if last == up then (if before == Some(false) then Some(true) else None)
      else if last == down then (if before == Some(true) then Some(false) else None)
      else before
  }

  lemma ToggleOne<T>(trace: seq<T>, next: T, up: T, down: T)
    ensures Toggle(trace + [next], up, down)
         == var before := Toggle(trace, up, down);
            if next == up then (if before == Some(false) then Some(true) else None)
            else if next == down then (if before == Some(true) then Some(false) else None)
            else before
  {
    assert (trace + [next])[..|trace + [next]| - 1] == trace;
  }
}
