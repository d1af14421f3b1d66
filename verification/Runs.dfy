/** Iterating a step that may be undefined, and what several models share. */
module Runs {

  datatype Option<+T> = None | Some(value: T)

  /** The state after n steps, or None if one of them is undefined. */
  function Iterate<S>(step: S -> Option<S>, s: S, n: nat): Option<S>
    decreases n
  {
    if n == 0 then Some(s)
    else match step(s)
      case None => None
      case Some(t) => Iterate(step, t, n - 1)
  }

  lemma {:induction false} IterateCompose<S>(step: S -> Option<S>, s: S, j: nat, k: nat)
    ensures Iterate(step, s, j + k) ==
            match Iterate(step, s, j) { case None => None case Some(t) => Iterate(step, t, k) }
    decreases j
  {
    if j > 0 {
      match step(s) {
        case None =>
        case Some(t) => IterateCompose(step, t, j - 1, k);
      }
    }
  }

  /** Pieces put together again. */
  function Joined<T>(ts: seq<seq<T>>): seq<T> { if ts == [] then [] else ts[0] + Joined(ts[1..]) }

  lemma {:induction false} JoinedMore<T>(ts: seq<seq<T>>, t: seq<T>)
    ensures Joined(ts + [t]) == Joined(ts) + t
    decreases |ts|
  {
    if ts == [] {
      assert ts + [t] == [t] && Joined([t]) == t + Joined<T>([]);
    } else {
      assert (ts + [t])[1..] == ts[1..] + [t];
      JoinedMore(ts[1..], t);
    }
  }
}
