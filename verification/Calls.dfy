/** A call of a sequential method as several atomic steps of one thread of a machine. */
module Calls {
  import opened Wrappers

  /** The state after one thread takes several steps. */
  function After<S, T, A>(act: (S, T, A) -> Option<S>, s: S, t: T, steps: seq<A>): Option<S> {
    if steps == [] then Some(s)
    else
      match After(act, s, t, steps[..|steps| - 1])
      case None => None
      case Some(u) => act(u, t, steps[|steps| - 1])
  }

  lemma OneMore<S, T, A>(act: (S, T, A) -> Option<S>, s: S, t: T, steps: seq<A>, u: S, step: A)
    requires After(act, s, t, steps) == Some(u)
    ensures After(act, s, t, steps + [step]) == act(u, t, step)
  {
    assert (steps + [step])[..|steps|] == steps;
  }

  lemma TwoSteps<S, T, A>(act: (S, T, A) -> Option<S>, s: S, t: T, a: A, b: A, u: S)
    requires act(s, t, a) == Some(u)
    ensures After(act, s, t, [a]) == Some(u) && After(act, s, t, [a, b]) == act(u, t, b)
  {
    OneMore(act, s, t, [], s, a);
    assert [] + [a] == [a];
    OneMore(act, s, t, [a], u, b);
    assert [a] + [b] == [a, b];
  }

  lemma ThreeSteps<S, T, A>(act: (S, T, A) -> Option<S>, s: S, t: T, a: A, b: A, c: A, u: S, w: S)
    requires act(s, t, a) == Some(u) && act(u, t, b) == Some(w)
    ensures After(act, s, t, [a, b, c]) == act(w, t, c)
  {
    TwoSteps(act, s, t, a, b, u);
    OneMore(act, s, t, [a, b], w, c);
    assert [a, b] + [c] == [a, b, c];
  }

  lemma UpdateTwice<K, V>(m: map<K, V>, k: K, a: V, b: V)
    ensures m[k := a][k := b] == m[k := b]
  {
  }
}
