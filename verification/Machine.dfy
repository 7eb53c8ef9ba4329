/** Runs of a state machine given by its step function, and the outputs collected along them. */
module Machine {
  import opened Prelude

  function Play<S, E>(step: (S, E) -> S, s: S, es: seq<E>): S {
    if es == [] then s else step(Play(step, s, es[..|es| - 1]), es[|es| - 1])
  }

  function Collect<S, E, O>(step: (S, E) -> S, out: (S, E) -> seq<O>, s: S, es: seq<E>): seq<O> {
    if es == [] then [] else
      var front := es[..|es| - 1];
      Collect(step, out, s, front) + out(Play(step, s, front), es[|es| - 1])
  }

  /** Runs of a machine whose steps are not always enabled: there is no state after a step that was not. */
  function Follow<S, E>(next: (S, E) -> Option<S>, s: S, es: seq<E>): Option<S> {
    if es == [] then Some(s) else
      var before := Follow(next, s, es[..|es| - 1]);
      if before.Some? then next(before.value, es[|es| - 1]) else None
  }

  lemma FollowAppend<S, E>(next: (S, E) -> Option<S>, s: S, es: seq<E>, t: S, e: E)
    requires Follow(next, s, es) == Some(t)
    ensures Follow(next, s, es + [e]) == next(t, e)
  {
    assert (es + [e])[..|es|] == es;
  }

  lemma PlayAppend<S, E>(step: (S, E) -> S, s: S, es: seq<E>, e: E)
    ensures Play(step, s, es + [e]) == step(Play(step, s, es), e)
  {
    assert (es + [e])[..|es|] == es;
  }

  lemma CollectAppend<S, E, O>(step: (S, E) -> S, out: (S, E) -> seq<O>, s: S, es: seq<E>, e: E)
    ensures Collect(step, out, s, es + [e]) == Collect(step, out, s, es) + out(Play(step, s, es), e)
  {
    assert (es + [e])[..|es|] == es;
  }

  lemma {:induction false} PlayConcat<S, E>(step: (S, E) -> S, s: S, a: seq<E>, b: seq<E>)
    ensures Play(step, s, a + b) == Play(step, Play(step, s, a), b)
  {
    if b == [] {
      assert a + b == a;
    } else {
      PlayConcat(step, s, a, b[..|b| - 1]);
      assert (a + b)[..|a + b| - 1] == a + b[..|b| - 1];
    }
  }

  /** Events that change nothing can be left out. */
  lemma {:induction false} PlayIdle<S, E>(step: (S, E) -> S, s: S, es: seq<E>)
    requires forall e :: e in es ==> step(s, e) == s
    ensures Play(step, s, es) == s
  {
    if es == [] {
    } else {
      PlayIdle(step, s, es[..|es| - 1]);
    }
  }

  /** A run may stop early where the rest of the events would change nothing. */
  lemma PlayStops<S, E>(step: (S, E) -> S, s: S, es: seq<E>, i: nat, end: S)
    requires i <= |es| && Play(step, s, es[..i]) == end
    requires forall e :: e in es[i..] ==> step(end, e) == end
    ensures Play(step, s, es) == end
  {
    assert es == es[..i] + es[i..];
    PlayConcat(step, s, es[..i], es[i..]);
    PlayIdle(step, end, es[i..]);
  }

  lemma {:induction false} CollectConcat<S, E, O>(step: (S, E) -> S, out: (S, E) -> seq<O>, s: S, a: seq<E>, b: seq<E>)
    ensures Collect(step, out, s, a + b) == Collect(step, out, s, a) + Collect(step, out, Play(step, s, a), b)
  {
    if b == [] {
      assert a + b == a;
    } else {
      var front := b[..|b| - 1];
      CollectConcat(step, out, s, a, front);
      PlayConcat(step, s, a, front);
      assert (a + b)[..|a + b| - 1] == a + front;
    }
  }

  lemma CollectPair<S, E, O>(step: (S, E) -> S, out: (S, E) -> seq<O>, s: S, a: E, b: E)
    ensures Collect(step, out, s, [a, b]) == out(s, a) + out(step(s, a), b)
    ensures Play(step, s, [a, b]) == step(step(s, a), b)
  {
    assert [] + [a] == [a] && [a] + [b] == [a, b];
    CollectAppend(step, out, s, [], a);
    PlayAppend(step, s, [], a);
    CollectAppend(step, out, s, [a], b);
    PlayAppend(step, s, [a], b);
  }
}
