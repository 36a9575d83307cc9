/** Runs of a state machine: its step function applied to a sequence of events. A run is defined in
    two functions so that it is taken apart only where a proof calls `Last`. */
module Runs {

  function Run<S, E>(step: (S, E) -> S, s: S, es: seq<E>): S
    decreases |es|, 1
  {
    if es == [] then s else Longer(step, s, es)
  }

  function Longer<S, E>(step: (S, E) -> S, s: S, es: seq<E>): S
    requires es != []
    decreases |es|, 0
  {
    step(Run(step, s, es[..|es| - 1]), es[|es| - 1])
  }

  /** A run is a run of all events but the last, and that one. */
  lemma Last<S, E>(step: (S, E) -> S, s: S, es: seq<E>)
    requires es != []
    ensures Run(step, s, es) == step(Run(step, s, es[..|es| - 1]), es[|es| - 1])
  {
  }

  lemma {:induction false} Append<S, E>(step: (S, E) -> S, s: S, es: seq<E>, fs: seq<E>)
    ensures Run(step, s, es + fs) == Run(step, Run(step, s, es), fs)
    decreases |fs|
  {
    if fs == [] {
      assert es + fs == es;
    } else {
      Last(step, s, es + fs);
      Last(step, Run(step, s, es), fs);
      Append(step, s, es, fs[..|fs| - 1]);
      assert (es + fs)[..|es + fs| - 1] == es + fs[..|fs| - 1];
    }
  }

  lemma Snoc<S, E>(step: (S, E) -> S, s: S, es: seq<E>, e: E)
    ensures Run(step, s, es + [e]) == step(Run(step, s, es), e)
  {
    Last(step, s, es + [e]);
    assert (es + [e])[..|es|] == es;
  }

  lemma Single<S, E>(step: (S, E) -> S, s: S, e: E)
    ensures Run(step, s, [e]) == step(s, e)
  {
    Last(step, s, [e]);
    assert [e][..0] == [];
  }

  lemma Cons<S, E>(step: (S, E) -> S, s: S, e: E, es: seq<E>)
    ensures Run(step, s, [e] + es) == Run(step, step(s, e), es)
  {
    Append(step, s, [e], es);
    Single(step, s, e);
  }

  lemma Three<S, E>(step: (S, E) -> S, s: S, a: E, b: E, c: E)
    ensures Run(step, s, [a, b]) == step(step(s, a), b)
    ensures Run(step, s, [a, b, c]) == step(step(step(s, a), b), c)
  {
    Single(step, s, a);
    assert [a, b] == [a] + [b] && [a, b, c] == [a, b] + [c];
    Snoc(step, s, [a], b);
    Snoc(step, s, [a, b], c);
  }

  lemma Parts<S, E>(step: (S, E) -> S, s: S, a: seq<E>, b: seq<E>, c: seq<E>, d: seq<E>)
    ensures Run(step, s, a + b + c + d) ==
            Run(step, Run(step, Run(step, Run(step, s, a), b), c), d)
  {
    Append(step, s, a, b);
    Append(step, s, a + b, c);
    Append(step, s, a + b + c, d);
  }

  /** Some run leads from `s` to `t`. */
  ghost predicate Leads<S, E(!new)>(step: (S, E) -> S, s: S, t: S) {
    exists es: seq<E> :: Run(step, s, es) == t
  }

  lemma LeadsNowhere<S, E(!new)>(step: (S, E) -> S, s: S)
    ensures Leads(step, s, s)
  {
    assert Run(step, s, []) == s;
  }

  lemma LeadsOn<S, E(!new)>(step: (S, E) -> S, s: S, t: S, e: E)
    requires Leads(step, s, t)
    ensures Leads(step, s, step(t, e))
  {
    var es: seq<E> :| Run(step, s, es) == t;
    Snoc(step, s, es, e);
  }

  /** `on` happened at some event of the run, or held to begin with, and `off` at none after it. */
  ghost predicate Since<S, E>(step: (S, E) -> S, s: S, es: seq<E>, first: bool, on: (S, E) -> bool, off: (S, E) -> bool) {
    exists i :: 0 <= i <= |es| && SinceEvent(step, s, es, first, on, off, i)
  }

  ghost predicate SinceEvent<S, E>(step: (S, E) -> S, s: S, es: seq<E>, first: bool,
                                   on: (S, E) -> bool, off: (S, E) -> bool, i: nat)
    requires i <= |es|
  {
    (if i == 0 then first else on(Run(step, s, es[..i - 1]), es[i - 1])) &&
    forall j :: i <= j < |es| ==> !off(Run(step, s, es[..j]), es[j])
  }

  lemma SinceNothing<S, E>(step: (S, E) -> S, s: S, first: bool, on: (S, E) -> bool, off: (S, E) -> bool)
    ensures Since(step, s, [], first, on, off) <==> first
  {
    assert SinceEvent(step, s, [], first, on, off, 0) <==> first;
  }

  lemma SinceSnoc<S, E>(step: (S, E) -> S, s: S, init: seq<E>, e: E, first: bool, on: (S, E) -> bool, off: (S, E) -> bool)
    ensures Since(step, s, init + [e], first, on, off) <==>
            on(Run(step, s, init), e) || (Since(step, s, init, first, on, off) && !off(Run(step, s, init), e))
  {
    var es := init + [e];
    assert es[..|init|] == init;
    assert SinceEvent(step, s, es, first, on, off, |es|) <==> on(Run(step, s, init), e);
    forall i | 0 <= i <= |init|
      ensures SinceEvent(step, s, es, first, on, off, i) <==>
              SinceEvent(step, s, init, first, on, off, i) && !off(Run(step, s, init), e)
    {
      assert forall j :: 0 <= j <= |init| ==> es[..j] == init[..j];
      assert forall j :: 0 <= j < |init| ==> es[j] == init[j];
    }
  }
}
