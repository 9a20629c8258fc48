/** Runs of a machine whose step function is total: a step that is not enabled leaves the state alone. */
module Runs {

  /** The state after executing the events in order. */
  function Run<S, E>(step: (S, E) -> S, s: S, es: seq<E>): S {
    if es == [] then s else Run(step, step(s, es[0]), es[1..])
  }

  /** Every event of the run meets the assumption `ok` in the state it executes in. */
  ghost predicate Always<S, E>(step: (S, E) -> S, ok: (S, E) -> bool, s: S, es: seq<E>) {
    es == [] || (ok(s, es[0]) && Always(step, ok, step(s, es[0]), es[1..]))
  }

  /** A property kept by every admissible step holds after every admissible run. */
  lemma {:induction false} Invariant<S(!new), E(!new)>(
    step: (S, E) -> S, ok: (S, E) -> bool, inv: S -> bool, s: S, es: seq<E>)
    requires inv(s)
    requires forall x, e :: inv(x) && ok(x, e) ==> inv(step(x, e))
    requires Always(step, ok, s, es)
    ensures inv(Run(step, s, es))
  {
    if es != [] {
      Invariant(step, ok, inv, step(s, es[0]), es[1..]);
    }
  }

  /** The same for machines that need no assumption. */
  lemma {:induction false} AlwaysInvariant<S(!new), E(!new)>(step: (S, E) -> S, inv: S -> bool, s: S, es: seq<E>)
    requires inv(s)
    requires forall x, e :: inv(x) ==> inv(step(x, e))
    ensures inv(Run(step, s, es))
    decreases |es|
  {
    if es != [] {
      AlwaysInvariant(step, inv, step(s, es[0]), es[1..]);
    }
  }

  /** What no step changes, no run changes. */
  lemma {:induction false} Unchanged<S(!new), E(!new), V>(step: (S, E) -> S, f: S -> V, s: S, es: seq<E>)
    requires forall x, e :: f(step(x, e)) == f(x)
    ensures f(Run(step, s, es)) == f(s)
    decreases |es|
  {
    if es != [] {
      Unchanged(step, f, step(s, es[0]), es[1..]);
    }
  }

  /** Where an admissible step from a good state has the property `stays` exactly if it is `ok`, and then leads
      to a good state again, all steps of a run have that property exactly if all are `ok`. */
  lemma {:induction false} KeptExactly<S(!new), E(!new)>(
    step: (S, E) -> S, may: (S, E) -> bool, inv: S -> bool, good: S -> bool, ok: (S, E) -> bool,
    stays: (S, E) -> bool, s: S, es: seq<E>)
    requires forall x, e :: inv(x) && may(x, e) ==> inv(step(x, e))
    requires forall x, e :: inv(x) && may(x, e) && good(x) ==> (stays(x, e) <==> ok(x, e))
    requires forall x, e :: inv(x) && may(x, e) && good(x) && ok(x, e) ==> good(step(x, e))
    requires inv(s) && good(s) && Always(step, may, s, es)
    ensures Always(step, stays, s, es) <==> Always(step, ok, s, es)
    ensures Always(step, ok, s, es) ==> good(Run(step, s, es))
    decreases |es|
  {
    if es != [] && ok(s, es[0]) {
      KeptExactly(step, may, inv, good, ok, stays, step(s, es[0]), es[1..]);
    }
  }

  /** What holds of every admissible step from an invariant state holds throughout every admissible run. */
  lemma {:induction false} AlwaysFollows<S(!new), E(!new)>(
    step: (S, E) -> S, may: (S, E) -> bool, inv: S -> bool, ok: (S, E) -> bool, s: S, es: seq<E>)
    requires forall x, e :: inv(x) && may(x, e) ==> inv(step(x, e)) && ok(x, e)
    requires inv(s) && Always(step, may, s, es)
    ensures Always(step, ok, s, es)
    decreases |es|
  {
    if es != [] {
      AlwaysFollows(step, may, inv, ok, step(s, es[0]), es[1..]);
    }
  }

  /** A few steps by the same event. */
  lemma FewSteps<S, E>(step: (S, E) -> S, s: S, e: E)
    ensures Run(step, s, [e]) == step(s, e)
    ensures Run(step, s, [e, e]) == step(step(s, e), e)
    ensures Run(step, s, [e, e, e]) == step(step(step(s, e), e), e)
    ensures Run(step, s, [e, e, e, e]) == step(step(step(step(s, e), e), e), e)
  {
    Prepend(step, s, e, []);
    assert [e] + [] == [e];
    Prepend(step, s, e, [e]);
    assert [e] + [e] == [e, e];
    Prepend(step, step(s, e), e, []);
    Three(step, s, e, e, e);
    Three(step, step(s, e), e, e, e);
    Prepend(step, s, e, [e, e, e]);
    assert [e] + [e, e, e] == [e, e, e, e];
  }

  /** Where every step by `e` along a path comes closer to its end, repeating `e` arrives there. */
  lemma {:induction false} Arrives<S(!new), E(!new)>(
    step: (S, E) -> S, e: E, path: S -> bool, left: S -> nat, s: S) returns (es: seq<E>)
    requires forall x :: path(x) && left(x) > 0 ==> path(step(x, e)) && left(step(x, e)) < left(x)
    requires path(s)
    ensures |es| <= left(s) && (forall f :: f in es ==> f == e)
    ensures path(Run(step, s, es)) && left(Run(step, s, es)) == 0
    decreases left(s)
  {
    if left(s) == 0 {
      es := [];
    } else {
      var rest := Arrives(step, e, path, left, step(s, e));
      es := [e] + rest;
      Prepend(step, s, e, rest);
    }
  }

  /** All events of the run are of one kind. */
  ghost predicate Only<E>(kind: E -> bool, es: seq<E>) {
    forall e :: e in es ==> kind(e)
  }

  /** The assumption of a machine that needs none. */
  predicate Anything<S, E>(s: S, e: E) {
    true
  }

  predicate AnyState<S>(s: S) {
    true
  }

  lemma {:induction false} AlwaysAnything<S, E>(step: (S, E) -> S, s: S, es: seq<E>)
    ensures Always(step, Anything, s, es)
    decreases |es|
  {
    if es != [] {
      AlwaysAnything(step, step(s, es[0]), es[1..]);
    }
  }

  lemma Prepend<S, E>(step: (S, E) -> S, s: S, e: E, es: seq<E>)
    ensures Run(step, s, [e] + es) == Run(step, step(s, e), es)
  {
    assert ([e] + es)[1..] == es;
  }

  lemma AlwaysPrepend<S, E>(step: (S, E) -> S, ok: (S, E) -> bool, s: S, e: E, es: seq<E>)
    ensures Always(step, ok, s, [e] + es) <==> ok(s, e) && Always(step, ok, step(s, e), es)
  {
    assert ([e] + es)[1..] == es;
  }

  lemma {:induction false} RunConcat<S, E>(step: (S, E) -> S, s: S, a: seq<E>, b: seq<E>)
    ensures Run(step, s, a + b) == Run(step, Run(step, s, a), b)
  {
    if a == [] {
      assert a + b == b;
    } else {
      assert (a + b)[0] == a[0] && (a + b)[1..] == a[1..] + b;
      RunConcat(step, step(s, a[0]), a[1..], b);
    }
  }

  lemma {:induction false} AlwaysConcat<S, E>(step: (S, E) -> S, ok: (S, E) -> bool, s: S, a: seq<E>, b: seq<E>)
    ensures Always(step, ok, s, a + b) <==>
            Always(step, ok, s, a) && Always(step, ok, Run(step, s, a), b)
  {
    if a == [] {
      assert a + b == b;
    } else {
      assert (a + b)[0] == a[0] && (a + b)[1..] == a[1..] + b;
      AlwaysConcat(step, ok, step(s, a[0]), a[1..], b);
    }
  }

  lemma Append<S, E>(step: (S, E) -> S, s: S, es: seq<E>, e: E)
    ensures Run(step, s, es + [e]) == step(Run(step, s, es), e)
  {
    RunConcat(step, s, es, [e]);
    Prepend(step, Run(step, s, es), e, []);
    assert [e] + [] == [e];
  }

  lemma Six<S, E>(step: (S, E) -> S, s: S, a: E, b: E, c: E, d: E, e: E, f: E)
    ensures Run(step, s, [a, b, c, d, e, f]) == step(step(step(step(step(step(s, a), b), c), d), e), f)
  {
    Three(step, s, a, b, c);
    Three(step, step(step(step(s, a), b), c), d, e, f);
    RunConcat(step, s, [a, b, c], [d, e, f]);
    assert [a, b, c] + [d, e, f] == [a, b, c, d, e, f];
  }

  lemma Three<S, E>(step: (S, E) -> S, s: S, a: E, b: E, c: E)
    ensures Run(step, s, [a, b, c]) == step(step(step(s, a), b), c)
  {
    assert [a, b, c][1..] == [b, c] && [b, c][1..] == [c] && [c][1..] == [];
    assert Run(step, step(step(s, a), b), [c]) == step(step(step(s, a), b), c);
  }
}
