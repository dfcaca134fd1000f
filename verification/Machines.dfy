/** Runs of a state machine: what the protocols of the library are stated over.
    A run is a finite sequence of events, each enabled where it happens. */
module Machines {

  datatype Machine<!S, !E> = Machine(enabled: (S, E) -> bool, apply: (S, E) -> S)

  function Exec<S, E>(m: Machine<S, E>, s: S, es: seq<E>): S
    decreases |es|
  {
    if es == [] then s else m.apply(Exec(m, s, es[..|es| - 1]), es[|es| - 1])
  }

  predicate Legal<S, E>(m: Machine<S, E>, s: S, es: seq<E>)
    decreases |es|
  {
    es == [] || (Legal(m, s, es[..|es| - 1]) && m.enabled(Exec(m, s, es[..|es| - 1]), es[|es| - 1]))
  }

  /** What every step keeps holds after every run. */
  lemma {:induction false} Always<S(!new), E(!new)>(m: Machine<S, E>, inv: S -> bool, s: S, es: seq<E>)
    requires inv(s) && Legal(m, s, es)
    requires forall x, e :: inv(x) && m.enabled(x, e) ==> inv(m.apply(x, e))
    ensures inv(Exec(m, s, es))
    decreases |es|
  {
    if es != [] {
      Always(m, inv, s, es[..|es| - 1]);
    }
  }

  lemma Snoc<S, E>(m: Machine<S, E>, s: S, es: seq<E>, e: E)
    ensures Exec(m, s, es + [e]) == m.apply(Exec(m, s, es), e)
    ensures Legal(m, s, es + [e]) <==> Legal(m, s, es) && m.enabled(Exec(m, s, es), e)
  {
  }

  lemma Two<S, E>(m: Machine<S, E>, s: S, d: E, e: E)
    ensures Exec(m, s, [d, e]) == m.apply(m.apply(s, d), e)
    ensures Legal(m, s, [d, e]) <==> m.enabled(s, d) && m.enabled(m.apply(s, d), e)
  {
    Snoc(m, s, [], d);
    assert [] + [d] == [d];
    Snoc(m, s, [d], e);
    assert [d] + [e] == [d, e];
  }

  /** A run can be cut anywhere. */
  lemma {:induction false} Compose<S, E>(m: Machine<S, E>, s: S, es: seq<E>, fs: seq<E>)
    ensures Exec(m, s, es + fs) == Exec(m, Exec(m, s, es), fs)
    ensures Legal(m, s, es + fs) <==> Legal(m, s, es) && Legal(m, Exec(m, s, es), fs)
    decreases |fs|
  {
    if fs == [] {
      assert es + fs == es;
    } else {
      var init, last := fs[..|fs| - 1], fs[|fs| - 1];
      Compose(m, s, es, init);
      assert es + fs == (es + init) + [last];
      Snoc(m, s, es + init, last);
    }
  }

  /** A run between two steps. */
  lemma Between<S, E>(m: Machine<S, E>, s: S, d: E, es: seq<E>, x: S, e: E)
    requires m.enabled(s, d) && Legal(m, m.apply(s, d), es) && x == Exec(m, m.apply(s, d), es) && m.enabled(x, e)
    ensures Legal(m, s, [d] + es + [e]) && Exec(m, s, [d] + es + [e]) == m.apply(x, e)
  {
    Snoc(m, s, [], d);
    assert [] + [d] == [d];
    Compose(m, s, [d], es);
    Snoc(m, s, [d] + es, e);
  }
}
