/**
 * `Lazy<T>` as the explorers use it: the value is computed on the first read and every later read
 * returns that same value. A thrown exception is cached like a value, so `T` is usually a `Result`.
 * `evaluations` counts how often the factory ran.
 */
module Lazy {
  import opened Wrappers

  datatype Lazy<T> = Lazy(cached: Option<T>, evaluations: nat)

  /** A lazy value whose factory has not run yet. */
  function Create<T>(): (r: Lazy<T>)
    ensures r.cached.None? && r.evaluations == 0
  {
    Lazy(None, 0)
  }

  /** The factory ran exactly once if and only if there is a cached value. */
  predicate Valid<T>(l: Lazy<T>) {
    if l.cached.Some? then l.evaluations == 1 else l.evaluations == 0
  }

  /**
   * `Lazy<T>.Value`: the cached value when there is one; otherwise run `factory` once and cache
   * its result. The second component is the lazy value after the read.
   */
  function Force<T>(l: Lazy<T>, factory: () -> T): (r: (T, Lazy<T>))
    ensures r.1.cached == Some(r.0)
    ensures l.cached.Some? ==> r.0 == l.cached.value && r.1 == l
    ensures l.cached.None? ==> r.0 == factory() && r.1.evaluations == l.evaluations + 1
    ensures Valid(l) ==> Valid(r.1)
  {
    match l.cached
    case Some(v) => (v, l)
    case None =>
      var v := factory();
      (v, Lazy(Some(v), l.evaluations + 1))
  }

  /**
   * Compute-once: whatever factory a later read passes, it gets the first read's value, the lazy
   * value no longer changes, and the factory has run at most once.
   */
  lemma {:induction false} ForceOnce<T>(l: Lazy<T>, first: () -> T, later: () -> T)
    requires Valid(l)
    ensures Force(Force(l, first).1, later).0 == Force(l, first).0
    ensures Force(Force(l, first).1, later).1 == Force(l, first).1
    ensures Force(l, first).1.evaluations == 1
  {
    var (v, l1) := Force(l, first);
    assert l1.cached == Some(v);
    assert Valid(l1);
  }
}
