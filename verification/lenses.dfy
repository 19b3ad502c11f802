/** Lenses capture a value from an observable (Observers.Lens), with the two
    combinators `pipe` and `require` and the provider's three constructors
    `lens()`, `lens(func)` and `lens(predicate)`. */
module Lenses {
  import opened Options
  import opened Closures

  /** A capture function: from the closure's state and the (possibly null)
      observable, the closure's state afterwards and the captured value. */
  datatype Lens<!C, -O, V> = Lens(capture: (C, Option<O>) -> Threaded<C, V>)

  /** The lens neither writes its closure nor lets the closure influence what it
      captures. */
  ghost predicate ClosureFree<C(!new), O(!new), V>(l: Lens<C, O, V>)
  {
    && (forall c, o :: l.capture(c, o).closure == c)
    && (forall c1, c2, o :: l.capture(c1, o).value == l.capture(c2, o).value)
  }

  /** Observational equality: the same closure state and value for every closure
      state and observable. */
  ghost predicate Equivalent<C(!new), O(!new), V>(l1: Lens<C, O, V>, l2: Lens<C, O, V>)
  {
    forall c, o :: l1.capture(c, o) == l2.capture(c, o)
  }

  /** `lens()`: captures the observable itself. */
  function Identity<C, O>(): Lens<C, O, O>
  {
    Lens((c, o) => Threaded(c, o))
  }

  /** `lens(func)`: captures `func` applied to the observable. */
  function Project<C, O, V>(func: Option<O> -> Option<V>): Lens<C, O, V>
  {
    Lens((c, o) => Threaded(c, func(o)))
  }

  /** `lens(predicate)`: captures the observable when it passes the predicate,
      and nothing otherwise. */
  function Filter<C, O>(test: Option<O> -> bool): Lens<C, O, O>
  {
    Lens((c, o) => Threaded(c, if test(o) then o else None))
  }

  /** `pipe`: the capture of `l` is handed, absent or not, to `after`, and both
      stages are handed the same closure. */
  function Pipe<C(!new), O(!new), V(!new), T>(l: Lens<C, O, V>, after: Lens<C, V, T>): (r: Lens<C, O, T>)
    ensures ClosureFree(l) && ClosureFree(after) ==> ClosureFree(r)
  {
    Lens((c, o) => var t := l.capture(c, o); after.capture(t.closure, t.value))
  }

  /** `require`: the predicate is tested on the observable; when it fails the
      lens is not run, so nothing is captured and the closure is untouched. */
  function Require<C(!new), O(!new), V>(l: Lens<C, O, V>, test: Option<O> -> bool): (r: Lens<C, O, V>)
    ensures forall c, o :: !test(o) ==> r.capture(c, o) == Threaded(c, None)
    ensures forall c, o :: test(o) ==> r.capture(c, o) == l.capture(c, o)
    ensures ClosureFree(l) ==> ClosureFree(r)
  {
    Lens((c, o) => if test(o) then l.capture(c, o) else Threaded(c, None))
  }

  // Laws of the lens algebra

  /** `lens()` captures the observable unchanged and neither reads nor writes
      the closure. */
  lemma IdentityCapturesObservable<C(!new), O(!new)>()
    ensures ClosureFree(Identity<C, O>())
    ensures forall c: C, o: Option<O> :: Identity<C, O>().capture(c, o).value == o
  {
  }

  /** `lens(func)` captures `func(observable)` and neither reads nor writes the
      closure. */
  lemma ProjectAppliesFunction<C(!new), O(!new), V>(func: Option<O> -> Option<V>)
    ensures ClosureFree(Project<C, O, V>(func))
    ensures forall c: C, o :: Project<C, O, V>(func).capture(c, o).value == func(o)
  {
  }

  /** `lens(test)` captures the observable exactly when `test` holds of it, and
      nothing otherwise; the closure is neither read nor written. */
  lemma FilterGuardsObservable<C(!new), O(!new)>(test: Option<O> -> bool)
    ensures ClosureFree(Filter<C, O>(test))
    ensures forall c: C, o :: test(o) ==> Filter<C, O>(test).capture(c, o).value == o
    ensures forall c: C, o :: !test(o) ==> Filter<C, O>(test).capture(c, o).value == None
  {
  }

  /** `pipe` hands `after` the very closure state the first stage left behind
      and the value it captured. */
  lemma PipeSharesClosure<C(!new), O(!new), V(!new), T>(l: Lens<C, O, V>, after: Lens<C, V, T>, c: C, o: Option<O>)
    ensures var t := l.capture(c, o);
            Pipe(l, after).capture(c, o) == after.capture(t.closure, t.value)
    ensures ClosureFree(l) ==> Pipe(l, after).capture(c, o) == after.capture(c, l.capture(c, o).value)
  {
  }

  /** `pipe` does not short-circuit: when the first stage captures nothing, the
      second still runs, on a null observable, and may capture something. */
  lemma PipeForwardsAbsent()
    ensures var first := Filter<int, int>(o => false);
            var after := Project<int, int, int>((o: Option<int>) => if o.None? then Some(0) else o);
            && first.capture(0, Some(7)).value == None
            && Pipe(first, after).capture(0, Some(7)).value == Some(0)
  {
  }

  /** `lens()` is a left identity of `pipe`. */
  lemma PipeIdentityLeft<C(!new), O(!new), V>(l: Lens<C, O, V>)
    ensures Equivalent(Pipe(Identity(), l), l)
  {
  }

  /** `lens()` is a right identity of `pipe`. */
  lemma PipeIdentityRight<C(!new), O(!new), V(!new)>(l: Lens<C, O, V>)
    ensures Equivalent(Pipe(l, Identity()), l)
  {
  }

  /** `pipe` is associative. */
  lemma PipeAssociative<C(!new), O(!new), U(!new), V(!new), T>(a: Lens<C, O, U>, b: Lens<C, U, V>, d: Lens<C, V, T>)
    ensures Equivalent(Pipe(Pipe(a, b), d), Pipe(a, Pipe(b, d)))
  {
  }

  /** Piping two projections is the projection through the composed function. */
  lemma PipeProjections<C(!new), O(!new), V(!new), T>(f: Option<O> -> Option<V>, g: Option<V> -> Option<T>)
    ensures Equivalent(Pipe(Project<C, O, V>(f), Project<C, V, T>(g)), Project(o => g(f(o))))
  {
  }

  /** `lens(func)` with the identity function is `lens()`. */
  lemma ProjectIdentity<C(!new), O(!new)>()
    ensures Equivalent(Project<C, O, O>(o => o), Identity())
  {
  }

  /** Stacked guards: `l.require(p).require(q)` captures only when both hold,
      and is the single guard on their conjunction. */
  lemma RequireStacked<C(!new), O(!new), V>(l: Lens<C, O, V>, p: Option<O> -> bool, q: Option<O> -> bool)
    ensures forall c, o :: Require(Require(l, p), q).capture(c, o).value.Some? ==> p(o) && q(o)
    ensures Equivalent(Require(Require(l, p), q), Require(l, o => p(o) && q(o)))
  {
  }

  /** A guard that always holds changes nothing. */
  lemma RequireAlways<C(!new), O(!new), V>(l: Lens<C, O, V>)
    ensures Equivalent(Require(l, o => true), l)
  {
  }

  /** The guard tests the observable, not the captured value: a guard that
      accepts only the observable 0 lets a capture of 5 through. */
  lemma RequireTestsObservable()
    ensures var l := Require(Project<int, int, int>(o => Some(5)), o => o == Some(0));
            && l.capture(0, Some(0)).value == Some(5)
            && l.capture(0, Some(5)).value == None
  {
  }

  /** `lens(predicate)` is `lens().require(predicate)`. */
  lemma FilterIsGuardedIdentity<C(!new), O(!new)>(test: Option<O> -> bool)
    ensures Equivalent(Filter<C, O>(test), Require(Identity(), test))
  {
  }
}
