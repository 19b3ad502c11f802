/** An optic bundles a bootstrap, a lens and an operant (Observers.Optic), with
    the provider's default wirings `optic(lens)`, `optic(operant)` and
    `optic()`. The general `optic(bootstrap, lens, operant)` is taken to behave
    as its three parts. */
module Optics {
  import opened Options
  import opened Closures
  import opened Lenses
  import opened Operants
  import opened Bootstraps

  datatype Optic<!C, !N, !O, !V, !R> = Optic(bootstrap: Bootstrap<C, N, R>, lens: Lens<C, O, V>, operant: Operant<C, V, R>)

  /** `optic(lens)`: no initial result, and every fold's result is the value
      the lens captured. */
  function FromLens<C, N, O, V>(lens: Lens<C, O, V>): Optic<C, N, O, V, V>
  {
    Optic(Absent(), lens, Passthrough())
  }

  /** `optic(operant)`: no initial result, and the observable itself is what
      gets folded. */
  function FromOperant<C, N, V, R>(operant: Operant<C, V, R>): Optic<C, N, V, V, R>
  {
    Optic(Absent(), Identity(), operant)
  }

  /** `optic()`: the result becomes the observable. */
  function Default<C, N, O>(): Optic<C, N, O, O, O>
  {
    FromLens(Identity())
  }

  /** `optic(lens)` with `operant()` as the provider writes it
      (`Operants.PassthroughAsWritten`): every fold keeps the previous result. */
  function FromLensAsWritten<C, N, O, V>(lens: Lens<C, O, V>): Optic<C, N, O, V, V>
  {
    Optic(Absent(), lens, PassthroughAsWritten())
  }

  /** `optic()` with `operant()` as the provider writes it. */
  function DefaultAsWritten<C, N, O>(): Optic<C, N, O, O, O>
  {
    FromLensAsWritten(Identity())
  }

  /** Observational equality of optics, role by role. */
  ghost predicate Equivalent<C(!new), N(!new), O(!new), V(!new), R(!new)>(a: Optic<C, N, O, V, R>, b: Optic<C, N, O, V, R>)
  {
    && (forall c, n :: a.bootstrap.initialize(c, n) == b.bootstrap.initialize(c, n))
    && Lenses.Equivalent(a.lens, b.lens)
    && (forall c, p, v :: a.operant.compose(c, p, v) == b.operant.compose(c, p, v))
  }

  /** `optic(lens)` has no initial result, uses `lens`, and every fold's result
      is the value the lens captured. */
  lemma FromLensWiring<C(!new), N(!new), O(!new), V(!new)>(lens: Lens<C, O, V>)
    ensures FromLens<C, N, O, V>(lens).lens == lens
    ensures forall c: C, n: N :: FromLens<C, N, O, V>(lens).bootstrap.initialize(c, n) == Threaded(c, None)
    ensures forall c: C, p, v :: FromLens<C, N, O, V>(lens).operant.compose(c, p, v) == Threaded(c, v)
  {
  }

  /** `optic(operant)` has no initial result, uses `operant`, and its lens hands
      the observable itself to the operant. */
  lemma FromOperantWiring<C(!new), N(!new), V(!new), R(!new)>(operant: Operant<C, V, R>)
    ensures FromOperant<C, N, V, R>(operant).operant == operant
    ensures forall c: C, n: N :: FromOperant<C, N, V, R>(operant).bootstrap.initialize(c, n) == Threaded(c, None)
    ensures forall c: C, o :: FromOperant<C, N, V, R>(operant).lens.capture(c, o) == Threaded(c, o)
  {
  }

  /** `optic()` starts with no result, captures the observable and makes it the
      result. */
  lemma DefaultWiring<C(!new), N(!new), O(!new)>()
    ensures forall c: C, n: N :: Default<C, N, O>().bootstrap.initialize(c, n) == Threaded(c, None)
    ensures forall c: C, o: Option<O> :: Default<C, N, O>().lens.capture(c, o) == Threaded(c, o)
    ensures forall c: C, p: Option<O>, v :: Default<C, N, O>().operant.compose(c, p, v) == Threaded(c, v)
  {
  }

  /** `optic()` could equally have been wired as `optic(operant())`: both
      default expansions give the same pipeline. */
  lemma DefaultExpansionsAgree<C(!new), N(!new), O(!new)>()
    ensures Equivalent(Default<C, N, O>(), FromOperant(Passthrough()))
    ensures Equivalent(Default<C, N, O>(), Optic(Absent(), Identity(), Passthrough()))
  {
  }
}
