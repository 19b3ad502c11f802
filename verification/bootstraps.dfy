/** Bootstraps seed an observer's initial result (Observers.Bootstrap), with the
    provider's two constructors `bootstrap()` and `bootstrap(defValue)`. */
module Bootstraps {
  import opened Options
  import opened Closures

  /** A seed function: from the closure's state and the observer's name, the
      closure's state afterwards and the (possibly null) initial result. */
  datatype Bootstrap<!C, -N, R> = Bootstrap(initialize: (C, N) -> Threaded<C, R>)

  /** The bootstrap leaves the closure as it found it. */
  ghost predicate ClosureUntouched<C(!new), N(!new), R>(b: Bootstrap<C, N, R>)
  {
    forall c, n :: b.initialize(c, n).closure == c
  }

  /** `bootstrap(defValue)`: every observer starts from `defValue`, whatever its
      name and closure. */
  function Constant<C, N, R>(defValue: Option<R>): Bootstrap<C, N, R>
  {
    Bootstrap((c, n) => Threaded(c, defValue))
  }

  /** `bootstrap()`: every observer starts with no result. */
  function Absent<C, N, R>(): Bootstrap<C, N, R>
  {
    Bootstrap((c, n) => Threaded(c, None))
  }

  /** `bootstrap(defValue)` starts every observer at `defValue`, whatever its
      name and closure, and leaves the closure as it was. */
  lemma ConstantSeeds<C(!new), N(!new), R>(defValue: Option<R>)
    ensures ClosureUntouched(Constant<C, N, R>(defValue))
    ensures forall c: C, n: N :: Constant<C, N, R>(defValue).initialize(c, n).value == defValue
  {
  }

  /** `bootstrap()` starts every observer with no result and leaves the
      closure as it was; it is `bootstrap(null)`. */
  lemma AbsentSeeds<C(!new), N(!new), R>()
    ensures ClosureUntouched(Absent<C, N, R>())
    ensures forall c: C, n: N :: Absent<C, N, R>().initialize(c, n) == Constant<C, N, R>(None).initialize(c, n)
  {
  }
}
