/** Operants fold a captured value into the previous result (Observers.Operant),
    with the provider's four constructors: `operant()`, `operant(BiFunction)`,
    `operant(UnaryOperator)` and `operant(Function)`. The narrower ones are
    adaptations of the binary one, as in the provider. */
module Operants {
  import opened Options
  import opened Closures

  /** A fold function: from the closure's state, the previous (possibly null)
      result and the (possibly null) captured value, the closure's state
      afterwards and the new result. */
  datatype Operant<!C, -V, !R> = Operant(compose: (C, Option<R>, Option<V>) -> Threaded<C, R>)

  /** The operant neither writes its closure nor lets it influence the result. */
  ghost predicate ClosureFree<C(!new), V(!new), R(!new)>(op: Operant<C, V, R>)
  {
    && (forall c, p, v :: op.compose(c, p, v).closure == c)
    && (forall c1, c2, p, v :: op.compose(c1, p, v).value == op.compose(c2, p, v).value)
  }

  /** The new result does not depend on the captured value. */
  ghost predicate IgnoresValue<C(!new), V(!new), R(!new)>(op: Operant<C, V, R>)
  {
    forall c, p, v1, v2 :: op.compose(c, p, v1) == op.compose(c, p, v2)
  }

  /** The new result does not depend on the previous result. */
  ghost predicate IgnoresPrev<C(!new), V(!new), R(!new)>(op: Operant<C, V, R>)
  {
    forall c, p1, p2, v :: op.compose(c, p1, v) == op.compose(c, p2, v)
  }

  /** `operant(BiFunction)`: the new result is `func(prev, value)`; the closure
      is dropped. */
  function FromBinary<C, V, R>(func: (Option<R>, Option<V>) -> Option<R>): Operant<C, V, R>
  {
    Operant((c, p, v) => Threaded(c, func(p, v)))
  }

  /** `operant(UnaryOperator)`: the new result is `func(prev)`, whatever was
      captured. */
  function FromUnary<C, V, R>(func: Option<R> -> Option<R>): Operant<C, V, R>
  {
    FromBinary((p, v) => func(p))
  }

  /** `operant(Function)`: the new result is `func(value)`; the previous result
      is discarded. */
  function FromValue<C, V, R>(func: Option<V> -> Option<R>): Operant<C, V, R>
  {
    FromBinary((p, v) => func(v))
  }

  /** `operant()` as documented and as the tests use it: the new result is
      the captured value itself. This is the definition the rest of the model
      uses. */
  function Passthrough<C, V>(): Operant<C, V, V>
  {
    FromValue(v => v)
  }

  /** `operant()` as the provider's default method writes it:
      `operant(value -> value)`. The implicitly typed lambda fits both the
      `UnaryOperator` and the `Function` overloads; `UnaryOperator<R>` extends
      `Function<R, R>`, so Java picks the `UnaryOperator` one as the more
      specific, and the lambda is applied to the previous result. */
  function PassthroughAsWritten<C, V>(): Operant<C, V, V>
  {
    FromUnary(p => p)
  }

  /** Applying `func` to `x` `k` times: the result of `k` folds of
      `operant(func)` from `x`. */
  function Iterate<R>(func: Option<R> -> Option<R>, k: nat, x: Option<R>): Option<R>
  {
    if k == 0 then x else func(Iterate(func, k - 1, x))
  }

  // Laws of the operant constructors

  /** `operant(BiFunction)` composes to `func(prev, value)` and drops the
      closure, which it leaves as it was. */
  lemma BinaryFolds<C(!new), V(!new), R(!new)>(func: (Option<R>, Option<V>) -> Option<R>)
    ensures ClosureFree(FromBinary<C, V, R>(func))
    ensures forall c: C, p, v :: FromBinary<C, V, R>(func).compose(c, p, v).value == func(p, v)
  {
  }

  /** `operant(UnaryOperator)` composes to `func(prev)`, whatever the value. */
  lemma UnaryFolds<C(!new), V(!new), R(!new)>(func: Option<R> -> Option<R>)
    ensures ClosureFree(FromUnary<C, V, R>(func))
    ensures IgnoresValue(FromUnary<C, V, R>(func))
    ensures forall c: C, p, v: Option<V> :: FromUnary<C, V, R>(func).compose(c, p, v).value == func(p)
  {
  }

  /** `operant(Function)` composes to `func(value)`, whatever the previous
      result. */
  lemma ValueFolds<C(!new), V(!new), R(!new)>(func: Option<V> -> Option<R>)
    ensures ClosureFree(FromValue<C, V, R>(func))
    ensures IgnoresPrev(FromValue<C, V, R>(func))
    ensures forall c: C, p: Option<R>, v :: FromValue<C, V, R>(func).compose(c, p, v).value == func(v)
  {
  }

  /** `operant()` returns the captured value unchanged and leaves the closure. */
  lemma PassthroughFolds<C(!new), V(!new)>()
    ensures ClosureFree(Passthrough<C, V>())
    ensures IgnoresPrev(Passthrough<C, V>())
    ensures forall c: C, p: Option<V>, v :: Passthrough<C, V>().compose(c, p, v) == Threaded(c, v)
  {
  }

  /** `operant()` as written keeps the previous result, whatever was captured,
      and leaves the closure as it was. */
  lemma PassthroughAsWrittenKeepsPrev<C(!new), V(!new)>()
    ensures ClosureFree(PassthroughAsWritten<C, V>())
    ensures IgnoresValue(PassthroughAsWritten<C, V>())
    ensures forall c: C, p: Option<V>, v :: PassthroughAsWritten<C, V>().compose(c, p, v) == Threaded(c, p)
  {
  }

  /** The two readings of `operant()` part on the first fold of an observer
      with no result yet: folding a captured `1` into null gives null as
      written, and `1` as intended. */
  lemma PassthroughAsWrittenDiffers<C>(c: C)
    ensures PassthroughAsWritten<C, int>().compose(c, None, Some(1)).value == None
    ensures Passthrough<C, int>().compose(c, None, Some(1)).value == Some(1)
  {
  }
}
