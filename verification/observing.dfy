/** The reference model of one observer (Observers.Observer): seeded by its
    optic's bootstrap, then, on each observation, a capture by the optic's lens
    followed by a fold by its operant. */
module Observing {
  import opened Options
  import opened Closures
  import opened Lenses
  import opened Operants
  import opened Bootstraps
  import opened Optics

  /** The interfaces leave open whether an absent capture is still folded; the
      engine that decides is not part of this model, so the choice is explicit. */
  datatype AbsentCapture = SkipFold | FoldAbsent

  /** One observer: its name, its closure's state, its accumulated result and
      the observable it was bound to when it was created. */
  datatype Observer<C, N, O, R> = Observer(name: N, closure: C, result: Option<R>, observable: Option<O>)

  /** A new observer: the bootstrap runs once on the fresh closure and the
      observer's name, and its value is the starting result. */
  function Seed<C, N, O, V, R>(optic: Optic<C, N, O, V, R>, name: N, closure: C, observable: Option<O>): (r: Observer<C, N, O, R>)
    ensures r.name == name && r.observable == observable
    ensures r.result == optic.bootstrap.initialize(closure, name).value
    ensures r.closure == optic.bootstrap.initialize(closure, name).closure
  {
    var t := optic.bootstrap.initialize(closure, name);
    Observer(name, t.closure, t.value, observable)
  }

  /** One observation against `observable`: the lens captures from it with the
      observer's closure, then the operant folds the capture into the previous
      result with the closure the lens left. */
  function Step<C, N, O, V, R>(optic: Optic<C, N, O, V, R>, absent: AbsentCapture, o: Observer<C, N, O, R>, observable: Option<O>): (r: Observer<C, N, O, R>)
    ensures r.name == o.name && r.observable == o.observable
    ensures var t := optic.lens.capture(o.closure, observable);
            t.value.None? && absent == SkipFold ==> r.result == o.result && r.closure == t.closure
    ensures var t := optic.lens.capture(o.closure, observable);
            var f := optic.operant.compose(t.closure, o.result, t.value);
            t.value.Some? || absent == FoldAbsent ==> r.result == f.value && r.closure == f.closure
  {
    var t := optic.lens.capture(o.closure, observable);
    if t.value.None? && absent == SkipFold then
      o.(closure := t.closure)
    else
      var f := optic.operant.compose(t.closure, o.result, t.value);
      o.(closure := f.closure, result := f.value)
  }

  /** `observe()`: one observation of the observable the observer is bound to. */
  function Observe<C, N, O, V, R>(optic: Optic<C, N, O, V, R>, absent: AbsentCapture, o: Observer<C, N, O, R>): (r: Observer<C, N, O, R>)
    ensures r.name == o.name && r.observable == o.observable
  {
    Step(optic, absent, o, o.observable)
  }

  /** Observations against a sequence of observables, in order (the way a
      push-sourced observer is fed one observable per event). */
  function Feed<C, N, O, V, R>(optic: Optic<C, N, O, V, R>, absent: AbsentCapture, o: Observer<C, N, O, R>, observables: seq<Option<O>>): (r: Observer<C, N, O, R>)
    ensures r.name == o.name && r.observable == o.observable
    decreases |observables|
  {
    if observables == [] then o
    else Feed(optic, absent, Step(optic, absent, o, observables[0]), observables[1..])
  }

  /** `observe()` called `k` times. */
  function Repeat<C, N, O, V, R>(optic: Optic<C, N, O, V, R>, absent: AbsentCapture, o: Observer<C, N, O, R>, k: nat): (r: Observer<C, N, O, R>)
    ensures r.name == o.name && r.observable == o.observable
  {
    if k == 0 then o else Observe(optic, absent, Repeat(optic, absent, o, k - 1))
  }

  /** `observe(lens, closure)`: when the observer has a result, the caller's
      lens is applied to it with the caller's closure; when it has none, the
      lens is not called and the answer is null. The observer's own optic and
      closure play no part and nothing of it changes. */
  function Inspect<C, N, O, R, C2, V>(o: Observer<C, N, O, R>, lens: Lens<C2, R, V>, closure: C2): Threaded<C2, V>
  {
    if o.result.None? then Threaded(closure, None)
    else lens.capture(closure, o.result)
  }

  // Laws of observation

  /** Observations fold in call order: one more observation is one more step
      on the observer the earlier ones produced. */
  lemma {:induction false} FeedAppend<C, N, O, V, R>(optic: Optic<C, N, O, V, R>, absent: AbsentCapture, o: Observer<C, N, O, R>, observables: seq<Option<O>>, x: Option<O>)
    ensures Feed(optic, absent, o, observables + [x]) == Step(optic, absent, Feed(optic, absent, o, observables), x)
    decreases |observables|
  {
    if observables == [] {
      assert [x][1..] == [];
    } else {
      assert (observables + [x])[1..] == observables[1..] + [x];
      FeedAppend(optic, absent, Step(optic, absent, o, observables[0]), observables[1..], x);
    }
  }

  /** Feeding two batches is feeding their concatenation. */
  lemma {:induction false} FeedConcat<C, N, O, V, R>(optic: Optic<C, N, O, V, R>, absent: AbsentCapture, o: Observer<C, N, O, R>, xs: seq<Option<O>>, ys: seq<Option<O>>)
    ensures Feed(optic, absent, o, xs + ys) == Feed(optic, absent, Feed(optic, absent, o, xs), ys)
    decreases |xs|
  {
    if xs == [] {
      assert xs + ys == ys;
    } else {
      assert (xs + ys)[1..] == xs[1..] + ys;
      FeedConcat(optic, absent, Step(optic, absent, o, xs[0]), xs[1..], ys);
    }
  }

  /** `observe()` reuses the observable obtained at creation: `k` observations
      are `k` steps against that same observable. */
  lemma {:induction false} RepeatIsFeed<C, N, O, V, R>(optic: Optic<C, N, O, V, R>, absent: AbsentCapture, o: Observer<C, N, O, R>, k: nat)
    ensures Repeat(optic, absent, o, k) == Feed(optic, absent, o, seq(k, i => o.observable))
  {
    if k == 0 {
      assert seq(0, i => o.observable) == [];
    } else {
      RepeatIsFeed(optic, absent, o, k - 1);
      assert seq(k, i => o.observable) == seq(k - 1, i => o.observable) + [o.observable];
      FeedAppend(optic, absent, o, seq(k - 1, i => o.observable), o.observable);
    }
  }

  /** Under `SkipFold`, observations whose captures are all absent never move
      the result away from where it was. */
  lemma {:induction false} FeedAbsentKeepsResult<C, N, O, V, R>(optic: Optic<C, N, O, V, R>, o: Observer<C, N, O, R>, observables: seq<Option<O>>)
    requires forall i, c :: 0 <= i < |observables| ==> optic.lens.capture(c, observables[i]).value == None
    ensures Feed(optic, SkipFold, o, observables).result == o.result
    decreases |observables|
  {
    if observables != [] {
      var o' := Step(optic, SkipFold, o, observables[0]);
      assert o'.result == o.result;
      FeedAbsentKeepsResult(optic, o', observables[1..]);
    }
  }

  /** With `operant(func)` for a unary `func`, `n` observations whose captures
      are folded apply `func` `n` times to the starting result. */
  lemma {:induction false} FeedUnaryIterates<C(!new), N, O, V(!new), R(!new)>(optic: Optic<C, N, O, V, R>, absent: AbsentCapture, func: Option<R> -> Option<R>, o: Observer<C, N, O, R>, observables: seq<Option<O>>)
    requires optic.operant == FromUnary(func)
    requires absent == SkipFold ==> forall i, c :: 0 <= i < |observables| ==> optic.lens.capture(c, observables[i]).value.Some?
    ensures Feed(optic, absent, o, observables).result == Iterate(func, |observables|, o.result)
    decreases |observables|
  {
    if observables != [] {
      var n := |observables| - 1;
      var front := observables[..n];
      assert observables == front + [observables[n]];
      FeedUnaryIterates(optic, absent, func, o, front);
      FeedAppend(optic, absent, o, front, observables[n]);
    }
  }

  /** Under `optic()`, the result after one or more observations is the
      observable the observer is bound to. */
  lemma {:induction false} DefaultResultIsObservable<C(!new), N(!new), O(!new)>(absent: AbsentCapture, o: Observer<C, N, O, O>, k: nat)
    requires o.result == None
    requires k >= 1
    ensures Repeat(Default(), absent, o, k).result == o.observable
  {
    if k > 1 {
      DefaultResultIsObservable(absent, o, k - 1);
    }
  }

  /** Under `optic(lens)` with `operant()` as written, no run of observations
      ever moves the result, whatever the lens captures. */
  lemma {:induction false} FromLensAsWrittenKeepsResult<C(!new), N, O, V(!new)>(absent: AbsentCapture, lens: Lens<C, O, V>, o: Observer<C, N, O, V>, observables: seq<Option<O>>)
    ensures Feed(FromLensAsWritten(lens), absent, o, observables).result == o.result
    decreases |observables|
  {
    if observables != [] {
      PassthroughAsWrittenKeepsPrev<C, V>();
      var o' := Step(FromLensAsWritten(lens), absent, o, observables[0]);
      assert o'.result == o.result;
      FromLensAsWrittenKeepsResult(absent, lens, o', observables[1..]);
    }
  }

  /** Under `optic()` with `operant()` as written, an observer's result stays
      null however often it observes: the bootstrap's null is never replaced. */
  lemma DefaultAsWrittenStaysAbsent<C(!new), N(!new), O(!new)>(absent: AbsentCapture, name: N, closure: C, observable: Option<O>, k: nat)
    ensures Repeat(DefaultAsWritten(), absent, Seed(DefaultAsWritten(), name, closure, observable), k).result == None
  {
    var o := Seed(DefaultAsWritten<C, N, O>(), name, closure, observable);
    RepeatIsFeed(DefaultAsWritten(), absent, o, k);
    FromLensAsWrittenKeepsResult(absent, Identity(), o, seq(k, i => o.observable));
  }

  /** Under `optic(lens)`, a step leaves as result the value the lens captured
      whenever that capture is folded, and under `optic(operant)` the operant
      folds the observable itself. */
  lemma StepUnderDefaultWirings<C(!new), N(!new), O(!new), V(!new), R(!new)>(absent: AbsentCapture, lens: Lens<C, O, V>, o: Observer<C, N, O, V>, operant: Operant<C, O, R>, p: Observer<C, N, O, R>, x: Option<O>)
    ensures var t := lens.capture(o.closure, x);
            t.value.Some? || absent == FoldAbsent ==> Step(FromLens(lens), absent, o, x).result == t.value
    ensures x.Some? ==> Step(FromOperant(operant), absent, p, x).result == operant.compose(p.closure, p.result, x).value
  {
  }

  /** `observe(lens, closure)` returns null, with the caller's closure
      untouched, when the observer has no result, and otherwise what the
      caller's lens captures from that result. Two observers with the same
      result, whatever their own closures, observables or names, give the
      same answer. */
  lemma InspectReadsOnlyResult<C, N, O, R, C2, V>(o: Observer<C, N, O, R>, other: Observer<C, N, O, R>, lens: Lens<C2, R, V>, closure: C2)
    requires other.result == o.result
    ensures o.result.None? ==> Inspect(o, lens, closure) == Threaded(closure, None)
    ensures o.result.Some? ==> Inspect(o, lens, closure) == lens.capture(closure, o.result)
    ensures Inspect(other, lens, closure) == Inspect(o, lens, closure)
  {
  }

  /** With `lens()`, `observe(lens, closure)` returns the current result and
      leaves the caller's closure as it was. */
  lemma InspectIdentityReadsResult<C, N, O, R(!new), C2(!new)>(o: Observer<C, N, O, R>, closure: C2)
    ensures Inspect(o, Identity(), closure) == Threaded(closure, o.result)
  {
  }
}
