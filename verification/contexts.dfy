/** The reference model of a pull-sourced context (Observers.Context): a
    registry from names to observers over a resolving function, with
    get-or-create lookup by name and `observer(name).observe()`. A context over
    a lookup is the context over the function the lookup stands for. */
module Contexts {
  import opened Options
  import opened Closures
  import opened Lenses
  import opened Bootstraps
  import opened Optics
  import opened Observing

  /** A context: the optic every observer uses, the absent-capture choice of
      the engine, the function resolving a name to its observable, the state a
      new observer's closure starts from, and the registry. */
  datatype Context<!C, !N(==), !O, !V, !R> = Context(
    optic: Optic<C, N, O, V, R>,
    absent: AbsentCapture,
    resolver: N -> Option<O>,
    initial: C,
    observers: map<N, Observer<C, N, O, R>>)

  /** A name-keyed lookup of observables. */
  datatype Lookup<!N, O> = Lookup(find: N -> Option<O>)

  /** Every registered observer is filed under its own name. */
  ghost predicate Valid<C, N, O, V, R>(ctx: Context<C, N, O, V, R>)
  {
    forall n :: n in ctx.observers ==> ctx.observers[n].name == n
  }

  /** Two contexts agree on everything but their registries. */
  ghost predicate SameConfig<C, N, O, V, R>(a: Context<C, N, O, V, R>, b: Context<C, N, O, V, R>)
  {
    a.optic == b.optic && a.absent == b.absent && a.resolver == b.resolver && a.initial == b.initial
  }

  /** `context(fn, optic, environment)`: a context that resolves names with
      `fn`, observes with `optic`, and starts with an empty registry. */
  function FromFunction<C, N, O, V, R>(resolver: N -> Option<O>, optic: Optic<C, N, O, V, R>, absent: AbsentCapture, initial: C): (r: Context<C, N, O, V, R>)
    ensures r.resolver == resolver && r.optic == optic && r.absent == absent && r.initial == initial
    ensures Valid(r) && r.observers == map[]
  {
    Context(optic, absent, resolver, initial, map[])
  }

  /** `context(lookup, optic, environment)`: the context over
      `function(lookup)` with the same optic. */
  function FromLookup<C, N, O, V, R>(lookup: Lookup<N, O>, optic: Optic<C, N, O, V, R>, absent: AbsentCapture, initial: C): (r: Context<C, N, O, V, R>)
    ensures r.resolver == lookup.find && r.optic == optic && r.absent == absent && r.initial == initial
    ensures Valid(r) && r.observers == map[]
  {
    FromFunction(lookup.find, optic, absent, initial)
  }

  /** The observer a context creates for `name`: seeded by the bootstrap on a
      fresh closure, bound to the observable the resolver gives for `name`. */
  function Spawn<C, N, O, V, R>(ctx: Context<C, N, O, V, R>, name: N): Observer<C, N, O, R>
  {
    Seed(ctx.optic, name, ctx.initial, ctx.resolver(name))
  }

  /** The observer registered under `name`, or the one that would be created. */
  function Entry<C, N, O, V, R>(ctx: Context<C, N, O, V, R>, name: N): Observer<C, N, O, R>
  {
    if name in ctx.observers then ctx.observers[name] else Spawn(ctx, name)
  }

  /** `observer(name)`: always an observer, the one already mapped to the name
      or a newly seeded one, which is then mapped to it. */
  function ObserverFor<C, N, O, V, R>(ctx: Context<C, N, O, V, R>, name: N): (r: (Context<C, N, O, V, R>, Observer<C, N, O, R>))
    ensures SameConfig(r.0, ctx)
    ensures name in r.0.observers && r.0.observers[name] == r.1
    ensures name in ctx.observers ==> r.0 == ctx && r.1 == ctx.observers[name]
    ensures name !in ctx.observers ==> r.0.observers == ctx.observers[name := r.1]
    ensures name !in ctx.observers ==>
              && r.1.name == name
              && r.1.observable == ctx.resolver(name)
              && r.1.result == ctx.optic.bootstrap.initialize(ctx.initial, name).value
              && r.1.closure == ctx.optic.bootstrap.initialize(ctx.initial, name).closure
    ensures Valid(ctx) ==> Valid(r.0)
  {
    if name in ctx.observers then (ctx, ctx.observers[name])
    else
      var o := Spawn(ctx, name);
      (ctx.(observers := ctx.observers[name := o]), o)
  }

  /** `observer(name).observe()`: the named observer takes one observation and
      no other observer changes. */
  function ObserveByName<C, N, O, V, R>(ctx: Context<C, N, O, V, R>, name: N): (r: Context<C, N, O, V, R>)
    ensures SameConfig(r, ctx)
    ensures name in r.observers && r.observers[name] == Observe(ctx.optic, ctx.absent, Entry(ctx, name))
    ensures r.observers.Keys == ctx.observers.Keys + {name}
    ensures forall m :: m != name && m in ctx.observers ==> r.observers[m] == ctx.observers[m]
    ensures Valid(ctx) ==> Valid(r)
  {
    var (ctx', o) := ObserverFor(ctx, name);
    ctx'.(observers := ctx'.observers[name := Observe(ctx.optic, ctx.absent, o)])
  }

  /** `observer(n).observe()` for each name of `trace`, in order. */
  function Run<C, N, O, V, R>(ctx: Context<C, N, O, V, R>, trace: seq<N>): (r: Context<C, N, O, V, R>)
    ensures SameConfig(r, ctx)
    ensures Valid(ctx) ==> Valid(r)
  {
    if trace == [] then ctx
    else ObserveByName(Run(ctx, trace[..|trace| - 1]), trace[|trace| - 1])
  }

  // Laws of the registry

  /** Repeated `observer(name)` calls return the same mapped observer and leave
      the registry as the first call left it. */
  lemma ObserverForIdempotent<C, N, O, V, R>(ctx: Context<C, N, O, V, R>, name: N)
    ensures ObserverFor(ObserverFor(ctx, name).0, name) == ObserverFor(ctx, name)
  {
  }

  /** Once an observer exists, observing it never consults the resolver again:
      swapping the resolver changes nothing. */
  lemma ObserveIgnoresResolverOnceCreated<C, N, O, V, R>(ctx: Context<C, N, O, V, R>, name: N, other: N -> Option<O>)
    requires name in ctx.observers
    ensures ObserveByName(ctx.(resolver := other), name).observers == ObserveByName(ctx, name).observers
  {
  }

  /** Observers under one context are independent: after any interleaving of
      observations, the observer for `name` exists exactly when it did before
      or `name` was observed, and it is its starting observer observed once per
      occurrence of `name` in the trace, whatever the other names did. */
  lemma {:induction false} RunProjects<C, N, O, V, R>(ctx: Context<C, N, O, V, R>, trace: seq<N>, name: N)
    ensures name in Run(ctx, trace).observers <==> name in ctx.observers || name in trace
    ensures name in Run(ctx, trace).observers ==>
              Run(ctx, trace).observers[name] == Repeat(ctx.optic, ctx.absent, Entry(ctx, name), multiset(trace)[name])
  {
    if trace != [] {
      var front := trace[..|trace| - 1];
      var last := trace[|trace| - 1];
      assert trace == front + [last];
      RunProjects(ctx, front, name);
      RunStep(ctx, front, last, name);
    }
  }

  /** The inductive step of `RunProjects`: one more observation, of `last`. */
  lemma RunStep<C, N, O, V, R>(ctx: Context<C, N, O, V, R>, front: seq<N>, last: N, name: N)
    requires name in Run(ctx, front).observers <==> name in ctx.observers || name in front
    requires name in Run(ctx, front).observers ==>
               Run(ctx, front).observers[name] == Repeat(ctx.optic, ctx.absent, Entry(ctx, name), multiset(front)[name])
    ensures name in Run(ctx, front + [last]).observers <==> name in ctx.observers || name in front + [last]
    ensures name in Run(ctx, front + [last]).observers ==>
              Run(ctx, front + [last]).observers[name] == Repeat(ctx.optic, ctx.absent, Entry(ctx, name), multiset(front + [last])[name])
  {
    var trace := front + [last];
    assert trace[..|trace| - 1] == front;
    var mid := Run(ctx, front);
    var after := ObserveByName(mid, last);
    assert Run(ctx, trace) == after;
    assert multiset(trace)[name] == multiset(front)[name] + (if last == name then 1 else 0);
    assert name in trace <==> name in front || name == last;
    if last == name {
      var k := multiset(front)[name];
      if name !in mid.observers {
        assert name !in front && k == 0;
        assert Spawn(mid, name) == Spawn(ctx, name);
      }
      assert Entry(mid, name) == Repeat(ctx.optic, ctx.absent, Entry(ctx, name), k);
      assert after.observers[name] == Observe(ctx.optic, ctx.absent, Entry(mid, name));
    } else {
      assert after.observers.Keys == mid.observers.Keys + {last};
    }
  }

  /** A context over a lookup behaves as the context over its function, for
      every sequence of observations. */
  lemma LookupContextBehavesAsFunctionContext<C, N, O, V, R>(lookup: Lookup<N, O>, optic: Optic<C, N, O, V, R>, absent: AbsentCapture, initial: C, trace: seq<N>)
    ensures Run(FromLookup(lookup, optic, absent, initial), trace) == Run(FromFunction(lookup.find, optic, absent, initial), trace)
  {
  }
}
