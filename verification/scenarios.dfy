/** The testkit scenarios, stated over the reference model. Mutable Java
    observables are values here, and where an operant mutates one the change
    is written as an explicit transition. */
module Scenarios {
  import opened Options
  import opened Closures
  import opened Lenses
  import opened Operants
  import opened Bootstraps
  import opened Optics
  import opened Observing
  import opened Contexts

  /** Stand-ins for `name("name#1")` and `name("name#2")`. */
  datatype Name = N1 | N2

  const MinLong: int := -0x8000_0000_0000_0000
  const MaxLong: int := 0x7fff_ffff_ffff_ffff
  const MaxInt: int := 0x7fff_ffff
  const MinInt: int := -0x8000_0000

  /** `total -> ++total` on a boxed `Long`, with Java's 64-bit wrap-around. On
      null Java throws; the scenarios never get there and the model yields null. */
  function IncLong(total: Option<int>): Option<int>
  {
    match total
    case None => None
    case Some(x) => Some(if x == MaxLong then MinLong else x + 1)
  }

  /** `n` increments of a `Long` starting at `0L` count to `n` as long as `n`
      fits in a `Long`. */
  lemma {:induction false} IncLongCounts(n: nat)
    requires n <= MaxLong
    ensures Iterate(IncLong, n, Some(0)) == Some(n)
  {
    if n > 0 {
      IncLongCounts(n - 1);
    }
  }

  /** One increment past `Long.MAX_VALUE` wraps to `Long.MIN_VALUE`. */
  lemma IncLongWraps()
    ensures Iterate(IncLong, MaxLong + 1, Some(0)) == Some(MinLong)
  {
    IncLongCounts(MaxLong);
  }

  /** The counting optic of the source and container tests:
      `optic(bootstrap(0L), lens(), operant(total -> ++total))`. */
  function CountingOptic<E(!new)>(): Optic<(), Name, E, E, int>
  {
    Optic(Constant(Some(0)), Identity(), FromUnary(IncLong))
  }

  /** An observer under the counting optic that has been fed `n` non-null
      events counts `n`, under either absent-capture choice. */
  lemma CountingObserverCounts<E(!new)>(absent: AbsentCapture, name: Name, events: seq<Option<E>>)
    requires |events| <= MaxLong
    requires forall i :: 0 <= i < |events| ==> events[i].Some?
    ensures Feed(CountingOptic(), absent, Seed(CountingOptic(), name, (), None), events).result == Some(|events|)
  {
    var optic := CountingOptic<E>();
    forall i, c | 0 <= i < |events|
      ensures optic.lens.capture(c, events[i]).value.Some?
    {
    }
    FeedUnaryIterates(optic, absent, IncLong, Seed(optic, name, (), None), events);
    IncLongCounts(|events|);
  }

  /** The observers of SourceTest after `sync()`: two counter events per name,
      fed to each observer on its own. */
  function SourceObservers(absent: AbsentCapture): map<Name, Observer<(), Name, int, int>>
  {
    var optic := CountingOptic<int>();
    map[N1 := Feed(optic, absent, Seed(optic, N1, (), None), [Some(1), Some(2)]),
        N2 := Feed(optic, absent, Seed(optic, N2, (), None), [Some(1), Some(2)])]
  }

  /** SourceTest: after two counter events per name each observer is at `2L`,
      on its own. The test then calls `observe()` on both; an event-fed
      observer has no observable of its own, and its count stays at `2L`
      exactly when the engine skips absent captures. */
  lemma SourceScenario(absent: AbsentCapture)
    ensures SourceObservers(absent)[N1].result == Some(2)
    ensures SourceObservers(absent)[N2].result == Some(2)
    ensures Observe(CountingOptic(), absent, SourceObservers(absent)[N1]).result == Some(2) <==> absent == SkipFold
    ensures Observe(CountingOptic(), absent, SourceObservers(absent)[N2]).result == Some(2) <==> absent == SkipFold
  {
    CountingObserverCounts(absent, N1, [Some(1), Some(2)]);
    CountingObserverCounts(absent, N2, [Some(1), Some(2)]);
    UnaryFolds<(), int, int>(IncLong);
  }

  /** LookupTest: `lookup(name -> name == N1 ? 1 : 2)` under `optic()`; one
      observation each gives 1 for N1 and 2 for N2. */
  lemma LookupScenario(absent: AbsentCapture)
    ensures var ctx := FromLookup(Lookup(n => if n == N1 then Some(1) else Some(2)), Default<(), Name, int>(), absent, ());
            var r := Run(ctx, [N1, N2]);
            && r.observers[N1].result == Some(1)
            && r.observers[N2].result == Some(2)
  {
    var ctx := FromLookup(Lookup(n => if n == N1 then Some(1) else Some(2)), Default<(), Name, int>(), absent, ());
    RunProjects(ctx, [N1, N2], N1);
    RunProjects(ctx, [N1, N2], N2);
    assert multiset([N1, N2])[N1] == 1 && multiset([N1, N2])[N2] == 1;
    DefaultResultIsObservable(absent, Entry(ctx, N1), 1);
    DefaultResultIsObservable(absent, Entry(ctx, N2), 1);
  }

  /** LookupTest with `operant()` as the provider writes it: `optic()` keeps
      the bootstrap's null, so N1 observes null instead of the 1 the test
      expects. */
  lemma LookupScenarioAsWritten(absent: AbsentCapture)
    ensures var ctx := FromLookup(Lookup(n => if n == N1 then Some(1) else Some(2)), DefaultAsWritten<(), Name, int>(), absent, ());
            Run(ctx, [N1, N2]).observers[N1].result == None
  {
    var ctx := FromLookup(Lookup(n => if n == N1 then Some(1) else Some(2)), DefaultAsWritten<(), Name, int>(), absent, ());
    RunProjects(ctx, [N1, N2], N1);
    assert multiset([N1, N2])[N1] == 1;
    DefaultAsWrittenStaysAbsent(absent, N1, (), Some(1), 1);
  }

  /** An `AtomicInteger`, by its current value. */
  datatype Atomic = Atomic(count: int)

  /** 32-bit `int` increment with Java's wrap-around. */
  function IncInt(x: int): int
  {
    if x == MaxInt then MinInt else x + 1
  }

  /** What `incrementAndGet` returns. On null Java throws; the scenario never
      gets there and the model yields null. */
  function IncrementAndGet(a: Option<Atomic>): Option<int>
  {
    match a
    case None => None
    case Some(x) => Some(IncInt(x.count))
  }

  /** What `incrementAndGet` leaves in the `AtomicInteger`. */
  function Incremented(a: Option<Atomic>): Option<Atomic>
  {
    match a
    case None => None
    case Some(x) => Some(Atomic(IncInt(x.count)))
  }

  /** FunctionTest's optic: `optic(operant(AtomicInteger::incrementAndGet))`. */
  function AtomicOptic(): Optic<(), Name, Atomic, Atomic, int>
  {
    FromOperant(FromValue(IncrementAndGet))
  }

  /** FunctionTest's context: `name -> new AtomicInteger()` under
      `AtomicOptic()`. */
  function AtomicContext(absent: AbsentCapture): Context<(), Name, Atomic, Atomic, int>
  {
    FromFunction(n => Some(Atomic(0)), AtomicOptic(), absent, ())
  }

  /** `observer(name).observe()` in FunctionTest: the fold, then the mutation
      `incrementAndGet` made to the `AtomicInteger` the observer holds. */
  function ObserveAtomic(ctx: Context<(), Name, Atomic, Atomic, int>, name: Name): (r: Context<(), Name, Atomic, Atomic, int>)
    ensures SameConfig(r, ctx)
    ensures r.observers.Keys == ctx.observers.Keys + {name}
    ensures forall m :: m != name && m in ctx.observers ==> r.observers[m] == ctx.observers[m]
    ensures r.observers[name].observable == Incremented(Entry(ctx, name).observable)
    ensures ctx.optic == AtomicOptic() && Entry(ctx, name).observable.Some? ==>
              r.observers[name].result == IncrementAndGet(Entry(ctx, name).observable)
  {
    var c := ObserveByName(ctx, name);
    var o := c.observers[name];
    c.(observers := c.observers[name := o.(observable := Incremented(o.observable))])
  }

  /** FunctionTest: each observer's `AtomicInteger` is obtained once and kept,
      so two observations give 1 then 2, and the two observers count on their
      own: o1 goes 1, 2 and then o2 goes 1, 2. */
  lemma FunctionScenario(absent: AbsentCapture)
    ensures var c0 := ObserverFor(ObserverFor(AtomicContext(absent), N1).0, N2).0;
            var c1 := ObserveAtomic(c0, N1);
            var c2 := ObserveAtomic(c1, N1);
            var c3 := ObserveAtomic(c2, N2);
            var c4 := ObserveAtomic(c3, N2);
            && c1.observers[N1].result == Some(1)
            && c2.observers[N1].result == Some(2)
            && c3.observers[N2].result == Some(1)
            && c4.observers[N2].result == Some(2)
            && c4.observers[N1].result == Some(2)
  {
    FromOperantWiring<(), Name, Atomic, int>(FromValue(IncrementAndGet));
    ValueFolds<(), Atomic, int>(IncrementAndGet);
  }

  /** Had the observer resolved its observable afresh on every observation, it
      would have been handed a new `AtomicInteger` each time and the second
      observation would again give 1, not the 2 FunctionTest expects. */
  lemma FunctionScenarioNeedsBinding(absent: AbsentCapture)
    ensures var ctx := AtomicContext(absent);
            var c1 := ObserveAtomic(ObserverFor(ctx, N1).0, N1);
            Step(ctx.optic, absent, c1.observers[N1], ctx.resolver(N1)).result == Some(1)
  {
    FromOperantWiring<(), Name, Atomic, int>(FromValue(IncrementAndGet));
    ValueFolds<(), Atomic, int>(IncrementAndGet);
  }

  /** The outer lens of ContainerTest: `(closure, observer) ->
      observer.observe(lens(), closure)`. On a null observer Java throws; the
      model captures nothing. */
  function ReadThrough(): Lens<(), Observer<(), Name, int, int>, int>
  {
    Lens((c, obs: Option<Observer<(), Name, int, int>>) =>
      if obs.Some? then Inspect(obs.value, Identity(), c) else Threaded(c, None))
  }

  /** ContainerTest: outer observers read, through `observe(lens(), closure)`,
      the inner counting observers, each at `2L` after two counter events. */
  lemma ContainerScenario(absent: AbsentCapture)
    ensures var inner := SourceObservers(absent);
            var outer := FromFunction(n => if n in inner then Some(inner[n]) else None, FromLens(ReadThrough()), absent, ());
            var r := Run(outer, [N1, N2]);
            && r.observers[N1].result == Some(2)
            && r.observers[N2].result == Some(2)
  {
    SourceScenario(absent);
  }
}
