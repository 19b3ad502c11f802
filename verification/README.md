# Observers: the observation-pipeline algebra

This project is a Dafny model of the core of the Humainary Observers API.
An observer repeatedly looks at an observable and folds what it sees into a result.
The pipeline it uses is an **optic**, which bundles three parts:

- a **bootstrap** seeds the initial result from the observer's closure and name;
- a **lens** captures a value from the observable;
- an **operant** folds the captured value into the previous result.

Each part is handed the observer's **closure**, a mutable cell of caller-defined state.

The model covers:

- the `Lens`, `Operant`, `Bootstrap` and `Optic` contracts of `Observers.java`;
- the `pipe` and `require` lens combinators;
- the default constructors and optic wirings of `ObserversProvider`;
- a small reference model of an observer and of a name-keyed context registry, stated against the testkit scenarios.

Modelling choices:

- Java `null` is `Option.None`. Every value the pipeline handles may be null, so lenses take `Option` observables and operants take `Option` results and values.
- A closure is a state value threaded through each call. A call receives the closure's state and returns the state it leaves, paired with its value (`Closures.Threaded`). Because the state is threaded, the rule that `pipe` hands the same closure to both stages means the second stage sees what the first stage wrote.
- Lenses, operants and bootstraps are datatypes wrapping total function values. Equality between them is observational: `Lenses.Equivalent` and `Optics.Equivalent`.
- The engine that implements `optic(bootstrap, lens, operant)` and the contexts lives in the provider `io.inspectis.observers.spi.alpha.ProviderFactory`, which `Observers.java` loads reflectively (line 28) and which this model does not include. The model assumes the general optic behaves as its three parts. An observer is seeded by the bootstrap. Each observation captures with the lens and then folds with the operant, on the closure state the lens left.
- The interfaces do not decide whether a capture that yields null is still folded. This is the field `Observing.AbsentCapture`: `SkipFold` keeps the result, `FoldAbsent` hands null to the operant. The LookupTest, FunctionTest and ContainerTest scenarios hold under both choices. SourceTest's final `observe()` calls keep the counts at `2L` only under `SkipFold` (`Scenarios.SourceScenario`).
- A context over a function resolves an observer's observable once, when the observer is created, and reuses it. FunctionTest requires this: `name -> new AtomicInteger()` observed twice gives 1 and then 2.
- Observers are values, not references. "The same observer" means the registry's entry for that name.
- Mutable observables (`AtomicInteger`, counters) are values too. When an operant mutates one, the scenario writes the mutation as an explicit transition (`Scenarios.ObserveAtomic`).
- A new observer's closure starts from a per-context state `initial`. The unseen engine chooses that state.
- `Long` and `int` increments in the scenarios wrap around as in Java.
- `pipe` hands a null first capture to the second stage (`Observers.java:213-220`); it does not short-circuit (`Lenses.PipeForwardsAbsent`).
- A function-sourced observer binds its observable once, as FunctionTest's 1, 2 requires (`Scenarios.FunctionScenarioNeedsBinding`).
- `observe(lens, closure)` returns null without calling the lens when the observer has no result, and otherwise what the lens captures from the result (`Observers.java:98-109`, `Observing.InspectReadsOnlyResult`).
- `operant()` follows the Javadoc and the tests: the captured value becomes the result. The provider's default method, as written, does something else; see "## Findings".

## Model

| member | source | states |
|---|---|---|
| `Lenses.IdentityCapturesObservable` | api/src/main/java/io/humainary/observers/spi/ObserversProvider.java:129-135 | `lens()` captures the observable itself, and the closure is neither read nor written. |
| `Lenses.ProjectAppliesFunction` | api/src/main/java/io/humainary/observers/spi/ObserversProvider.java:138-148 | `lens(func)` captures `func(observable)`, and the closure is neither read nor written. |
| `Lenses.FilterGuardsObservable` | api/src/main/java/io/humainary/observers/spi/ObserversProvider.java:116-126 | `lens(predicate)` captures the observable exactly when the predicate holds of it, and nothing otherwise. The closure is neither read nor written. |
| `Lenses.Pipe` | api/src/main/java/io/humainary/observers/Observers.java:208-222 | Piping two lenses that leave the closure alone gives a lens that leaves the closure alone. |
| `Lenses.PipeSharesClosure` | api/src/main/java/io/humainary/observers/Observers.java:208-222 | The second stage of `pipe` receives the same closure, in the state the first stage left it, and the first stage's value, absent or not. |
| `Lenses.PipeForwardsAbsent` | api/src/main/java/io/humainary/observers/Observers.java:208-222 | `pipe` does not short-circuit. An absent first capture still reaches the second stage, which can then capture something. |
| `Lenses.PipeIdentityLeft` | api/src/main/java/io/humainary/observers/Observers.java:208-222 | `lens().pipe(l)` captures what `l` captures, for every closure and observable. |
| `Lenses.PipeIdentityRight` | api/src/main/java/io/humainary/observers/Observers.java:208-222 | `l.pipe(lens())` captures what `l` captures, for every closure and observable. |
| `Lenses.PipeAssociative` | api/src/main/java/io/humainary/observers/Observers.java:208-222 | `pipe` is associative. |
| `Lenses.PipeProjections` | api/src/main/java/io/humainary/observers/spi/ObserversProvider.java:138-148 | Piping `lens(f)` into `lens(g)` is `lens` of the composed function. |
| `Lenses.ProjectIdentity` | api/src/main/java/io/humainary/observers/spi/ObserversProvider.java:129-148 | `lens` of the identity function is `lens()`. |
| `Lenses.Require` | api/src/main/java/io/humainary/observers/Observers.java:232-242 | `l.require(p)` captures nothing and leaves the closure untouched when `p(observable)` is false. When it is true, it captures exactly what `l` captures. |
| `Lenses.RequireStacked` | api/src/main/java/io/humainary/observers/Observers.java:232-242 | `l.require(p).require(q)` yields a value only when both `p` and `q` hold. It equals the single guard on `p && q`. |
| `Lenses.RequireAlways` | api/src/main/java/io/humainary/observers/Observers.java:232-242 | A guard that always holds leaves the lens unchanged. |
| `Lenses.RequireTestsObservable` | api/src/main/java/io/humainary/observers/Observers.java:232-242 | The guard is tested on the observable, not on the value the lens captures. |
| `Lenses.FilterIsGuardedIdentity` | api/src/main/java/io/humainary/observers/spi/ObserversProvider.java:116-126 | `lens(p)` is observationally equal to `lens().require(p)`. |
| `Operants.BinaryFolds` | api/src/main/java/io/humainary/observers/spi/ObserversProvider.java:162-173 | `operant(func)` for a binary function composes to `func(prev, value)`. The closure is neither read nor written. |
| `Operants.UnaryFolds` | api/src/main/java/io/humainary/observers/spi/ObserversProvider.java:176-188 | `operant(func)` for a unary operator composes to `func(prev)`, whatever the value. The closure is untouched. |
| `Operants.ValueFolds` | api/src/main/java/io/humainary/observers/spi/ObserversProvider.java:191-203 | `operant(func)` for a function composes to `func(value)`, whatever the previous result. The closure is untouched. |
| `Operants.PassthroughFolds` | api/src/main/java/io/humainary/observers/spi/ObserversProvider.java:151-159 | `operant()`, as documented and as the tests use it, returns the captured value unchanged, whatever the previous result, and leaves the closure as it was. |
| `Operants.PassthroughAsWrittenKeepsPrev` | api/src/main/java/io/humainary/observers/spi/ObserversProvider.java:151-159 | `operant()` as written, with `value -> value` bound to the `UnaryOperator` overload, returns the previous result whatever was captured, and leaves the closure as it was. |
| `Operants.PassthroughAsWrittenDiffers` | api/src/main/java/io/humainary/observers/spi/ObserversProvider.java:151-188 | Folding a captured `1` into a null result gives null under `operant()` as written and `1` under the documented `operant()`. |
| `Bootstraps.ConstantSeeds` | api/src/main/java/io/humainary/observers/spi/ObserversProvider.java:206-214 | `bootstrap(v)` starts every observer at `v`, whatever the closure and name, and does not touch the closure. |
| `Bootstraps.AbsentSeeds` | api/src/main/java/io/humainary/observers/spi/ObserversProvider.java:217-223 | `bootstrap()` starts every observer with no result (null), exactly as `bootstrap(null)` would, and does not touch the closure. |
| `Optics.FromLensWiring` | api/src/main/java/io/humainary/observers/spi/ObserversProvider.java:78-89 | `optic(lens)` has no initial result, uses the given lens, and every fold's result is the captured value. |
| `Optics.FromOperantWiring` | api/src/main/java/io/humainary/observers/spi/ObserversProvider.java:92-103 | `optic(operant)` has no initial result, uses the given operant, and the lens hands it the observable itself. |
| `Optics.DefaultWiring` | api/src/main/java/io/humainary/observers/spi/ObserversProvider.java:106-113 | `optic()` has no initial result, captures the observable and makes it the result. |
| `Optics.DefaultExpansionsAgree` | api/src/main/java/io/humainary/observers/spi/ObserversProvider.java:92-113 | `optic()`, i.e. `optic(lens())`, is observationally equal to both `optic(operant())` and `optic(bootstrap(), lens(), operant())`. |
| `Observing.Seed` | api/src/main/java/io/humainary/observers/Observers.java:156-172 | A new observer's result and closure state are those the bootstrap returns for its fresh closure and its name. |
| `Observing.Step` | api/src/main/java/io/humainary/observers/Observers.java:247-271 | One observation captures with the observer's closure and folds `compose(closure, prev, capture)`. When the capture is absent and the engine skips absent captures, the result stays. The name and the bound observable never change. |
| `Observing.Observe` | api/src/main/java/io/humainary/observers/Observers.java:91-95 | `observe()` changes neither the observer's name nor the observable it is bound to. |
| `Observing.Feed` | api/src/main/java/io/humainary/observers/Observers.java:247-271 | A run of observations changes neither the observer's name nor its bound observable. |
| `Observing.Repeat` | api/src/main/java/io/humainary/observers/Observers.java:91-95 | Repeated `observe()` calls change neither the observer's name nor its bound observable. |
| `Observing.FeedAppend` | api/src/main/java/io/humainary/observers/Observers.java:247-271 | Observations fold in call order: one more observation is one more step on the observer the earlier observations produced. |
| `Observing.FeedConcat` | api/src/main/java/io/humainary/observers/Observers.java:247-271 | Two batches of observations are one batch of their concatenation. |
| `Observing.RepeatIsFeed` | api/src/main/java/io/humainary/observers/Observers.java:91-95 | `k` calls of `observe()` are `k` steps against the one observable obtained when the observer was created. |
| `Observing.FeedAbsentKeepsResult` | api/src/main/java/io/humainary/observers/Observers.java:186-197 | If the engine skips absent captures and every capture is absent, the result never leaves its starting value. |
| `Observing.FeedUnaryIterates` | api/src/main/java/io/humainary/observers/spi/ObserversProvider.java:176-188 | Under `operant(g)`, `n` folded observations apply `g` to the starting result `n` times. |
| `Observing.DefaultResultIsObservable` | api/src/main/java/io/humainary/observers/spi/ObserversProvider.java:106-113 | Under `optic()`, after one or more observations the result equals the bound observable. |
| `Observing.FromLensAsWrittenKeepsResult` | api/src/main/java/io/humainary/observers/spi/ObserversProvider.java:78-89 | Under `optic(lens)` with `operant()` as written, no run of observations ever changes the result, whatever the lens captures. |
| `Observing.DefaultAsWrittenStaysAbsent` | api/src/main/java/io/humainary/observers/spi/ObserversProvider.java:106-113 | Under `optic()` with `operant()` as written, a new observer's result stays null however often it observes. |
| `Observing.StepUnderDefaultWirings` | api/src/main/java/io/humainary/observers/spi/ObserversProvider.java:78-103 | Under `optic(lens)` a folded step leaves the captured value as the result. Under `optic(operant)` the operant folds the observable itself. |
| `Observing.InspectReadsOnlyResult` | api/src/main/java/io/humainary/observers/Observers.java:98-109 | `observe(lens, closure)` returns null, with the caller's closure untouched, when the observer has no result. Otherwise it returns what the caller's lens captures from the result with the caller's closure. Observers with the same result give the same answer, whatever their own closure, observable or name. |
| `Observing.InspectIdentityReadsResult` | api/src/main/java/io/humainary/observers/Observers.java:98-109 | `observe(lens(), closure)` returns the observer's current result and leaves the closure as it was. |
| `Contexts.FromFunction` | api/src/main/java/io/humainary/observers/Observers.java:571-584 | A context over a function resolves names with that function, observes with the given optic, and starts with an empty registry. |
| `Contexts.FromLookup` | api/src/main/java/io/humainary/observers/spi/ObserversProvider.java:40-53 | A context over a lookup resolves names with the lookup's function, observes with the given optic, and starts with an empty registry. |
| `Contexts.ObserverFor` | api/src/main/java/io/humainary/observers/Observers.java:52-62 | `observer(name)` always returns an observer mapped to the name. It is the existing one, with the registry unchanged, or a new one whose result and closure are those the bootstrap gives and which is bound to the observable the function gives for the name. Only that one entry is added. |
| `Contexts.ObserverForIdempotent` | api/src/main/java/io/humainary/observers/Observers.java:52-62 | Repeated `observer(name)` calls return the same mapped observer and leave the registry unchanged. |
| `Contexts.ObserveByName` | api/src/main/java/io/humainary/observers/Observers.java:91-95 | `observer(name).observe()` steps the named observer once. Every other observer stays as it was, and the registry gains at most that name. |
| `Contexts.Run` | api/src/main/java/io/humainary/observers/Observers.java:41-72 | Observing a sequence of names keeps the context's optic, function and closure seed, and keeps every observer filed under its own name. |
| `Contexts.ObserveIgnoresResolverOnceCreated` | api/src/main/java/io/humainary/observers/Observers.java:571-584 | Once an observer exists, observing it never consults the function again. |
| `Contexts.RunProjects` | testkit/src/test/java/io/humainary/observers/testkit/FunctionTest.java:61-96 | After any interleaving of observations, each name's observer is its starting observer observed once per occurrence of that name. Other names do not affect it. |
| `Contexts.LookupContextBehavesAsFunctionContext` | api/src/main/java/io/humainary/observers/spi/ObserversProvider.java:40-53 | A context over a lookup and the context over its function behave the same for every sequence of observations. |
| `Scenarios.IncLongCounts` | testkit/src/test/java/io/humainary/observers/testkit/SourceTest.java:44-54 | `n` applications of `total -> ++total` from `0L` give `n`, for every `n` that fits in a `Long`. |
| `Scenarios.IncLongWraps` | testkit/src/test/java/io/humainary/observers/testkit/SourceTest.java:44-54 | One increment past `Long.MAX_VALUE` wraps to `Long.MIN_VALUE`. |
| `Scenarios.CountingObserverCounts` | testkit/src/test/java/io/humainary/observers/testkit/SourceTest.java:44-54 | An observer under `optic(bootstrap(0L), lens(), operant(total -> ++total))` that has been fed `n` non-null events has the result `n`. |
| `Scenarios.SourceScenario` | testkit/src/test/java/io/humainary/observers/testkit/SourceTest.java:69-102 | Two events per name bring each counting observer to `2L`, independently of the other. The `observe()` call on each afterwards keeps it at `2L` exactly when the engine skips absent captures. |
| `Scenarios.LookupScenario` | testkit/src/test/java/io/humainary/observers/testkit/LookupTest.java:34-79 | Under `optic()` over `lookup(name -> name == N1 ? 1 : 2)`, observing N1 and N2 once each gives 1 and 2. |
| `Scenarios.LookupScenarioAsWritten` | testkit/src/test/java/io/humainary/observers/testkit/LookupTest.java:34-79 | With `operant()` as written, `optic()` over the same lookup leaves N1's observer at null after its observation, not at the 1 the test expects. |
| `Scenarios.ObserveAtomic` | testkit/src/test/java/io/humainary/observers/testkit/FunctionTest.java:37-46 | Observing in FunctionTest registers the named observer and changes no other. Its `AtomicInteger` is incremented. Under FunctionTest's optic, with an `AtomicInteger` present, the new result is what `incrementAndGet` returns. |
| `Scenarios.FunctionScenario` | testkit/src/test/java/io/humainary/observers/testkit/FunctionTest.java:37-96 | With `name -> new AtomicInteger()` and `operant(AtomicInteger::incrementAndGet)`, o1 goes 1 then 2, and then o2 goes 1 then 2. |
| `Scenarios.FunctionScenarioNeedsBinding` | testkit/src/test/java/io/humainary/observers/testkit/FunctionTest.java:37-46 | Re-resolving the observable on every observation would give 1 again on the second observation, so the expected 1, 2 requires the observable to be obtained once. |
| `Scenarios.ContainerScenario` | testkit/src/test/java/io/humainary/observers/testkit/ContainerTest.java:48-121 | Outer observers that read the inner counting observers through `observe(lens(), closure)` both reach `2L`. |

## Left out

- Reflective provider loading (`Providers.create`) is not modelled. The static methods of `Observers` only forward to the provider, so they are taken to be the provider's defaults.
- The container- and source-backed contexts are not modelled, because their engine is in `io.inspectis.observers.spi.alpha.ProviderFactory`, which this model does not include. This includes `sync()`, `close()`, `get(name)`, iteration over observers, event subscription and delivery, and the recorder. In the SourceTest and ContainerTest scenarios, the counting observers are built by feeding their events directly (`Observing.Feed`).
- Concurrency is not modelled: thread-safe get-or-create and the serialisation of `observe()` on one observer. The model is sequential.
- The `Environment` argument of every `context` factory is not modelled. It is an opaque configuration carrier that the core does not interpret.
- Java generic variance (`? super`, `? extends`) is not modelled. Every member uses exact types.
- Exceptions are not modelled. A Java function applied to null that would throw, such as `total -> ++total` or `incrementAndGet`, yields null in the model. The scenarios never reach that case.
- Substrates types (`Name`, `Lookup`, `Container`, `Source`, `Event`, `Instrument`) are not modelled. Names are a type parameter; the scenarios use a two-valued `Name`. A lookup is a wrapped function, and `function(lookup)` is its field.
- ContainerTest's outer context is modelled as a context over a function that returns the inner observers as they stand after their events. The Java context over the inner context would hold live references.
- Scenarios.SourceScenario: `observe()` on an event-fed observer is modelled as one observation of a null observable, because the engine that defines it for source contexts is not included. Under that reading SourceTest's `2L` holds only when absent captures are skipped.
- Operants.PassthroughFolds: states the documented `operant()`, which the rest of the model uses, not the default method as written; the as-written behaviour is `Operants.PassthroughAsWrittenKeepsPrev` (see "## Findings").
- Optics.FromLensWiring: states `optic(lens)` with the documented `operant()`. With the default as written every fold keeps the previous result (`Observing.FromLensAsWrittenKeepsResult`).
- Optics.DefaultWiring: states `optic()` with the documented `operant()`. As written, the result stays null (`Observing.DefaultAsWrittenStaysAbsent`).
- Observing.DefaultResultIsObservable: holds for the documented `operant()` only; as written, the result stays null (`Observing.DefaultAsWrittenStaysAbsent`).
- Observing.StepUnderDefaultWirings: its `optic(lens)` half uses the documented `operant()`; its `optic(operant)` half does not depend on it.
- perfkit's JMH driver and its timing test are not modelled. They measure speed, not behaviour.

## Findings

| source | as written | input that shows it | evidently intended | confidence | as-written member | corrected member |
|---|---|---|---|---|---|---|
| api/src/main/java/io/humainary/observers/spi/ObserversProvider.java:151-159 | `operant()` returns `operant(value -> value)`. The implicitly typed lambda fits both the `UnaryOperator` overload (176-188) and the `Function` overload (191-203). `UnaryOperator<R>` extends `Function<R, R>`, so Java picks the `UnaryOperator` one, and the fold keeps the previous result. Then `optic(lens)` and `optic()` never leave the bootstrap's null. | A previous result of null and a captured `1` fold to null. LookupTest's `optic()` observer for N1 then reads null instead of 1. | The captured value becomes the result, as the Javadoc of `operant()` and LookupTest and ContainerTest expect. | medium: the provider may override this default method; not executed | `Operants.PassthroughAsWrittenDiffers`, `Scenarios.LookupScenarioAsWritten` | `Operants.PassthroughFolds` |
