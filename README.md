# toru core: pipelines, apply-and-rewrap chains, regenerators

A Dafny model of three small components of the PHP library `dakujem/toru`:

- **Pipeline** (`Pipeline.dfy`, module `Pipeline`): `Pipeline::through` passes a
  value through an ordered list of unary stages, each stage receiving the
  previous stage's output; `Pipeline::throughStages` does the same with the
  stages given as an iterable. The specification is the left fold `Fold`; the
  loop `Through` is proved equal to it and records, as ghost state, the argument
  of every stage call. A second version, `FallibleThrough`, has stages that
  return a `Result`: an `Err` stands for the exception a stage throws, and the
  loop stops at the first one and returns it unchanged.
- **Carry** and **Flow** (`Carry.dfy`, `Flow.dfy`): two identical immutable
  wrappers with `with`, `do` and `result`. Each is a one-field datatype; a chain
  `with(v)->do(f1)->...->do(fn)` is proved to read back
  `Pipeline::through(v, f1, ..., fn)`, and Flow is proved to agree with Carry.
- **Regenerator** (`Regenerator.dfy`, module `Regeneration`): wraps a provider
  callable and calls it afresh, with no arguments, at every iteration. A
  non-iterable result is an `UnexpectedValue` error; an array is wrapped into
  an iterator over its elements; a traversable is used as it is. Direct
  invocation forwards the arguments and returns the raw result unchecked. The
  class keeps the provider in a `const` field and a ghost log of provider calls,
  so that "no call at construction, one call per iteration" can be stated.

`getIterator` throws `UnexpectedValueException` with a fixed message; the
model's error is `UnexpectedValue(NotIterableMessage)`.

## Model

| member | source | states |
|---|---|---|
| `Pipeline.NoStagesIsIdentity` | src/Pipeline.php:19-22 | with no stages the value comes back unchanged |
| `Pipeline.Inputs` | src/Pipeline.php:19-20 | exactly one stage call is made per stage |
| `Pipeline.StageReceivesPreviousOutput` | src/Pipeline.php:10-11 | stage 0 receives the initial value, stage i receives stage i-1's output, and the result is the last stage's output |
| `Pipeline.FoldSplit` | src/Pipeline.php:19-22 | splitting law: through(v, s ++ t) == through(through(v, s), t) |
| `Pipeline.FoldSnoc` | src/Pipeline.php:19-22 | appending a stage applies it to the previous result |
| `Pipeline.FoldIsNested` | src/Pipeline.php:19-21 | through(v, s1..sn) == sn(...s2(s1(v))...), the right-nested composition |
| `Pipeline.Through` | src/Pipeline.php:17-23 | the foreach loop returns the left fold and calls the stages in order with the arguments `Inputs` lists |
| `Pipeline.ThroughStages` | src/Pipeline.php:25-28 | spreading a finite stage sequence into through gives the same left fold |
| `Pipeline.FallibleInputs` | src/Pipeline.php:19-21 | with throwing stages: at most one call per stage, the first receives the initial value; on success all stages ran, on failure the last call made is the failing one and its error is the result |
| `Pipeline.FallibleStageReceivesPreviousOutput` | src/Pipeline.php:19-20 | every call before the last succeeded and its output is the next call's argument |
| `Pipeline.FallibleFoldSplit` | src/Pipeline.php:19-22 | splitting law with throwing stages: after a failure in the first part, the second part is neither run nor able to change the result |
| `Pipeline.FailureStopsPipeline` | src/Pipeline.php:19-21 | if stage k is the first to throw, exactly k+1 stages are called and stage k's error propagates unchanged |
| `Pipeline.LiftedFoldSucceeds` | src/Pipeline.php:17-23 | stages that never throw make the fallible pipeline succeed with the plain fold, and receive exactly the calls of the plain pipeline |
| `Pipeline.FallibleThrough` | src/Pipeline.php:17-23 | the loop with throwing stages returns the fail-fast fold and makes exactly the calls `FallibleInputs` lists |
| `CarryChain.Carry.With` | src/Carry.php:19-22 | with(v)->result() == v |
| `CarryChain.Carry.Do` | src/Carry.php:24-29 | c->do(fn)->result() == fn(c->result()) |
| `CarryChain.Carry.Result` | src/Carry.php:31-34 | the held value is all a wrapper holds: wrapping what result() returns anew gives the same wrapper |
| `CarryChain.ChainIsThrough` | src/Carry.php:24-29 | with(v)->do(f1)->...->do(fn)->result() == Pipeline::through(v, f1, ..., fn) |
| `FlowChain.Flow.With` | src/Flow.php:19-22 | with(v)->result() == v |
| `FlowChain.Flow.Do` | src/Flow.php:24-29 | f->do(fn)->result() == fn(f->result()) |
| `FlowChain.Flow.Result` | src/Flow.php:31-34 | the held value is all a wrapper holds: wrapping what result() returns anew gives the same wrapper |
| `FlowChain.FlowAgreesWithCarry` | src/Flow.php:24-34 | every Flow chain reads back the same value as the Carry chain over the same functions |
| `FlowChain.ChainIsThrough` | src/Flow.php:24-29 | with(v)->do(f1)->...->do(fn)->result() == Pipeline::through(v, f1, ..., fn) |
| `Regeneration.EnsureTraversable` | src/Regenerator.php:18-19 | an array becomes an iterator over its elements in order; a traversable is passed through as it is |
| `Regeneration.Iteration` | src/Regenerator.php:33-42 | iteration fails with UnexpectedValue exactly when the provider's no-argument result is not iterable; otherwise it yields that result's elements in order |
| `Regeneration.IterationOfEachKind` | src/Regenerator.php:39-41 | an array result is iterated through an ArrayIterator over it; a traversable result is the inner iterator itself |
| `Regeneration.ArrayAndGeneratorIterateAlike` | src/Regenerator.php:18-19 | a provider returning [a,b,c] and one returning a generator over a, b, c iterate alike |
| `Regeneration.Regenerator.constructor` | src/Regenerator.php:25-31 | construction stores the provider and calls it zero times |
| `Regeneration.Regenerator.GetIterator` | src/Regenerator.php:33-42 | each iteration calls the provider exactly once, with no arguments, and returns `Iteration` of it |
| `Regeneration.Regenerator.Invoke` | src/Regenerator.php:44-47 | direct invocation calls the provider once with the given arguments and returns its raw result |
| `Regeneration.IterateTwice` | src/Regenerator.php:12-16 | two passes make two provider calls and, for a deterministic provider, start from the same elements |
| `Regeneration.NotIterableFailsWhenIterated` | src/Regenerator.php:27-38 | for every provider whose no-argument result is not iterable: construction makes no call, and iteration fails with the fixed message |
| `Regeneration.InvokeSkipsIterableCheck` | src/Regenerator.php:44-47 | for every provider whose result is not iterable: direct invocation returns the provider's own non-iterable value (its payload kept), where iteration of the same wrapper fails with the fixed message |

## Left out

- Stage types: PHP stages may change the carried value's type from stage to stage; the model gives all stages one carried type `T`.
- Stage iterables are finite `seq`s: lazy production of stages, generator exhaustion, and an infinite stage iterable (which never terminates) are not modelled. Their order of production is the `seq` order.
- `throughStages` argument unpacking: PHP turns string keys of the stage iterable into named arguments and rejects a positional key after a string key; the model takes the stages as a plain sequence.
- The `callable` type check on stages (a PHP `TypeError` before any stage runs) is left out: Dafny's types rule out a non-callable stage.
- Exceptions thrown by `Carry::do`/`Flow::do` callbacks and by the Regenerator's provider propagate unchanged in PHP; the model has them only for pipeline stages (`FallibleThrough`), since the other two are a single direct call.
- `result()` having no side effects and being idempotent, and `do` leaving the receiver unchanged: these hold because the wrappers are datatype values and `Result` is a function; object identity of the new instance is not modelled.
- The conversion of any `callable` into a `Closure` in the Regenerator constructor is a runtime typing detail and is not modelled.
- Regeneration.IterateTwice: the provider is a function of its arguments, so two iterations see equal results; a provider with its own side effects or state, whose successive calls differ, is not modelled. The ghost call log still shows that each iteration makes its own fresh call.
- Regeneration.Traversable: an iterator the provider returns is modelled by the finite sequence of elements it yields, which can be read any number of times; generator laziness, infinite generators and exhaustion are not modelled. A provider that returns one shared generator object fails on its second pass in PHP but iterates alike on every pass in the model, so the freshness of each pass is shown only by the ghost call log.
- Regeneration.Regenerator.Invoke: takes positional arguments only; `__invoke` also forwards named arguments, which are not modelled.
- Array keys: iteration is modelled by the sequence of elements it yields, in order; the keys `ArrayIterator` also yields are not modelled separately (an element type of key/value pairs can carry them).
- `Itera::ensureTraversable` and the rest of the Itera library are not part of this model; `EnsureTraversable` stands for it with the behaviour the Regenerator's doc comment states.
- tests/support/DashTest.php is a test harness dispatching by method name into code that is not part of this model; it is not modelled.
