# promised-until, modelled in Dafny

`promised-until` exports one factory, `until(predicate, transform)`. It checks
that both arguments are functions and returns a runner. The runner takes a value
or a promise of one and resolves it. It then asks the predicate about the
resolved value and awaits the answer. On a truthy answer it returns the value.
Otherwise it calls itself on `transform(value)`. A rejection or throw at any
stage rejects the runner's promise with that same reason.

The model is pure: datatypes, recursive functions and lemmas.

- `awaitable.dfy` (module `Awaitable`) holds the promise vocabulary:
  - a promise is observed as `Fulfilled`, `Rejected` or `Pending` (never settled);
  - a caller-supplied value is `Plain` or `Promised`;
  - a call to a caller-supplied function ends in `Return` or `Throw`;
  - `Resolve` is `Promise.resolve`, `Settle` is a call made inside a `.then`
    callback (a throw becomes a rejection), and `Then` is `p.then(f)`.
- `until.dfy` (module `Until`) holds the factory `Until` and the runner:
  - the runner's functions are `ApplyPredicate` and `TransformUntil`;
  - JavaScript values, `Boolean()` and `typeof` are modelled as far as the
    factory's guard and the predicate's answer need them;
  - `TransformUntil` returns an `Execution`: the outcome of the runner's
    promise, plus the calls made to the predicate and the transform, in order.
- `until_properties.dfy` (module `UntilProperties`) states what the runner
  computes against an independent reference:
  - `Orbit(f, x, n)` is the chain x, f(x), f(f(x)), …, with each step awaited;
  - `Verdict` is the predicate's awaited, coerced answer;
  - `FirstHit` says the n-th value is the first one the predicate finds truthy.
- `until_scenarios.dfy` (module `UntilScenarios`) restates the repository's own
  tests over the model.

The source loop is unbounded. `TransformUntil` takes a `fuel` argument: the
largest number of predicate calls it models. A run that has not settled within
that many calls reports `Pending`, which is also what a run that never settles
looks like. `SettledRunIgnoresExtraFuel` shows that fuel only bounds the run:
once the outcome has settled, more fuel changes nothing.

## Model

| member | source | states |
|---|---|---|
| Until.Until | index.js:5-12 | A non-function first argument fails with the predicate error, whatever the second argument is. With a function first, a non-function second argument fails with the distinct transform error. Construction succeeds exactly when both are functions, and the runner holds exactly those two functions. |
| Until.Runner.ApplyPredicate | index.js:16-28 | The predicate's answer is awaited (lines 26-28). A plain answer fulfils with itself, and a promised answer is adopted as is. A throw becomes a rejection with the thrown value. It escapes `applyPredicate` itself, and becomes a rejection only because the call at line 17 runs inside the `.then` callback opened at line 16. |
| Until.Runner.TransformUntil | index.js:14-24 | The run makes at most two calls per unit of fuel. What it returns and which calls it makes are stated by the lemmas below, against the chain of transform results. |
| Awaitable.Resolve | index.js:15 | A plain value fulfils with itself, and a promise passed in is adopted as is. So a rejection or a never-settling promise can only come from a promise passed in. |
| Awaitable.Settle | index.js:16-21 | A call made inside a `.then` callback: a throw rejects with the thrown value, a plain return fulfils with it, and a returned promise is adopted as is. A promise that never settles can only come from a returned promise. |
| Awaitable.Then | index.js:16-18 | `p.then(f)`: a rejected or never-settling promise is passed on unchanged and `f` is not called. A fulfilled one settles as `f` called on its value. |
| Until.Truthy | index.js:19 | `Boolean(predicateResult)`: a value is falsy exactly when it is undefined, null, false, 0 or the empty string. |
| Until.ArgTruthy | index.js:6 | `!arg` reads a function argument as truthy, and any other argument by its own truthiness. |
| Until.TypeOf | index.js:10 | `typeof arg` is `"function"` exactly for a function argument. Both null and objects are `"object"`. |
| Awaitable.ResolveIsIdempotent | index.js:15 | Resolving an already resolved promise gives it back unchanged. |
| UntilProperties.OutcomeComesFromLastCall | index.js:14-24 | On success, the last call was to the predicate on the returned value itself, and its answer was truthy: the value is not transformed again. On rejection, the reason is the input's when no call was made, and otherwise comes from the last call, predicate or transform. |
| UntilProperties.ShortRun | index.js:15-20 | A run that does not reach a transform call makes at most one call, to the predicate on the resolved input, and only if fuel remains. |
| UntilProperties.NormalisationIsInvisible | index.js:15 | Two inputs that resolve alike give identical outcomes and identical call traces. |
| UntilProperties.PlainAndFulfilledAlike | index.js:15 | In particular, a plain value and an already fulfilled promise of it give identical outcomes and identical call traces. |
| UntilProperties.OnlySettlementsMatter | index.js:17-21 | Runners whose predicates and transforms settle alike on every argument give identical runs. A callback returning a promise behaves like one returning or throwing what that promise settles with. |
| UntilProperties.FalsyStep | index.js:16-21 | After a falsy answer on x, the trace is the predicate call on x, then the transform call on x, then the run from what the transform settled with. A transform throw and a transform rejection are handled alike. |
| UntilProperties.ImmediateStop | index.js:16-20 | A predicate truthy on the resolved input returns that exact value after one predicate call and no transform call. |
| UntilProperties.TraceAlternates | index.js:14-22 | In every run (`RunAlternates`), predicate and transform calls strictly alternate, the predicate first. There are as many transform calls as predicate calls, or one fewer. The predicate is called at most `fuel` times. |
| UntilProperties.CallsLinkedAt | index.js:17-21 | By index: the transform's i-th argument equals the predicate's i-th argument, on which the predicate answered falsy. The predicate's (i+1)-th argument is what the transform's i-th call settled with. |
| UntilProperties.TraceLinksCalls | index.js:14-22 | In every run (`RunLinksCalls`), the first predicate argument is the resolved input. The predicate and transform call lists satisfy `CallsLinked`, which `CallsLinkedAt` reads by index. At most one predicate call is left unmatched at the end. |
| UntilProperties.ResultIsFirstTruthy | index.js:18-21 | If the runner fulfils, the input resolved. With N transform calls, there were N + 1 predicate calls. The result is transform^N of the input, and it is the first value of the chain the predicate finds truthy. |
| UntilProperties.FirstTruthyIsResult | index.js:18-21 | Conversely, if the n-th value of the chain is the first truthy one and the fuel allows n + 1 predicate calls, the runner returns it after n + 1 predicate calls and n transform calls. |
| UntilProperties.FirstHitIsUnique | index.js:19-21 | The first truthy position of a chain is unique, so the result the two lemmas above describe is determined. |
| UntilProperties.FalsyPrefix | index.js:18-21 | After n falsy iterations, the run ends as the run from the chain's n-th value does, with n more calls to each function. |
| UntilProperties.InputFailurePropagates | index.js:15-16 | An input that rejects (or never settles) gives that same outcome, and neither function is called. |
| UntilProperties.PredicateFailurePropagates | index.js:17-18 | A predicate that rejects or throws on its (n+1)-th call rejects the run with that same reason, after exactly n transform calls. |
| UntilProperties.TransformFailurePropagates | index.js:21 | A transform that rejects, throws or never settles on its n-th call ends the run with that same outcome, after exactly n predicate calls and no further call. |
| UntilProperties.FalsyChainNeverSettles | index.js:18-21 | While the predicate keeps answering falsy, the runner's promise never settles: after `fuel` predicate calls it is still pending, with as many transform calls made. |
| UntilProperties.SettledRunIgnoresExtraFuel | index.js:14-24 | Once a run's outcome has settled, more fuel gives the identical execution. |
| UntilScenarios.InvalidArgumentsAreRefused | test/index.js:17-35 | Any non-function first argument (including a missing one) fails with the predicate error. With a function first, any non-function second argument fails with the transform error. |
| UntilScenarios.CountingRun | test/index.js:106-119 | A runner that finds 0 and 1 falsy and 2 truthy, and takes 0 to 1 and 1 to 2, makes exactly the calls predicate(0), transform(0), predicate(1), transform(1), predicate(2), and returns 2. |
| UntilScenarios.CountingCalls | test/index.js:111-118 | In that trace the predicate sees 0, 1, 2 and the transform sees 0, 1. |
| UntilScenarios.CountsToTwo | test/index.js:49-104 | With `c > 1`, `c + 1` and input 0, construction succeeds and the run returns 2, with the predicate seeing 0, 1, 2 and the transform seeing 0, 1. This holds for all eight plain/promised choices of input, predicate and transform. |
| UntilScenarios.IncrementCountsUp | test/index.js:100-103 | The chain of `c + 1` from 0 has n as its n-th value. |
| UntilScenarios.CountsPastThreshold | test/index.js:106-119 | With `c > k` for any k ≥ 0, the same run returns k + 1 after k + 2 predicate calls and k + 1 transform calls. |

## Left out

- Promise scheduling is not modelled: the `any-promise` implementation, microtask ordering and the `setTimeout` delays in the tests. The loop is sequential, so only the state each promise settles in is kept.
- Nested thenables are not modelled. A promise here holds a plain value, so the recursive flattening `Promise.resolve` does on a promise of a promise is not represented.
- Error messages are not modelled: the two construction errors are distinct values, without their text.
- Until.Until: the argument is a function or a JavaScript value, but only the values the guard and the tests need are modelled (undefined, null, booleans, numbers, strings, objects). Symbols, BigInts and `document.all` are not.
- Numbers are integers, so a predicate answering NaN or -0 (both falsy in JavaScript) is not modelled.
- Until.Runner.TransformUntil: the unbounded loop is cut off after `fuel` predicate calls and then reports `Pending`. Stack growth and promise-chain growth are not modelled.
- The tests' `is-promise` and `typeof` result checks are not modelled: the runner returns a promise and the factory returns a runner by construction.
- Until.Runner: the predicate and the transform are functions of their argument alone. A stateful or side-effecting callback is not represented, so neither is a predicate whose answer depends on earlier calls or on outside state (as in polling, where the transform waits and hands the same value back). The chain lemmas (`ResultIsFirstTruthy`, `FirstTruthyIsResult`, `FalsyChainNeverSettles` and those built on `Orbit`) rely on this: in the model the same value always gets the same answer.
