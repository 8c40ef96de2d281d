# cached-fn in Dafny

A model of `CachedFn<F, Output>`, the single-slot lazy memo cell of the `cached_fn` crate. A cell
holds either a function that has not been called (`NotCalled`), the output of that function once it
has run (`Called`), or nothing at all (`Poisoned`). Six invocation operations drive it from
`NotCalled` to `Called`:

- `call` and `call_into` invoke an infallible `FnOnce`.
- `poisoning_try_call`, `try_call_into` and `safe_try_call` invoke a fallible `FnOnce`.
- `try_call` invokes a fallible, retryable `FnMut`.

Every in-place invocation of a pending cell first moves the function out and leaves `Poisoned` in
its place, and only then runs it. A panic inside the function therefore leaves the cell poisoned.
`poisoning_try_call` also leaves it poisoned on an error, because the error returns early.
`try_call` puts the (possibly mutated) function back on an error. Invoking a poisoned cell panics
with "poisoned".

## How the model is built

- `wrappers.dfy` (`Wrappers`): `Option` and `Result`.
- `computation.dfy` (`Computation`): the wrapped closure as a total function. It maps the closure's
  captured state `F` and a world `W` to an `Outcome` (`Returns(v)` or `Panics(payload)`) and the
  world after the call. A `FnMut` closure also yields its own next state. The world stands for
  whatever the closure mutates outside itself, such as a counter captured by `&mut`. Side effects
  and the number of calls can therefore be observed.
- `cached_fn.dfy` (`CachedFnCell`): the three-state datatype and the `mem::replace` helpers
  (`SetNotCalled`, `SetCalled`, `SetPoisoned`, `IntoNotCalled`). It also holds the accessors, the
  conversions, the state predicates and `New`.
- `invocation.dfy` (`Invocation`): the six invocations as pure functions.
  - In-place operations return the cell afterwards, the outcome and the world.
  - Consuming operations return the outcome and the world.
  - The `&mut Output` the source returns is modelled as the cached value itself.
  - The in-place bodies follow the source step by step: poison, take the function out, run it,
    then store the output or put the function back.
  - A panic is an explicit outcome, not a precondition, so every operation is total.
- `lifecycle.dfy` (`Lifecycle`): `MayBecome`, the promised state machine written independently of
  the operations. A pending cell may become anything, a cached value is kept for good, and a
  poisoned cell stays poisoned. It also defines sessions: sequences of invocations on one cell, in
  which each panic is caught by the caller and the cell is used again.
- `scenarios.dfy` (`Scenarios`): the integration test and the two documented examples, replayed.
  It also has one instance of the promise that `safe_try_call` leaves no poisoned cell behind.

The closures, the world and the panic payloads are parameters. Nothing is executed.

## Model

| member | source | states |
|---|---|---|
| `CachedFnCell.IntoNotCalled` | src/lib.rs:33-38 | yields the function exactly when the cell is `NotCalled`, and that function is the one the cell held |
| `CachedFnCell.SetNotCalled` | src/lib.rs:49-52 | the slot now holds `NotCalled(f)`, and the previous contents are returned |
| `CachedFnCell.SetCalled` | src/lib.rs:54-57 | the slot now holds `Called(output)`, and the previous contents are returned |
| `CachedFnCell.SetPoisoned` | src/lib.rs:59-62 | the slot now holds `Poisoned`, and the previous contents are returned |
| `CachedFnCell.TakeAndRestore` | src/lib.rs:49-62 | the `mem::replace` helpers round-trip: poisoning a pending cell hands out its function, and putting the same function back with `set_not_called` restores the original cell |
| `CachedFnCell.New` | src/lib.rs:69-71 | a new cell is not called, not cached and not poisoned; `as_not_called` and `try_into_not_called` give back the function it was built from |
| `CachedFnCell.AsCalled` | src/lib.rs:76-81 | gives a value iff the cell is `Called`, and that value is the cached output |
| `CachedFnCell.AsNotCalled` | src/lib.rs:86-91 | gives a value iff the cell is `NotCalled`, and that value is the held function |
| `CachedFnCell.TryIntoCalled` | src/lib.rs:115-120 | `Ok` iff the cell is `Called`, with the cached output; otherwise `Err` carrying the unchanged cell |
| `CachedFnCell.TryIntoNotCalled` | src/lib.rs:124-129 | `Ok` iff the cell is `NotCalled`, with its function; otherwise `Err` carrying the unchanged cell |
| `CachedFnCell.IsCalled` | src/lib.rs:131-136 | true exactly when `as_called` yields a value |
| `CachedFnCell.IsNotCalled` | src/lib.rs:138-143 | true exactly when `as_not_called` yields a value |
| `CachedFnCell.IsPoisoned` | src/lib.rs:145-150 | true exactly when the cell yields neither a function nor an output |
| `CachedFnCell.ExactlyOneState` | src/lib.rs:134-150 | in every state exactly one of `is_called`, `is_not_called`, `is_poisoned` holds |
| `CachedFnCell.InspectionAgrees` | src/lib.rs:76-150 | the predicates, the `as_*` accessors and the `try_into_*` conversions agree on the state; a poisoned cell is refused by both conversions |
| `CachedFnCell.ConversionRoundTrip` | src/lib.rs:69-129 | converting a new cell back gives its function, converting a cached cell gives its output, and a conversion to the wrong variant returns the cell |
| `Invocation.Call` | src/lib.rs:167-178 | a pending cell runs its function once; a return caches that value and hands it out, a panic propagates and leaves `Poisoned`; a cached cell returns its value and runs nothing; a poisoned cell panics with "poisoned" and stays poisoned |
| `Invocation.CallInto` | src/lib.rs:188-194 | a pending cell yields exactly the function's result and side effects; a cached cell yields its value; a poisoned cell panics with "poisoned" |
| `Invocation.PoisoningTryCall` | src/lib.rs:237-248 | `Ok(v)` caches `v`; `Err(e)` is returned and leaves the cell `Poisoned`; a panic leaves `Poisoned`; a cached cell returns `Ok` of its value and runs nothing; a poisoned cell panics |
| `Invocation.TryCallInto` | src/lib.rs:261-267 | a pending cell yields exactly the fallible function's result or error; a cached cell yields `Ok` of its value; a poisoned cell panics |
| `Invocation.SafeTryCall` | src/lib.rs:287-296 | on success returns a new `Called` cell holding the output; on error returns only the error; a cached cell is returned unchanged; no returned cell is ever poisoned; a poisoned cell panics |
| `Invocation.TryCall` | src/lib.rs:349-368 | `Ok(v)` caches `v`; `Err(e)` is returned and the function, in the state the failed call left it, is put back as `NotCalled`; a panic leaves `Poisoned`; a cached cell returns its value and runs nothing; a poisoned cell panics |
| `Invocation.CallIntoAgreesWithCall` | src/lib.rs:167-194 | the consuming `call_into` ends with the same outcome and side effects as the in-place `call` |
| `Invocation.TryCallIntoAgreesWithPoisoningTryCall` | src/lib.rs:237-267 | `try_call_into` ends with the same outcome and side effects as `poisoning_try_call` |
| `Invocation.SafeTryCallAgreesWithPoisoningTryCall` | src/lib.rs:269-296 | `safe_try_call` succeeds exactly when `poisoning_try_call` does and returns the cell that call would leave; on an error it returns the same error but no cell |
| `Invocation.TryCallDiffersOnlyOnError` | src/lib.rs:303-368 | `try_call` and `poisoning_try_call` end with the same outcome and side effects, and leave different cells only when a pending function errs: then `try_call` keeps it pending and `poisoning_try_call` poisons |
| `Lifecycle.CallKeepsLifecycle` | src/lib.rs:157-178 | `call` moves the cell only as the lifecycle allows, hands out the value now cached, poisons only by panicking, and leaves a non-pending cell and the world untouched |
| `Lifecycle.PoisoningTryCallKeepsLifecycle` | src/lib.rs:201-248 | `poisoning_try_call` keeps the lifecycle, hands out the cached value on `Ok`, and poisons only by panicking or erring |
| `Lifecycle.TryCallKeepsLifecycle` | src/lib.rs:303-368 | `try_call` keeps the lifecycle, hands out the cached value on `Ok`, poisons only by panicking, and leaves the cell pending after an error |
| `Lifecycle.CallsOnCached` | src/lib.rs:157-178 | any number of `call`s on a cached cell return the cached value, keep the cell and leave the world unchanged |
| `Lifecycle.CallsOnPoisoned` | src/lib.rs:161-176 | any number of `call`s on a poisoned cell panic with "poisoned", keep it poisoned and leave the world unchanged |
| `Lifecycle.CallsRunOnce` | src/lib.rs:5-8 | on a new cell whose function returns `v`, any positive number of `call`s all return `v`, the function runs exactly once (the world is the one its single call produces), and the cell ends `Called(v)` |
| `Lifecycle.CallsKeepLifecycle` | src/lib.rs:157-178 | across any number of `call`s the cell moves only as the lifecycle allows, and after at least one `call` it is never still pending |
| `Lifecycle.TriesOnCached` | src/lib.rs:237-368 | any sequence of `poisoning_try_call`/`try_call` on a cached cell returns `Ok` of the cached value, keeps the cell and leaves the world unchanged |
| `Lifecycle.TriesOnPoisoned` | src/lib.rs:313-321 | whether it was poisoned by a panic or by a `poisoning_try_call` error, any sequence of `poisoning_try_call`/`try_call` on a poisoned cell panics with "poisoned" every time and keeps it poisoned |
| `Lifecycle.RetryingNeverPoisons` | src/lib.rs:309-311 | a cell that is not poisoned and is used only through `try_call`, with a function that never panics, is never poisoned, however often the function errs |
| `Lifecycle.TriesKeepLifecycle` | src/lib.rs:237-368 | across any sequence of fallible in-place invocations the cell moves only as the lifecycle allows; it is still pending afterwards only if it started pending and every invocation was a `try_call` that returned an error |
| `Scenarios.CallCachesFirstResult` | tests/test.rs:4-18 | four `call`s of `x += 1; x + 1` from `x == 0` each return 2, `x` ends at 1 and the cell is called |
| `Scenarios.PoisoningTryCallExample` | src/lib.rs:225-235 | an always-failing function makes `poisoning_try_call` return the error and poison the cell; the next call panics with "poisoned" |
| `Scenarios.SafeTryCallExample` | src/lib.rs:274-276 | an instance of the promise: the always-failing function through `safe_try_call` returns just the error and no cell |
| `Scenarios.TryCallExample` | src/lib.rs:325-348 | a function failing twice then returning 42 gives err, err, 42, then a cached 42; the cell is called and the function ran three times |

## Left out

- `as_called_mut` and `as_not_called_mut` (src/lib.rs:96-111) and the inner `as_called_mut` (src/lib.rs:42-47): the model works on values, so writing through a `&mut` reference has no counterpart. The inner accessor is the same lookup as `AsCalled`, which the invocations use in its place.
- The `&mut Output` the in-place invocations return is modelled as the cached value. Later writes through that reference are not modelled.
- Unwinding: a panic is an `Outcome` that the operations propagate. Drop order during unwinding is not modelled, and neither is catching the panic, beyond a session continuing with the cell left behind.
- The closure's body, its captured environment and its side effects are abstracted as a total function of its state and a world.
- The derived `Debug`, `Clone`, `PartialEq`, `Eq` and `Hash` implementations and the crate attributes (src/lib.rs:1-3, src/lib.rs:9, src/lib.rs:16) are not modelled.
- Concurrency is out of scope: the type has a single owner.
- `Scenarios.CallCachesFirstResult` uses an unbounded counter in place of `usize`. The counter only reaches 1, so wrap-around cannot arise.
