/** The six invocation operations of the memo cell.

    The in-place operations (`Call`, `PoisoningTryCall`, `TryCall`) return the cell as it is after
    the call together with how the call ended; the value they return stands for the `&mut` reference
    the source hands out into the cached slot. The consuming operations (`CallInto`, `TryCallInto`,
    `SafeTryCall`) take the cell by value and return only how the call ended.

    Every in-place operation on a pending cell first moves the function out and leaves `Poisoned` in
    its place, and only then runs it: when the function panics, the panic propagates with the cell
    still `Poisoned`. Any invocation of a poisoned cell panics with the payload "poisoned". */
module Invocation {
  import opened Wrappers
  import opened Computation
  import opened CachedFnCell

  /** The payload of the panic raised when a poisoned cell is invoked. */
  const PoisonedMessage: string := "poisoned"

  /** An in-place invocation: the cell after it, how it ended, and the world after it. */
  datatype After<F, T, R, W> = After(cell: CachedFn<F, T>, outcome: Outcome<R>, world: W)

  /** `call`: run an infallible function if it has not run yet and cache its result; return the
      cached result. */
  function Call<F, T, W>(c: CachedFn<F, T>, w: W, run: OnceFn<F, T, W>): (a: After<F, T, T, W>)
    ensures c.Poisoned? ==> a == After(Poisoned, Panics(PoisonedMessage), w)
    ensures c.Called? ==> a == After(c, Returns(c.output), w)
    ensures c.NotCalled? ==> a.outcome == run(c.f, w).outcome && a.world == run(c.f, w).world
    ensures c.NotCalled? && a.outcome.Returns? ==> a.cell == Called(a.outcome.value)
    ensures c.NotCalled? && a.outcome.Panics? ==> a.cell == Poisoned
  {
    match c
    case NotCalled(_) =>
      var taken := SetPoisoned(c);
      var f := IntoNotCalled(taken.previous).value;
      var ran := run(f, w);
      (match ran.outcome
       case Panics(m) => After(taken.now, Panics(m), ran.world)
       case Returns(v) =>
         var stored := SetCalled(taken.now, v).now;
         After(stored, Returns(AsCalled(stored).value), ran.world))
    case Called(output) => After(c, Returns(output), w)
    case Poisoned => After(c, Panics(PoisonedMessage), w)
  }

  /** `call_into`: consume the cell, returning the function's result or the cached one. */
  function CallInto<F, T, W>(c: CachedFn<F, T>, w: W, run: OnceFn<F, T, W>): (r: Ran<T, W>)
    ensures c.Poisoned? ==> r == Ran(Panics(PoisonedMessage), w)
    ensures c.Called? ==> r == Ran(Returns(c.output), w)
    ensures c.NotCalled? ==> r == run(c.f, w)
  {
    match c
    case NotCalled(f) => run(f, w)
    case Called(output) => Ran(Returns(output), w)
    case Poisoned => Ran(Panics(PoisonedMessage), w)
  }

  /** `poisoning_try_call`: run a fallible function if it has not run yet. Success is cached; an
      error is returned and, because the error leaves before anything is stored, the cell stays
      poisoned for good. */
  function PoisoningTryCall<F, T, E, W>(c: CachedFn<F, T>, w: W, run: OnceFn<F, Result<T, E>, W>)
    : (a: After<F, T, Result<T, E>, W>)
    ensures c.Poisoned? ==> a == After(Poisoned, Panics(PoisonedMessage), w)
    ensures c.Called? ==> a == After(c, Returns(Ok(c.output)), w)
    ensures c.NotCalled? ==> a.outcome == run(c.f, w).outcome && a.world == run(c.f, w).world
    ensures c.NotCalled? && a.outcome.Returns? && a.outcome.value.Ok? ==> a.cell == Called(a.outcome.value.value)
    ensures c.NotCalled? && a.outcome.Returns? && a.outcome.value.Err? ==> a.cell == Poisoned
    ensures c.NotCalled? && a.outcome.Panics? ==> a.cell == Poisoned
  {
    match c
    case NotCalled(_) =>
      var taken := SetPoisoned(c);
      var f := IntoNotCalled(taken.previous).value;
      var ran := run(f, w);
      (match ran.outcome
       case Panics(m) => After(taken.now, Panics(m), ran.world)
       case Returns(Err(e)) => After(taken.now, Returns(Err(e)), ran.world)
       case Returns(Ok(v)) =>
         var stored := SetCalled(taken.now, v).now;
         After(stored, Returns(Ok(AsCalled(stored).value)), ran.world))
    case Called(output) => After(c, Returns(Ok(output)), w)
    case Poisoned => After(c, Panics(PoisonedMessage), w)
  }

  /** `try_call_into`: consume the cell, returning the fallible function's result or error, or the
      cached value. */
  function TryCallInto<F, T, E, W>(c: CachedFn<F, T>, w: W, run: OnceFn<F, Result<T, E>, W>)
    : (r: Ran<Result<T, E>, W>)
    ensures c.Poisoned? ==> r == Ran(Panics(PoisonedMessage), w)
    ensures c.Called? ==> r == Ran(Returns(Ok(c.output)), w)
    ensures c.NotCalled? ==> r == run(c.f, w)
  {
    match c
    case NotCalled(f) => run(f, w)
    case Called(output) => Ran(Returns(Ok(output)), w)
    case Poisoned => Ran(Panics(PoisonedMessage), w)
  }

  /** `safe_try_call`: consume the cell and, on success, return a cell holding the cached value; an
      error is returned on its own, so no poisoned cell is ever produced. */
  function SafeTryCall<F, T, E, W>(c: CachedFn<F, T>, w: W, run: OnceFn<F, Result<T, E>, W>)
    : (r: Ran<Result<CachedFn<F, T>, E>, W>)
    ensures c.Poisoned? ==> r == Ran(Panics(PoisonedMessage), w)
    ensures c.Called? ==> r == Ran(Returns(Ok(c)), w)
    ensures c.NotCalled? ==> r.world == run(c.f, w).world
    ensures c.NotCalled? ==> (r.outcome.Panics? <==> run(c.f, w).outcome.Panics?)
    ensures c.NotCalled? && r.outcome.Panics? ==> r.outcome.message == run(c.f, w).outcome.message
    ensures c.NotCalled? && r.outcome.Returns? ==>
              match run(c.f, w).outcome.value
              case Ok(v) => r.outcome.value == Ok(Called(v))
              case Err(e) => r.outcome.value == Err(e)
    ensures r.outcome.Returns? && r.outcome.value.Ok? ==> r.outcome.value.value.Called?
  {
    match c
    case NotCalled(f) =>
      var ran := run(f, w);
      (match ran.outcome
       case Panics(m) => Ran(Panics(m), ran.world)
       case Returns(Err(e)) => Ran(Returns(Err(e)), ran.world)
       case Returns(Ok(output)) => Ran(Returns(Ok(Called(output))), ran.world))
    case Called(_) => Ran(Returns(Ok(c)), w)
    case Poisoned => Ran(Panics(PoisonedMessage), w)
  }

  /** `try_call`: run a retryable function if it has not succeeded yet. Success is cached; on an
      error the function, in the state the failed call left it, is put back so a later call retries. */
  function TryCall<F, T, E, W>(c: CachedFn<F, T>, w: W, step: MutFn<F, Result<T, E>, W>)
    : (a: After<F, T, Result<T, E>, W>)
    ensures c.Poisoned? ==> a == After(Poisoned, Panics(PoisonedMessage), w)
    ensures c.Called? ==> a == After(c, Returns(Ok(c.output)), w)
    ensures c.NotCalled? ==> a.outcome == step(c.f, w).outcome && a.world == step(c.f, w).world
    ensures c.NotCalled? && a.outcome.Returns? && a.outcome.value.Ok? ==> a.cell == Called(a.outcome.value.value)
    ensures c.NotCalled? && a.outcome.Returns? && a.outcome.value.Err? ==> a.cell == NotCalled(step(c.f, w).next)
    ensures c.NotCalled? && a.outcome.Panics? ==> a.cell == Poisoned
  {
    match c
    case NotCalled(_) =>
      var taken := SetPoisoned(c);
      var f := IntoNotCalled(taken.previous).value;
      var stepped := step(f, w);
      (match stepped.outcome
       case Panics(m) => After(taken.now, Panics(m), stepped.world)
       case Returns(Ok(v)) =>
         var stored := SetCalled(taken.now, v).now;
         After(stored, Returns(Ok(AsCalled(stored).value)), stepped.world)
       case Returns(Err(e)) =>
         After(SetNotCalled(taken.now, stepped.next).now, Returns(Err(e)), stepped.world))
    case Called(output) => After(c, Returns(Ok(output)), w)
    case Poisoned => After(c, Panics(PoisonedMessage), w)
  }

  /** The consuming `call_into` ends exactly as the in-place `call` does. */
  lemma CallIntoAgreesWithCall<F, T, W>(c: CachedFn<F, T>, w: W, run: OnceFn<F, T, W>)
    ensures CallInto(c, w, run) == Ran(Call(c, w, run).outcome, Call(c, w, run).world)
  {
  }

  /** The consuming `try_call_into` ends exactly as the in-place `poisoning_try_call` does; only
      the poisoned cell left behind on an error is missing, because the cell is gone. */
  lemma TryCallIntoAgreesWithPoisoningTryCall<F, T, E, W>(c: CachedFn<F, T>, w: W, run: OnceFn<F, Result<T, E>, W>)
    ensures TryCallInto(c, w, run) == Ran(PoisoningTryCall(c, w, run).outcome, PoisoningTryCall(c, w, run).world)
  {
  }

  /** `safe_try_call` succeeds exactly when `poisoning_try_call` does, and the cell it returns is the
      one `poisoning_try_call` leaves behind; where `poisoning_try_call` would leave a poisoned cell,
      `safe_try_call` returns no cell at all. */
  lemma SafeTryCallAgreesWithPoisoningTryCall<F, T, E, W>(c: CachedFn<F, T>, w: W, run: OnceFn<F, Result<T, E>, W>)
    ensures var s := SafeTryCall(c, w, run);
            var p := PoisoningTryCall(c, w, run);
            && s.world == p.world
            && (s.outcome.Panics? <==> p.outcome.Panics?)
            && (s.outcome.Returns? && s.outcome.value.Ok? <==> p.outcome.Returns? && p.outcome.value.Ok?)
            && (s.outcome.Returns? && s.outcome.value.Ok? ==> s.outcome.value.value == p.cell)
            && (s.outcome.Returns? && s.outcome.value.Err? ==> p.outcome == Returns(Err(s.outcome.value.error)))
  {
  }

  /** Run once as a `FnOnce`, a retryable function behaves under `try_call` as under
      `poisoning_try_call` except on an error, where `try_call` keeps it pending instead of
      poisoning the cell. */
  lemma TryCallDiffersOnlyOnError<F, T, E, W>(c: CachedFn<F, T>, w: W, step: MutFn<F, Result<T, E>, W>)
    ensures var t := TryCall(c, w, step);
            var p := PoisoningTryCall(c, w, CallOnce(step));
            && t.outcome == p.outcome
            && t.world == p.world
            && (t.cell != p.cell ==> c.NotCalled? && t.outcome.Returns? && t.outcome.value.Err?
                                     && t.cell.NotCalled? && p.cell.Poisoned?)
  {
  }
}
