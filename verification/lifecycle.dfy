/** The lifecycle every invocation keeps, and what happens over a run of invocations.

    `MayBecome` is the state machine the cell promises, written independently of the operations: a
    pending cell may become anything, a cached value is kept for good, and a poisoned cell stays
    poisoned. A session is a sequence of in-place invocations of one cell in which each panic is
    caught by the caller (as with `catch_unwind`) and the cell is then used again. */
module Lifecycle {
  import opened Wrappers
  import opened Computation
  import opened CachedFnCell
  import opened Invocation

  /** The transitions an invocation may make from `before` to `after`. */
  ghost predicate MayBecome<F, T>(before: CachedFn<F, T>, after: CachedFn<F, T>)
  {
    match before
    case NotCalled(_) => true
    case Called(output) => after == Called(output)
    case Poisoned => after.Poisoned?
  }

  /** A normal return of a value from an in-place invocation hands out the value now cached. */
  ghost predicate HandsOutCache<F, T>(after: CachedFn<F, T>, outcome: Outcome<T>)
  {
    outcome.Returns? ==> after == Called(outcome.value)
  }

  /** A normal `Ok` return from a fallible in-place invocation hands out the value now cached. */
  ghost predicate HandsOutCacheOk<F, T, E>(after: CachedFn<F, T>, outcome: Outcome<Result<T, E>>)
  {
    outcome.Returns? && outcome.value.Ok? ==> after == Called(outcome.value.value)
  }

  /** Invoking a cell that is not pending neither runs anything nor changes anything. */
  ghost predicate Inert<F, T, R, W>(before: CachedFn<F, T>, w: W, a: After<F, T, R, W>)
  {
    !before.NotCalled? ==> a.cell == before && a.world == w
  }

  /** The lifecycle composes: two allowed moves in a row make an allowed move. */
  lemma MayBecomeTransitive<F, T>(a: CachedFn<F, T>, b: CachedFn<F, T>, c: CachedFn<F, T>)
    requires MayBecome(a, b) && MayBecome(b, c)
    ensures MayBecome(a, c)
  {
  }

  /** `call` keeps the lifecycle, hands out the cached value, poisons only by panicking, and does
      nothing to a cell that is not pending. */
  lemma CallKeepsLifecycle<F, T, W>(c: CachedFn<F, T>, w: W, run: OnceFn<F, T, W>)
    ensures var a := Call(c, w, run);
            && MayBecome(c, a.cell)
            && HandsOutCache(a.cell, a.outcome)
            && Inert(c, w, a)
            && (a.cell.Poisoned? ==> a.outcome.Panics?)
  {
  }

  /** `poisoning_try_call` keeps the lifecycle; it poisons the cell by panicking or by an error. */
  lemma PoisoningTryCallKeepsLifecycle<F, T, E, W>(c: CachedFn<F, T>, w: W, run: OnceFn<F, Result<T, E>, W>)
    ensures var a := PoisoningTryCall(c, w, run);
            && MayBecome(c, a.cell)
            && HandsOutCacheOk(a.cell, a.outcome)
            && Inert(c, w, a)
            && (a.cell.Poisoned? ==> a.outcome.Panics? || a.outcome.value.Err?)
  {
  }

  /** `try_call` keeps the lifecycle and, unlike `poisoning_try_call`, poisons the cell only by
      panicking: an error leaves it pending. */
  lemma TryCallKeepsLifecycle<F, T, E, W>(c: CachedFn<F, T>, w: W, step: MutFn<F, Result<T, E>, W>)
    ensures var a := TryCall(c, w, step);
            && MayBecome(c, a.cell)
            && HandsOutCacheOk(a.cell, a.outcome)
            && Inert(c, w, a)
            && (a.cell.Poisoned? ==> a.outcome.Panics?)
            && (a.outcome.Returns? && a.outcome.value.Err? ==> a.cell.NotCalled?)
  {
  }

  /** The cell after a session, the outcome of each invocation in order, and the world after it. */
  datatype Session<F, T, R, W> = Session(cell: CachedFn<F, T>, outcomes: seq<Outcome<R>>, world: W)

  /** `n` successive `call`s of a cell. */
  function Calls<F, T, W>(c: CachedFn<F, T>, w: W, run: OnceFn<F, T, W>, n: nat): (s: Session<F, T, T, W>)
    ensures |s.outcomes| == n
    decreases n
  {
    if n == 0 then Session(c, [], w)
    else
      var a := Call(c, w, run);
      var rest := Calls(a.cell, a.world, run, n - 1);
      Session(rest.cell, [a.outcome] + rest.outcomes, rest.world)
  }

  /** Once cached, every later `call` returns the cached value and runs nothing. */
  lemma {:induction false} CallsOnCached<F, T, W>(output: T, w: W, run: OnceFn<F, T, W>, n: nat)
    ensures var s := Calls<F, T, W>(Called(output), w, run, n);
            && s.cell == Called(output)
            && s.world == w
            && forall i :: 0 <= i < |s.outcomes| ==> s.outcomes[i] == Returns(output)
    decreases n
  {
    if n > 0 {
      CallsOnCached<F, T, W>(output, w, run, n - 1);
    }
  }

  /** Once poisoned, every later `call` panics with "poisoned" and runs nothing. */
  lemma {:induction false} CallsOnPoisoned<F, T, W>(w: W, run: OnceFn<F, T, W>, n: nat)
    ensures var s := Calls<F, T, W>(Poisoned, w, run, n);
            && s.cell == Poisoned
            && s.world == w
            && forall i :: 0 <= i < |s.outcomes| ==> s.outcomes[i] == Panics(PoisonedMessage)
    decreases n
  {
    if n > 0 {
      CallsOnPoisoned<F, T, W>(w, run, n - 1);
    }
  }

  /** On a fresh cell whose function returns `v`, any number of `call`s runs the function exactly
      once: the world is changed by that one call only, and every call returns `v`. */
  lemma CallsRunOnce<F, T, W>(f: F, w: W, run: OnceFn<F, T, W>, n: nat)
    requires n > 0
    requires run(f, w).outcome.Returns?
    ensures var s := Calls(New(f), w, run, n);
            && s.cell == Called(run(f, w).outcome.value)
            && s.world == run(f, w).world
            && forall i :: 0 <= i < |s.outcomes| ==> s.outcomes[i] == run(f, w).outcome
  {
    var a := Call(New(f), w, run);
    CallsOnCached<F, T, W>(run(f, w).outcome.value, a.world, run, n - 1);
  }

  /** Over any number of `call`s the cell moves only as the lifecycle allows, and after at least
      one `call` it is never still pending: the function has either been cached or has panicked. */
  lemma {:induction false} CallsKeepLifecycle<F, T, W>(c: CachedFn<F, T>, w: W, run: OnceFn<F, T, W>, n: nat)
    ensures MayBecome(c, Calls(c, w, run, n).cell)
    ensures n > 0 ==> !Calls(c, w, run, n).cell.NotCalled?
    decreases n
  {
    if n > 0 {
      var a := Call(c, w, run);
      CallsKeepLifecycle(a.cell, a.world, run, n - 1);
      MayBecomeTransitive(c, a.cell, Calls(a.cell, a.world, run, n - 1).cell);
      assert !a.cell.NotCalled?;
    }
  }

  /** The two in-place ways of invoking a fallible, retryable function. */
  datatype TryOp = Poisoning | Retrying

  /** One fallible in-place invocation: `poisoning_try_call` calls the function as a `FnOnce`,
      `try_call` as a `FnMut`. */
  function TryOnce<F, T, E, W>(op: TryOp, c: CachedFn<F, T>, w: W, step: MutFn<F, Result<T, E>, W>)
    : After<F, T, Result<T, E>, W>
  {
    match op
    case Poisoning => PoisoningTryCall(c, w, CallOnce(step))
    case Retrying => TryCall(c, w, step)
  }

  /** The fallible invocations `ops` applied to a cell in order. */
  function Tries<F, T, E, W>(c: CachedFn<F, T>, w: W, step: MutFn<F, Result<T, E>, W>, ops: seq<TryOp>)
    : (s: Session<F, T, Result<T, E>, W>)
    ensures |s.outcomes| == |ops|
    decreases |ops|
  {
    if |ops| == 0 then Session(c, [], w)
    else
      var a := TryOnce(ops[0], c, w, step);
      var rest := Tries(a.cell, a.world, step, ops[1..]);
      Session(rest.cell, [a.outcome] + rest.outcomes, rest.world)
  }

  /** Once cached, every later fallible invocation of either kind returns `Ok` of the cached value
      and runs nothing. */
  lemma {:induction false} TriesOnCached<F, T, E, W>(output: T, w: W, step: MutFn<F, Result<T, E>, W>, ops: seq<TryOp>)
    ensures var s := Tries<F, T, E, W>(Called(output), w, step, ops);
            && s.cell == Called(output)
            && s.world == w
            && forall i :: 0 <= i < |s.outcomes| ==> s.outcomes[i] == Returns(Ok(output))
    decreases |ops|
  {
    if |ops| > 0 {
      TriesOnCached<F, T, E, W>(output, w, step, ops[1..]);
    }
  }

  /** Once poisoned, every later fallible invocation of either kind panics with "poisoned". A cell
      gets here through a panic in its function or through an error from `poisoning_try_call`;
      `try_call` refuses it all the same. */
  lemma {:induction false} TriesOnPoisoned<F, T, E, W>(w: W, step: MutFn<F, Result<T, E>, W>, ops: seq<TryOp>)
    ensures var s := Tries<F, T, E, W>(Poisoned, w, step, ops);
            && s.cell == Poisoned
            && s.world == w
            && forall i :: 0 <= i < |s.outcomes| ==> s.outcomes[i] == Panics(PoisonedMessage)
    decreases |ops|
  {
    if |ops| > 0 {
      TriesOnPoisoned<F, T, E, W>(w, step, ops[1..]);
    }
  }

  /** A cell used only through `try_call` is never poisoned by a function that does not panic,
      however often the function errs. */
  lemma {:induction false} RetryingNeverPoisons<F, T, E, W>(c: CachedFn<F, T>, w: W, step: MutFn<F, Result<T, E>, W>, ops: seq<TryOp>)
    requires !c.Poisoned?
    requires forall i :: 0 <= i < |ops| ==> ops[i] == Retrying
    requires forall f, w' :: step(f, w').outcome.Returns?
    ensures !Tries(c, w, step, ops).cell.Poisoned?
    decreases |ops|
  {
    if |ops| > 0 {
      var a := TryCall(c, w, step);
      RetryingNeverPoisons(a.cell, a.world, step, ops[1..]);
    }
  }

  /** Over any sequence of fallible invocations the cell moves only as the lifecycle allows, and a
      cell is still pending afterwards only if it started pending and every invocation was a
      `try_call` whose function returned an error. */
  lemma {:induction false} TriesKeepLifecycle<F, T, E, W>(c: CachedFn<F, T>, w: W, step: MutFn<F, Result<T, E>, W>, ops: seq<TryOp>)
    ensures MayBecome(c, Tries(c, w, step, ops).cell)
    ensures var s := Tries(c, w, step, ops);
            s.cell.NotCalled? ==>
              && c.NotCalled?
              && forall i :: 0 <= i < |ops| ==>
                   ops[i] == Retrying && s.outcomes[i].Returns? && s.outcomes[i].value.Err?
    decreases |ops|
  {
    if |ops| > 0 {
      var a := TryOnce(ops[0], c, w, step);
      var rest := Tries(a.cell, a.world, step, ops[1..]);
      var s := Tries(c, w, step, ops);
      TriesKeepLifecycle(a.cell, a.world, step, ops[1..]);
      MayBecomeTransitive(c, a.cell, rest.cell);
      if s.cell.NotCalled? {
        assert a.cell.NotCalled?;
        forall i | 0 <= i < |ops|
          ensures ops[i] == Retrying && s.outcomes[i].Returns? && s.outcomes[i].value.Err?
        {
          if i > 0 {
            assert ops[i] == ops[1..][i - 1];
            assert s.outcomes[i] == rest.outcomes[i - 1];
          }
        }
      }
    }
  }
}
