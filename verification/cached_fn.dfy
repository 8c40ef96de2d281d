/** The memo cell itself: its three states, the `mem::replace` helpers the invocations are built
    from, and the operations that inspect a cell without calling its function. */
module CachedFnCell {
  import opened Wrappers

  /** A lazily evaluated function that caches its result after the first call.

      `NotCalled` holds the function, `Called` its cached output, and `Poisoned` marks a cell whose
      function has been moved out for a call that has not (or never will) put a result back. The
      source wraps this enum in a one-field struct; the wrapper adds nothing and is folded in here. */
  datatype CachedFn<F, T> = NotCalled(f: F) | Called(output: T) | Poisoned

  /** The contents of a slot after a `mem::replace`: the value now in it and the value taken out. */
  datatype Replaced<F, T> = Replaced(now: CachedFn<F, T>, previous: CachedFn<F, T>)

  /** Put `NotCalled(f)` into the slot, returning what was there. */
  function SetNotCalled<F, T>(c: CachedFn<F, T>, f: F): (r: Replaced<F, T>)
    ensures r.now == NotCalled(f) && r.previous == c
  {
    Replaced(NotCalled(f), c)
  }

  /** Put `Called(output)` into the slot, returning what was there. */
  function SetCalled<F, T>(c: CachedFn<F, T>, output: T): (r: Replaced<F, T>)
    ensures r.now == Called(output) && r.previous == c
  {
    Replaced(Called(output), c)
  }

  /** Put `Poisoned` into the slot, returning what was there. */
  function SetPoisoned<F, T>(c: CachedFn<F, T>): (r: Replaced<F, T>)
    ensures r.now == Poisoned && r.previous == c
  {
    Replaced(Poisoned, c)
  }

  /** The function of a `NotCalled` cell, and nothing for any other state. */
  function IntoNotCalled<F, T>(c: CachedFn<F, T>): (r: Option<F>)
    ensures r.Some? <==> c.NotCalled?
    ensures r.Some? ==> c == NotCalled(r.value)
  {
    match c
    case NotCalled(f) => Some(f)
    case _ => None
  }

  /** The `mem::replace` helpers round-trip: taking the function out of a pending cell by poisoning
      it, then putting the same function back, restores the cell. */
  lemma TakeAndRestore<F, T>(f: F)
    ensures var taken := SetPoisoned<F, T>(NotCalled(f));
            && taken.now.Poisoned?
            && IntoNotCalled(taken.previous) == Some(f)
            && SetNotCalled(taken.now, f).now == NotCalled(f)
  {
  }

  /** A fresh cell holding `func`, not yet called. */
  function New<F, T>(func: F): (c: CachedFn<F, T>)
    ensures IsNotCalled(c) && !IsCalled(c) && !IsPoisoned(c)
    ensures AsNotCalled(c).Some? && AsNotCalled(c).value == func && AsCalled(c).None?
    ensures TryIntoNotCalled(c).Ok? && TryIntoNotCalled(c).value == func
  {
    NotCalled(func)
  }

  /** The cached output, if the function has been called. */
  function AsCalled<F, T>(c: CachedFn<F, T>): (r: Option<T>)
    ensures r.Some? <==> c.Called?
    ensures r.Some? ==> c == Called(r.value)
  {
    match c
    case Called(output) => Some(output)
    case _ => None
  }

  /** The function, if it has not been called yet. Borrowing the function and moving it out of
      the cell see the same value here. */
  function AsNotCalled<F, T>(c: CachedFn<F, T>): (r: Option<F>)
    ensures r.Some? <==> c.NotCalled?
    ensures r.Some? ==> c == NotCalled(r.value)
  {
    IntoNotCalled(c)
  }

  /** Consume the cell for its cached output; any other cell is handed back untouched. */
  function TryIntoCalled<F, T>(c: CachedFn<F, T>): (r: Result<T, CachedFn<F, T>>)
    ensures r.Ok? <==> c.Called?
    ensures r.Ok? ==> c == Called(r.value)
    ensures r.Err? ==> r.error == c
  {
    match c
    case Called(output) => Ok(output)
    case _ => Err(c)
  }

  /** Consume the cell for its function; any other cell is handed back untouched. */
  function TryIntoNotCalled<F, T>(c: CachedFn<F, T>): (r: Result<F, CachedFn<F, T>>)
    ensures r.Ok? <==> c.NotCalled?
    ensures r.Ok? ==> c == NotCalled(r.value)
    ensures r.Err? ==> r.error == c
  {
    match c
    case NotCalled(f) => Ok(f)
    case _ => Err(c)
  }

  /** The function has been called and its result cached. */
  predicate IsCalled<F, T>(c: CachedFn<F, T>)
    ensures IsCalled(c) <==> AsCalled(c).Some?
  {
    c.Called?
  }

  /** The function has not been called yet. */
  predicate IsNotCalled<F, T>(c: CachedFn<F, T>)
    ensures IsNotCalled(c) <==> AsNotCalled(c).Some?
  {
    c.NotCalled?
  }

  /** The cell is poisoned: it holds neither a function nor an output. */
  predicate IsPoisoned<F, T>(c: CachedFn<F, T>)
    ensures IsPoisoned(c) <==> AsCalled(c).None? && AsNotCalled(c).None?
  {
    c.Poisoned?
  }

  /** In every state exactly one of the three state predicates holds. */
  lemma ExactlyOneState<F, T>(c: CachedFn<F, T>)
    ensures IsCalled(c) || IsNotCalled(c) || IsPoisoned(c)
    ensures !(IsCalled(c) && IsNotCalled(c))
    ensures !(IsCalled(c) && IsPoisoned(c))
    ensures !(IsNotCalled(c) && IsPoisoned(c))
  {
  }

  /** The accessors, the conversions and the predicates agree on which state a cell is in, and a
      failed conversion hands the same cell back. */
  lemma InspectionAgrees<F, T>(c: CachedFn<F, T>)
    ensures IsCalled(c) <==> AsCalled(c).Some?
    ensures IsCalled(c) <==> TryIntoCalled(c).Ok?
    ensures AsCalled(c).Some? ==> TryIntoCalled(c) == Ok(AsCalled(c).value)
    ensures IsNotCalled(c) <==> AsNotCalled(c).Some?
    ensures IsNotCalled(c) <==> TryIntoNotCalled(c).Ok?
    ensures AsNotCalled(c).Some? ==> TryIntoNotCalled(c) == Ok(AsNotCalled(c).value)
    ensures IsPoisoned(c) <==> TryIntoCalled(c) == Err(c) && TryIntoNotCalled(c) == Err(c)
  {
  }

  /** Building a cell from a payload and converting it back returns that payload. */
  lemma ConversionRoundTrip<F, T>(func: F, output: T)
    ensures TryIntoNotCalled(New<F, T>(func)) == Ok(func)
    ensures TryIntoCalled<F, T>(Called(output)) == Ok(output)
    ensures TryIntoCalled(New<F, T>(func)) == Err(New(func))
    ensures TryIntoNotCalled<F, T>(Called(output)) == Err(Called(output))
  {
  }
}
