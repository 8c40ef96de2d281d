/** The usage examples of the crate, replayed on the model: the integration test, the two
    documented examples of the fallible invocations, and one case of the promise that
    `safe_try_call` never leaves a poisoned cell behind. */
module Scenarios {
  import opened Wrappers
  import opened Computation
  import opened CachedFnCell
  import opened Invocation
  import opened Lifecycle

  /** A closure whose only capture is a mutable borrow of a variable that lives in the world. */
  datatype Closure = Closure

  /** `|| { x += 1; x + 1 }` with `x` the world. */
  function IncrementThenNext(f: Closure, x: nat): Ran<nat, nat>
  {
    Ran(Returns(x + 2), x + 1)
  }

  /** The integration test: four `call`s from `x == 0` each return 2, and `x` ends at 1, so the
      closure ran once. */
  lemma CallCachesFirstResult()
    ensures var s := Calls(New(Closure), 0, IncrementThenNext, 4);
            && s.outcomes == [Returns(2), Returns(2), Returns(2), Returns(2)]
            && s.world == 1
            && IsCalled(s.cell)
  {
    CallsRunOnce(Closure, 0, IncrementThenNext, 4);
  }

  /** `|| -> Result<u32, &str> { Err("failed to compute") }`; it touches no world. */
  function AlwaysFails(f: Closure, w: ()): Ran<Result<nat, string>, ()>
  {
    Ran(Returns(Err("failed to compute")), w)
  }

  /** The documented `poisoning_try_call` example: the first call returns the error and poisons the
      cell, and any further call panics with "poisoned". */
  lemma PoisoningTryCallExample()
    ensures var first := PoisoningTryCall(New(Closure), (), AlwaysFails);
            var second := PoisoningTryCall(first.cell, first.world, AlwaysFails);
            && first.outcome == Returns(Err("failed to compute"))
            && IsPoisoned(first.cell)
            && second.outcome == Panics(PoisonedMessage)
            && IsPoisoned(second.cell)
  {
  }

  /** The failing function of the `poisoning_try_call` example, run through `safe_try_call`
      instead: the error comes back on its own and no cell, poisoned or not, is left behind. */
  lemma SafeTryCallExample()
    ensures SafeTryCall(New(Closure), (), AlwaysFails) == Ran(Returns(Err("failed to compute")), ())
  {
  }

  /** `|| { tries += 1; if tries < 3 { Err("not yet") } else { Ok(42) } }` with `tries` the world. */
  function SucceedsOnThirdTry(f: Closure, tries: nat): Stepped<Closure, Result<nat, string>, nat>
  {
    var t := tries + 1;
    Stepped(Returns(if t < 3 then Err("not yet") else Ok(42)), f, t)
  }

  /** The documented `try_call` example: two errors leave the cell pending, the third call caches
      42, and a fourth returns the cached 42 without calling the closure again (`tries` stays 3). */
  lemma TryCallExample()
    ensures var s := Tries(New(Closure), 0, SucceedsOnThirdTry, [Retrying, Retrying, Retrying, Retrying]);
            && s.outcomes == [Returns(Err("not yet")), Returns(Err("not yet")), Returns(Ok(42)), Returns(Ok(42))]
            && IsCalled(s.cell)
            && s.world == 3
  {
  }
}
