/** The wrapped computation, modelled abstractly.

    A closure is not run here; instead a caller supplies a total function that says how one call of
    the closure ends and what it does to the world around it. The world `W` stands for everything the
    closure can mutate outside itself (variables it captured by mutable reference, counters, logs), so
    that side effects and the number of calls can be observed. A panic inside the closure is a
    `Panics` outcome carrying its payload; unwinding itself is not modelled. */
module Computation {

  /** How a call ends: it returns a value, or it panics with a payload. */
  datatype Outcome<R> = Returns(value: R) | Panics(message: string)

  /** One call of a closure that the call consumes (`FnOnce`): how it ended and the world after it. */
  datatype Ran<R, W> = Ran(outcome: Outcome<R>, world: W)

  /** One call of a closure that may be called again (`FnMut`): how it ended, the closure's own state
      after the call, and the world after it. */
  datatype Stepped<F, R, W> = Stepped(outcome: Outcome<R>, next: F, world: W)

  /** The behaviour of a `FnOnce() -> R` closure whose captured state has type `F`. */
  type OnceFn<!F, R, !W> = (F, W) -> Ran<R, W>

  /** The behaviour of a `FnMut() -> R` closure whose captured state has type `F`. */
  type MutFn<!F, R, !W> = (F, W) -> Stepped<F, R, W>

  /** Every `FnMut` closure is also a `FnOnce` closure: call it once and drop its state. */
  function CallOnce<F, R, W>(step: MutFn<F, R, W>): (run: OnceFn<F, R, W>)
  {
    (f, w) => Ran(step(f, w).outcome, step(f, w).world)
  }
}
