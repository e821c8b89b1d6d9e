/** Runs: what a piece of program gives back, when it ends, and what it did meanwhile, for
    whatever kind of events the world around it knows. */
module Runs {
  import opened Outcome

  type Span = r: real | r >= 0.0 witness 0.0

  datatype Moment = Moment(now: real, step: nat)

  /** One step of the world later, after the given time. */
  function After(m: Moment, span: Span): Moment { Moment(m.now + span, m.step + 1) }

  function Later(a: real, b: real): real { if a < b then b else a }

  /** The outcome of a piece of program, the moment it ended, and what it did. */
  datatype Run<+T, +E> = Run(out: Result<T>, at: Moment, events: seq<E>)

  function Failed<T, U, E>(r: Run<T, E>): Run<U, E>
    requires r.out.Err?
  {
    Run(Err(r.out.error), r.at, r.events)
  }

  /** The second piece of program, run after the first. */
  function Then<T, U, E>(first: Run<T, E>, second: Run<U, E>): (r: Run<U, E>)
    ensures r.out == second.out && r.at == second.at && r.events == first.events + second.events
  {
    Run(second.out, second.at, first.events + second.events)
  }
}
