/** What a new event inherits from the event that is being handled. */
module Lineage {
  import opened Common

  datatype Context<+C, +I> = Context(correlation: Option<C>, causation: Option<I>)

  /** Lineage that is given is never replaced. */
  function Inherited<T>(own: Option<T>, lent: Option<T>): Option<T>
  {
    if own.None? then lent else own
  }
}
