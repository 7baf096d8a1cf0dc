/** Optional values and the result of one store handler. */
module Outcomes {

  /** A value that may be absent (a JavaScript `null`/`undefined`). */
  datatype Option<+T> = None | Some(value: T)

  /** What one store handler leaves behind.
      `Done` is a normal return, together with the analytics cue it emitted (if any).
      `Threw` is a handler that raised a TypeError part way: the state it carries is
      the store as the exception left it (mutations made before the throw persist). */
  datatype Outcome<S, C> = Done(state: S, cue: Option<C>) | Threw(state: S)
}
