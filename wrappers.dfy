/** The optional value a JavaScript expression such as `line.match(re)?.[0]`
    produces: either nothing (`undefined`/`null`) or a value. */
module Wrappers {

  datatype Option<+T> = None | Some(value: T)
}
