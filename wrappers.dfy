/** The component's nullable values (`T | null`) as an option type. */
module Wrappers {

  datatype Option<+T> = None | Some(value: T)
}
