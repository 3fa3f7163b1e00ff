/** The nullable results of the editor (an object or `null`) as an explicit option. */
module Wrappers {
  datatype Option<+T> = None | Some(value: T)
}
