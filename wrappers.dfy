/** The optional result used for inputs that a foreign parser may fail to produce. */
module Wrappers {

  datatype Option<+T> = None | Some(value: T)
}
