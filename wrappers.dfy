/** The Option datatype used to make the evaluator's crashes an explicit failure value. */
module Wrappers {

  datatype Option<+T> = None | Some(value: T)
}
