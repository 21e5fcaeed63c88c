/** The absent-or-present value used where the page script tests for null or undefined. */
module Wrappers {

  datatype Option<+T> = None | Some(value: T)

}
