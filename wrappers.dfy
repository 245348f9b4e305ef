/** The optional-value type the other modules use for PHP's "value or false". */
module Wrappers {

  datatype Option<+T> = None | Some(value: T)

}
