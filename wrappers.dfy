/** The optional value the store and the form builder use for a JavaScript
    value that may be null or undefined. */
module Wrappers {

  datatype Option<+T> = None | Some(value: T)

}
