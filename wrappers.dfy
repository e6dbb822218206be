/** Java `null` made explicit: a slot either holds a value or is empty. */
module Wrappers {

  datatype Option<T> = None | Some(value: T)

}
