/** The optional-value type used for every `Option` field and every
    possibly-unreadable response body. */
module Wrappers {

  datatype Option<+T> = None | Some(value: T)
}
