/** The JavaScript `null` (and `undefined`) that a batch of user ids may contain. */
module Wrappers {

  datatype Option<+T> = None | Some(value: T)
}
