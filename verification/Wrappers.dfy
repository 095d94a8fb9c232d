// Types that several modules share.

module Wrappers {

  datatype Option<+T> = None | Some(value: T)

  // A hash function on texts.
  type Digest = string -> string
}
