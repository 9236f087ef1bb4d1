/** The optional value that JavaScript expresses as `T | undefined` or `T | null`. */
module Wrappers {

  datatype Option<+T> = None | Some(value: T)

}
