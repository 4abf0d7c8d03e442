/** The optional value used wherever the source yields "nothing" (a failed
    regular-expression match, an absent header, no attached file). */
module Wrappers {
  datatype Option<+T> = None | Some(value: T)
}
