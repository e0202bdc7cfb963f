/** The optional value used wherever the source writes `T | null` or gets
    `undefined` back from a lookup. */
module Wrappers {

  datatype Option<+T> = None | Some(value: T)
}
