/** The optional value used for JavaScript's `null`/`undefined` and for non-array inputs. */
module Wrappers {
  datatype Option<+T> = None | Some(value: T)
}
