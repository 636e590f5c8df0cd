/** What a lookup finds, and what a call that can be refused answers. */
module Basics {
  datatype Option<+T> = None | Some(value: T)
  datatype Attempt<+T, +E> = Ok(value: T) | Err(error: E)
}
