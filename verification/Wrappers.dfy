/** `None` stands for a thrown error wherever the cause does not matter. */
module Wrappers {
  datatype Option<+T> = None | Some(value: T)
}
