/** The optional value the scanner uses for "a frame may be waiting" and
    "a pass may have produced a decode batch" (Python's `None`). */
module Wrappers {

  datatype Option<+T> = None | Some(value: T)
}
