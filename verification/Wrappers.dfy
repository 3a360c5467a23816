/** Small types and functions that several modules share. */
module Wrappers {

  datatype Option<+T> = None | Some(value: T)

  function Abs(v: int): nat {
    if v < 0 then -v else v
  }
}
