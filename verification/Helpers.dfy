/** Definitions shared by the models. */
module Helpers {

  type Byte = x: int | 0 <= x < 256

  datatype Option<+T> = None | Some(value: T)

  function Max(x: nat, y: nat): nat { if x < y then y else x }

  /** `s` without its element at `i`. */
  function Remove<T>(s: seq<T>, i: nat): seq<T>
    requires i < |s|
  {
    s[..i] + s[i + 1..]
  }
}
