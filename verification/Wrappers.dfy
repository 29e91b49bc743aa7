/** Types the models share. */
module Wrappers {
  datatype Option<+T> = None | Some(value: T)

  type Byte = b: int | 0 <= b < 256

  /** A byte as its bits. */
  type Octet = b: seq<bool> | |b| == 8 witness [false, false, false, false, false, false, false, false]

  /** A 32-bit machine word as its bits, in the order they are sent: here always the least significant first. */
  type Word = b: seq<bool> | |b| == 32 witness seq(32, _ => false)

  function Min(a: nat, b: nat): nat {
    if a < b then a else b
  }
}
