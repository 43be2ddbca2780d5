/** Machine integers, results and byte sequences shared by every module. */
module Bytes {

  type byte = x: int | 0 <= x < 0x100
  type u16 = x: int | 0 <= x < 0x1_0000
  type u32 = x: int | 0 <= x < 0x1_0000_0000

  datatype Option<+T> = None | Some(value: T)

  datatype Result<+T, +E> = Ok(value: T) | Err(error: E)

  function Min(a: nat, b: nat): nat {
    if a < b then a else b
  }

  /** `s` with the elements from `off` on replaced by `b`. */
  function Splice<T>(s: seq<T>, off: nat, b: seq<T>): (r: seq<T>)
    requires off + |b| <= |s|
    ensures |r| == |s|
  {
    s[..off] + b + s[off + |b|..]
  }

  function U16FromLe(b: seq<byte>): u16
    requires |b| == 2
  {
    b[0] as int + 0x100 * b[1] as int
  }

  function U16ToLe(x: u16): (b: seq<byte>)
    ensures |b| == 2 && U16FromLe(b) == x
  {
    [x % 0x100, x / 0x100]
  }

  function U32FromLe(b: seq<byte>): u32
    requires |b| == 4
  {
    U16FromLe(b[..2]) as int + 0x1_0000 * U16FromLe(b[2..]) as int
  }

  function U32ToLe(x: u32): (b: seq<byte>)
    ensures |b| == 4 && U32FromLe(b) == x
  {
    U16ToLe(x % 0x1_0000) + U16ToLe(x / 0x1_0000)
  }

  /** The bit `mask` of a byte. */
  predicate HasBit(x: byte, mask: nat)
    requires mask in {0x08, 0x10, 0x20, 0x40}
  {
    if mask == 0x08 then x / 0x08 % 2 == 1
    else if mask == 0x10 then x / 0x10 % 2 == 1
    else if mask == 0x20 then x / 0x20 % 2 == 1
    else x / 0x40 % 2 == 1
  }
}
