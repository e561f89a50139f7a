/** Bytes, fixed-width unsigned integers and the option type shared by the other modules. */
module Bytes {

  newtype byte = x: int | 0 <= x < 256
  type u16 = x: int | 0 <= x < 0x1_0000
  type u32 = x: int | 0 <= x < 0x1_0000_0000

  datatype Option<+T> = None | Some(value: T)

  /** The low five bits of a NAL header, its `nal_unit_type`. */
  function NalType(header: byte): (t: int)
    ensures 0 <= t < 32
  {
    (header as int) % 32
  }

  /** A big-endian 16-bit number. */
  function U16Of(b0: byte, b1: byte): u16 {
    0x100 * (b0 as int) + (b1 as int)
  }

  function Min(a: int, b: int): int {
    if a < b then a else b
  }

  function Max(a: int, b: int): int {
    if a < b then b else a
  }

  lemma Assoc<T>(a: seq<T>, b: seq<T>, c: seq<T>)
    ensures (a + b) + c == a + (b + c)
  {
  }

  lemma SliceOfConcat<T>(b: seq<T>, x: seq<T>, n: nat)
    requires n <= |b|
    ensures (b + x)[n..] == b[n..] + x
    ensures (b + x)[..n] == b[..n]
  {
  }
}
