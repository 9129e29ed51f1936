/**
 Fixed-width integers and big-endian byte layout.

 Go's uint8, uint16 and uint32 are ranges of `int` here, so every truncation the
 program performs is written out with `%`.
 */
module Bytes {
  type byte = x: int | 0 <= x < 0x100
  type u16 = x: int | 0 <= x < 0x1_0000
  type u32 = x: int | 0 <= x < 0x1_0000_0000

  datatype Option<+T> = None | Some(value: T)

  /** Byte k of a big-endian 32-bit word, k = 0 being the most significant. */
  function ByteOf(v: u32, k: nat): (b: byte)
    requires k < 4
  {
    if k == 0 then v / 0x100_0000
    else if k == 1 then v / 0x1_0000 % 0x100
    else if k == 2 then v / 0x100 % 0x100
    else v % 0x100
  }

  function Word(b0: byte, b1: byte, b2: byte, b3: byte): (v: u32) {
    b0 * 0x100_0000 + b1 * 0x1_0000 + b2 * 0x100 + b3
  }

  lemma WordOfBytes(v: u32)
    ensures Word(ByteOf(v, 0), ByteOf(v, 1), ByteOf(v, 2), ByteOf(v, 3)) == v
  {
    var a, b := v / 0x100, v / 0x1_0000;
    assert v == a * 0x100 + v % 0x100;
    assert a / 0x100 == b && a == b * 0x100 + a % 0x100;
    assert b / 0x100 == v / 0x100_0000 && b == b / 0x100 * 0x100 + b % 0x100;
  }

  lemma BytesOfWord(b0: byte, b1: byte, b2: byte, b3: byte)
    ensures var v := Word(b0, b1, b2, b3);
            ByteOf(v, 0) == b0 && ByteOf(v, 1) == b1 && ByteOf(v, 2) == b2 && ByteOf(v, 3) == b3
  {
    var v := Word(b0, b1, b2, b3);
    assert v / 0x100 == b0 * 0x1_0000 + b1 * 0x100 + b2;
    assert v / 0x1_0000 == b0 * 0x100 + b1;
    assert v / 0x100_0000 == b0;
  }
}
