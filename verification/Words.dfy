/** Fixed-width integers of the command stream, and the re-interpretations the
    writer and the reader perform on them. */
module Words {

  type byte = x: int | 0 <= x < 0x100
  type uint16 = x: int | 0 <= x < 0x1_0000
  type uint32 = x: int | 0 <= x < 0x1_0000_0000
  type uint64 = x: int | 0 <= x < 0x1_0000_0000_0000_0000
  type int32 = x: int | -0x8000_0000 <= x < 0x8000_0000

  const UINT32_MAX := 0xFFFF_FFFF
  const MAX_LENGTH := 0xFFFF

  datatype Option<+T> = None | Some(value: T)

  function Min(a: nat, b: nat): nat { if a <= b then a else b }

  /** The bit pattern of a signed word (`memcpy` into the buffer). */
  function ToWord(v: int32): (w: uint32)
    ensures ToSigned(w) == v
  {
    if v < 0 then v + 0x1_0000_0000 else v
  }

  /** The signed reading of a word (`memcpy` out of the buffer). */
  function ToSigned(w: uint32): int32
  {
    if w < 0x8000_0000 then w else w - 0x1_0000_0000
  }

  function Low(v: uint64): uint32 { v % 0x1_0000_0000 }

  function High(v: uint64): uint32 { v / 0x1_0000_0000 }

  function Join(lo: uint32, hi: uint32): (v: uint64)
    ensures Low(v) == lo && High(v) == hi
  {
    hi * 0x1_0000_0000 + lo
  }

  lemma JoinSplit(v: uint64)
    ensures Join(Low(v), High(v)) == v && Low(v) + 0x1_0000_0000 * High(v) == v
  {
  }

  datatype Color = Color(r: byte, g: byte, b: byte, a: byte)

  function PackColor(c: Color): uint32
  {
    c.r + 0x100 * c.g + 0x1_0000 * c.b + 0x100_0000 * c.a
  }

  function UnpackColor(w: uint32): Color
  {
    Color(w % 0x100, w / 0x100 % 0x100, w / 0x1_0000 % 0x100, w / 0x100_0000 % 0x100)
  }

  lemma ColorOfWord(w: uint32)
    ensures var c := UnpackColor(w); w == c.r + 0x100 * c.g + 0x1_0000 * c.b + 0x100_0000 * c.a
  {
    var x, y, z := w / 0x100, w / 0x1_0000, w / 0x100_0000;
    assert y == x / 0x100 && z == y / 0x100 && z % 0x100 == z;
    assert w == x * 0x100 + w % 0x100 && x == y * 0x100 + x % 0x100 && y == z * 0x100 + y % 0x100;
  }

  lemma ColorRoundTrip(c: Color)
    ensures UnpackColor(PackColor(c)) == c
  {
    var w := PackColor(c);
    assert w / 0x100 == c.g + 0x100 * c.b + 0x1_0000 * c.a;
    assert w / 0x1_0000 == c.b + 0x100 * c.a;
    assert w / 0x100_0000 == c.a;
  }
}
