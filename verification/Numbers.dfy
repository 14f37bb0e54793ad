/** Fixed-width integers as Go uses them, and the big-endian byte order of the frame. */
module Numbers {

  const TWO_32: int := 0x1_0000_0000
  const TWO_63: int := 0x8000_0000_0000_0000
  const TWO_64: int := 0x1_0000_0000_0000_0000
  const MAX_I64: int := TWO_63 - 1

  type Byte = b: int | 0 <= b < 256
  type U32 = x: int | 0 <= x < TWO_32
  type U64 = x: int | 0 <= x < TWO_64
  type I64 = x: int | -TWO_63 <= x < TWO_63

  datatype Result<+T, +E> = Ok(value: T) | Err(error: E)
  datatype Option<+T> = None | Some(value: T)

  /** The int64 a Go computation leaves behind when its exact result is `x`. */
  function Wrap64(x: int): (r: I64)
    ensures -TWO_63 <= x < TWO_63 ==> r == x
  {
    (x + TWO_63) % TWO_64 - TWO_63
  }

  /** The conversion `uint64(x)` of an int64. */
  function Unsigned(x: I64): U64 {
    if x < 0 then x + TWO_64 else x
  }

  /** The conversion `int64(x)` of a uint64. */
  function Signed(x: U64): I64 {
    if x < TWO_63 then x else x - TWO_64
  }

  function BigEndian(n: nat, width: nat): (r: seq<Byte>)
    ensures |r| == width
  {
    if width == 0 then [] else BigEndian(n / 256, width - 1) + [n % 256]
  }

  function FromBigEndian(s: seq<Byte>): nat {
    if s == [] then 0 else FromBigEndian(s[..|s| - 1]) * 256 + s[|s| - 1]
  }

  function Pow256(width: nat): (r: nat)
    ensures r > 0
  {
    if width == 0 then 1 else 256 * Pow256(width - 1)
  }

  lemma WordSizes()
    ensures Pow256(4) == TWO_32 && Pow256(8) == TWO_64
  {
    assert Pow256(2) == 0x1_0000;
    assert Pow256(4) == 256 * (256 * Pow256(2));
    assert Pow256(6) == 256 * (256 * Pow256(4));
    assert Pow256(8) == 256 * (256 * Pow256(6));
  }

  lemma {:induction false} DecodeBigEndian(n: nat, width: nat)
    requires n < Pow256(width)
    ensures FromBigEndian(BigEndian(n, width)) == n
  {
    if width == 0 {
    } else {
      DecodeBigEndian(n / 256, width - 1);
      assert BigEndian(n, width)[..width - 1] == BigEndian(n / 256, width - 1);
    }
  }

  lemma {:induction false} EncodeBigEndian(s: seq<Byte>)
    ensures FromBigEndian(s) < Pow256(|s|)
    ensures BigEndian(FromBigEndian(s), |s|) == s
  {
    if s == [] {
    } else {
      var front, last := s[..|s| - 1], s[|s| - 1];
      EncodeBigEndian(front);
      var n := FromBigEndian(front) * 256 + last;
      assert n / 256 == FromBigEndian(front) && n % 256 == last;
      assert front + [last] == s;
    }
  }

  lemma Word32(n: U32)
    ensures FromBigEndian(BigEndian(n, 4)) == n
  {
    WordSizes();
    DecodeBigEndian(n, 4);
  }

  lemma Word64(n: U64)
    ensures FromBigEndian(BigEndian(n, 8)) == n
  {
    WordSizes();
    DecodeBigEndian(n, 8);
  }

  /** The value of a four-byte field is a uint32, of an eight-byte field a uint64. */
  lemma FieldRanges(s: seq<Byte>)
    ensures |s| == 4 ==> FromBigEndian(s) < TWO_32
    ensures |s| == 8 ==> FromBigEndian(s) < TWO_64
  {
    WordSizes();
    EncodeBigEndian(s);
  }
}
