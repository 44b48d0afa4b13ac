/** Fixed-width C integer types and the bit-level conversions the drivers
    perform on them, each tied to its arithmetic meaning. */
module CTypes {

  /** `__u8`: arithmetic on it wraps modulo 2^8, as a store into a C byte does. */
  type byte = bv8

  /** The byte holding the value `n`, as a store of `n` into a `__u8`
      keeps it when it is below 256. */
  function ByteOf(n: nat): (b: byte)
    requires n < 0x100
    ensures b as int == n
  {
    if n == 0 then 0 else ByteOf(n - 1) + 1
  }

  /** Two bytes with the same value are the same byte. */
  lemma ByteInjective(x: byte, y: byte)
    requires x as int == y as int
    ensures x == y
  {
  }

  /** `ByteOf` gives back the byte whose value it is passed. */
  lemma ByteOfCast(b: byte)
    ensures ByteOf(b as int) == b
  {
    ByteInjective(ByteOf(b as int), b);
  }

  /** The value fits a C `__s32`. */
  predicate InS32(x: int) {
    -0x8000_0000 <= x < 0x8000_0000
  }

  /** C's `/` on integers: the quotient truncated toward zero (Dafny's own
      `/` is Euclidean and differs for a negative dividend). */
  function CDiv(a: int, d: int): (q: int)
    requires d > 0
    ensures a >= 0 ==> 0 <= a - q * d < d
    ensures a < 0 ==> -d < a - q * d <= 0
  {
    if a >= 0 then a / d else -((-a) / d)
  }

  /** An arithmetic right shift by k bits of a signed value, as the
      Bosch reference code writes it: division by 2^k rounded toward minus
      infinity. */
  function FloorDiv(a: int, d: int): (q: int)
    requires d > 0
    ensures 0 <= a - q * d < d
  {
    a / d
  }

  /** The two's-complement reading of a byte, as the cast `(__s8)` gives it:
      the one value in the signed range congruent to `b` modulo 2^8. */
  function ToS8(b: byte): (r: int)
    ensures -0x80 <= r < 0x80
    ensures r % 0x100 == b as int
  {
    var v := b as int;
    if v < 0x80 then v else v - 0x100
  }

  /** The two's-complement reading of a 16-bit word, as the cast `(__s16)`
      gives it. */
  function ToS16(u: bv16): (r: int)
    ensures -0x8000 <= r < 0x8000
    ensures r % 0x1_0000 == u as int
  {
    var v := u as int;
    if v < 0x8000 then v else v - 0x1_0000
  }

  /** `__u16(b0) << 8 | __u16(b1)`: big-endian assembly of two bytes. */
  function BigEndian16(b0: byte, b1: byte): (r: bv16)
    ensures r as int == b0 as int * 0x100 + b1 as int
  {
    ShiftOrIsSum16(b0, b1);
    ((b0 as bv16) << 8) | (b1 as bv16)
  }

  lemma ShiftOrIsSum16(b0: byte, b1: byte)
    ensures ((b0 as bv16) << 8) | (b1 as bv16) == (b0 as bv16) * 0x100 + (b1 as bv16)
    ensures ((b0 as bv16) * 0x100 + (b1 as bv16)) as int == b0 as int * 0x100 + b1 as int
  {
  }

  /** `__u32(b0) << 16 | __u32(b1) << 8 | __u32(b2)`: big-endian assembly of
      three bytes; the result never reaches 2^24. */
  function BigEndian24(b0: byte, b1: byte, b2: byte): (r: bv32)
    ensures r as int == b0 as int * 0x1_0000 + b1 as int * 0x100 + b2 as int
    ensures r as int < 0x100_0000
  {
    var r := ((b0 as bv32) << 16) | ((b1 as bv32) << 8) | (b2 as bv32);
    assert r == (b0 as bv32) * 0x1_0000 + (b1 as bv32) * 0x100 + (b2 as bv32);
    r
  }

  /** The high and the low byte of a 16-bit word. */
  function High(t: bv16): byte { (t >> 8) as byte }
  function Low(t: bv16): byte { (t & 0xFF) as byte }

  lemma SplitWord(t: bv16)
    ensures BigEndian16(High(t), Low(t)) == t
    ensures (t >> 8) | (t << 8) == BigEndian16(Low(t), High(t))
  {
  }

  /** `(t >> 8) | (t << 8)` truncated back to `__u16`: exchanges the two
      bytes of a 16-bit word. */
  function Swap16(t: bv16): (r: bv16)
    ensures r as int == (t as int % 0x100) * 0x100 + t as int / 0x100
  {
    SplitWord(t);
    WordBytes(t);
    (t >> 8) | (t << 8)
  }

  /** The high and the low byte of a word are its quotient and remainder
      by 2^8. */
  lemma WordBytes(t: bv16)
    ensures High(t) as int == t as int / 0x100 && Low(t) as int == t as int % 0x100
  {
    SplitWord(t);
    var x, h, l := t as int, High(t) as int, Low(t) as int;
    assert x == h * 0x100 + l && 0 <= l < 0x100;
  }

  /** Exchanging the bytes of a big-endian word gives the little-endian
      reading of the same two bytes. */
  lemma SwapOfBigEndian(b0: byte, b1: byte)
    ensures Swap16(BigEndian16(b0, b1)) == BigEndian16(b1, b0)
  {
  }

  /** Exchanging the bytes twice gives the word back. */
  lemma SwapSwap(t: bv16)
    ensures Swap16(Swap16(t)) == t
  {
  }
}
