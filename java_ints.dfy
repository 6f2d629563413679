/** Java's fixed-width integer semantics, as the driver uses them.
    A Java `byte` is a signed 8-bit two's-complement value and a Java `int`
    a signed 32-bit one; casts, `& 0xff`, `~`, `/` and `%` are written out
    here over Dafny's unbounded integers. */
module JavaInts {

  /** A Java `byte`. */
  type JByte = x: int | -0x80 <= x < 0x80

  /** A Java `int`. */
  type JInt = x: int | -0x8000_0000 <= x < 0x8000_0000

  const TwoTo32: int := 0x1_0000_0000

  /** The narrowing cast `(byte)x`: keep the low 8 bits, read them as signed. */
  function ToByte(x: int): (b: JByte)
    ensures b % 256 == x % 256
  {
    var u := x % 256;
    if u < 0x80 then u else u - 256
  }

  /** `b & 0xff`: the byte read as unsigned. */
  function Unsigned(b: JByte): (u: int)
    ensures 0 <= u < 256
    ensures ToByte(u) == b
    ensures b >= 0 ==> u == b
  {
    b % 256
  }

  /** `x & 0xff` on a Java int: the low 8 bits of its two's-complement form. */
  function LowEightBits(x: int): (u: int)
    ensures 0 <= u < 256
    ensures 0 <= x < 256 ==> u == x
  {
    x % 256
  }

  /** Java's bitwise complement `~x` on an int. */
  function BitNot(x: int): int
  {
    -x - 1
  }

  /** The result of a Java int operation whose exact value is `x`:
      the low 32 bits of `x`, read as signed. */
  function Wrap32(x: int): (r: JInt)
    ensures r % TwoTo32 == x % TwoTo32
    ensures -0x8000_0000 <= x < 0x8000_0000 ==> r == x
  {
    var m := x % TwoTo32;
    if m < 0x8000_0000 then m else m - TwoTo32
  }

  /** Java's `a / d` for a positive divisor: rounds toward zero. */
  function JavaDiv(a: int, d: int): (q: int)
    requires d > 0
    ensures a >= 0 ==> q == a / d
    ensures a < 0 ==> q == -((-a) / d)
  {
    if a >= 0 then a / d else -((-a) / d)
  }

  /** Java's `a % d` for a positive divisor: takes the sign of `a`. */
  function JavaRem(a: int, d: int): (r: int)
    requires d > 0
    ensures a >= 0 ==> r == a % d
    ensures -d < r < d
    ensures a == JavaDiv(a, d) * d + r
  {
    a - JavaDiv(a, d) * d
  }

  /** Two numbers that agree modulo 2^32 give the same Java int. */
  lemma Wrap32Congruent(x: int, y: int)
    requires x % TwoTo32 == y % TwoTo32
    ensures Wrap32(x) == Wrap32(y)
  {
  }

  /** Congruence modulo 2^32 survives shifting left by 8 bits and adding `z`:
      the step of a shift-and-add loop. */
  lemma ShiftAddCongruent(x: int, y: int, z: int)
    requires x % TwoTo32 == y % TwoTo32
    ensures (x * 256 + z) % TwoTo32 == (y * 256 + z) % TwoTo32
  {
    var k := x / TwoTo32 - y / TwoTo32;
    assert x - y == k * TwoTo32;
    assert x * 256 + z == (y * 256 + z) + (k * 256) * TwoTo32;
    ModAddMultiple(y * 256 + z, k * 256);
  }

  /** Adding a multiple of 2^32 does not change the remainder modulo 2^32. */
  lemma ModAddMultiple(a: int, k: int)
    ensures (a + k * TwoTo32) % TwoTo32 == a % TwoTo32
  {
  }

  /** One step of Java's `value = (value << 8) + u` on ints: shifting and adding
      the wrapped value wraps the exact value. */
  lemma ShiftAddWraps(x: int, u: int)
    ensures Wrap32(Wrap32(Wrap32(x) * 256) + u) == Wrap32(x * 256 + u)
  {
    ShiftAddCongruent(Wrap32(x), x, 0);
    Wrap32Congruent(Wrap32(x) * 256, x * 256);
    Wrap32Congruent(Wrap32(Wrap32(x) * 256) + u, x * 256 + u);
  }
}
