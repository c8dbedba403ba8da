/**
 * Fixed-width integer types and the C conversions the firmware relies on.
 * Dafny integers are unbounded, so every narrowing cast, wrap-around and
 * truncating division of the C++ code is written out with these helpers.
 */
module Ints {
  type uint8 = x: int | 0 <= x < 0x100
  type uint16 = x: int | 0 <= x < 0x1_0000
  type int16 = x: int | -0x8000 <= x < 0x8000
  type uint32 = x: int | 0 <= x < 0x1_0000_0000
  type int32 = x: int | -0x8000_0000 <= x < 0x8000_0000

  const INT16_MIN: int := -0x8000
  const INT16_MAX: int := 0x7FFF
  const UINT16_MAX: int := 0xFFFF
  const INT32_MIN: int := -0x8000_0000
  const INT32_MAX: int := 0x7FFF_FFFF

  datatype Option<T> = None | Some(value: T)

  /** `(int16_t)x`: keep the low 16 bits, read as two's complement. */
  function ToInt16(x: int): (r: int16)
    ensures INT16_MIN <= x <= INT16_MAX ==> r == x
    ensures (x - r) % 0x1_0000 == 0
  {
    var m := x % 0x1_0000;
    if m >= 0x8000 then m - 0x1_0000 else m
  }

  /** `(uint16_t)x`: keep the low 16 bits. */
  function ToUint16(x: int): (r: uint16)
    ensures 0 <= x <= UINT16_MAX ==> r == x
    ensures (x - r) % 0x1_0000 == 0
  {
    x % 0x1_0000
  }

  /** `(int32_t)x`: keep the low 32 bits, read as two's complement. */
  function ToInt32(x: int): (r: int32)
    ensures INT32_MIN <= x <= INT32_MAX ==> r == x
    ensures (x - r) % 0x1_0000_0000 == 0
  {
    var m := x % 0x1_0000_0000;
    if m >= 0x8000_0000 then m - 0x1_0000_0000 else m
  }

  /** `(uint32_t)x`: keep the low 32 bits. */
  function ToUint32(x: int): (r: uint32)
    ensures 0 <= x < 0x1_0000_0000 ==> r == x
    ensures (x - r) % 0x1_0000_0000 == 0
  {
    x % 0x1_0000_0000
  }

  /** A 32-bit value survives the round trip through its unsigned bit pattern. */
  lemma Int32OfUint32(v: int32)
    ensures ToInt32(ToUint32(v)) == v
  {
    if v < 0 {
      assert ToUint32(v) == v + 0x1_0000_0000;
    }
  }

  function Abs(x: int): nat { if x < 0 then -x else x }

  /**
   * C and C++ integer division, which truncates toward zero (Dafny's `/`
   * is Euclidean and differs for a negative dividend).
   */
  function CDiv(a: int, b: int): (q: int)
    requires b != 0
    ensures a >= 0 && b > 0 ==> q == a / b
    ensures a < 0 && b > 0 ==> q == -((-a) / b)
  {
    var m := Abs(a) / Abs(b);
    if (a < 0) != (b < 0) then -m else m
  }

  function Min(a: int, b: int): int { if a < b then a else b }
  function Max(a: int, b: int): int { if a < b then b else a }

  /** The `n` low bytes of `x`, least significant first (little-endian). */
  function LittleEndian(x: int, n: nat): (r: seq<uint8>)
    ensures |r| == n
    decreases n
  {
    if n == 0 then [] else [x % 0x100] + LittleEndian(x / 0x100, n - 1)
  }

  lemma MulMono(a: int, b: int, c: nat)
    requires a <= b
    ensures a * c <= b * c
  {
    var d := b - a;
    assert b * c == a * c + d * c;
  }

  lemma DivMono(x: int, y: int, d: int)
    requires 0 < d && x <= y
    ensures x / d <= y / d
  {
    var qx, qy := x / d, y / d;
    if qx > qy {
      MulMono(qy + 1, qx, d);
    }
  }

  lemma DivOfMultiple(q: int, d: int)
    requires 0 < d
    ensures (q * d) / d == q
  {
    var q' := (q * d) / d;
    var r := (q * d) % d;
    assert q * d == d * q' + r;
    assert d * (q - q') == r;
    if q - q' >= 1 {
      MulMono(1, q - q', d);
    } else if q - q' <= -1 {
      MulMono(q - q', -1, d);
    }
  }
}
