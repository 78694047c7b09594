/** Numeric and vector helpers shared by the BiomeMapper model.
    Floats are modelled as `real`; where the engine's float behaviour matters
    (rounding to an integer, clamping, the largest float) it is written out here. */
module Common {

  /** An unsigned 8-bit value (`uint8`). */
  type byte = x: int | 0 <= x < 256

  /** `FLT_MAX`, the largest finite single-precision value: (2 - 2^-23) * 2^127. */
  const FLT_MAX: real := 340282346638528859811704183484516925440.0

  /** `FMath::Sqrt(2.0f)`: the single-precision square root of 2, written out exactly. */
  const Sqrt2: real := 1.41421353816986083984375

  /** `PI` as the engine defines it. */
  const Pi: real := 3.1415926535897932

  /** The largest signed 32-bit value; `TArray::Num()` is an `int32`. */
  const Int32Max: int := 0x7FFF_FFFF

  /** A cosine whose values are unknown except that they lie in [-1, 1]. */
  type Cosine = f: real -> real | forall x :: -1.0 <= f(x) <= 1.0 witness (x: real) => 0.0

  datatype Option<T> = None | Some(value: T)

  datatype Vec2 = Vec2(x: real, y: real)

  datatype Vec3 = Vec3(x: real, y: real, z: real)

  /** `FColor`: red, green, blue and alpha bytes. */
  datatype Color = Color(r: byte, g: byte, b: byte, a: byte)

  /** `FColor::Black`. */
  const Black: Color := Color(0, 0, 0, 255)

  const ZeroVec2: Vec2 := Vec2(0.0, 0.0)

  const ZeroVec3: Vec3 := Vec3(0.0, 0.0, 0.0)

  /** `FMath::Clamp`, which the engine writes as `X < Min ? Min : X < Max ? X : Max`. */
  function Clamp(x: real, lo: real, hi: real): (r: real)
    ensures lo <= hi ==> lo <= r <= hi
    ensures lo <= x <= hi ==> r == x
    ensures x < lo ==> r == lo
    ensures lo <= x && hi <= x ==> r == hi
  {
    if x < lo then lo else if x < hi then x else hi
  }

  /** `FMath::Clamp` on integers. */
  function ClampInt(x: int, lo: int, hi: int): (r: int)
    ensures lo <= hi ==> lo <= r <= hi
    ensures lo <= x <= hi ==> r == x
  {
    if x < lo then lo else if x < hi then x else hi
  }

  function Max(a: real, b: real): (r: real)
    ensures r >= a && r >= b && (r == a || r == b)
  {
    if a >= b then a else b
  }

  function Abs(a: real): (r: real)
    ensures r >= 0.0 && (r == a || r == -a)
  {
    if a < 0.0 then -a else a
  }

  /** `FMath::RoundToInt`: the nearest integer, halves rounded up. */
  function RoundToInt(x: real): (r: int)
    ensures r as real <= x + 0.5 < r as real + 1.0
  {
    (x + 0.5).Floor
  }

  /** A C++ cast from float to integer, which truncates toward zero. */
  function TruncToInt(x: real): (r: int)
    ensures x >= 0.0 ==> r as real <= x < r as real + 1.0
    ensures x < 0.0 ==> r as real - 1.0 < x <= r as real
  {
    if x >= 0.0 then x.Floor else -((-x).Floor)
  }

  /** `static_cast<uint8>` of a value already clamped into [0, 255]. */
  function ToByte(x: real): (r: byte)
    requires 0.0 <= x <= 255.0
    ensures r as real <= x < r as real + 1.0
  {
    x.Floor
  }

  /** `FMath::DegreesToRadians`. */
  function DegreesToRadians(d: real): real
  {
    d * (Pi / 180.0)
  }

  function Dot(a: Vec2, b: Vec2): real
  {
    a.x * b.x + a.y * b.y
  }

  /** `%d` of a non-negative integer: its decimal digits, most significant first. */
  function NatToString(n: nat): (s: string)
    ensures |s| > 0
    ensures forall i :: 0 <= i < |s| ==> '0' <= s[i] <= '9'
  {
    if n < 10 then [Digit(n)] else NatToString(n / 10) + [Digit(n % 10)]
  }

  function Digit(d: nat): (c: char)
    requires d < 10
    ensures '0' <= c <= '9'
  {
    ['0', '1', '2', '3', '4', '5', '6', '7', '8', '9'][d]
  }
}
