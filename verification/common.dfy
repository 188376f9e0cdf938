/** Fixed-width integers, bytes and the Option wrapper shared by every module. */
module Common {

  /** Some value, or nothing (a null pointer, a failed library call). */
  datatype Option<T> = None | Some(value: T)

  const UINT32_MODULUS: int := 0x1_0000_0000
  const INT32_MAX: int := 0x7fff_ffff

  type uint32 = x: int | 0 <= x < 0x1_0000_0000
  type uint8 = x: int | 0 <= x < 0x100
  type int32 = x: int | -0x8000_0000 <= x < 0x8000_0000

  /** One byte of raw PCM data. */
  type Byte = uint8

  /** C++ conversion of an integer to `uint32_t`: reduction modulo 2^32. */
  function ToUint32(x: int): (r: uint32)
    ensures 0 <= x < UINT32_MODULUS ==> r == x
    ensures (r - x) % UINT32_MODULUS == 0
  {
    x % UINT32_MODULUS
  }

  /** C++ conversion of an integer to `uint8_t`: reduction modulo 2^8. */
  function ToUint8(x: int): (r: uint8)
    ensures 0 <= x < 0x100 ==> r == x
    ensures (r - x) % 0x100 == 0
  {
    x % 0x100
  }

  /** Conversion of a container size to `int` (two's complement wrap-around). */
  function ToInt32(n: nat): (r: int32)
    ensures n <= INT32_MAX ==> r == n
    ensures (r - n) % UINT32_MODULUS == 0
  {
    var w := n % UINT32_MODULUS;
    if w <= INT32_MAX then w else w - UINT32_MODULUS
  }

  // ---------------------------------------------------------------------------
  // Arithmetic facts shared by the modules

  lemma MulMonotone(a: nat, b: nat, c: nat)
    requires a <= b
    ensures a * c <= b * c
  {
  }

  /** Euclidean division is determined by any quotient/remainder pair. */
  lemma DivUnique(n: int, d: int, q: int, r: int)
    requires d > 0 && 0 <= r < d && n == d * q + r
    ensures n / d == q
  {
    var x := q - n / d;
    assert d * x == n % d - r;
    if x >= 1 {
      MulMonotone(1, x, d);
      assert false;
    }
  }

  /** Dividing twice is dividing by the product. */
  lemma DivDiv(n: nat, a: nat, b: nat)
    requires a >= 1 && b >= 1
    ensures (n / a) / b == n / (a * b)
  {
    var q := n / a;
    var r := n % a;
    var q2 := q / b;
    var r2 := q % b;
    assert n == a * q + r;
    assert q == b * q2 + r2;
    assert a * q == a * (b * q2) + a * r2;
    assert a * (b * q2) == (a * b) * q2;
    MulMonotone(r2, b - 1, a);
    assert (b - 1) * a == a * b - a;
    DivUnique(n, a * b, q2, a * r2 + r);
  }
}
