/**
 * The C# `int` type: 32-bit two's-complement integers whose arithmetic wraps
 * around (the compiler's default `unchecked` context), and C#'s `/`, which
 * truncates toward zero whereas Dafny's `/` is Euclidean.
 */
module Int32 {

  const Min: int := -0x8000_0000
  const Max: int := 0x7FFF_FFFF
  const Modulus: int := 0x1_0000_0000

  type int32 = x: int | Min <= x <= Max

  /** The 32-bit value congruent to `x` modulo 2^32. */
  function Wrap(x: int): (r: int32)
    ensures (x - r) % Modulus == 0
    ensures Min <= x <= Max ==> r == x
  {
    var r := (x - Min) % Modulus + Min;
    assert x - r == Modulus * ((x - Min) / Modulus);
    r
  }

  /** `a + b` on C# ints. */
  function Add(a: int32, b: int32): (r: int32)
    ensures Min <= a + b <= Max ==> r == a + b
    ensures a + b > Max ==> r == a + b - Modulus
    ensures a + b < Min ==> r == a + b + Modulus
  {
    Wrap(a + b)
  }

  /** `a - b` on C# ints. */
  function Sub(a: int32, b: int32): (r: int32)
    ensures Min <= a - b <= Max ==> r == a - b
    ensures a - b > Max ==> r == a - b - Modulus
    ensures a - b < Min ==> r == a - b + Modulus
  {
    Wrap(a - b)
  }

  /** `a * b` on C# ints. */
  function Mul(a: int32, b: int32): (r: int32)
    ensures Min <= a * b <= Max ==> r == a * b
    ensures (a * b - r) % Modulus == 0
  {
    Wrap(a * b)
  }

  /** C#'s integer `/` for a positive divisor: the quotient truncated toward zero. */
  function Quot(a: int, b: int): (q: int)
    requires b > 0
    ensures a >= 0 ==> q * b <= a < q * b + b
    ensures a < 0 ==> q * b - b < a <= q * b
  {
    if a >= 0 then
      assert a == b * (a / b) + a % b;
      a / b
    else
      assert -a == b * ((-a) / b) + (-a) % b;
      -((-a) / b)
  }

  /** Subtraction undoes addition, wrap-around included. */
  lemma {:induction false} AddSub(a: int32, b: int32)
    ensures Sub(Add(a, b), b) == a
  {
  }

  /** Addition undoes subtraction, wrap-around included. */
  lemma {:induction false} SubAdd(a: int32, b: int32)
    ensures Add(b, Sub(a, b)) == a
  {
  }
}
