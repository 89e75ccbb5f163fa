/** Go's `int64`: two's-complement arithmetic that wraps around modulo 2^64. */
module Int64 {

  const Modulus: int := 0x1_0000_0000_0000_0000
  const Min: int := -0x8000_0000_0000_0000
  const Max: int := 0x7fff_ffff_ffff_ffff

  type int64 = x: int | -0x8000_0000_0000_0000 <= x <= 0x7fff_ffff_ffff_ffff

  /** The int64 that a mathematical integer wraps around to. */
  function Wrap(x: int): (r: int64)
    ensures (x - r) % Modulus == 0
    ensures Min <= x <= Max ==> r == x
  {
    var k := (x - Min) / Modulus;
    assert x - Min == k * Modulus + (x - Min) % Modulus;
    (x - Min) % Modulus + Min
  }

  function Add(a: int64, b: int64): (r: int64)
    ensures (a + b - r) % Modulus == 0
    ensures Min <= a + b <= Max ==> r == a + b
  {
    Wrap(a + b)
  }

  function Sub(a: int64, b: int64): (r: int64)
    ensures (a - b - r) % Modulus == 0
    ensures Min <= a - b <= Max ==> r == a - b
  {
    Wrap(a - b)
  }

  function Mul(a: int64, b: int64): (r: int64)
    ensures (a * b - r) % Modulus == 0
    ensures Min <= a * b <= Max ==> r == a * b
  {
    Wrap(a * b)
  }

  /** Unary minus; -Min wraps back to Min. */
  function Neg(a: int64): (r: int64)
    ensures a != Min ==> r == -a
    ensures a == Min ==> r == Min
  {
    Wrap(0 - a as int)
  }

  function Abs(x: int): nat {
    if x < 0 then -x else x
  }

  /** Division that truncates toward zero, as Go's `/` does. */
  function TruncDiv(a: int, b: int): (q: int)
    requires b != 0
    ensures Abs(a - q * b) < Abs(b)
    ensures a - q * b == 0 || (a - q * b < 0 <==> a < 0)
  {
    var m := Abs(a) / Abs(b);
    var q := if (a < 0) == (b < 0) then m else -m;
    TruncDivRemainder(a, b, m, q);
    q
  }

  lemma TruncDivRemainder(a: int, b: int, m: int, q: int)
    requires b != 0 && m == Abs(a) / Abs(b)
    requires q == if (a < 0) == (b < 0) then m else -m
    ensures a - q * b == (if a < 0 then -(Abs(a) % Abs(b)) else Abs(a) % Abs(b))
  {
    var x, y := Abs(a), Abs(b);
    assert x == m * y + x % y;
    if b < 0 {
      assert q * b == -(q * y);
    }
  }

  /** Go's int64 `/`: truncating; the one overflowing quotient, Min / -1, wraps to Min.
      Division by zero is a run-time panic in Go, so callers rule it out. */
  function Div(a: int64, b: int64): (r: int64)
    requires b != 0
    ensures a != Min || b != -1 ==> r == TruncDiv(a, b)
    ensures a == Min && b == -1 ==> r == Min
  {
    var q := TruncDiv(a, b);
    assert a != Min || b != -1 ==> Min <= q <= Max by {
      if a != Min || b != -1 {
        TruncDivBounds(a, b);
      }
    }
    Wrap(q)
  }

  lemma TruncDivBounds(a: int64, b: int64)
    requires b != 0 && (a != Min || b != -1)
    ensures Min <= TruncDiv(a, b) <= Max
  {
    var x, y := Abs(a), Abs(b);
    var m := x / y;
    assert x == m * y + x % y;
    MulAtLeast(m, y, 1);
    if y > 1 {
      MulAtLeast(m, y, 2);
    }
  }

  lemma MulAtLeast(m: nat, y: nat, z: nat)
    requires y >= z
    ensures m * y >= m * z
  {
    assert m * y == m * z + m * (y - z);
  }
}
