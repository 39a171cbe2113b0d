/**
 * The integer operations the helpers rely on: `BigNumber.pow` with base 2,
 * `Math.ceil(a / b)` and `Math.floor(a / b)` on exact quotients, and
 * `BigNumber.div`, which truncates toward zero.
 */
module Arithmetic {

  /** `BigNumber.from(2).pow(n)`. */
  function Pow2(n: nat): (r: nat)
    ensures r >= 1
  {
    if n == 0 then 1 else 2 * Pow2(n - 1)
  }

  lemma {:induction false} Pow2Add(a: nat, b: nat)
    ensures Pow2(a + b) == Pow2(a) * Pow2(b)
  {
    if a > 0 {
      Pow2Add(a - 1, b);
      calc {
        Pow2(a + b);
        2 * Pow2(a - 1 + b);
        2 * (Pow2(a - 1) * Pow2(b));
        (2 * Pow2(a - 1)) * Pow2(b);
      }
    }
  }

  /** `2^128`, the modulus of `uint128`, as a decimal value (and `2^32` on the way). */
  lemma Pow2Of128()
    ensures Pow2(32) == 4294967296
    ensures Pow2(128) == 340282366920938463463374607431768211456
  {
    assert Pow2(2) == 4;
    Pow2Add(2, 2);
    assert Pow2(4) == 16;
    Pow2Add(4, 4);
    assert Pow2(8) == 256;
    Pow2Add(8, 8);
    assert Pow2(16) == 65536;
    Pow2Add(16, 16);
    assert Pow2(32) == 4294967296;
    Pow2Add(32, 32);
    assert Pow2(64) == 18446744073709551616;
    Pow2Add(64, 64);
  }

  /** `2^160`, the modulus of `uint160`, as a decimal value. */
  lemma Pow2Of160()
    ensures Pow2(160) == 1461501637330902918203684832716283019655932542976
  {
    Pow2Of128();
    Pow2Add(128, 32);
  }

  /** `x <= y` is preserved by multiplying both sides by a positive `b`. */
  lemma MulMonotonic(x: int, y: int, b: int)
    requires b > 0 && x <= y
    ensures x * b <= y * b
  {
    assert y * b - x * b == (y - x) * b;
  }

  /** A multiple of `b` leaves no remainder, and dividing it by `b` gives back `q`. */
  lemma MultipleMod(q: int, b: int)
    requires b > 0
    ensures (q * b) % b == 0 && (q * b) / b == q
  {
    var d, r := (q * b) / b, (q * b) % b;
    assert (q - d) * b == r;
    if q - d >= 1 {
      MulMonotonic(1, q - d, b);
    } else if q - d <= -1 {
      MulMonotonic(q - d, -1, b);
    }
  }

  /** `Math.floor(a / b)` for integers `a` and a positive integer `b`. */
  function FloorDiv(a: int, b: int): (q: int)
    requires b > 0
    ensures q * b <= a < q * b + b
  {
    a / b
  }

  /** `Math.ceil(a / b)` for integers `a` and a positive integer `b`. */
  function CeilDiv(a: int, b: int): (q: int)
    requires b > 0
    ensures q * b - b < a <= q * b
  {
    -FloorDiv(-a, b)
  }

  /** Every integer `m` whose multiple `m * b` is at least `a` is at least `CeilDiv(a, b)`. */
  lemma CeilDivIsLeast(a: int, b: int, m: int)
    requires b > 0 && a <= m * b
    ensures CeilDiv(a, b) <= m
  {
    var q := CeilDiv(a, b);
    if m <= q - 1 {
      MulMonotonic(m, q - 1, b);
    }
  }

  /** Every integer `m` whose multiple `m * b` is at most `a` is at most `FloorDiv(a, b)`. */
  lemma FloorDivIsGreatest(a: int, b: int, m: int)
    requires b > 0 && m * b <= a
    ensures m <= FloorDiv(a, b)
  {
    var q := FloorDiv(a, b);
    if q + 1 <= m {
      MulMonotonic(q + 1, m, b);
    }
  }

  /** `BigNumber.div`: the quotient rounded toward zero. */
  function TruncDiv(a: int, b: int): (q: int)
    requires b > 0
    ensures a >= 0 ==> 0 <= q * b <= a < q * b + b
    ensures a < 0 ==> a <= q * b <= 0 && q * b - b < a
  {
    if a >= 0 then
      var f := FloorDiv(a, b);
      assert 0 <= f by {
        if f < 0 { MulMonotonic(f, -1, b); }
      }
      assert 0 <= f * b by { MulMonotonic(0, f, b); }
      f
    else
      var f := FloorDiv(-a, b);
      assert 0 <= f * b by {
        if f < 0 { MulMonotonic(f, -1, b); }
        MulMonotonic(0, f, b);
      }
      assert (-f) * b == -(f * b);
      -f
  }
}
