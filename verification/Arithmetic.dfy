/** Multiplication, division and powers of two, one step at a time. */
module Arithmetic {
  import opened Common

  function Pow2(k: nat): (p: pos) {
    if k == 0 then 1 else 2 * Pow2(k - 1)
  }

  lemma SmallPowers()
    ensures Pow2(5) == 32 && Pow2(8) == 256 && Pow2(9) == 512
  {
    assert Pow2(3) == 8 && Pow2(6) == 64;
  }

  lemma MulAssoc(a: int, b: int, c: int)
    ensures (a * b) * c == a * (b * c)
  {
  }

  lemma MulSum(a: int, b: int, c: int)
    ensures a * (b + c) == a * b + a * c && (b + c) * a == b * a + c * a
  {
  }

  lemma MulMonotone(m: nat, a: nat, b: nat)
    requires a <= b
    ensures m * a <= m * b && a * m <= b * m
  {
  }

  lemma {:induction false} Pow2Add(a: nat, b: nat)
    ensures Pow2(a + b) == Pow2(a) * Pow2(b)
  {
    if b > 0 {
      Pow2Add(a, b - 1);
      MulAssoc(2, Pow2(a), Pow2(b - 1));
      MulAssoc(Pow2(a), 2, Pow2(b - 1));
    }
  }

  lemma ModUnique(x: nat, m: pos, d: nat, r: nat)
    requires x == m * d + r && r < m
    ensures x % m == r && x / m == d
  {
    var e := x / m;
    assert x == m * e + x % m;
    if d > e {
      MulSum(m, e, 1);
      MulMonotone(m, e + 1, d);
    } else if d < e {
      MulSum(m, d, 1);
      MulMonotone(m, d + 1, e);
    }
  }

  lemma ModSmall(x: nat, m: pos)
    ensures x % m == x <==> x < m
  {
    if x < m { ModUnique(x, m, 0, x); }
  }

  lemma ModMod(x: nat, p: pos, m: pos)
    ensures x % (p * m) % p == x % p
  {
    var d, y := x / (p * m), x % (p * m);
    assert x == (p * m) * d + y;
    MulAssoc(p, m, d);
    ModShift(y, p, m * d);
  }

  lemma ModShift(y: nat, p: pos, d: nat)
    ensures (p * d + y) % p == y % p
  {
    var e, r := y / p, y % p;
    assert y == p * e + r;
    MulSum(p, d, e);
    ModUnique(p * d + y, p, d + e, r);
  }
}
