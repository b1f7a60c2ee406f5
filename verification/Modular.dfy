/** Modular arithmetic as the big-integer wrapper offers it: multiplication, exponentiation
    and inversion modulo a number, with the laws the protocols above it rely on. */
module Modular {

  predicate Divides(d: int, n: int)
    requires d > 0
  {
    n % d == 0
  }

  ghost predicate Prime(q: int) {
    q >= 2 && forall d :: 1 < d < q ==> !Divides(d, q)
  }

  /** a and b leave the same remainder modulo m. */
  predicate Cong(a: int, b: int, m: int)
    requires m > 0
  {
    a % m == b % m
  }

  function Mul(a: int, b: int, m: int): (r: nat)
    requires m > 0
    ensures r < m
  {
    (a * b) % m
  }

  /** b^e mod m, for the non-negative exponents the callers pass. */
  function Pow(b: int, e: nat, m: int): (r: nat)
    requires m > 0
    ensures r < m
  {
    if e == 0 then 1 % m else Mul(b, Pow(b, e - 1, m), m)
  }

  // ----- remainders -----

  lemma QuotientUnique(m: int, k: int, r: int)
    requires m > 0 && 0 <= r < m
    ensures (k * m + r) % m == r && (k * m + r) / m == k
  {
    var n := k * m + r;
    var d := n / m;
    assert n == d * m + n % m;
    assert (k - d) * m == n % m - r;
    if k - d >= 1 {
      MulAtLeast(k - d, m);
    } else if d - k >= 1 {
      MulAtLeast(d - k, m);
    }
  }

  lemma MulAtLeast(a: int, m: int)
    requires a >= 1 && m > 0
    ensures a * m >= m
  {
  }

  /** Equal remainders mean the difference is a multiple, and conversely. */
  lemma CongByQuotient(a: int, b: int, k: int, m: int)
    requires m > 0 && a == b + k * m
    ensures Cong(a, b, m)
  {
    var d, r := b / m, b % m;
    assert a == (d + k) * m + r;
    QuotientUnique(m, d + k, r);
  }

  lemma CongWitness(a: int, b: int, m: int) returns (k: int)
    requires m > 0 && Cong(a, b, m)
    ensures a == b + k * m
  {
    k := a / m - b / m;
    assert a == (a / m) * m + a % m;
    assert b == (b / m) * m + b % m;
  }

  lemma CongAdd(a: int, b: int, c: int, d: int, m: int)
    requires m > 0 && Cong(a, b, m) && Cong(c, d, m)
    ensures Cong(a + c, b + d, m) && Cong(a - c, b - d, m)
  {
    var k := CongWitness(a, b, m);
    var l := CongWitness(c, d, m);
    assert a + c == b + d + (k + l) * m;
    assert a - c == b - d + (k - l) * m;
    CongByQuotient(a + c, b + d, k + l, m);
    CongByQuotient(a - c, b - d, k - l, m);
  }

  lemma CongMul(a: int, b: int, c: int, d: int, m: int)
    requires m > 0 && Cong(a, b, m) && Cong(c, d, m)
    ensures Cong(a * c, b * d, m)
  {
    var k := CongWitness(a, b, m);
    var l := CongWitness(c, d, m);
    calc {
      a * c;
      (b + k * m) * (d + l * m);
      b * d + b * (l * m) + (k * m) * d + (k * m) * (l * m);
      b * d + (b * l + k * d + (k * m) * l) * m;
    }
    CongByQuotient(a * c, b * d, b * l + k * d + (k * m) * l, m);
  }

  lemma ModSmall(a: int, m: int)
    requires 0 <= a < m
    ensures a % m == a
  {
    QuotientUnique(m, 0, a);
  }

  lemma CongMod(a: int, m: int)
    requires m > 0
    ensures Cong(a % m, a, m)
  {
    ModSmall(a % m, m);
  }

  lemma CongMultiple(a: int, k: int, m: int)
    requires m > 0
    ensures Cong(a + k * m, a, m)
  {
    CongByQuotient(a + k * m, a, k, m);
  }

  // ----- multiplication -----

  lemma MulCong(a: int, b: int, c: int, d: int, m: int)
    requires m > 0 && Cong(a, b, m) && Cong(c, d, m)
    ensures Mul(a, c, m) == Mul(b, d, m)
  {
    CongMul(a, b, c, d, m);
  }

  lemma MulComm(a: int, b: int, m: int)
    requires m > 0
    ensures Mul(a, b, m) == Mul(b, a, m)
  {
    assert a * b == b * a;
  }

  lemma MulAssoc(a: int, b: int, c: int, m: int)
    requires m > 0
    ensures Mul(Mul(a, b, m), c, m) == Mul(a, Mul(b, c, m), m) == (a * b * c) % m
  {
    CongMod(a * b, m);
    CongMul(Mul(a, b, m), a * b, c, c, m);
    CongMod(b * c, m);
    CongMul(a, a, Mul(b, c, m), b * c, m);
    assert a * (b * c) == a * b * c;
  }

  lemma MulOne(a: int, m: int)
    requires m > 0
    ensures Mul(1, a, m) == Mul(a, 1, m) == a % m
    ensures Mul(1 % m, a, m) == Mul(a, 1 % m, m) == a % m
  {
    CongMod(1, m);
    MulCong(1 % m, 1, a, a, m);
    MulComm(1 % m, a, m);
  }

  lemma MulSwap(a: int, b: int, c: int, d: int, m: int)
    requires m > 0
    ensures Mul(Mul(a, b, m), Mul(c, d, m), m) == Mul(Mul(a, c, m), Mul(b, d, m), m)
  {
    CongMod(a * b, m);
    CongMod(c * d, m);
    CongMod(a * c, m);
    CongMod(b * d, m);
    CongMul(Mul(a, b, m), a * b, Mul(c, d, m), c * d, m);
    CongMul(Mul(a, c, m), a * c, Mul(b, d, m), b * d, m);
    assert (a * b) * (c * d) == (a * c) * (b * d) by { SwapProduct(a, b, c, d); }
  }

  lemma SwapProduct(a: int, b: int, c: int, d: int)
    ensures (a * b) * (c * d) == (a * c) * (b * d)
  {
    assert (a * b) * (c * d) == a * (b * (c * d));
    assert b * (c * d) == c * (b * d);
    assert a * (c * (b * d)) == (a * c) * (b * d);
  }

  // ----- exponentiation -----

  lemma {:induction false} PowAdd(b: int, e: nat, f: nat, m: int)
    requires m > 0
    ensures Pow(b, e + f, m) == Mul(Pow(b, e, m), Pow(b, f, m), m)
  {
    if e == 0 {
      MulOne(Pow(b, f, m), m);
      ModSmall(Pow(b, f, m), m);
    } else {
      PowAdd(b, e - 1, f, m);
      assert e + f - 1 == e - 1 + f;
      MulAssoc(b, Pow(b, e - 1, m), Pow(b, f, m), m);
    }
  }

  lemma {:induction false} PowProduct(a: int, b: int, e: nat, m: int)
    requires m > 0
    ensures Pow(Mul(a, b, m), e, m) == Mul(Pow(a, e, m), Pow(b, e, m), m)
  {
    if e == 0 {
      MulOne(1 % m, m);
      ModSmall(1 % m, m);
    } else {
      PowProduct(a, b, e - 1, m);
      MulSwap(a, b, Pow(a, e - 1, m), Pow(b, e - 1, m), m);
    }
  }

  lemma {:induction false} PowPow(b: int, e: nat, f: nat, m: int)
    requires m > 0
    ensures 0 <= e * f && Pow(Pow(b, e, m), f, m) == Pow(b, e * f, m)
  {
    if f == 0 {
      assert e * f == 0;
    } else {
      PowPow(b, e, f - 1, m);
      assert e * f == e + e * (f - 1);
      PowAdd(b, e, e * (f - 1), m);
    }
  }

  lemma {:induction false} PowOne(e: nat, m: int)
    requires m > 0
    ensures Pow(1, e, m) == Pow(1 % m, e, m) == 1 % m
  {
    if e > 0 {
      PowOne(e - 1, m);
      MulOne(1 % m, m);
      ModSmall(1 % m, m);
    }
  }

  lemma {:induction false} PowBaseMod(b: int, e: nat, m: int)
    requires m > 0
    ensures Pow(b % m, e, m) == Pow(b, e, m)
  {
    if e > 0 {
      PowBaseMod(b, e - 1, m);
      CongMod(b, m);
      MulCong(b % m, b, Pow(b, e - 1, m), Pow(b, e - 1, m), m);
    }
  }

  // ----- inverses -----

  /** The least r from `from` on with a * r = 1 modulo m, or 0 when there is none. */
  function SearchInverse(a: int, m: int, from: nat): (r: nat)
    requires m > 1 && from >= 1
    ensures r != 0 ==> from <= r < m && Mul(a, r, m) == 1
    ensures r == 0 ==> forall x :: from <= x < m ==> Mul(a, x, m) != 1
    decreases m - from
  {
    if from >= m then 0
    else if Mul(a, from, m) == 1 then from
    else SearchInverse(a, m, from + 1)
  }

  /** Integer::Inverse: 0 stands for "not invertible". */
  function Inverse(a: int, m: int): (r: nat)
    requires m > 1
    ensures r < m
    ensures r != 0 ==> Mul(a, r, m) == 1
    ensures r == 0 ==> forall x :: 0 <= x < m ==> Mul(a, x, m) != 1
  {
    SearchInverse(a, m, 1)
  }

  lemma InverseUnique(a: int, x: int, y: int, m: int)
    requires m > 1 && Mul(a, x, m) == 1 && Mul(a, y, m) == 1
    ensures Cong(x, y, m)
  {
    calc {
      x % m;
      { MulOne(x, m); }
      Mul(1, x, m);
      Mul(Mul(a, y, m), x, m);
      { MulComm(a, y, m); MulAssoc(y, a, x, m); }
      Mul(y, Mul(a, x, m), m);
      { MulOne(y, m); }
      y % m;
    }
  }

  lemma InverseIs(a: int, x: int, m: int)
    requires m > 1 && Mul(a, x, m) == 1
    ensures Inverse(a, m) == x % m && Mul(a, Inverse(a, m), m) == 1
  {
    CongMod(x, m);
    MulCong(a, a, x % m, x, m);
    var r := Inverse(a, m);
    assert r != 0 by {
      assert Mul(a, x % m, m) == 1;
    }
    InverseUnique(a, x, r, m);
    ModSmall(r, m);
  }

  /** Bezout's identity, by the Euclidean algorithm. */
  lemma {:induction false} Bezout(a: nat, b: nat) returns (x: int, y: int, g: nat)
    requires a > 0
    ensures a * x + b * y == g && g > 0 && a % g == 0 && b % g == 0
    decreases b
  {
    if b == 0 {
      x, y, g := 1, 0, a;
      QuotientUnique(a, 1, 0);
      QuotientUnique(a, 0, 0);
    } else {
      var q, r := a / b, a % b;
      assert a == q * b + r;
      var x', y', g' := Bezout(b, r);
      x, y, g := y', x' - q * y', g';
      calc {
        a * x + b * y;
        a * y' + b * (x' - q * y');
        (q * b + r) * y' + b * x' - b * (q * y');
        { assert (q * b + r) * y' == q * b * y' + r * y'; assert b * (q * y') == q * b * y'; }
        b * x' + r * y';
        g;
      }
      var kb, kr := b / g, r / g;
      assert b == kb * g && r == kr * g;
      assert a == (q * kb + kr) * g by {
        assert q * b == q * kb * g;
      }
      QuotientUnique(g, q * kb + kr, 0);
    }
  }

  /** A number that the prime q does not divide has an inverse modulo q. */
  lemma PrimeInverse(a: int, q: int)
    requires Prime(q) && a % q != 0
    ensures Mul(a, Inverse(a, q), q) == 1
  {
    var r := a % q;
    var x, y, g := Bezout(r, q);
    assert g <= r by {
      if g > r { ModSmall(r, g); }
    }
    assert Divides(g, q);
    assert g == 1;
    assert r * x == 1 + (-y) * q;
    CongByQuotient(r * x, 1, -y, q);
    ModSmall(1, q);
    CongMod(a, q);
    MulCong(r, a, x, x, q);
    InverseIs(a, x, q);
  }

  lemma UnitTimesZero(a: int, i: int, b: int, q: int)
    requires q > 1 && Mul(a, i, q) == 1 && Mul(a, b, q) == 0
    ensures b % q == 0
  {
    ModSmall(1, q);
    ModSmall(0, q);
    CongMul(a * i, 1, b, b, q);
    CongMul(a * b, 0, i, i, q);
    assert a * i * b == a * b * i;
  }

  /** A prime divides no product of two numbers it divides neither of. */
  lemma PrimeNoZeroDivisors(a: int, b: int, q: int)
    requires Prime(q) && a % q != 0 && b % q != 0
    ensures (a * b) % q != 0
  {
    PrimeInverse(a, q);
    if Mul(a, b, q) == 0 {
      UnitTimesZero(a, Inverse(a, q), b, q);
    }
  }
}
