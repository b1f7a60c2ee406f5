/** Byte buffers combined by exclusive or. */
module Xor {
  // ----- bits -----

  /** Bit k of a number. */
  function Bit(a: nat, k: nat): (r: nat)
    ensures r < 2
  {
    if k == 0 then a % 2 else Bit(a / 2, k - 1)
  }

  function Weight(k: nat): (r: nat)
    ensures r > 0
  {
    if k == 0 then 1 else 2 * Weight(k - 1)
  }

  /** Exclusive or of two numbers, bit by bit. */
  function XorNat(a: nat, b: nat): nat
    decreases a + b
  {
    if a == 0 then b else if b == 0 then a else (a + b) % 2 + 2 * XorNat(a / 2, b / 2)
  }

  lemma {:induction false} XorNatStep(a: nat, b: nat)
    ensures XorNat(a, b) % 2 == (a + b) % 2 && XorNat(a, b) / 2 == XorNat(a / 2, b / 2)
  {
  }

  lemma {:induction false} XorNatBit(a: nat, b: nat, k: nat)
    ensures Bit(XorNat(a, b), k) == (Bit(a, k) + Bit(b, k)) % 2
  {
    XorNatStep(a, b);
    if k > 0 {
      XorNatBit(a / 2, b / 2, k - 1);
    }
  }

  lemma {:induction false} XorNatBound(a: nat, b: nat, k: nat)
    requires a < Weight(k) && b < Weight(k)
    ensures XorNat(a, b) < Weight(k)
  {
    if k > 0 {
      XorNatStep(a, b);
      XorNatBound(a / 2, b / 2, k - 1);
    }
  }

  lemma ParityLeft(x: nat, a: nat, b: nat, c: nat)
    requires x % 2 == (a + b) % 2
    ensures (x + c) % 2 == (a + b + c) % 2
  {
  }

  lemma EqualByHalves(x: nat, y: nat)
    requires x % 2 == y % 2 && x / 2 == y / 2
    ensures x == y
  {
  }

  lemma {:induction false} XorNatAssoc(a: nat, b: nat, c: nat)
    ensures XorNat(XorNat(a, b), c) == XorNat(a, XorNat(b, c))
    decreases a + b + c
  {
    if a != 0 && b != 0 && c != 0 {
      var ab, bc := XorNat(a, b), XorNat(b, c);
      XorNatAssoc(a / 2, b / 2, c / 2);
      XorNatStep(a, b);
      XorNatStep(b, c);
      XorNatStep(ab, c);
      XorNatStep(a, bc);
      ParityLeft(ab, a, b, c);
      ParityLeft(bc, b, c, a);
      EqualByHalves(XorNat(ab, c), XorNat(a, bc));
    }
  }

  lemma {:induction false} XorNatCommutes(a: nat, b: nat)
    ensures XorNat(a, b) == XorNat(b, a)
    decreases a + b
  {
    if a != 0 && b != 0 {
      XorNatCommutes(a / 2, b / 2);
    }
  }

  lemma {:induction false} XorNatSelf(a: nat)
    ensures XorNat(a, a) == 0
  {
    if a != 0 {
      XorNatSelf(a / 2);
    }
  }

  lemma {:induction false} ZeroBits(k: nat)
    ensures Bit(0, k) == 0
  {
    if k > 0 {
      ZeroBits(k - 1);
    }
  }

  lemma {:induction false} WeightBit(j: nat, k: nat)
    ensures Bit(Weight(j), k) == if j == k then 1 else 0
  {
    if k == 0 {
    } else if j == 0 {
      ZeroBits(k - 1);
    } else {
      WeightBit(j - 1, k - 1);
    }
  }

  lemma {:induction false} WeightMonotone(j: nat, k: nat)
    requires j < k
    ensures Weight(j) < Weight(k)
  {
    if j > 0 {
      WeightMonotone(j - 1, k - 1);
    } else if k > 1 {
      WeightMonotone(j, k - 1);
    }
  }

  // ----- bytes -----

  type Byte = b: nat | b < 256
  type Buf = seq<Byte>

  lemma {:induction false} ByteWeight()
    ensures Weight(8) == 256
  {
    assert Weight(4) == 16;
    assert Weight(6) == 64;
  }

  function Add(a: Byte, b: Byte): Byte {
    ByteWeight();
    XorNatBound(a, b, 8);
    XorNat(a, b)
  }

  lemma AddAssoc(a: Byte, b: Byte, c: Byte)
    ensures Add(Add(a, b), c) == Add(a, Add(b, c))
  {
    XorNatAssoc(a, b, c);
  }

  lemma AddCommutes(a: Byte, b: Byte)
    ensures Add(a, b) == Add(b, a)
  {
    XorNatCommutes(a, b);
  }

  lemma AddZero(a: Byte)
    ensures Add(a, 0) == a && Add(0, a) == a
  {
  }

  /** The second application of the same pad removes it. */
  lemma AddCancel(a: Byte, b: Byte)
    ensures Add(Add(a, b), b) == a && Add(b, Add(b, a)) == a && Add(b, Add(a, b)) == a
  {
    AddAssoc(a, b, b);
    AddAssoc(b, b, a);
    AddCommutes(a, b);
    XorNatSelf(b);
    AddZero(a);
  }

  lemma Regroup(a: Byte, b: Byte, c: Byte, d: Byte)
    ensures Add(Add(a, b), Add(c, d)) == Add(Add(a, c), Add(b, d))
  {
    AddAssoc(Add(a, b), c, d);
    AddAssoc(a, b, c);
    AddCommutes(b, c);
    AddAssoc(a, c, b);
    AddAssoc(Add(a, c), b, d);
  }

  lemma AddBit(a: Byte, b: Byte, k: nat)
    ensures Bit(Add(a, b), k) == (Bit(a, k) + Bit(b, k)) % 2
  {
    XorNatBit(a, b, k);
  }

  // ----- buffers -----

  function Zeros(n: nat): (r: Buf)
    ensures |r| == n && forall i :: 0 <= i < n ==> r[i] == 0
  {
    seq(n, i => 0)
  }

  /** Pointwise exclusive or of buffers of equal length. */
  function Xored(a: Buf, b: Buf): (r: Buf)
    requires |a| == |b|
    ensures |r| == |a| && forall i :: 0 <= i < |a| ==> r[i] == Add(a[i], b[i])
  {
    seq(|a|, i requires 0 <= i < |a| => Add(a[i], b[i]))
  }

  /** What BaseDCNetRound::Xor leaves in its destination: the common prefix is overwritten. */
  function XorInto(dst: Buf, a: Buf, b: Buf): (r: Buf)
    ensures |r| == |dst|
  {
    seq(|dst|, i requires 0 <= i < |dst| => if i < |a| && i < |b| then Add(a[i], b[i]) else dst[i])
  }

  /** BaseDCNetRound::Xor: dst may be the same buffer as either operand. */
  method XorInPlace(dst: array<Byte>, a: array<Byte>, b: array<Byte>)
    modifies dst
    ensures dst[..] == XorInto(old(dst[..]), old(a[..]), old(b[..]))
  {
    var count := if dst.Length < a.Length then dst.Length else a.Length;
    count := if count < b.Length then count else b.Length;
    for i := 0 to count
      invariant forall j :: 0 <= j < i ==> dst[j] == Add(old(a[j]), old(b[j]))
      invariant forall j :: i <= j < dst.Length ==> dst[j] == old(dst[j])
    {
      dst[i] := Add(a[i], b[i]);
    }
  }

  // ----- sums over an index range -----

  /** The sum of f(0), f(1), ..., f(n-1). */
  function Fold(f: nat -> Byte, n: nat): Byte {
    if n == 0 then 0 else Add(Fold(f, n - 1), f(n - 1))
  }

  lemma {:induction false} FoldEqual(f: nat -> Byte, g: nat -> Byte, n: nat)
    requires forall i :: 0 <= i < n ==> f(i) == g(i)
    ensures Fold(f, n) == Fold(g, n)
  {
    if n > 0 {
      FoldEqual(f, g, n - 1);
    }
  }

  lemma {:induction false} FoldZero(f: nat -> Byte, n: nat)
    requires forall i :: 0 <= i < n ==> f(i) == 0
    ensures Fold(f, n) == 0
  {
    if n > 0 {
      FoldZero(f, n - 1);
    }
  }

  lemma {:induction false} FoldXor(f: nat -> Byte, g: nat -> Byte, h: nat -> Byte, n: nat)
    requires forall i :: 0 <= i < n ==> h(i) == Add(f(i), g(i))
    ensures Fold(h, n) == Add(Fold(f, n), Fold(g, n))
  {
    if n > 0 {
      FoldXor(f, g, h, n - 1);
      Regroup(Fold(f, n - 1), Fold(g, n - 1), f(n - 1), g(n - 1));
    }
  }

  /** Only one index contributes. */
  lemma {:induction false} FoldSingle(f: nat -> Byte, n: nat, k: nat)
    requires k < n && forall i :: 0 <= i < n && i != k ==> f(i) == 0
    ensures Fold(f, n) == f(k)
  {
    if k == n - 1 {
      FoldZero(f, n - 1);
    } else {
      FoldSingle(f, n - 1, k);
    }
  }

  function Row(m: (nat, nat) -> Byte, i: nat): nat -> Byte {
    (j: nat) => m(i, j)
  }

  function Column(m: (nat, nat) -> Byte, j: nat): nat -> Byte {
    (i: nat) => m(i, j)
  }

  /** Summing rows first or columns first is the same. */
  lemma {:induction false} FoldSwap(m: (nat, nat) -> Byte, rows: nat, cols: nat)
    ensures Fold((i: nat) => Fold(Row(m, i), cols), rows) == Fold((j: nat) => Fold(Column(m, j), rows), cols)
  {
    var byRow, byCol := (i: nat) => Fold(Row(m, i), cols), (j: nat) => Fold(Column(m, j), rows);
    if rows == 0 {
      FoldZero(byCol, cols);
    } else {
      FoldSwap(m, rows - 1, cols);
      FoldXor((j: nat) => Fold(Column(m, j), rows - 1), Row(m, rows - 1), byCol, cols);
    }
  }

  /** Bit k of a sum, when at most one term has that bit. */
  lemma {:induction false} FoldBit(f: nat -> Byte, n: nat, k: nat, i: nat)
    requires i < n && forall j :: 0 <= j < n && j != i ==> Bit(f(j), k) == 0
    ensures Bit(Fold(f, n), k) == Bit(f(i), k)
  {
    AddBit(Fold(f, n - 1), f(n - 1), k);
    if i == n - 1 {
      FoldNoBit(f, n - 1, k);
    } else {
      FoldBit(f, n - 1, k, i);
    }
  }

  lemma {:induction false} FoldNoBit(f: nat -> Byte, n: nat, k: nat)
    requires forall j :: 0 <= j < n ==> Bit(f(j), k) == 0
    ensures Bit(Fold(f, n), k) == 0
  {
    if n == 0 {
      ZeroBits(k);
    } else {
      FoldNoBit(f, n - 1, k);
      AddBit(Fold(f, n - 1), f(n - 1), k);
    }
  }
}
