/** The Schnorr group all the keys live in: residues modulo p whose q-th power is 1. */
module Group {
  import opened Modular

  datatype Params = Params(p: int, q: int, g: int) {
    ghost predicate Valid() {
      && p > 1 && Prime(q)
      && 1 < g < p && Pow(g, q, p) == 1
    }

    /** DsaPublicKey::InGroup on one element. */
    predicate InGroup(x: int)
      requires p > 1 && q > 0
    {
      0 <= x < p && Pow(x, q, p) == 1
    }

    /** x raised to an arbitrary integer exponent, which only matters modulo q. */
    function E(x: int, e: int): (r: nat)
      requires p > 1 && q > 0
      ensures r < p
    {
      Pow(x, e % q, p)
    }
  }

  lemma One(G: Params)
    requires G.Valid()
    ensures G.InGroup(1) && G.InGroup(G.g)
  {
    PowOne(G.q, G.p);
    ModSmall(1, G.p);
  }

  lemma Closed(G: Params, x: int, y: int)
    requires G.Valid() && G.InGroup(x) && G.InGroup(y)
    ensures G.InGroup(Mul(x, y, G.p))
  {
    PowProduct(x, y, G.q, G.p);
    MulOne(1, G.p);
    ModSmall(1, G.p);
  }

  lemma PowClosed(G: Params, x: int, e: nat)
    requires G.Valid() && G.InGroup(x)
    ensures G.InGroup(Pow(x, e, G.p))
  {
    PowPow(x, e, G.q, G.p);
    PowPow(x, G.q, e, G.p);
    assert e * G.q == G.q * e;
    PowOne(e, G.p);
    ModSmall(1, G.p);
  }

  /** Exponents of group elements may be reduced modulo q. */
  lemma PowIsE(G: Params, x: int, e: nat)
    requires G.Valid() && G.InGroup(x)
    ensures Pow(x, e, G.p) == G.E(x, e) && G.InGroup(G.E(x, e))
  {
    PowReduceMod(x, e, G.q, G.p);
    PowClosed(G, x, e % G.q);
  }

  lemma {:induction false} PowReduceMod(x: int, e: nat, q: int, p: int)
    requires p > 1 && q > 0 && Pow(x, q, p) == 1
    ensures Pow(x, e, p) == Pow(x, e % q, p)
  {
    var k := DivSplit(e, q);
    PowReduce(x, q, k, e % q, p);
  }

  lemma DivSplit(e: nat, q: int) returns (k: nat)
    requires q > 0
    ensures e == q * k + e % q
  {
    k := e / q;
  }

  lemma PowReduce(x: int, q: nat, k: nat, r: nat, p: int)
    requires p > 1 && Pow(x, q, p) == 1
    ensures q * k >= 0 && Pow(x, q * k + r, p) == Pow(x, r, p)
  {
    PowPow(x, q, k, p);
    PowAdd(x, q * k, r, p);
    PowOne(k, p);
    ModSmall(1, p);
    MulOne(Pow(x, r, p), p);
    ModSmall(Pow(x, r, p), p);
  }

  lemma EClosed(G: Params, x: int, e: int)
    requires G.Valid() && G.InGroup(x)
    ensures G.InGroup(G.E(x, e))
  {
    PowClosed(G, x, e % G.q);
  }

  lemma ECong(G: Params, x: int, e: int, f: int)
    requires G.Valid() && Cong(e, f, G.q)
    ensures G.E(x, e) == G.E(x, f)
  {
  }

  lemma EAdd(G: Params, x: int, e: int, f: int)
    requires G.Valid() && G.InGroup(x)
    ensures Mul(G.E(x, e), G.E(x, f), G.p) == G.E(x, e + f)
  {
    PowAdd(x, e % G.q, f % G.q, G.p);
    PowIsE(G, x, e % G.q + f % G.q);
    CongMod(e, G.q);
    CongMod(f, G.q);
    CongAdd(e % G.q, e, f % G.q, f, G.q);
  }

  lemma EMul(G: Params, x: int, e: int, f: int)
    requires G.Valid() && G.InGroup(x)
    ensures G.E(G.E(x, e), f) == G.E(x, e * f)
  {
    PowPow(x, e % G.q, f % G.q, G.p);
    PowIsE(G, x, (e % G.q) * (f % G.q));
    CongMod(e, G.q);
    CongMod(f, G.q);
    CongMul(e % G.q, e, f % G.q, f, G.q);
  }

  lemma EProduct(G: Params, x: int, y: int, e: int)
    requires G.Valid()
    ensures G.E(Mul(x, y, G.p), e) == Mul(G.E(x, e), G.E(y, e), G.p)
  {
    PowProduct(x, y, e % G.q, G.p);
  }

  lemma EZero(G: Params, x: int)
    requires G.Valid()
    ensures G.E(x, 0) == 1
  {
    ModSmall(0, G.q);
    ModSmall(1, G.p);
  }

  lemma EOne(G: Params, x: int)
    requires G.Valid() && 0 <= x < G.p
    ensures G.E(x, 1) == x
  {
    ModSmall(1, G.q);
    MulOne(x, G.p);
    ModSmall(x, G.p);
    ModSmall(1, G.p);
    assert Pow(x, 0, G.p) == 1;
    assert Pow(x, 1, G.p) == Mul(x, Pow(x, 0, G.p), G.p);
  }

  /** Integer::Inverse of a group element is its power -1. */
  lemma InverseIsE(G: Params, x: int)
    requires G.Valid() && G.InGroup(x)
    ensures Inverse(x, G.p) == G.E(x, -1)
    ensures Mul(x, Inverse(x, G.p), G.p) == 1
    ensures G.InGroup(Inverse(x, G.p))
  {
    EOne(G, x);
    EAdd(G, x, 1, -1);
    EZero(G, x);
    InverseIs(x, G.E(x, -1), G.p);
    ModSmall(G.E(x, -1), G.p);
    EClosed(G, x, -1);
  }

  /** The generator has order exactly q: its powers tell exponents apart modulo q. */
  lemma GeneratorOrder(G: Params, e: int)
    requires G.Valid()
    ensures G.E(G.g, e) == 1 <==> e % G.q == 0
  {
    One(G);
    if e % G.q == 0 {
      ModSmall(1, G.p);
    } else if G.E(G.g, e) == 1 {
      PrimeInverse(e, G.q);
      var i := Inverse(e, G.q);
      EMul(G, G.g, e, i);
      PowOne(i % G.q, G.p);
      ModSmall(1, G.p);
      ModSmall(1, G.q);
      ECong(G, G.g, e * i, 1);
      EOne(G, G.g);
    }
  }

  lemma GeneratorInjective(G: Params, e: int, f: int)
    requires G.Valid()
    ensures G.E(G.g, e) == G.E(G.g, f) <==> Cong(e, f, G.q)
  {
    if G.E(G.g, e) == G.E(G.g, f) {
      One(G);
      EAdd(G, G.g, e, -f);
      EAdd(G, G.g, f, -f);
      EZero(G, G.g);
      GeneratorOrder(G, e - f);
      var k := CongWitnessZero(e - f, G.q);
      CongByQuotient(e, f, k, G.q);
    }
  }

  lemma CongWitnessZero(a: int, m: int) returns (k: int)
    requires m > 0 && a % m == 0
    ensures a == k * m
  {
    k := a / m;
  }

  // ----- products over sequences -----

  function Prod(s: seq<int>, m: int): (r: nat)
    requires m > 1
    ensures r < m
  {
    if s == [] then 1 else Mul(Prod(s[..|s| - 1], m), s[|s| - 1], m)
  }

  lemma ProdAppend(s: seq<int>, x: int, m: int)
    requires m > 1
    ensures Prod(s + [x], m) == Mul(Prod(s, m), x, m)
  {
    assert (s + [x])[..|s|] == s;
  }

  lemma {:induction false} ProdConcat(s: seq<int>, t: seq<int>, m: int)
    requires m > 1
    ensures Prod(s + t, m) == Mul(Prod(s, m), Prod(t, m), m)
  {
    if t == [] {
      assert s + t == s;
      MulOne(Prod(s, m), m);
      ModSmall(Prod(s, m), m);
    } else {
      var t' := t[..|t| - 1];
      assert (s + t)[..|s + t| - 1] == s + t';
      ProdConcat(s, t', m);
      MulAssoc(Prod(s, m), Prod(t', m), t[|t| - 1], m);
    }
  }

  lemma ProdMiddle(a: seq<int>, x: int, b: seq<int>, m: int)
    requires m > 1
    ensures Prod(a + [x] + b, m) == Mul(Prod(a + b, m), x, m)
  {
    ProdConcat(a, b, m);
    ProdConcat(a + [x], b, m);
    ProdAppend(a, x, m);
    var pa, pb := Prod(a, m), Prod(b, m);
    MulAssoc(pa, x, pb, m);
    MulComm(x, pb, m);
    MulAssoc(pa, pb, x, m);
  }

  lemma RemoveOne<T>(s: seq<T>, x: T, a: seq<T>, b: seq<T>)
    requires multiset(s + [x]) == multiset(a + [x] + b)
    ensures multiset(s) == multiset(a + b)
  {
    assert multiset(s) == multiset(s + [x]) - multiset{x};
    assert multiset(a + b) == multiset(a + [x] + b) - multiset{x};
  }

  /** A product does not depend on the order of its factors. */
  lemma {:induction false} ProdReorder(s: seq<int>, t: seq<int>, m: int)
    requires m > 1 && multiset(s) == multiset(t)
    ensures Prod(s, m) == Prod(t, m)
    decreases |s|
  {
    if s == [] {
      assert |multiset(t)| == 0;
    } else {
      var x, s' := s[|s| - 1], s[..|s| - 1];
      assert s == s' + [x];
      assert x in multiset(t);
      var i :| 0 <= i < |t| && t[i] == x;
      var a, b := t[..i], t[i + 1..];
      assert t == a + [x] + b;
      RemoveOne(s', x, a, b);
      ProdReorder(s', a + b, m);
      ProdMiddle(a, x, b, m);
    }
  }

  lemma {:induction false} ProdZip(s: seq<int>, t: seq<int>, u: seq<int>, m: int)
    requires m > 1 && |s| == |t| == |u|
    requires forall i :: 0 <= i < |s| ==> u[i] == Mul(s[i], t[i], m)
    ensures Prod(u, m) == Mul(Prod(s, m), Prod(t, m), m)
  {
    var n := |s|;
    if n == 0 {
      MulOne(1, m);
      ModSmall(1, m);
    } else {
      ProdZip(s[..n - 1], t[..n - 1], u[..n - 1], m);
      MulSwap(Prod(s[..n - 1], m), Prod(t[..n - 1], m), s[n - 1], t[n - 1], m);
    }
  }

  lemma {:induction false} ProdClosed(G: Params, s: seq<int>)
    requires G.Valid() && forall x :: x in s ==> G.InGroup(x)
    ensures G.InGroup(Prod(s, G.p))
  {
    if s == [] {
      One(G);
    } else {
      ProdClosed(G, s[..|s| - 1]);
      Closed(G, Prod(s[..|s| - 1], G.p), s[|s| - 1]);
    }
  }

  // ----- permutations of indices -----

  /** inv undoes pi: where pi sends i, inv sends it back. */
  ghost predicate Inverts(pi: seq<int>, inv: seq<int>) {
    && |inv| == |pi|
    && (forall i :: 0 <= i < |pi| ==> 0 <= pi[i] < |pi| && inv[pi[i]] == i)
    && (forall j :: 0 <= j < |inv| ==> 0 <= inv[j] < |pi| && pi[inv[j]] == j)
  }

  /** Reading a sequence in the order of a permutation keeps its contents. */
  lemma {:induction false} MovedToEnd<T>(s: seq<T>, k: nat, x: T)
    requires k < |s|
    ensures multiset(s[k := x]) + multiset{s[k]} == multiset(s) + multiset{x}
  {
  }

  lemma {:induction false} PermutedMultiset<T>(s: seq<T>, pi: seq<int>, inv: seq<int>, t: seq<T>)
    requires |pi| == |s| == |t| && Inverts(pi, inv)
    requires forall i :: 0 <= i < |pi| ==> t[i] == s[pi[i]]
    ensures multiset(t) == multiset(s)
    decreases |s|
  {
    var n := |s|;
    if n == 0 {
      assert t == [] && s == [];
    } else {
      // move the position that reads s[n-1] to the end, then recurse on the rest
      var k := inv[n - 1];
      var last := pi[n - 1];
      var pi' := pi[..n - 1];
      var inv' := inv[..n - 1];
      var t' := t[..n - 1];
      if k < n - 1 {
        pi', inv', t' := pi'[k := last], inv'[last := k], t'[k := t[n - 1]];
      }
      PermutedMultiset(s[..n - 1], pi', inv', t');
      assert s == s[..n - 1] + [s[n - 1]];
      assert t == t[..n - 1] + [t[n - 1]];
      if k < n - 1 {
        MovedToEnd(t[..n - 1], k, t[n - 1]);
      }
    }
  }
}
