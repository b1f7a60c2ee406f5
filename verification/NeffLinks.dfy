/** The simple-k-shuffle argument in the exponents: when consecutive responses are linked by
    the hidden ratios, and hence when every Theta equation of the verifier holds. */
module NeffLinks {
  import opened Modular
  import opened Group
  import opened NeffSpec

  /** The factor relating consecutive responses: the i-th Theta equation holds iff this does. */
  ghost predicate Linked(q: int, gamma: int, K: Work, before: int, after: int, i: nat)
    requires q > 0 && |K.rt| == |K.st|
  {
    if i < |K.rt| then Cong(K.st[i] * after, K.rt[i] * before, q)
    else Cong(after, gamma * before, q)
  }

  /** The response that precedes the i-th one; the first is the challenge itself. */
  ghost function Before(G: Params, c: int, sec: Secrets, K: Work, i: nat): int
    requires G.q > 1 && |K.rt| == |K.st| && i < 2 * |K.rt|
  {
    if i == 0 then c else Response(G, c, sec, K, i - 1)
  }

  ghost predicate LinkedAt(G: Params, c: int, sec: Secrets, K: Work, i: nat)
    requires G.q > 1 && |K.rt| == |K.st| && i < 2 * |K.rt|
  {
    Linked(G.q, sec.gamma, K, Before(G, c, sec, K, i), Response(G, c, sec, K, i), i)
  }

  ghost predicate AllLinked(G: Params, c: int, sec: Secrets, K: Work)
    requires G.q > 1 && |K.rt| == |K.st|
  {
    forall i :: 0 <= i < 2 * |K.rt| ==> LinkedAt(G, c, sec, K, i)
  }

  /** The draws the proof survives: no vanishing blinding, or a vanishing challenge. */
  ghost predicate GoodDraws(q: int, c: int, gamma: int, rt: seq<int>)
    requires q > 0
  {
    c % q == 0 || (gamma % q != 0 && forall i :: 0 <= i < |rt| ==> rt[i] % q != 0)
  }

  /** Every s_t hides gamma times some r_t, each once. */
  ghost predicate HidesByPermutation(q: int, gamma: int, K: Work, pi: seq<int>, inv: seq<int>)
    requires q > 0
  {
    && |K.rt| == |K.st| == |pi| && Inverts(pi, inv)
    && forall i :: 0 <= i < |pi| ==> Cong(K.st[i], gamma * K.rt[pi[i]], q)
  }

  // ----- small facts about congruence -----

  lemma {:induction false} CongZeroMul(a: int, b: int, q: int)
    requires q > 0 && (a % q == 0 || b % q == 0)
    ensures (a * b) % q == 0
  {
    ModSmall(0, q);
    if a % q == 0 { CongMul(a, 0, b, b, q); } else { CongMul(a, a, b, 0, q); }
  }

  lemma {:induction false} CancelFactor(a: int, b: int, f: int, q: int)
    requires Prime(q) && f % q != 0 && Cong(a * f, b * f, q)
    ensures Cong(a, b, q)
  {
    PrimeInverse(f, q);
    var i := Inverse(f, q);
    ModSmall(1, q);
    CongMul(a * f, b * f, i, i, q);
    CongMul(a, a, f * i, 1, q);
    CongMul(b, b, f * i, 1, q);
    assert a * f * i == a * (f * i) && b * f * i == b * (f * i);
  }

  // ----- the quotient -----

  lemma {:induction false} QuotientVanishes(c: int, r: seq<int>, s: seq<int>, from: nat, i: nat, q: int)
    requires q > 1 && from <= i <= |r| && i <= |s|
    requires Quotient(c, r, s, from, q) % q == 0
    ensures Quotient(c, r, s, i, q) % q == 0
    decreases i
  {
    if i > from {
      QuotientVanishes(c, r, s, from, i - 1, q);
      var x, y := Quotient(c, r, s, i - 1, q), Inverse(s[i - 1], q);
      CongZeroMul(x, r[i - 1], q);
      CongZeroMul(x * r[i - 1], y, q);
      CongMod(x * r[i - 1] * y, q);
    }
  }

  /** A vanishing r anywhere makes every later quotient vanish. */
  lemma {:induction false} QuotientNeedsR(c: int, r: seq<int>, s: seq<int>, j: nat, q: int)
    requires q > 1 && j < |r| == |s| && r[j] % q == 0
    ensures Quotient(c, r, s, |r|, q) % q == 0
  {
    var x, y := Quotient(c, r, s, j, q), Inverse(s[j], q);
    CongZeroMul(x, r[j], q);
    CongZeroMul(x * r[j], y, q);
    CongMod(x * r[j] * y, q);
    QuotientVanishes(c, r, s, j + 1, |r|, q);
  }

  lemma {:induction false} QuotientStep(c: int, r: seq<int>, s: seq<int>, i: nat, q: int)
    requires Prime(q) && i < |r| && i < |s| && s[i] % q != 0
    ensures Cong(s[i] * Quotient(c, r, s, i + 1, q), r[i] * Quotient(c, r, s, i, q), q)
  {
    PrimeInverse(s[i], q);
    DivideStep(Quotient(c, r, s, i, q), r[i], s[i], Inverse(s[i], q), q);
  }

  lemma {:induction false} DivideStep(x: int, r: int, s: int, y: int, q: int)
    requires q > 1 && Mul(s, y, q) == 1
    ensures Cong(s * ((x * r * y) % q), r * x, q)
  {
    ModSmall(1, q);
    CongMod(x * r * y, q);
    CongMul(s, s, (x * r * y) % q, x * r * y, q);
    CongMul(x * r, x * r, s * y, 1, q);
    assert s * (x * r * y) == x * r * (s * y);
  }

  /** Clearing denominators: quotient times the product of s is c times the product of r. */
  lemma {:induction false} QuotientProduct(c: int, r: seq<int>, s: seq<int>, i: nat, q: int)
    requires Prime(q) && i <= |r| == |s| && forall j :: 0 <= j < i ==> s[j] % q != 0
    ensures Cong(Quotient(c, r, s, i, q) * Prod(s[..i], q), c * Prod(r[..i], q), q)
  {
    if i > 0 {
      QuotientProduct(c, r, s, i - 1, q);
      QuotientStep(c, r, s, i - 1, q);
      var S, R := Prod(s[..i - 1], q), Prod(r[..i - 1], q);
      assert s[..i][..i - 1] == s[..i - 1] && r[..i][..i - 1] == r[..i - 1];
      QuotientProductStep(Quotient(c, r, s, i - 1, q), Quotient(c, r, s, i, q), r[i - 1], s[i - 1], S, R, c, q);
    }
  }

  lemma {:induction false} QuotientProductStep(x: int, y: int, r: int, s: int, S: int, R: int, c: int, q: int)
    requires q > 1 && Cong(s * y, r * x, q) && Cong(x * S, c * R, q)
    ensures Cong(y * Mul(S, s, q), c * Mul(R, r, q), q)
  {
    CongMod(S * s, q);
    CongMod(R * r, q);
    CongMul(y, y, Mul(S, s, q), S * s, q);
    CongMul(c, c, Mul(R, r, q), R * r, q);
    CongMul(s * y, r * x, S, S, q);
    CongMul(x * S, c * R, r, r, q);
    assert y * (S * s) == s * y * S;
    assert r * x * S == x * S * r;
    assert c * R * r == c * (R * r);
  }

  // ----- products of the hidden values -----

  lemma {:induction false} ProdNonzero(s: seq<int>, q: int)
    requires Prime(q) && forall i :: 0 <= i < |s| ==> s[i] % q != 0
    ensures Prod(s, q) % q != 0
  {
    if s == [] {
      ModSmall(1, q);
    } else {
      var t, x := Prod(s[..|s| - 1], q), s[|s| - 1];
      ProdNonzero(s[..|s| - 1], q);
      PrimeNoZeroDivisors(t, x, q);
      CongMod(t * x, q);
    }
  }

  lemma {:induction false} ProdScaled(s: seq<int>, t: seq<int>, gamma: int, q: int)
    requires q > 1 && |s| == |t| && forall i :: 0 <= i < |s| ==> Cong(s[i], gamma * t[i], q)
    ensures Prod(s, q) == Mul(Pow(gamma, |s|, q), Prod(t, q), q)
  {
    var n := |s|;
    if n == 0 {
      MulOne(1, q);
      ModSmall(1, q);
    } else {
      ProdScaled(s[..n - 1], t[..n - 1], gamma, q);
      var P, T, x := Pow(gamma, n - 1, q), Prod(t[..n - 1], q), t[n - 1];
      CongMod(gamma * x, q);
      MulCong(Mul(P, T, q), Mul(P, T, q), s[n - 1], Mul(gamma, x, q), q);
      MulSwap(P, T, gamma, x, q);
      MulComm(P, gamma, q);
    }
  }

  lemma {:induction false} HiddenProduct(q: int, gamma: int, K: Work, pi: seq<int>, inv: seq<int>)
    requires q > 1 && HidesByPermutation(q, gamma, K, pi, inv)
    ensures Prod(K.st, q) == Mul(Pow(gamma, |K.rt|, q), Prod(K.rt, q), q)
  {
    var read := seq(|pi|, i requires 0 <= i < |pi| => K.rt[pi[i]]);
    ProdScaled(K.st, read, gamma, q);
    PermutedMultiset(K.rt, pi, inv, read);
    ProdReorder(read, K.rt, q);
  }

  /** The k-th power of gamma turns the full quotient back into c. */
  lemma {:induction false} FullQuotient(q: int, c: int, gamma: int, K: Work, pi: seq<int>, inv: seq<int>)
    requires Prime(q) && HidesByPermutation(q, gamma, K, pi, inv)
    requires forall i :: 0 <= i < |K.rt| ==> K.rt[i] % q != 0 && K.st[i] % q != 0
    ensures Cong(Quotient(c, K.rt, K.st, |K.rt|, q) * Pow(gamma, |K.rt|, q), c, q)
  {
    var k := |K.rt|;
    var y, P, R := Quotient(c, K.rt, K.st, k, q), Pow(gamma, k, q), Prod(K.rt, q);
    assert K.rt[..k] == K.rt && K.st[..k] == K.st;
    QuotientProduct(c, K.rt, K.st, k, q);
    HiddenProduct(q, gamma, K, pi, inv);
    ProdNonzero(K.rt, q);
    CancelProduct(y, P, R, c, q);
  }

  lemma {:induction false} CancelProduct(y: int, P: int, R: int, c: int, q: int)
    requires Prime(q) && R % q != 0 && Cong(y * Mul(P, R, q), c * R, q)
    ensures Cong(y * P, c, q)
  {
    CongMod(P * R, q);
    CongMul(y, y, Mul(P, R, q), P * R, q);
    assert y * (P * R) == y * P * R;
    CancelFactor(y * P, c, R, q);
  }

  // ----- when everything is linked -----

  lemma {:induction false} InversePowers(gamma: int, ig: int, n: nat, q: int)
    requires q > 1 && Mul(gamma, ig, q) == 1
    ensures Mul(Pow(gamma, n, q), Pow(ig, n, q), q) == 1
  {
    PowProduct(gamma, ig, n, q);
    PowOne(n, q);
    ModSmall(1, q);
  }

  /** Step at index k: gamma * y is c * ig^(k-1) once y * gamma^k is c. */
  lemma {:induction false} MiddleLink(q: int, c: int, gamma: int, ig: int, y: int, k: nat)
    requires q > 1 && k > 0 && Mul(gamma, ig, q) == 1 && Cong(y * Pow(gamma, k, q), c, q)
    ensures Cong(c * Pow(ig, k - 1, q), gamma * y, q)
  {
    var P, I := Pow(gamma, k - 1, q), Pow(ig, k - 1, q);
    InversePowers(gamma, ig, k - 1, q);
    MiddleCong(q, c, gamma, y, P, I);
  }

  lemma {:induction false} MiddleCong(q: int, c: int, gamma: int, y: int, P: int, I: int)
    requires q > 1 && Mul(P, I, q) == 1 && Cong(y * Mul(gamma, P, q), c, q)
    ensures Cong(c * I, gamma * y, q)
  {
    ModSmall(1, q);
    CongMod(gamma * P, q);
    CongMul(y, y, Mul(gamma, P, q), gamma * P, q);
    CongMul(c, y * (gamma * P), I, I, q);
    CongMul(gamma * y, gamma * y, P * I, 1, q);
    assert y * (gamma * P) * I == gamma * y * (P * I);
  }

  lemma {:induction false} TailLink(q: int, c: int, gamma: int, ig: int, n: nat)
    requires q > 1 && Mul(gamma, ig, q) == 1
    ensures Cong(c * Pow(ig, n, q), gamma * (c * Pow(ig, n + 1, q)), q)
  {
    var I := Pow(ig, n, q);
    ModSmall(1, q);
    CongMod(ig * I, q);
    CongMul(gamma * c, gamma * c, Pow(ig, n + 1, q), ig * I, q);
    CongMul(gamma * ig, 1, c * I, c * I, q);
    assert gamma * c * (ig * I) == gamma * ig * (c * I);
    assert gamma * (c * Pow(ig, n + 1, q)) == gamma * c * Pow(ig, n + 1, q);
  }

  lemma {:induction false} NonzeroLinks(G: Params, c: int, sec: Secrets, K: Work, pi: seq<int>, inv: seq<int>, i: nat)
    requires Prime(G.q) && HidesByPermutation(G.q, sec.gamma, K, pi, inv) && i < 2 * |K.rt|
    requires sec.gamma % G.q != 0 && forall j :: 0 <= j < |K.rt| ==> K.rt[j] % G.q != 0
    ensures LinkedAt(G, c, sec, K, i)
  {
    var k, q, ig := |K.rt|, G.q, Inverse(sec.gamma, G.q);
    forall j | 0 <= j < k ensures K.st[j] % q != 0 {
      PrimeNoZeroDivisors(sec.gamma, K.rt[pi[j]], q);
    }
    PrimeInverse(sec.gamma, q);
    if i < k {
      QuotientStep(c, K.rt, K.st, i, q);
    } else if i == k {
      FullQuotient(q, c, sec.gamma, K, pi, inv);
      MiddleLink(q, c, sec.gamma, ig, Quotient(c, K.rt, K.st, k, q), k);
    } else {
      TailLink(q, c, sec.gamma, ig, 2 * k - i - 1);
    }
  }

  lemma {:induction false} ZeroLinks(G: Params, c: int, sec: Secrets, K: Work, i: nat)
    requires G.q > 1 && |K.rt| == |K.st| && i < 2 * |K.rt| && c % G.q == 0
    ensures Response(G, c, sec, K, i) % G.q == 0
    ensures LinkedAt(G, c, sec, K, i)
  {
    ZeroResponse(G, c, sec, K, i);
    if i > 0 {
      ZeroResponse(G, c, sec, K, i - 1);
    }
    var before, after := Before(G, c, sec, K, i), Response(G, c, sec, K, i);
    if i < |K.rt| {
      CongZeroMul(K.st[i], after, G.q);
      CongZeroMul(K.rt[i], before, G.q);
    } else {
      CongZeroMul(sec.gamma, before, G.q);
    }
  }

  lemma {:induction false} ZeroResponse(G: Params, c: int, sec: Secrets, K: Work, i: nat)
    requires G.q > 1 && |K.rt| == |K.st| && i < 2 * |K.rt| && c % G.q == 0
    ensures Response(G, c, sec, K, i) % G.q == 0
  {
    if i < |K.rt| {
      QuotientVanishes(c, K.rt, K.st, 0, i + 1, G.q);
    } else {
      CongZeroMul(c, Pow(Inverse(sec.gamma, G.q), 2 * |K.rt| - i - 1, G.q), G.q);
    }
  }

  lemma {:induction false} LastResponse(G: Params, c: int, sec: Secrets, K: Work)
    requires G.q > 1 && |K.rt| == |K.st| > 0
    ensures Response(G, c, sec, K, 2 * |K.rt| - 1) == c
  {
    ModSmall(1, G.q);
  }

  /** From a non-vanishing challenge the links carry non-vanishing responses backwards. */
  lemma {:induction false} LinkedBackwards(G: Params, c: int, sec: Secrets, K: Work, i: nat)
    requires G.q > 1 && |K.rt| == |K.st| > 0 && |K.rt| - 1 <= i < 2 * |K.rt|
    requires AllLinked(G, c, sec, K) && c % G.q != 0
    ensures Response(G, c, sec, K, i) % G.q != 0
    decreases 2 * |K.rt| - i
  {
    if i == 2 * |K.rt| - 1 {
      LastResponse(G, c, sec, K);
    } else {
      LinkedBackwards(G, c, sec, K, i + 1);
      assert LinkedAt(G, c, sec, K, i + 1);
      if Response(G, c, sec, K, i) % G.q == 0 {
        CongZeroMul(sec.gamma, Response(G, c, sec, K, i), G.q);
      }
    }
  }

  lemma {:induction false} LinksNeedGoodDraws(G: Params, c: int, sec: Secrets, K: Work)
    requires G.q > 1 && |K.rt| == |K.st| > 0 && AllLinked(G, c, sec, K)
    ensures GoodDraws(G.q, c, sec.gamma, K.rt)
  {
    var k := |K.rt|;
    if c % G.q != 0 {
      LinkedBackwards(G, c, sec, K, k - 1);
      LinkedBackwards(G, c, sec, K, k);
      assert LinkedAt(G, c, sec, K, k);
      if sec.gamma % G.q == 0 {
        CongZeroMul(sec.gamma, Response(G, c, sec, K, k - 1), G.q);
      }
      forall j | 0 <= j < k ensures K.rt[j] % G.q != 0 {
        if K.rt[j] % G.q == 0 {
          QuotientNeedsR(c, K.rt, K.st, j, G.q);
        }
      }
    }
  }

  /** The responses are all linked exactly for the good draws. */
  lemma {:induction false} AllLinkedIff(G: Params, c: int, sec: Secrets, K: Work, pi: seq<int>, inv: seq<int>)
    requires Prime(G.q) && HidesByPermutation(G.q, sec.gamma, K, pi, inv) && |K.rt| > 0
    ensures AllLinked(G, c, sec, K) <==> GoodDraws(G.q, c, sec.gamma, K.rt)
  {
    if AllLinked(G, c, sec, K) {
      LinksNeedGoodDraws(G, c, sec, K);
    }
    if GoodDraws(G.q, c, sec.gamma, K.rt) {
      forall i | 0 <= i < 2 * |K.rt| ensures LinkedAt(G, c, sec, K, i) {
        if c % G.q == 0 {
          ZeroLinks(G, c, sec, K, i);
        } else {
          NonzeroLinks(G, c, sec, K, pi, inv, i);
        }
      }
    }
  }
}
