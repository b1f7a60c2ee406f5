/** The two product equations of the shuffle proof: the re-encrypted outputs raised to the
    responses match the inputs raised to the challenges, whatever the permutation. */
module NeffIota {
  import opened Modular
  import opened Group
  import opened NeffSpec

  /** base^(start + terms) is base^start times the product of the base^term. */
  lemma {:induction false} PowSum(G: Params, base: int, start: int, terms: seq<int>, powers: seq<int>)
    requires G.Valid() && G.InGroup(base) && |powers| == |terms|
    requires forall i :: 0 <= i < |terms| ==> powers[i] == G.E(base, terms[i])
    ensures G.E(base, SumMod(start, terms, G.q)) == Mul(G.E(base, start), Prod(powers, G.p), G.p)
  {
    var n := |terms|;
    if n == 0 {
      MulOne(G.E(base, start), G.p);
      ModSmall(G.E(base, start), G.p);
    } else {
      PowSum(G, base, start, terms[..n - 1], powers[..n - 1]);
      var sum := SumMod(start, terms[..n - 1], G.q);
      EAdd(G, base, sum, terms[n - 1]);
      CongMod(sum + terms[n - 1], G.q);
      ECong(G, base, (sum + terms[n - 1]) % G.q, sum + terms[n - 1]);
      MulAssoc(G.E(base, start), Prod(powers[..n - 1], G.p), powers[n - 1], G.p);
    }
  }

  /** One factor of the output side, indexed by the input it re-encrypts. */
  lemma {:induction false} BarPower(G: Params, base: int, z: int, beta: nat, w: int, b: int, sigma: nat)
    requires G.Valid() && G.InGroup(base) && G.InGroup(z) && sigma == (w + b) % G.q
    ensures Pow(Mul(z, Pow(base, beta, G.p), G.p), sigma, G.p) == Mul(G.E(z, w + b), G.E(base, beta * (w + b)), G.p)
  {
    PowIsE(G, base, beta);
    Closed(G, z, G.E(base, beta));
    PowIsE(G, Mul(z, G.E(base, beta), G.p), sigma);
    CongMod(w + b, G.q);
    ECong(G, Mul(z, G.E(base, beta), G.p), sigma, w + b);
    EProduct(G, z, G.E(base, beta), w + b);
    EMul(G, base, beta, w + b);
  }

  lemma {:induction false} NegPower(G: Params, z: int, n: int)
    requires G.Valid() && G.InGroup(z) && 0 <= n <= G.q
    ensures Pow(z, G.q - n, G.p) == G.E(z, -n)
  {
    PowIsE(G, z, G.q - n);
    CongMultiple(-n, 1, G.q);
    ECong(G, z, G.q - n, -n);
  }

  lemma {:induction false} ChallengeCancels(q: int, w: int, b: int, p: int, u: int)
    requires q > 0 && b == (p - u) % q
    ensures Cong(w + b + -p, w - u, q)
  {
    CongMod(p - u, q);
    CongAdd(b, p - u, w - p, w - p, q);
  }

  /** Matching factors: outputs and challenges against the prover's three products. */
  lemma {:induction false} TermsMatch(G: Params, base: int, z: int, beta: int, w: int, b: int, p: int, u: int)
    requires G.Valid() && G.InGroup(base) && G.InGroup(z) && b == (p - u) % G.q
    ensures Mul(Mul(G.E(z, w + b), G.E(base, beta * (w + b)), G.p), G.E(z, -p), G.p)
            == Mul(Mul(G.E(base, w * beta), G.E(z, w - u), G.p), G.E(base, b * beta), G.p)
  {
    var A, B, C := G.E(z, w + b), G.E(base, beta * (w + b)), G.E(z, -p);
    EAdd(G, z, w + b, -p);
    ChallengeCancels(G.q, w, b, p, u);
    ECong(G, z, w + b + -p, w - u);
    EAdd(G, base, w * beta, b * beta);
    assert w * beta + b * beta == beta * (w + b);
    MulAssoc(A, B, C, G.p);
    MulComm(B, C, G.p);
    MulAssoc(A, C, B, G.p);
    var N1, N3, N2 := G.E(base, w * beta), G.E(z, w - u), G.E(base, b * beta);
    MulComm(N1, N3, G.p);
    MulAssoc(N3, N1, N2, G.p);
  }

  /** The blinding tau0 drops out of the right-hand side. */
  lemma {:induction false} BlindingCancels(G: Params, base: int, tau0: int, P1: int, P2: int, P3: int)
    requires G.Valid() && G.InGroup(base)
    ensures Mul(Mul(Mul(G.E(base, tau0), P1, G.p), P3, G.p), Mul(G.E(base, -tau0), P2, G.p), G.p)
            == Mul(Mul(P1, P3, G.p), P2, G.p)
  {
    var a, b, p := G.E(base, tau0), G.E(base, -tau0), G.p;
    EAdd(G, base, tau0, -tau0);
    EZero(G, base);
    MulAssoc(a, P1, P3, p);
    MulSwap(a, Mul(P1, P3, p), b, P2, p);
    MulOne(Mul(Mul(P1, P3, p), P2, p), p);
    ModSmall(Mul(Mul(P1, P3, p), P2, p), p);
  }

  /** Setting shared by the lemmas below, for one half of the ciphertexts. */
  ghost predicate Setting(G: Params, base: int, Z: seq<int>, bars: seq<int>, sec: Secrets, pi: seq<int>, inv: seq<int>,
                          b: seq<int>, ps: seq<nat>, sigma: seq<nat>)
  {
    && G.Valid() && G.InGroup(base)
    && |Z| == |bars| == |pi| == |b| == |ps| == |sigma| && sec.Sized(|Z|) && Inverts(pi, inv)
    && (forall i :: 0 <= i < |Z| ==> G.InGroup(Z[i]))
    && (forall i :: 0 <= i < |Z| ==> bars[i] == Mul(Z[pi[i]], Pow(base, sec.beta[pi[i]], G.p), G.p))
    && (forall i :: 0 <= i < |Z| ==> ps[i] <= G.q)
    && (forall i :: 0 <= i < |Z| ==> b[i] == (ps[i] - sec.u[i]) % G.q)
    && (forall i :: 0 <= i < |Z| ==> sigma[i] == (sec.w[i] + b[pi[i]]) % G.q)
  }

  ghost function OutputFactor(G: Params, base: int, z: int, beta: int, w: int, b: int): int
    requires G.p > 1 && G.q > 0
  {
    Mul(G.E(z, w + b), G.E(base, beta * (w + b)), G.p)
  }

  lemma {:induction false} BarAt(G: Params, base: int, Z: seq<int>, bars: seq<int>, sec: Secrets, pi: seq<int>, inv: seq<int>,
                                 b: seq<int>, ps: seq<nat>, sigma: seq<nat>, i: nat)
    requires Setting(G, base, Z, bars, sec, pi, inv, b, ps, sigma) && i < |Z|
    ensures var j := pi[i]; Pow(bars[i], sigma[i], G.p) == OutputFactor(G, base, Z[j], sec.beta[j], sec.w[inv[j]], b[j])
  {
    var j := pi[i];
    BarPower(G, base, Z[j], sec.beta[j], sec.w[i], b[j], sigma[i]);
  }

  /** A product of two factors per position, the first factors read through a permutation. */
  lemma {:induction false} PermutedProduct(LA: seq<int>, LZ: seq<int>, powers: seq<int>, terms: seq<int>, pi: seq<int>, inv: seq<int>, p: int)
    requires p > 1 && |LA| == |LZ| == |powers| == |terms| == |pi| && Inverts(pi, inv)
    requires forall i :: 0 <= i < |pi| ==> powers[i] == LA[pi[i]]
    requires forall i :: 0 <= i < |pi| ==> terms[i] == Mul(powers[i], LZ[i], p)
    ensures Prod(terms, p) == Mul(Prod(LA, p), Prod(LZ, p), p)
  {
    ProdZip(powers, LZ, terms, p);
    PermutedMultiset(LA, pi, inv, powers);
    ProdReorder(powers, LA, p);
  }

  lemma {:induction false} TermAt(G: Params, base: int, Z: seq<int>, bars: seq<int>, sec: Secrets, pi: seq<int>, inv: seq<int>,
                                  b: seq<int>, ps: seq<nat>, sigma: seq<nat>, i: nat)
    requires Setting(G, base, Z, bars, sec, pi, inv, b, ps, sigma) && i < |Z|
    ensures IotaTerms(G, bars, Z, sigma, ps)[i] == Mul(Pow(bars[i], sigma[i], G.p), G.E(Z[i], -(ps[i] as int)), G.p)
  {
    NegPower(G, Z[i], ps[i]);
  }

  lemma {:induction false} BarPowers(G: Params, base: int, Z: seq<int>, bars: seq<int>, sec: Secrets, pi: seq<int>, inv: seq<int>,
                                     b: seq<int>, ps: seq<nat>, sigma: seq<nat>, LA: seq<int>, powers: seq<int>)
    requires Setting(G, base, Z, bars, sec, pi, inv, b, ps, sigma) && |LA| == |powers| == |Z|
    requires forall j :: 0 <= j < |Z| ==> LA[j] == OutputFactor(G, base, Z[j], sec.beta[j], sec.w[inv[j]], b[j])
    requires forall i :: 0 <= i < |Z| ==> powers[i] == Pow(bars[i], sigma[i], G.p)
    ensures forall i :: 0 <= i < |Z| ==> powers[i] == LA[pi[i]]
  {
    forall i | 0 <= i < |Z| ensures powers[i] == LA[pi[i]] {
      BarAt(G, base, Z, bars, sec, pi, inv, b, ps, sigma, i);
    }
  }

  lemma {:induction false} TermsSplit(G: Params, base: int, Z: seq<int>, bars: seq<int>, sec: Secrets, pi: seq<int>, inv: seq<int>,
                                      b: seq<int>, ps: seq<nat>, sigma: seq<nat>, LZ: seq<int>, powers: seq<int>)
    requires Setting(G, base, Z, bars, sec, pi, inv, b, ps, sigma) && |LZ| == |powers| == |Z|
    requires forall j :: 0 <= j < |Z| ==> LZ[j] == G.E(Z[j], -(ps[j] as int))
    requires forall i :: 0 <= i < |Z| ==> powers[i] == Pow(bars[i], sigma[i], G.p)
    ensures forall i :: 0 <= i < |Z| ==> IotaTerms(G, bars, Z, sigma, ps)[i] == Mul(powers[i], LZ[i], G.p)
  {
    forall i | 0 <= i < |Z| ensures IotaTerms(G, bars, Z, sigma, ps)[i] == Mul(powers[i], LZ[i], G.p) {
      TermAt(G, base, Z, bars, sec, pi, inv, b, ps, sigma, i);
    }
  }

  /** The left-hand side, reindexed by input. */
  lemma {:induction false} OutputSide(G: Params, base: int, Z: seq<int>, bars: seq<int>, sec: Secrets, pi: seq<int>, inv: seq<int>,
                                      b: seq<int>, ps: seq<nat>, sigma: seq<nat>, LA: seq<int>, LZ: seq<int>)
    requires Setting(G, base, Z, bars, sec, pi, inv, b, ps, sigma) && |LA| == |LZ| == |Z|
    requires forall j :: 0 <= j < |Z| ==> LA[j] == OutputFactor(G, base, Z[j], sec.beta[j], sec.w[inv[j]], b[j])
    requires forall j :: 0 <= j < |Z| ==> LZ[j] == G.E(Z[j], -(ps[j] as int))
    ensures Prod(IotaTerms(G, bars, Z, sigma, ps), G.p) == Mul(Prod(LA, G.p), Prod(LZ, G.p), G.p)
  {
    var n := |Z|;
    var powers := seq(n, i requires 0 <= i < n => Pow(bars[i], sigma[i], G.p));
    var terms := IotaTerms(G, bars, Z, sigma, ps);
    BarPowers(G, base, Z, bars, sec, pi, inv, b, ps, sigma, LA, powers);
    TermsSplit(G, base, Z, bars, sec, pi, inv, b, ps, sigma, LZ, powers);
    PermutedProduct(LA, LZ, powers, terms, pi, inv, G.p);
  }

  /** The exponent sums of the right-hand side, as products indexed by input. */
  lemma {:induction false} DeltaSide(G: Params, base: int, Z: seq<int>, sec: Secrets, pi: seq<int>, inv: seq<int>, N1: seq<int>, N3: seq<int>)
    requires G.Valid() && G.InGroup(base) && |Z| == |pi| == |N1| == |N3| && sec.Sized(|Z|) && Inverts(pi, inv)
    requires forall i :: 0 <= i < |Z| ==> G.InGroup(Z[i])
    requires forall j :: 0 <= j < |Z| ==> N1[j] == G.E(base, sec.w[inv[j]] * sec.beta[j])
    requires forall j :: 0 <= j < |Z| ==> N3[j] == G.E(Z[j], sec.w[inv[j]] as int - sec.u[j])
    ensures DeltaOf(G, base, Z, sec, pi, inv) == Mul(Mul(G.E(base, sec.tau0), Prod(N1, G.p), G.p), Prod(N3, G.p), G.p)
  {
    var n := |Z|;
    var exps := DeltaExponents(sec, pi);
    var powers := seq(n, i requires 0 <= i < n => N1[pi[i]]);
    PowSum(G, base, sec.tau0, exps, powers);
    PowIsE(G, base, SumMod(sec.tau0, exps, G.q));
    PermutedMultiset(N1, pi, inv, powers);
    ProdReorder(powers, N1, G.p);
    assert DeltaTerms(G, Z, sec, inv) == N3;
  }

  lemma {:induction false} TauSide(G: Params, base: int, sec: Secrets, b: seq<int>, tau: nat, N2: seq<int>)
    requires G.Valid() && G.InGroup(base) && |b| == |N2| && sec.Sized(|b|)
    requires forall j :: 0 <= j < |b| ==> N2[j] == G.E(base, b[j] * sec.beta[j])
    requires tau == SumMod(G.q - sec.tau0, TauExponents(b, sec.beta), G.q)
    ensures Pow(base, tau, G.p) == Mul(G.E(base, -(sec.tau0 as int)), Prod(N2, G.p), G.p)
  {
    PowSum(G, base, G.q - sec.tau0, TauExponents(b, sec.beta), N2);
    PowIsE(G, base, tau);
    CongMultiple(-(sec.tau0 as int), 1, G.q);
    ECong(G, base, G.q - sec.tau0, -(sec.tau0 as int));
  }

  /** Both sides are the same product, factor by factor. */
  lemma {:induction false} SidesMatch(LA: seq<int>, LZ: seq<int>, N1: seq<int>, N2: seq<int>, N3: seq<int>, p: int)
    requires p > 1 && |LA| == |LZ| == |N1| == |N2| == |N3|
    requires forall j :: 0 <= j < |LA| ==> Mul(LA[j], LZ[j], p) == Mul(Mul(N1[j], N3[j], p), N2[j], p)
    ensures Mul(Prod(LA, p), Prod(LZ, p), p) == Mul(Mul(Prod(N1, p), Prod(N3, p), p), Prod(N2, p), p)
  {
    var n := |LA|;
    var M := seq(n, j requires 0 <= j < n => Mul(LA[j], LZ[j], p));
    var N13 := seq(n, j requires 0 <= j < n => Mul(N1[j], N3[j], p));
    ProdZip(LA, LZ, M, p);
    ProdZip(N1, N3, N13, p);
    ProdZip(N13, N2, M, p);
  }

  /** The factor sequences of both sides, indexed by input. */
  ghost predicate Factors(G: Params, base: int, Z: seq<int>, sec: Secrets, inv: seq<int>, b: seq<int>, ps: seq<nat>,
                          LA: seq<int>, LZ: seq<int>, N1: seq<int>, N2: seq<int>, N3: seq<int>)
    requires G.Valid() && |Z| == |b| == |ps| == |inv| && sec.Sized(|Z|) && forall i :: 0 <= i < |inv| ==> 0 <= inv[i] < |inv|
  {
    && |LA| == |LZ| == |N1| == |N2| == |N3| == |Z|
    && (forall j :: 0 <= j < |Z| ==> LA[j] == OutputFactor(G, base, Z[j], sec.beta[j], sec.w[inv[j]], b[j]))
    && (forall j :: 0 <= j < |Z| ==> LZ[j] == G.E(Z[j], -(ps[j] as int)))
    && (forall j :: 0 <= j < |Z| ==> N1[j] == G.E(base, sec.w[inv[j]] * sec.beta[j]))
    && (forall j :: 0 <= j < |Z| ==> N2[j] == G.E(base, b[j] * sec.beta[j]))
    && (forall j :: 0 <= j < |Z| ==> N3[j] == G.E(Z[j], sec.w[inv[j]] as int - sec.u[j]))
  }

  lemma {:induction false} FactorsMatch(G: Params, base: int, Z: seq<int>, bars: seq<int>, sec: Secrets, pi: seq<int>, inv: seq<int>,
                                        b: seq<int>, ps: seq<nat>, sigma: seq<nat>,
                                        LA: seq<int>, LZ: seq<int>, N1: seq<int>, N2: seq<int>, N3: seq<int>)
    requires Setting(G, base, Z, bars, sec, pi, inv, b, ps, sigma)
    requires Factors(G, base, Z, sec, inv, b, ps, LA, LZ, N1, N2, N3)
    ensures Mul(Prod(LA, G.p), Prod(LZ, G.p), G.p) == Mul(Mul(Prod(N1, G.p), Prod(N3, G.p), G.p), Prod(N2, G.p), G.p)
  {
    forall j | 0 <= j < |Z| ensures Mul(LA[j], LZ[j], G.p) == Mul(Mul(N1[j], N3[j], G.p), N2[j], G.p) {
      TermsMatch(G, base, Z[j], sec.beta[j], sec.w[inv[j]], b[j], ps[j], sec.u[j]);
    }
    SidesMatch(LA, LZ, N1, N2, N3, G.p);
  }

  lemma {:induction false} LeftSide(G: Params, base: int, Z: seq<int>, bars: seq<int>, sec: Secrets, pi: seq<int>, inv: seq<int>,
                                    b: seq<int>, ps: seq<nat>, sigma: seq<nat>,
                                    LA: seq<int>, LZ: seq<int>, N1: seq<int>, N2: seq<int>, N3: seq<int>)
    requires Setting(G, base, Z, bars, sec, pi, inv, b, ps, sigma)
    requires Factors(G, base, Z, sec, inv, b, ps, LA, LZ, N1, N2, N3)
    ensures Prod(IotaTerms(G, bars, Z, sigma, ps), G.p) == Mul(Mul(Prod(N1, G.p), Prod(N3, G.p), G.p), Prod(N2, G.p), G.p)
  {
    FactorsMatch(G, base, Z, bars, sec, pi, inv, b, ps, sigma, LA, LZ, N1, N2, N3);
    OutputSide(G, base, Z, bars, sec, pi, inv, b, ps, sigma, LA, LZ);
  }

  lemma {:induction false} RightSide(G: Params, base: int, Z: seq<int>, sec: Secrets, pi: seq<int>, inv: seq<int>,
                                     b: seq<int>, ps: seq<nat>, tau: nat,
                                     LA: seq<int>, LZ: seq<int>, N1: seq<int>, N2: seq<int>, N3: seq<int>)
    requires G.Valid() && G.InGroup(base) && |Z| == |pi| == |b| == |ps| && sec.Sized(|Z|) && Inverts(pi, inv)
    requires forall i :: 0 <= i < |Z| ==> G.InGroup(Z[i])
    requires Factors(G, base, Z, sec, inv, b, ps, LA, LZ, N1, N2, N3)
    requires tau == SumMod(G.q - sec.tau0, TauExponents(b, sec.beta), G.q)
    ensures Mul(DeltaOf(G, base, Z, sec, pi, inv), Pow(base, tau, G.p), G.p)
            == Mul(Mul(Prod(N1, G.p), Prod(N3, G.p), G.p), Prod(N2, G.p), G.p)
  {
    DeltaSide(G, base, Z, sec, pi, inv, N1, N3);
    TauSide(G, base, sec, b, tau, N2);
    BlindingCancels(G, base, sec.tau0, Prod(N1, G.p), Prod(N2, G.p), Prod(N3, G.p));
  }

  lemma {:induction false} IotaByFactors(G: Params, base: int, Z: seq<int>, bars: seq<int>, sec: Secrets, pi: seq<int>, inv: seq<int>,
                                         b: seq<int>, ps: seq<nat>, sigma: seq<nat>, tau: nat,
                                         LA: seq<int>, LZ: seq<int>, N1: seq<int>, N2: seq<int>, N3: seq<int>)
    requires Setting(G, base, Z, bars, sec, pi, inv, b, ps, sigma)
    requires Factors(G, base, Z, sec, inv, b, ps, LA, LZ, N1, N2, N3)
    requires tau == SumMod(G.q - sec.tau0, TauExponents(b, sec.beta), G.q)
    ensures Prod(IotaTerms(G, bars, Z, sigma, ps), G.p)
            == Mul(DeltaOf(G, base, Z, sec, pi, inv), Pow(base, tau, G.p), G.p)
  {
    LeftSide(G, base, Z, bars, sec, pi, inv, b, ps, sigma, LA, LZ, N1, N2, N3);
    RightSide(G, base, Z, sec, pi, inv, b, ps, tau, LA, LZ, N1, N2, N3);
  }

  /** iota equals Delta * base^tau, for either half of the ciphertexts. */
  lemma {:induction false} IotaHolds(G: Params, base: int, Z: seq<int>, bars: seq<int>, sec: Secrets, pi: seq<int>, inv: seq<int>,
                                     b: seq<int>, ps: seq<nat>, sigma: seq<nat>, tau: nat)
    requires Setting(G, base, Z, bars, sec, pi, inv, b, ps, sigma)
    requires tau == SumMod(G.q - sec.tau0, TauExponents(b, sec.beta), G.q)
    ensures Prod(IotaTerms(G, bars, Z, sigma, ps), G.p)
            == Mul(DeltaOf(G, base, Z, sec, pi, inv), Pow(base, tau, G.p), G.p)
  {
    var LA, LZ, N1, N2, N3 := FactorsExist(G, base, Z, sec, inv, b, ps);
    IotaByFactors(G, base, Z, bars, sec, pi, inv, b, ps, sigma, tau, LA, LZ, N1, N2, N3);
  }

  lemma {:induction false} FactorsExist(G: Params, base: int, Z: seq<int>, sec: Secrets, inv: seq<int>, b: seq<int>, ps: seq<nat>)
    returns (LA: seq<int>, LZ: seq<int>, N1: seq<int>, N2: seq<int>, N3: seq<int>)
    requires G.Valid() && |Z| == |b| == |ps| == |inv| && sec.Sized(|Z|) && forall i :: 0 <= i < |inv| ==> 0 <= inv[i] < |inv|
    ensures Factors(G, base, Z, sec, inv, b, ps, LA, LZ, N1, N2, N3)
  {
    var n := |Z|;
    LA := seq(n, j requires 0 <= j < n => OutputFactor(G, base, Z[j], sec.beta[j], sec.w[inv[j]], b[j]));
    LZ := seq(n, j requires 0 <= j < n => G.E(Z[j], -(ps[j] as int)));
    N1 := seq(n, j requires 0 <= j < n => G.E(base, sec.w[inv[j]] * sec.beta[j]));
    N2 := seq(n, j requires 0 <= j < n => G.E(base, b[j] * sec.beta[j]));
    N3 := seq(n, j requires 0 <= j < n => G.E(Z[j], sec.w[inv[j]] as int - sec.u[j]));
  }
}
