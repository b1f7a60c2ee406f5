/** Completeness of the shuffle proof: which honest transcripts the verifier accepts. */
module NeffCompleteness {
  import opened Modular
  import opened Group
  import opened NeffSpec
  import opened NeffLinks
  import opened NeffIota

  // ----- powers of the generator -----

  /** Pow(g^e, n) for the exponents the transcript uses. */
  lemma {:induction false} PowOfE(G: Params, e: int, n: nat)
    requires G.Valid()
    ensures Pow(G.E(G.g, e), n, G.p) == G.E(G.g, e * n)
  {
    One(G);
    EClosed(G, G.g, e);
    PowIsE(G, G.E(G.g, e), n);
    EMul(G, G.g, e, n);
  }

  lemma {:induction false} MulOfE(G: Params, e: int, f: int)
    requires G.Valid()
    ensures Mul(G.E(G.g, e), G.E(G.g, f), G.p) == G.E(G.g, e + f)
  {
    One(G);
    EAdd(G, G.g, e, f);
  }

  lemma {:induction false} PowG(G: Params, n: nat)
    requires G.Valid()
    ensures Pow(G.g, n, G.p) == G.E(G.g, n)
  {
    One(G);
    PowIsE(G, G.g, n);
  }

  lemma {:induction false} InverseOfE(G: Params, e: int)
    requires G.Valid()
    ensures Inverse(G.E(G.g, e), G.p) == G.E(G.g, -e)
  {
    One(G);
    EClosed(G, G.g, e);
    InverseIsE(G, G.E(G.g, e));
    EMul(G, G.g, e, -1);
  }

  lemma {:induction false} CongNegMul(e: int, n: int, q: int)
    requires q > 0
    ensures Cong(e * (q - n), -(e * n), q)
  {
    assert e * (q - n) == -(e * n) + e * q;
    CongMultiple(-(e * n), e, q);
  }

  lemma {:induction false} PowNeg(G: Params, e: int, n: nat)
    requires G.Valid() && n <= G.q
    ensures Pow(G.E(G.g, e), G.q - n, G.p) == G.E(G.g, -(e * n))
  {
    PowOfE(G, e, G.q - n);
    CongNegMul(e, n, G.q);
    ECong(G, G.g, e * (G.q - n), -(e * n));
  }

  lemma {:induction false} PowGNeg(G: Params, n: int)
    requires G.Valid() && 0 <= n <= G.q
    ensures Pow(G.g, G.q - n, G.p) == G.E(G.g, -n)
  {
    EOne(G, G.g);
    PowNeg(G, 1, n);
  }

  // ----- the shifted shares R_t and S_t -----

  lemma {:induction false} BlindedBIs(G: Params, p: int, u: int, b: int)
    requires G.Valid() && p >= 0 && u >= 0 && b == (p - u) % G.q
    ensures BlindedB(G, p, Pow(G.g, u, G.p)) == G.E(G.g, b)
  {
    PowG(G, p);
    PowG(G, u);
    InverseOfE(G, u);
    MulOfE(G, p, -u);
    CongMod(p - u, G.q);
    ECong(G, G.g, p - u, b);
  }

  lemma {:induction false} ResponseIs(G: Params, a: nat, lambda: nat, b: int, r: int)
    requires G.Valid() && r == (a + lambda * b) % G.q
    ensures Mul(Pow(G.g, a, G.p), Pow(G.E(G.g, b), lambda, G.p), G.p) == G.E(G.g, r)
  {
    PowG(G, a);
    PowOfE(G, b, lambda);
    MulOfE(G, a, b * lambda);
    CongMod(a + lambda * b, G.q);
    ECong(G, G.g, a + b * lambda, r);
  }

  lemma {:induction false} ShiftedRIs(G: Params, a: nat, p: nat, u: nat, lambda: nat, t: int, b: int, r: int, rt: int)
    requires G.Valid() && 0 <= t <= G.q
    requires b == (p - u) % G.q && r == (a + lambda * b) % G.q && rt == (r - t) % G.q
    ensures ShiftedR(G, Pow(G.g, a, G.p), BlindedB(G, p, Pow(G.g, u, G.p)), lambda, t) == G.E(G.g, rt)
  {
    BlindedBIs(G, p, u, b);
    ResponseIs(G, a, lambda, b, r);
    PowGNeg(G, t);
    MulOfE(G, r, -t);
    CongMod(r - t, G.q);
    ECong(G, G.g, r - t, rt);
  }

  lemma {:induction false} GammaResponseCong(q: int, a: int, gamma: int, lambda: int, b: int, r: int, s: int)
    requires q > 0 && r == (a + lambda * b) % q && s == (gamma * r) % q
    ensures Cong(a * gamma + ((gamma * b) % q) * lambda, s, q)
  {
    CongMod(gamma * b, q);
    CongMul((gamma * b) % q, gamma * b, lambda, lambda, q);
    CongAdd(a * gamma, a * gamma, ((gamma * b) % q) * lambda, gamma * b * lambda, q);
    assert a * gamma + gamma * b * lambda == gamma * (a + lambda * b) by {
      assert gamma * b * lambda == gamma * (lambda * b);
    }
    CongMod(a + lambda * b, q);
    CongMul(gamma, gamma, r, a + lambda * b, q);
    CongMod(gamma * r, q);
  }

  lemma {:induction false} GammaResponseIs(G: Params, a: nat, gamma: nat, lambda: nat, b: int, r: int, s: int)
    requires G.Valid() && r == (a + lambda * b) % G.q && s == (gamma * r) % G.q
    ensures Mul(Pow(Pow(G.g, a, G.p), gamma, G.p), Pow(Pow(G.g, (gamma * b) % G.q, G.p), lambda, G.p), G.p) == G.E(G.g, s)
  {
    var d := (gamma * b) % G.q;
    PowG(G, a);
    PowG(G, d);
    PowOfE(G, a, gamma);
    PowOfE(G, d, lambda);
    MulOfE(G, a * gamma, d * lambda);
    GammaResponseCong(G.q, a, gamma, lambda, b, r, s);
    ECong(G, G.g, a * gamma + d * lambda, s);
  }

  lemma {:induction false} ShiftedSIs(G: Params, a: nat, gamma: nat, lambda: nat, t: nat, b: int, r: int, s: int, st: int)
    requires G.Valid() && t <= G.q
    requires r == (a + lambda * b) % G.q && s == (gamma * r) % G.q && st == (s - gamma * t) % G.q
    ensures ShiftedS(G, Pow(Pow(G.g, a, G.p), gamma, G.p), Pow(G.g, (gamma * b) % G.q, G.p),
                     Pow(G.g, gamma, G.p), lambda, t) == G.E(G.g, st)
  {
    GammaResponseIs(G, a, gamma, lambda, b, r, s);
    PowG(G, gamma);
    PowNeg(G, gamma, t);
    MulOfE(G, s, -(gamma * t));
    CongMod(s - gamma * t, G.q);
    ECong(G, G.g, s - gamma * t, st);
  }

  /** s_t is gamma times the r_t it hides. */
  lemma {:induction false} StIsGammaRt(q: int, gamma: int, t: int, r: int, s: int, rt: int, st: int)
    requires q > 0 && s == (gamma * r) % q && rt == (r - t) % q && st == (s - gamma * t) % q
    ensures Cong(st, gamma * rt, q)
  {
    CongMod(s - gamma * t, q);
    CongMod(gamma * r, q);
    CongAdd(s, gamma * r, gamma * t, gamma * t, q);
    assert gamma * r - gamma * t == gamma * (r - t);
    CongMod(r - t, q);
    CongMul(gamma, gamma, rt, r - t, q);
  }

  // ----- what the Theta equations say about exponents -----

  lemma {:induction false} CongCancel(x: int, y: int, a: int, b: int, q: int)
    requires q > 0 && x - y == a - b
    ensures Cong(x, y, q) <==> Cong(a, b, q)
  {
    if Cong(x, y, q) {
      var k := CongWitness(x, y, q);
      CongByQuotient(a, b, k, q);
    }
    if Cong(a, b, q) {
      var k := CongWitness(a, b, q);
      CongByQuotient(x, y, k, q);
    }
  }

  lemma {:induction false} ThetaCong(q: int, R: int, S: int, x: int, y: int, t0: int, t1: int, before: int, after: int)
    requires q > 0 && Cong(x, t0 + before, q) && Cong(y, t1 + after, q)
    ensures Cong(t0 * R - t1 * S, R * x - S * y, q) <==> Cong(S * after, R * before, q)
  {
    CongMul(R, R, x, t0 + before, q);
    CongMul(S, S, y, t1 + after, q);
    CongAdd(R * x, R * (t0 + before), S * y, S * (t1 + after), q);
    var e, f := t0 * R - t1 * S, R * (t0 + before) - S * (t1 + after);
    assert e - f == S * after - R * before by {
      assert R * (t0 + before) == t0 * R + R * before;
      assert S * (t1 + after) == t1 * S + S * after;
    }
    CongCancel(e, f, S * after, R * before, q);
  }

  /** The shape of every Theta equation: R^x * S^(-y) against g^(t0*R - t1*S), where x and y
      exceed the blinding t0 and t1 by the responses before and after. */
  lemma {:induction false} ThetaEquation(G: Params, R: int, S: int, x: nat, y: nat, t0: int, t1: int, before: int, after: int)
    requires G.Valid() && y <= G.q
    requires Cong(x, t0 + before, G.q) && Cong(y, t1 + after, G.q)
    ensures G.E(G.g, t0 * R - t1 * S) == Mul(Pow(G.E(G.g, R), x, G.p), Pow(G.E(G.g, S), G.q - y, G.p), G.p)
            <==> Cong(S * after, R * before, G.q)
  {
    PowOfE(G, R, x);
    PowNeg(G, S, y);
    MulOfE(G, R * x, -(S * y));
    GeneratorInjective(G, t0 * R - t1 * S, R * x - S * y);
    ThetaCong(G.q, R, S, x, y, t0, t1, before, after);
  }

  // ----- from honest transcripts to the verifier's checks -----

  lemma {:induction false} AlphaInRange(P: Prover, rand: Oracle, T: Transcript, K: Work)
    requires P.Ready() && |K.rt| == |K.st| == |P.input| && HonestAlphas(P, ChallengeC(rand, P.input, T), T.alpha, K)
    ensures forall i :: 0 <= i < |T.alpha| ==> T.alpha[i] <= P.G.q
  {
  }

  /** alpha[i] blinds the i-th response, and Theta[i] has the honest exponent. */
  ghost predicate AlphaAt(G: Params, c: int, sec: Secrets, T: Transcript, K: Work, i: nat)
    requires G.q > 1 && |K.rt| == |K.st| && i < 2 * |K.rt| - 1 && |sec.theta| == |T.alpha| == 2 * |K.rt| - 1
  {
    Cong(T.alpha[i], sec.theta[i] + Response(G, c, sec, K, i), G.q)
  }

  ghost predicate Sizes(G: Params, rand: Oracle, input: seq<Pair>, sec: Secrets, T: Transcript, K: Work) {
    && G.Valid() && WellFormed(G, |input|, T) && sec.Sized(|input|) && |K.rt| == |K.st| == |input|
    && ChallengeT(rand, input, T) <= G.q && ChallengeC(rand, input, T) <= G.q
  }

  lemma {:induction false} ThetaLow(G: Params, input: seq<Pair>, sec: Secrets, rand: Oracle, T: Transcript, K: Work, i: nat)
    requires Sizes(G, rand, input, sec, T, K) && i < |input|
    requires T.Theta[i] == G.E(G.g, ThetaExponent(sec, K, i))
    requires RtOf(G, rand, input, T, i) == G.E(G.g, K.rt[i]) && StOf(G, rand, input, T, i) == G.E(G.g, K.st[i])
    requires AlphaAt(G, ChallengeC(rand, input, T), sec, T, K, i)
    requires i > 0 ==> AlphaAt(G, ChallengeC(rand, input, T), sec, T, K, i - 1)
    ensures T.Theta[i] == ThetaCheck(G, rand, input, T, i) <==> LinkedAt(G, ChallengeC(rand, input, T), sec, K, i)
  {
    var c := ChallengeC(rand, input, T);
    var before, after := Before(G, c, sec, K, i), Response(G, c, sec, K, i);
    if i == 0 {
      ThetaEquation(G, K.rt[0], K.st[0], c, T.alpha[0], 0, sec.theta[0], before, after);
      assert 0 * K.rt[0] - sec.theta[0] * K.st[0] == -(sec.theta[0] * K.st[0]);
    } else {
      ThetaEquation(G, K.rt[i], K.st[i], T.alpha[i - 1], T.alpha[i], sec.theta[i - 1], sec.theta[i], before, after);
    }
  }

  lemma {:induction false} ThetaHigh(G: Params, input: seq<Pair>, sec: Secrets, rand: Oracle, T: Transcript, K: Work, i: nat)
    requires Sizes(G, rand, input, sec, T, K) && |input| <= i < 2 * |input|
    requires T.Theta[i] == G.E(G.g, ThetaExponent(sec, K, i)) && T.shares.Gamma == Pow(G.g, sec.gamma, G.p)
    requires AlphaAt(G, ChallengeC(rand, input, T), sec, T, K, i - 1)
    requires i < 2 * |input| - 1 ==> AlphaAt(G, ChallengeC(rand, input, T), sec, T, K, i)
    ensures T.Theta[i] == ThetaCheck(G, rand, input, T, i) <==> LinkedAt(G, ChallengeC(rand, input, T), sec, K, i)
  {
    var c := ChallengeC(rand, input, T);
    var before, after := Before(G, c, sec, K, i), Response(G, c, sec, K, i);
    PowG(G, sec.gamma);
    EOne(G, G.g);
    if i < 2 * |input| - 1 {
      ThetaEquation(G, sec.gamma, 1, T.alpha[i - 1], T.alpha[i], sec.theta[i - 1], sec.theta[i], before, after);
      assert sec.theta[i - 1] * sec.gamma == sec.gamma * sec.theta[i - 1];
    } else {
      LastResponse(G, c, sec, K);
      ThetaEquation(G, sec.gamma, 1, T.alpha[i - 1], c, sec.theta[i - 1], 0, before, after);
      assert sec.theta[i - 1] * sec.gamma == sec.gamma * sec.theta[i - 1];
    }
  }

  lemma {:induction false} AlphaCong(P: Prover, rand: Oracle, T: Transcript, K: Work, i: nat)
    requires P.Ready() && |K.rt| == |K.st| == |P.input| && HonestAlphas(P, ChallengeC(rand, P.input, T), T.alpha, K) && i < |T.alpha|
    ensures AlphaAt(P.G, ChallengeC(rand, P.input, T), P.sec, T, K, i)
  {
    CongMod(P.sec.theta[i] + Response(P.G, ChallengeC(rand, P.input, T), P.sec, K, i), P.G.q);
  }

  /** The verifier recomputes g^r_t and g^s_t. */
  lemma {:induction false} RtAt(P: Prover, rand: Oracle, T: Transcript, K: Work, i: nat)
    requires P.Ready() && WellFormed(P.G, |P.input|, T) && i < |P.input| && ChallengeT(rand, P.input, T) <= P.G.q
    requires HonestCommitments(P, T.shares) && HonestB(P, rand, T.shares, K.b) && HonestWork(P, ChallengeLambda(rand, P.input, T), ChallengeT(rand, P.input, T), K)
    ensures RtOf(P.G, rand, P.input, T, i) == P.G.E(P.G.g, K.rt[i])
  {
    ShiftedRIs(P.G, P.sec.a[i], ChallengeP(rand, P.input, T, i), P.sec.u[i], ChallengeLambda(rand, P.input, T),
               ChallengeT(rand, P.input, T), K.b[i], K.r[i], K.rt[i]);
  }

  lemma {:induction false} StAt(P: Prover, rand: Oracle, T: Transcript, K: Work, i: nat)
    requires P.Ready() && WellFormed(P.G, |P.input|, T) && i < |P.input| && ChallengeT(rand, P.input, T) <= P.G.q
    requires HonestCommitments(P, T.shares) && |K.b| == |P.input| && HonestBlinding(P, T.D, K.b) && HonestWork(P, ChallengeLambda(rand, P.input, T), ChallengeT(rand, P.input, T), K)
    ensures StOf(P.G, rand, P.input, T, i) == P.G.E(P.G.g, K.st[i])
  {
    var j := P.pi[i];
    assert T.shares.A[j] == Pow(P.G.g, P.sec.a[j], P.G.p);
    ShiftedSIs(P.G, P.sec.a[j], P.sec.gamma, ChallengeLambda(rand, P.input, T), ChallengeT(rand, P.input, T),
               K.b[j], K.r[j], K.s[i], K.st[i]);
  }

  /** Each Theta equation holds exactly when its two neighbouring responses are linked. */
  lemma {:induction false} ThetaAt(P: Prover, rand: Oracle, T: Transcript, K: Work, i: nat)
    requires P.Ready() && Sizes(P.G, rand, P.input, P.sec, T, K) && i < 2 * |P.input|
    requires HonestCommitments(P, T.shares) && HonestThetas(P, T.Theta, K) && HonestAlphas(P, ChallengeC(rand, P.input, T), T.alpha, K)
    requires i < |P.input| ==> RtOf(P.G, rand, P.input, T, i) == P.G.E(P.G.g, K.rt[i])
    requires i < |P.input| ==> StOf(P.G, rand, P.input, T, i) == P.G.E(P.G.g, K.st[i])
    ensures T.Theta[i] == ThetaCheck(P.G, rand, P.input, T, i)
            <==> LinkedAt(P.G, ChallengeC(rand, P.input, T), P.sec, K, i)
  {
    if 0 < i {
      AlphaCong(P, rand, T, K, i - 1);
    }
    if i < 2 * |P.input| - 1 {
      AlphaCong(P, rand, T, K, i);
    }
    if i < |P.input| {
      ThetaLow(P.G, P.input, P.sec, rand, T, K, i);
    } else {
      ThetaHigh(P.G, P.input, P.sec, rand, T, K, i);
    }
  }

  lemma {:induction false} WorkHides(P: Prover, rand: Oracle, T: Transcript, K: Work)
    requires P.Ready() && HonestWork(P, ChallengeLambda(rand, P.input, T), ChallengeT(rand, P.input, T), K)
    ensures HidesByPermutation(P.G.q, P.sec.gamma, K, P.pi, P.inv)
  {
    forall i | 0 <= i < |P.pi|
      ensures Cong(K.st[i], P.sec.gamma * K.rt[P.pi[i]], P.G.q)
    {
      var j := P.pi[i];
      StIsGammaRt(P.G.q, P.sec.gamma, ChallengeT(rand, P.input, T), K.r[j], K.s[i], K.rt[j], K.st[i]);
    }
  }

  /** All 2k Theta equations hold exactly for the good draws. */
  lemma {:induction false} ThetasIff(P: Prover, rand: Oracle, T: Transcript, K: Work)
    requires P.Ready() && Sizes(P.G, rand, P.input, P.sec, T, K)
    requires HonestCommitments(P, T.shares) && HonestB(P, rand, T.shares, K.b) && HonestBlinding(P, T.D, K.b)
    requires HonestWork(P, ChallengeLambda(rand, P.input, T), ChallengeT(rand, P.input, T), K) && HonestThetas(P, T.Theta, K) && HonestAlphas(P, ChallengeC(rand, P.input, T), T.alpha, K)
    ensures ThetasHold(P.G, rand, P.input, T) <==> GoodDraws(P.G.q, ChallengeC(rand, P.input, T), P.sec.gamma, K.rt)
  {
    var c := ChallengeC(rand, P.input, T);
    WorkHides(P, rand, T, K);
    AllLinkedIff(P.G, c, P.sec, K, P.pi, P.inv);
    forall i | 0 <= i < 2 * |P.input|
      ensures T.Theta[i] == ThetaCheck(P.G, rand, P.input, T, i) <==> LinkedAt(P.G, c, P.sec, K, i)
    {
      if i < |P.input| {
        RtAt(P, rand, T, K, i);
        StAt(P, rand, T, K, i);
      }
      ThetaAt(P, rand, T, K, i);
    }
  }

  // ----- the sigma checks -----

  lemma {:induction false} SigmaCong(q: int, gamma: int, w: int, b: int, sigma: int)
    requires q > 0 && sigma == (w + b) % q
    ensures Cong(gamma * sigma, (gamma * w) % q + (gamma * b) % q, q)
  {
    CongMod(w + b, q);
    CongMul(gamma, gamma, sigma, w + b, q);
    CongMod(gamma * w, q);
    CongMod(gamma * b, q);
    CongAdd((gamma * w) % q, gamma * w, (gamma * b) % q, gamma * b, q);
    assert gamma * (w + b) == gamma * w + gamma * b;
  }

  lemma {:induction false} SigmaHolds(G: Params, gamma: nat, w: nat, b: int, sigma: nat)
    requires G.Valid() && sigma == (w + b) % G.q
    ensures Pow(Pow(G.g, gamma, G.p), sigma, G.p)
            == Mul(Pow(G.g, (gamma * w) % G.q, G.p), Pow(G.g, (gamma * b) % G.q, G.p), G.p)
  {
    PowG(G, gamma);
    PowOfE(G, gamma, sigma);
    PowG(G, (gamma * w) % G.q);
    PowG(G, (gamma * b) % G.q);
    MulOfE(G, (gamma * w) % G.q, (gamma * b) % G.q);
    SigmaCong(G.q, gamma, w, b, sigma);
    ECong(G, G.g, gamma * sigma, (gamma * w) % G.q + (gamma * b) % G.q);
  }

  lemma {:induction false} SigmasAlwaysHold(P: Prover, T: Transcript, b: seq<int>)
    requires P.Ready() && WellFormed(P.G, |P.input|, T) && |b| == |P.input|
    requires HonestCommitments(P, T.shares) && HonestBlinding(P, T.D, b) && HonestResponses(P, T.tau, T.sigma, b)
    ensures SigmasHold(P.G, |P.input|, T)
  {
    forall i | 0 <= i < |P.input|
      ensures Pow(T.shares.Gamma, T.sigma[i], P.G.p) == Mul(T.shares.W[i], T.D[i], P.G.p)
    {
      SigmaHolds(P.G, P.sec.gamma, P.sec.w[i], b[P.pi[i]], T.sigma[i]);
    }
  }

  // ----- the iota equations -----

  lemma {:induction false} SharedSetting(P: Prover, rand: Oracle, T: Transcript, b: seq<int>)
    requires P.Ready() && OracleInRange(rand, P.G.q) && WellFormed(P.G, |P.input|, T) && InputsInGroup(P.G, P.input)
    requires HonestOutput(P, T.shares.output) && HonestB(P, rand, T.shares, b) && HonestResponses(P, T.tau, T.sigma, b)
    ensures Setting(P.G, P.G.g, Shareds(P.input), Shareds(T.shares.output), P.sec, P.pi, P.inv, b,
                    PChallenges(rand, P.input, T), T.sigma)
  {
    One(P.G);
    var Z, bars, ps := Shareds(P.input), Shareds(T.shares.output), PChallenges(rand, P.input, T);
    assert forall i :: 0 <= i < |Z| ==> Z[i] == P.input[i].shared;
    assert forall i :: 0 <= i < |Z| ==> bars[i] == T.shares.output[i].shared;
    assert forall i :: 0 <= i < |Z| ==> ps[i] == ChallengeP(rand, P.input, T, i);
  }

  lemma {:induction false} SecretSetting(P: Prover, rand: Oracle, T: Transcript, b: seq<int>)
    requires P.Ready() && OracleInRange(rand, P.G.q) && WellFormed(P.G, |P.input|, T) && InputsInGroup(P.G, P.input) && P.G.InGroup(P.h)
    requires HonestOutput(P, T.shares.output) && HonestB(P, rand, T.shares, b) && HonestResponses(P, T.tau, T.sigma, b)
    ensures Setting(P.G, P.h, Secretses(P.input), Secretses(T.shares.output), P.sec, P.pi, P.inv, b,
                    PChallenges(rand, P.input, T), T.sigma)
  {
    One(P.G);
    var Z, bars, ps := Secretses(P.input), Secretses(T.shares.output), PChallenges(rand, P.input, T);
    assert forall i :: 0 <= i < |Z| ==> Z[i] == P.input[i].secret;
    assert forall i :: 0 <= i < |Z| ==> bars[i] == T.shares.output[i].secret;
    assert forall i :: 0 <= i < |Z| ==> ps[i] == ChallengeP(rand, P.input, T, i);
  }

  lemma {:induction false} SharedIota(P: Prover, rand: Oracle, T: Transcript, b: seq<int>)
    requires P.Ready() && OracleInRange(rand, P.G.q) && WellFormed(P.G, |P.input|, T) && InputsInGroup(P.G, P.input)
    requires HonestOutput(P, T.shares.output) && HonestB(P, rand, T.shares, b) && HonestResponses(P, T.tau, T.sigma, b)
    ensures Prod(IotaTerms(P.G, Shareds(T.shares.output), Shareds(P.input), T.sigma, PChallenges(rand, P.input, T)), P.G.p)
            == Mul(DeltaOf(P.G, P.G.g, Shareds(P.input), P.sec, P.pi, P.inv), Pow(P.G.g, T.tau, P.G.p), P.G.p)
  {
    SharedSetting(P, rand, T, b);
    IotaHolds(P.G, P.G.g, Shareds(P.input), Shareds(T.shares.output), P.sec, P.pi, P.inv, b,
              PChallenges(rand, P.input, T), T.sigma, T.tau);
  }

  lemma {:induction false} SecretIota(P: Prover, rand: Oracle, T: Transcript, b: seq<int>)
    requires P.Ready() && OracleInRange(rand, P.G.q) && WellFormed(P.G, |P.input|, T) && InputsInGroup(P.G, P.input) && P.G.InGroup(P.h)
    requires HonestOutput(P, T.shares.output) && HonestB(P, rand, T.shares, b) && HonestResponses(P, T.tau, T.sigma, b)
    ensures Prod(IotaTerms(P.G, Secretses(T.shares.output), Secretses(P.input), T.sigma, PChallenges(rand, P.input, T)), P.G.p)
            == Mul(DeltaOf(P.G, P.h, Secretses(P.input), P.sec, P.pi, P.inv), Pow(P.h, T.tau, P.G.p), P.G.p)
  {
    SecretSetting(P, rand, T, b);
    IotaHolds(P.G, P.h, Secretses(P.input), Secretses(T.shares.output), P.sec, P.pi, P.inv, b,
              PChallenges(rand, P.input, T), T.sigma, T.tau);
  }

  lemma {:induction false} IotasAlwaysHold(P: Prover, rand: Oracle, T: Transcript, b: seq<int>)
    requires P.Ready() && OracleInRange(rand, P.G.q) && WellFormed(P.G, |P.input|, T)
    requires InputsInGroup(P.G, P.input) && P.G.InGroup(P.h)
    requires HonestOutput(P, T.shares.output) && HonestDeltas(P, T.shares) && HonestB(P, rand, T.shares, b) && HonestResponses(P, T.tau, T.sigma, b)
    ensures IotasHold(P.G, P.h, rand, P.input, T)
  {
    SharedIota(P, rand, T, b);
    SecretIota(P, rand, T, b);
  }

  // ----- the decryption proofs -----

  lemma {:induction false} ReencryptClosed(G: Params, h: int, c: Pair, beta: nat)
    requires G.Valid() && G.InGroup(h) && G.InGroup(c.shared) && G.InGroup(c.secret)
    ensures var r := Reencrypt(G, h, c, beta); G.InGroup(r.shared) && G.InGroup(r.secret)
  {
    One(G);
    PowClosed(G, G.g, beta);
    PowClosed(G, h, beta);
    Closed(G, c.shared, Pow(G.g, beta, G.p));
    Closed(G, c.secret, Pow(h, beta, G.p));
  }

  /** Dividing the ciphertext by its decryption leaves the mask. */
  lemma {:induction false} MaskIs(G: Params, secret: int, y: int)
    requires G.Valid() && G.InGroup(secret) && G.InGroup(y)
    ensures Mul(secret, Inverse(Mul(secret, Inverse(y, G.p), G.p), G.p), G.p) == y
  {
    var p, yi := G.p, Inverse(y, G.p);
    InverseIsE(G, y);
    var out := Mul(secret, yi, p);
    // secret * (y * secret^-1) == y, and y * secret^-1 inverts out
    InverseIsE(G, secret);
    var si := Inverse(secret, p);
    var z := Mul(y, si, p);
    MulComm(y, si, p);
    MulSwap(secret, yi, si, y, p);
    MulComm(yi, y, p);
    MulOne(1, p);
    ModSmall(1, p);
    assert Mul(out, z, p) == 1;
    InverseIs(out, z, p);
    ModSmall(z, p);
    MulComm(y, si, p);
    MulAssoc(secret, si, y, p);
    MulOne(y, p);
    ModSmall(y, p);
  }

  lemma {:induction false} DecryptionProofHolds(G: Params, x: nat, c: Pair, nonce: nat, challenge: nat)
    requires G.Valid() && G.InGroup(c.shared) && G.InGroup(c.secret)
    ensures DecryptionHolds(G, c, Decrypt(G, x, c),
                            (Pow(c.shared, nonce, G.p), (nonce + challenge * x) % G.q), challenge)
  {
    var s := (nonce + challenge * x) % G.q;
    PowIsE(G, c.shared, x);
    MaskIs(G, c.secret, G.E(c.shared, x));
    PowIsE(G, G.E(c.shared, x), challenge);
    EMul(G, c.shared, x, challenge);
    PowIsE(G, c.shared, nonce);
    EAdd(G, c.shared, nonce, x * challenge);
    PowIsE(G, c.shared, s);
    CongMod(nonce + challenge * x, G.q);
    ECong(G, c.shared, s, nonce + x * challenge);
  }

  lemma {:induction false} DecryptionsAlwaysHold(P: Prover, rand: Oracle, T: Transcript)
    requires P.Ready() && WellFormed(P.G, |P.input|, T) && InputsInGroup(P.G, P.input) && P.G.InGroup(P.h)
    requires HonestOutput(P, T.shares.output) && HonestDecryptions(P, rand, DecryptPrefix(T), T.shares.output, T.decrypted, T.proofs)
    ensures DecryptionsHold(P.G, rand, P.input, T)
  {
    forall i | 0 <= i < |P.input|
      ensures DecryptionHolds(P.G, T.shares.output[i], T.decrypted[i], T.proofs[i], ChallengeDecrypt(rand, P.input, T, i))
    {
      ReencryptClosed(P.G, P.h, P.input[P.pi[i]], P.sec.beta[P.pi[i]]);
      DecryptionProofHolds(P.G, P.x, T.shares.output[i], P.sec.nonces[i], ChallengeDecrypt(rand, P.input, T, i));
    }
  }

  /** Completeness, exactly: an honest transcript over in-group pairs, sorted by encoding, passes
      every check iff the draws leave gamma and all r[i] - t non-zero, or c is zero, modulo q. */
  lemma {:induction false} HonestAcceptedIff(P: Prover, encode: Pair -> seq<nat>, rand: Oracle, T: Transcript, K: Work)
    requires Honest(P, rand, T, K)
    requires InputsInGroup(P.G, P.input) && P.G.InGroup(P.h) && SortedOutput(encode, T.shares.output)
    ensures Accepts(P.G, P.h, encode, rand, P.input, T)
            <==> GoodDraws(P.G.q, ChallengeC(rand, P.input, T), P.sec.gamma, K.rt)
  {
    AlphaInRange(P, rand, T, K);
    ThetasIff(P, rand, T, K);
    SigmasAlwaysHold(P, T, K.b);
    IotasAlwaysHold(P, rand, T, K.b);
    DecryptionsAlwaysHold(P, rand, T);
  }

  // ----- honest transcripts exist, and some are rejected -----

  lemma {:induction false} SharesExist(P: Prover) returns (S: Shares)
    requires P.Ready()
    ensures HonestShares(P, S)
  {
    var k, p, q, g, sec := |P.input|, P.G.p, P.G.q, P.G.g, P.sec;
    var A: seq<nat> := seq(k, i requires 0 <= i < k => Pow(g, sec.a[i], p));
    S := Shares(seq(k, i requires 0 <= i < k => Reencrypt(P.G, P.h, P.input[P.pi[i]], sec.beta[P.pi[i]])),
                Pow(g, sec.gamma, p), A,
                seq(k, i requires 0 <= i < k => Pow(A[P.pi[i]], sec.gamma, p)),
                seq(k, i requires 0 <= i < k => Pow(g, sec.u[i], p)),
                seq(k, i requires 0 <= i < k => Pow(g, (sec.gamma * sec.w[i]) % q, p)),
                DeltaOf(P.G, g, Shareds(P.input), sec, P.pi, P.inv),
                DeltaOf(P.G, P.h, Secretses(P.input), sec, P.pi, P.inv));
  }

  lemma {:induction false} AnswersExist(P: Prover, rand: Oracle, S: Shares) returns (D: seq<nat>, tau: nat, sigma: seq<nat>, b: seq<int>)
    requires P.Ready()
    ensures HonestB(P, rand, S, b) && HonestBlinding(P, D, b) && HonestResponses(P, tau, sigma, b)
  {
    var k, q, sec := |P.input|, P.G.q, P.sec;
    b := seq(k, i requires 0 <= i < k => (rand(P.input, AfterShares(S), i) - sec.u[i]) % q);
    D := seq(k, i requires 0 <= i < k => Pow(P.G.g, (sec.gamma * b[P.pi[i]]) % q, P.G.p));
    sigma := seq(k, i requires 0 <= i < k => (sec.w[i] + b[P.pi[i]]) % q);
    tau := SumMod(q - sec.tau0, TauExponents(b, sec.beta), q);
  }

  lemma {:induction false} WorkExists(P: Prover, lambda: nat, t: nat, b: seq<int>) returns (K: Work)
    requires P.Ready() && |b| == |P.input|
    ensures HonestWork(P, lambda, t, K) && K.b == b
  {
    var k, q, gamma := |P.input|, P.G.q, P.sec.gamma;
    var r: seq<int> := seq(k, i requires 0 <= i < k => (P.sec.a[i] + lambda * b[i]) % q);
    var s: seq<int> := seq(k, i requires 0 <= i < k => (gamma * r[P.pi[i]]) % q);
    K := Work(b, r, s, seq(k, i requires 0 <= i < k => (r[i] - t) % q), seq(k, i requires 0 <= i < k => (s[i] - gamma * t) % q));
  }

  lemma {:induction false} ThetasExist(P: Prover, K: Work) returns (Theta: seq<nat>)
    requires P.Ready() && |K.rt| == |K.st| == |P.input|
    ensures HonestThetas(P, Theta, K)
  {
    Theta := seq(2 * |P.input|, i requires 0 <= i < 2 * |P.input| => P.G.E(P.G.g, ThetaExponent(P.sec, K, i)));
  }

  lemma {:induction false} AlphasExist(P: Prover, c: nat, K: Work) returns (alpha: seq<nat>)
    requires P.Ready() && |K.rt| == |K.st| == |P.input|
    ensures HonestAlphas(P, c, alpha, K)
  {
    var m := 2 * |P.input| - 1;
    alpha := seq(m, i requires 0 <= i < m => (P.sec.theta[i] + Response(P.G, c, P.sec, K, i)) % P.G.q);
  }

  function DecryptionProof(G: Params, x: nat, c: Pair, nonce: nat, challenge: nat): (nat, nat)
    requires G.p > 1 && G.q > 0
  {
    (Pow(c.shared, nonce, G.p), (nonce + challenge * x) % G.q)
  }

  lemma {:induction false} DecryptionsExist(P: Prover, rand: Oracle, prefix: Prefix, out: seq<Pair>) returns (decrypted: seq<Pair>, proofs: seq<(nat, nat)>)
    requires P.Ready() && |out| == |P.input|
    ensures HonestDecryptions(P, rand, prefix, out, decrypted, proofs)
  {
    var k := |P.input|;
    decrypted := seq(k, i requires 0 <= i < k => Decrypt(P.G, P.x, out[i]));
    proofs := seq(k, i requires 0 <= i < k => DecryptionProof(P.G, P.x, out[i], P.sec.nonces[i], rand(P.input, prefix, i)));
  }

  /** Every prover, with any secrets and challenges, has an honest transcript. */
  lemma {:induction false} HonestExists(P: Prover, rand: Oracle) returns (T: Transcript, K: Work)
    requires P.Ready() && OracleInRange(rand, P.G.q)
    ensures Honest(P, rand, T, K)
  {
    var S := SharesExist(P);
    var D, tau, sigma, b := AnswersExist(P, rand, S);
    K := WorkExists(P, rand(P.input, AfterBlinding(S, D), 0), rand(P.input, AfterResponses(S, D, tau, sigma), 0), b);
    var Theta := ThetasExist(P, K);
    var alpha := AlphasExist(P, rand(P.input, AfterThetas(S, D, tau, sigma, Theta), 0), K);
    var decrypted, proofs := DecryptionsExist(P, rand, AfterAlphas(S, D, tau, sigma, Theta, alpha), S.output);
    T := Transcript(S, D, tau, sigma, Theta, alpha, decrypted, proofs);
  }

  /** A prover of one pair whose u and a are 2. */
  function UnluckyProver(G: Params): Prover {
    Prover(G, 1, G.g, [Pair(1, 1)], Secrets([2], [2], [2], [2], 2, 2, [2], [2]), [0], [0])
  }

  ghost predicate AllTwo(rand: Oracle) {
    forall input, prefix, n :: rand(input, prefix, n) == 2
  }

  lemma {:induction false} UnluckyWork(G: Params, rand: Oracle, T: Transcript, K: Work)
    requires G.q > 2 && AllTwo(rand) && Honest(UnluckyProver(G), rand, T, K)
    ensures K.r == [2] && K.rt == [0] && 2 % G.q == 2
  {
    ModSmall(2, G.q);
    ModSmall(0, G.q);
    assert K.b[0] == (2 - 2) % G.q == 0;
    assert K.r[0] == (2 + 2 * 0) % G.q == 2;
    assert K.rt[0] == (2 - 2) % G.q == 0;
  }

  /** In every group: when all challenges are 2, that prover's r[0] equals t, c is not zero, and
      the verifier refuses every honest transcript... */
  lemma {:induction false} UnluckyRefused(G: Params, encode: Pair -> seq<nat>, rand: Oracle, T: Transcript, K: Work)
    requires G.Valid() && G.q > 2 && AllTwo(rand) && Honest(UnluckyProver(G), rand, T, K)
    ensures !Accepts(G, G.g, encode, rand, UnluckyProver(G).input, T)
  {
    var P := UnluckyProver(G);
    One(G);
    UnluckyWork(G, rand, T, K);
    assert ChallengeC(rand, P.input, T) == 2;
    assert K.rt[0] % G.q == 0;
    HonestAcceptedIff(P, encode, rand, T, K);
  }

  /** ... of which there is one. */
  lemma {:induction false} UnluckyRejected(G: Params, encode: Pair -> seq<nat>) returns (rand: Oracle, T: Transcript, K: Work)
    requires G.Valid() && G.q > 2
    ensures AllTwo(rand) && Honest(UnluckyProver(G), rand, T, K)
    ensures !Accepts(G, G.g, encode, rand, UnluckyProver(G).input, T)
  {
    rand := (input, prefix, n) => 2;
    T, K := HonestExists(UnluckyProver(G), rand);
    UnluckyRefused(G, encode, rand, T, K);
  }

  /** For one, in the group of order 3 modulo 7. */
  lemma {:induction false} RejectedModSeven(encode: Pair -> seq<nat>) returns (rand: Oracle, T: Transcript, K: Work)
    ensures Honest(UnluckyProver(Params(7, 3, 2)), rand, T, K)
    ensures !Accepts(Params(7, 3, 2), 2, encode, rand, [Pair(1, 1)], T)
  {
    var G := Params(7, 3, 2);
    assert Pow(2, 3, 7) == 1 by {
      assert Pow(2, 0, 7) == 1 && Pow(2, 1, 7) == 2 && Pow(2, 2, 7) == 4;
    }
    assert Prime(3);
    rand, T, K := UnluckyRejected(G, encode);
  }
}
