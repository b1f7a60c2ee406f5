/** What NeffShuffle writes and checks: the transcript of a verifiable shuffle, the equations an
    honest prover's transcript satisfies and the equations the verifier evaluates. */
module NeffSpec {
  import opened Modular
  import opened Group

  /** An ElGamal ciphertext: g^s and m * h^s. */
  datatype Pair = Pair(shared: nat, secret: nat)

  datatype Shares = Shares(output: seq<Pair>, Gamma: nat, A: seq<nat>, C: seq<nat>, U: seq<nat>,
                           W: seq<nat>, Delta0: nat, Delta1: nat)

  datatype Transcript = Transcript(shares: Shares, D: seq<nat>, tau: nat, sigma: seq<nat>,
                                   Theta: seq<nat>, alpha: seq<nat>,
                                   decrypted: seq<Pair>, proofs: seq<(nat, nat)>)

  /** The part of the proof hashed before each challenge. */
  datatype Prefix =
    | AfterShares(shares: Shares)
    | AfterBlinding(shares: Shares, D: seq<nat>)
    | AfterResponses(shares: Shares, D: seq<nat>, tau: nat, sigma: seq<nat>)
    | AfterThetas(shares: Shares, D: seq<nat>, tau: nat, sigma: seq<nat>, Theta: seq<nat>)
    | AfterAlphas(shares: Shares, D: seq<nat>, tau: nat, sigma: seq<nat>, Theta: seq<nat>, alpha: seq<nat>)

  /** The generator seeded by the hash of the input and a prefix; the number is the draw. */
  type Oracle = (seq<Pair>, Prefix, nat) -> nat

  /** Draws lie between 2 and the subgroup order, which the library includes. */
  ghost predicate OracleInRange(rand: Oracle, q: int) {
    forall input, prefix, n :: rand(input, prefix, n) <= q
  }

  /** Everything the prover draws privately. */
  datatype Secrets = Secrets(beta: seq<nat>, u: seq<nat>, w: seq<nat>, a: seq<nat>, gamma: nat, tau0: nat,
                             theta: seq<nat>, nonces: seq<nat>)
  {
    predicate Sized(k: nat) {
      |beta| == |u| == |w| == |a| == |nonces| == k && (k > 0 ==> |theta| == 2 * k - 1)
    }
  }

  // ----- challenges, as both sides recompute them -----

  function ChallengeP(rand: Oracle, input: seq<Pair>, T: Transcript, i: nat): nat {
    rand(input, AfterShares(T.shares), i)
  }

  function ChallengeLambda(rand: Oracle, input: seq<Pair>, T: Transcript): nat {
    rand(input, AfterBlinding(T.shares, T.D), 0)
  }

  function ChallengeT(rand: Oracle, input: seq<Pair>, T: Transcript): nat {
    rand(input, AfterResponses(T.shares, T.D, T.tau, T.sigma), 0)
  }

  function ChallengeC(rand: Oracle, input: seq<Pair>, T: Transcript): nat {
    rand(input, AfterThetas(T.shares, T.D, T.tau, T.sigma, T.Theta), 0)
  }

  function DecryptPrefix(T: Transcript): Prefix {
    AfterAlphas(T.shares, T.D, T.tau, T.sigma, T.Theta, T.alpha)
  }

  function ChallengeDecrypt(rand: Oracle, input: seq<Pair>, T: Transcript, i: nat): nat {
    rand(input, DecryptPrefix(T), i)
  }

  // ----- the honest prover -----

  function Reencrypt(G: Params, h: int, c: Pair, beta: nat): Pair
    requires G.p > 1
  {
    Pair(Mul(c.shared, Pow(G.g, beta, G.p), G.p), Mul(c.secret, Pow(h, beta, G.p), G.p))
  }

  /** One layer of decryption with private exponent x. */
  function Decrypt(G: Params, x: nat, c: Pair): Pair
    requires G.p > 1
  {
    Pair(c.shared, Mul(c.secret, Inverse(Pow(c.shared, x, G.p), G.p), G.p))
  }

  /** start + terms[0] + terms[1] + ..., reduced after every addition. */
  function SumMod(start: int, terms: seq<int>, q: int): (r: int)
    requires q > 0
    ensures start >= 0 || terms != [] ==> r >= 0
  {
    if terms == [] then start else (SumMod(start, terms[..|terms| - 1], q) + terms[|terms| - 1]) % q
  }

  /** The running quotient c * r[0]/s[0] * ... * r[i-1]/s[i-1] modulo q. */
  function Quotient(c: int, r: seq<int>, s: seq<int>, i: nat, q: int): int
    requires q > 1 && i <= |r| && i <= |s|
  {
    if i == 0 then c else (Quotient(c, r, s, i - 1, q) * r[i - 1] * Inverse(s[i - 1], q)) % q
  }

  /** The prover's working values, named as in the protocol. */
  datatype Work = Work(b: seq<int>, r: seq<int>, s: seq<int>, rt: seq<int>, st: seq<int>)

  function Shareds(input: seq<Pair>): seq<int> {
    seq(|input|, i requires 0 <= i < |input| => input[i].shared)
  }

  function Secretses(input: seq<Pair>): seq<int> {
    seq(|input|, i requires 0 <= i < |input| => input[i].secret)
  }

  ghost function DeltaExponents(sec: Secrets, pi: seq<int>): seq<int>
    requires sec.Sized(|pi|) && forall i :: 0 <= i < |pi| ==> 0 <= pi[i] < |pi|
  {
    seq(|pi|, i requires 0 <= i < |pi| => sec.w[i] * sec.beta[pi[i]])
  }

  ghost function DeltaTerms(G: Params, Z: seq<int>, sec: Secrets, inv: seq<int>): seq<int>
    requires G.p > 1 && G.q > 0 && |Z| == |inv| && sec.Sized(|Z|) && forall i :: 0 <= i < |inv| ==> 0 <= inv[i] < |inv|
  {
    seq(|Z|, i requires 0 <= i < |Z| => Pow(Z[i], (sec.w[inv[i]] - sec.u[i]) % G.q, G.p))
  }

  /** base^(tau0 + sum w*beta) * product of Z[i]^(w - u): Delta_0 and Delta_1. */
  ghost function DeltaOf(G: Params, base: int, Z: seq<int>, sec: Secrets, pi: seq<int>, inv: seq<int>): int
    requires G.p > 1 && G.q > 0 && |Z| == |pi| && sec.Sized(|Z|) && Inverts(pi, inv)
  {
    Mul(Pow(base, SumMod(sec.tau0, DeltaExponents(sec, pi), G.q), G.p), Prod(DeltaTerms(G, Z, sec, inv), G.p), G.p)
  }

  function TauExponents(b: seq<int>, beta: seq<nat>): seq<int>
    requires |b| == |beta|
  {
    seq(|b|, i requires 0 <= i < |b| => b[i] * beta[i])
  }

  /** The exponent of Theta[i]. */
  ghost function ThetaExponent(sec: Secrets, K: Work, i: nat): int
    requires |K.rt| == |K.st| > 0 && |sec.theta| == 2 * |K.rt| - 1 && i < 2 * |K.rt|
  {
    var k := |K.rt|;
    if i == 0 then -(sec.theta[0] * K.st[0])
    else if i < k then sec.theta[i - 1] * K.rt[i] - sec.theta[i] * K.st[i]
    else if i < 2 * k - 1 then sec.gamma * sec.theta[i - 1] - sec.theta[i]
    else sec.gamma * sec.theta[2 * k - 2]
  }

  /** What alpha[i] adds to theta[i]. */
  ghost function Response(G: Params, c: int, sec: Secrets, K: Work, i: nat): int
    requires G.q > 1 && |K.rt| == |K.st| && i < 2 * |K.rt|
  {
    var k := |K.rt|;
    if i < k then Quotient(c, K.rt, K.st, i + 1, G.q)
    else c * Pow(Inverse(sec.gamma, G.q), 2 * k - i - 1, G.q)
  }

  /** A prover: its group and private exponent, the combined key of everyone still to decrypt,
      the input, its secrets and the order in which it outputs. */
  datatype Prover = Prover(G: Params, x: nat, h: int, input: seq<Pair>, sec: Secrets, pi: seq<int>, inv: seq<int>) {
    ghost predicate Ready() {
      && G.Valid() && |input| > 0 && sec.Sized(|input|) && |pi| == |input| && Inverts(pi, inv)
    }
  }

  ghost predicate HonestOutput(P: Prover, out: seq<Pair>)
    requires P.Ready()
  {
    && |out| == |P.input|
    && forall i :: 0 <= i < |out| ==> out[i] == Reencrypt(P.G, P.h, P.input[P.pi[i]], P.sec.beta[P.pi[i]])
  }

  ghost predicate HonestCommitments(P: Prover, S: Shares)
    requires P.Ready()
  {
    var k, p, q, g := |P.input|, P.G.p, P.G.q, P.G.g;
    && |S.A| == |S.C| == |S.U| == |S.W| == k
    && S.Gamma == Pow(g, P.sec.gamma, p)
    && (forall i :: 0 <= i < k ==> S.A[i] == Pow(g, P.sec.a[i], p))
    && (forall i :: 0 <= i < k ==> S.U[i] == Pow(g, P.sec.u[i], p))
    && (forall i :: 0 <= i < k ==> S.W[i] == Pow(g, (P.sec.gamma * P.sec.w[i]) % q, p))
    && (forall i :: 0 <= i < k ==> S.C[i] == Pow(S.A[P.pi[i]], P.sec.gamma, p))
  }

  ghost predicate HonestDeltas(P: Prover, S: Shares)
    requires P.Ready()
  {
    && S.Delta0 == DeltaOf(P.G, P.G.g, Shareds(P.input), P.sec, P.pi, P.inv)
    && S.Delta1 == DeltaOf(P.G, P.h, Secretses(P.input), P.sec, P.pi, P.inv)
  }

  ghost predicate HonestShares(P: Prover, S: Shares)
    requires P.Ready()
  {
    HonestOutput(P, S.output) && HonestCommitments(P, S) && HonestDeltas(P, S)
  }

  ghost predicate HonestB(P: Prover, rand: Oracle, S: Shares, b: seq<int>)
    requires P.Ready()
  {
    && |b| == |P.input|
    && forall i :: 0 <= i < |b| ==> b[i] == (rand(P.input, AfterShares(S), i) - P.sec.u[i]) % P.G.q
  }

  ghost predicate HonestBlinding(P: Prover, D: seq<nat>, b: seq<int>)
    requires P.Ready() && |b| == |P.input|
  {
    && |D| == |b|
    && forall i :: 0 <= i < |b| ==> D[i] == Pow(P.G.g, (P.sec.gamma * b[P.pi[i]]) % P.G.q, P.G.p)
  }

  ghost predicate HonestResponses(P: Prover, tau: nat, sigma: seq<nat>, b: seq<int>)
    requires P.Ready() && |b| == |P.input|
  {
    && |sigma| == |b|
    && (forall i :: 0 <= i < |b| ==> sigma[i] == (P.sec.w[i] + b[P.pi[i]]) % P.G.q)
    && tau == SumMod(P.G.q - P.sec.tau0, TauExponents(b, P.sec.beta), P.G.q)
  }

  ghost predicate HonestWork(P: Prover, lambda: nat, t: nat, K: Work)
    requires P.Ready()
  {
    var k, q := |P.input|, P.G.q;
    && |K.b| == |K.r| == |K.s| == |K.rt| == |K.st| == k
    && (forall i :: 0 <= i < k ==> K.r[i] == (P.sec.a[i] + lambda * K.b[i]) % q)
    && (forall i :: 0 <= i < k ==> K.s[i] == (P.sec.gamma * K.r[P.pi[i]]) % q)
    && (forall i :: 0 <= i < k ==> K.rt[i] == (K.r[i] - t) % q)
    && (forall i :: 0 <= i < k ==> K.st[i] == (K.s[i] - P.sec.gamma * t) % q)
  }

  ghost predicate HonestThetas(P: Prover, Theta: seq<nat>, K: Work)
    requires P.Ready() && |K.rt| == |K.st| == |P.input|
  {
    && |Theta| == 2 * |P.input|
    && forall i :: 0 <= i < |Theta| ==> Theta[i] == P.G.E(P.G.g, ThetaExponent(P.sec, K, i))
  }

  ghost predicate HonestAlphas(P: Prover, c: nat, alpha: seq<nat>, K: Work)
    requires P.Ready() && |K.rt| == |K.st| == |P.input|
  {
    && |alpha| == 2 * |P.input| - 1
    && forall i :: 0 <= i < |alpha| ==> alpha[i] == (P.sec.theta[i] + Response(P.G, c, P.sec, K, i)) % P.G.q
  }

  ghost predicate HonestDecryptions(P: Prover, rand: Oracle, prefix: Prefix, out: seq<Pair>, decrypted: seq<Pair>, proofs: seq<(nat, nat)>)
    requires P.Ready() && |out| == |P.input|
  {
    var k := |P.input|;
    && |decrypted| == |proofs| == k
    && (forall i :: 0 <= i < k ==> decrypted[i] == Decrypt(P.G, P.x, out[i]))
    && (forall i :: 0 <= i < k ==>
          proofs[i] == (Pow(out[i].shared, P.sec.nonces[i], P.G.p),
                        (P.sec.nonces[i] + rand(P.input, prefix, i) * P.x) % P.G.q))
  }

  /** What NeffShuffle::Shuffle writes; K holds the prover's working values. */
  ghost predicate Honest(P: Prover, rand: Oracle, T: Transcript, K: Work) {
    && P.Ready() && OracleInRange(rand, P.G.q)
    && HonestShares(P, T.shares)
    && HonestB(P, rand, T.shares, K.b) && HonestBlinding(P, T.D, K.b) && HonestResponses(P, T.tau, T.sigma, K.b)
    && HonestWork(P, ChallengeLambda(rand, P.input, T), ChallengeT(rand, P.input, T), K)
    && HonestThetas(P, T.Theta, K) && HonestAlphas(P, ChallengeC(rand, P.input, T), T.alpha, K)
    && HonestDecryptions(P, rand, DecryptPrefix(T), T.shares.output, T.decrypted, T.proofs)
  }

  // ----- the verifier -----

  /** The verifier indexes these vectors without looking at their sizes, and raises to q - alpha. */
  predicate WellFormed(G: Params, k: nat, T: Transcript) {
    && k > 0
    && |T.shares.output| == |T.shares.A| == |T.shares.C| == |T.shares.U| == |T.shares.W| == k
    && |T.D| == |T.sigma| == k && |T.Theta| == 2 * k && |T.alpha| == 2 * k - 1
    && |T.decrypted| == |T.proofs| == k
    && (forall i :: 0 <= i < |T.alpha| ==> T.alpha[i] <= G.q)
  }

  predicate InputsInGroup(G: Params, input: seq<Pair>)
    requires G.p > 1 && G.q > 0
  {
    forall i :: 0 <= i < |input| ==> G.InGroup(input[i].shared) && G.InGroup(input[i].secret)
  }

  function BlindedB(G: Params, p: nat, U: nat): int
    requires G.p > 1
  {
    Mul(Pow(G.g, p, G.p), Inverse(U, G.p), G.p)
  }

  function ShiftedR(G: Params, A: nat, B: int, lambda: nat, t: nat): int
    requires G.p > 1 && t <= G.q
  {
    Mul(Mul(A, Pow(B, lambda, G.p), G.p), Pow(G.g, G.q - t, G.p), G.p)
  }

  function ShiftedS(G: Params, C: nat, D: nat, Gamma: nat, lambda: nat, t: nat): int
    requires G.p > 1 && t <= G.q
  {
    Mul(Mul(C, Pow(D, lambda, G.p), G.p), Pow(Gamma, G.q - t, G.p), G.p)
  }

  function RtOf(G: Params, rand: Oracle, input: seq<Pair>, T: Transcript, i: nat): int
    requires G.p > 1 && WellFormed(G, |input|, T) && i < |input| && ChallengeT(rand, input, T) <= G.q
  {
    ShiftedR(G, T.shares.A[i], BlindedB(G, ChallengeP(rand, input, T, i), T.shares.U[i]),
             ChallengeLambda(rand, input, T), ChallengeT(rand, input, T))
  }

  function StOf(G: Params, rand: Oracle, input: seq<Pair>, T: Transcript, i: nat): int
    requires G.p > 1 && WellFormed(G, |input|, T) && i < |input| && ChallengeT(rand, input, T) <= G.q
  {
    ShiftedS(G, T.shares.C[i], T.D[i], T.shares.Gamma, ChallengeLambda(rand, input, T), ChallengeT(rand, input, T))
  }

  /** The right-hand side of the i-th Theta equation. */
  function ThetaCheck(G: Params, rand: Oracle, input: seq<Pair>, T: Transcript, i: nat): int
    requires G.p > 1 && WellFormed(G, |input|, T) && i < 2 * |input|
    requires ChallengeT(rand, input, T) <= G.q && ChallengeC(rand, input, T) <= G.q
  {
    var k, p, q, c := |input|, G.p, G.q, ChallengeC(rand, input, T);
    if i == 0 then
      Mul(Pow(RtOf(G, rand, input, T, 0), c, p), Pow(StOf(G, rand, input, T, 0), q - T.alpha[0], p), p)
    else if i < k then
      Mul(Pow(RtOf(G, rand, input, T, i), T.alpha[i - 1], p), Pow(StOf(G, rand, input, T, i), q - T.alpha[i], p), p)
    else if i < 2 * k - 1 then
      Mul(Pow(T.shares.Gamma, T.alpha[i - 1], p), Pow(G.g, q - T.alpha[i], p), p)
    else
      Mul(Pow(T.shares.Gamma, T.alpha[2 * k - 2], p), Pow(G.g, q - c, p), p)
  }

  predicate ThetasHold(G: Params, rand: Oracle, input: seq<Pair>, T: Transcript)
    requires G.p > 1 && WellFormed(G, |input|, T)
    requires ChallengeT(rand, input, T) <= G.q && ChallengeC(rand, input, T) <= G.q
  {
    forall i :: 0 <= i < 2 * |input| ==> T.Theta[i] == ThetaCheck(G, rand, input, T, i)
  }

  predicate SigmasHold(G: Params, k: nat, T: Transcript)
    requires G.p > 1 && WellFormed(G, k, T)
  {
    forall i :: 0 <= i < k ==> Pow(T.shares.Gamma, T.sigma[i], G.p) == Mul(T.shares.W[i], T.D[i], G.p)
  }

  /** The factors of iota_0 (bars and Z the shared halves) and of iota_1 (the secret halves). */
  function IotaTerms(G: Params, bars: seq<int>, Z: seq<int>, sigma: seq<nat>, p: seq<nat>): seq<int>
    requires G.p > 1 && |bars| == |Z| == |sigma| == |p| && forall i :: 0 <= i < |p| ==> p[i] <= G.q
  {
    seq(|Z|, i requires 0 <= i < |Z| => Mul(Pow(bars[i], sigma[i], G.p), Pow(Z[i], G.q - p[i], G.p), G.p))
  }

  function PChallenges(rand: Oracle, input: seq<Pair>, T: Transcript): seq<nat> {
    seq(|input|, i requires 0 <= i < |input| => ChallengeP(rand, input, T, i))
  }

  ghost predicate IotasHold(G: Params, h: int, rand: Oracle, input: seq<Pair>, T: Transcript)
    requires G.p > 1 && WellFormed(G, |input|, T) && OracleInRange(rand, G.q)
  {
    var ps := PChallenges(rand, input, T);
    && Prod(IotaTerms(G, Shareds(T.shares.output), Shareds(input), T.sigma, ps), G.p)
       == Mul(T.shares.Delta0, Pow(G.g, T.tau, G.p), G.p)
    && Prod(IotaTerms(G, Secretses(T.shares.output), Secretses(input), T.sigma, ps), G.p)
       == Mul(T.shares.Delta1, Pow(h, T.tau, G.p), G.p)
  }

  predicate DecryptionHolds(G: Params, before: Pair, after: Pair, proof: (nat, nat), c: nat)
    requires G.p > 1
  {
    && before.shared == after.shared
    && Pow(after.shared, proof.1, G.p)
       == Mul(proof.0, Pow(Mul(before.secret, Inverse(after.secret, G.p), G.p), c, G.p), G.p)
  }

  predicate DecryptionsHold(G: Params, rand: Oracle, input: seq<Pair>, T: Transcript)
    requires G.p > 1 && WellFormed(G, |input|, T)
  {
    forall i :: 0 <= i < |input| ==>
      DecryptionHolds(G, T.shares.output[i], T.decrypted[i], T.proofs[i], ChallengeDecrypt(rand, input, T, i))
  }

  /** Lexicographic comparison of byte strings. */
  predicate BytesLeq(s: seq<nat>, t: seq<nat>) {
    s == [] || (t != [] && (s[0] < t[0] || (s[0] == t[0] && BytesLeq(s[1..], t[1..]))))
  }

  ghost predicate SortedOutput(encode: Pair -> seq<nat>, output: seq<Pair>) {
    forall i :: 0 < i < |output| ==> BytesLeq(encode(output[i - 1]), encode(output[i]))
  }

  /** NeffShuffle::Verify accepts. */
  ghost predicate Accepts(G: Params, h: int, encode: Pair -> seq<nat>, rand: Oracle, input: seq<Pair>, T: Transcript)
    requires G.p > 1 && G.q > 0 && OracleInRange(rand, G.q)
  {
    && WellFormed(G, |input|, T)
    && InputsInGroup(G, input)
    && SortedOutput(encode, T.shares.output)
    && ThetasHold(G, rand, input, T)
    && SigmasHold(G, |input|, T)
    && IotasHold(G, h, rand, input, T)
    && DecryptionsHold(G, rand, input, T)
  }
}
