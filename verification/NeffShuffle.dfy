/** NeffShuffle::Shuffle and NeffShuffle::Verify. */
module NeffShuffle {
  import opened Modular
  import opened Group
  import opened NeffSpec
  import opened NeffLinks
  import opened NeffCompleteness
  import opened Dsa

  // ----- keys -----

  /** The own key times all keys still to decrypt. */
  function CombinedKey(keys: seq<nat>, p: int): nat
    requires p > 1 && keys != []
  {
    if |keys| == 1 then keys[0] else Mul(CombinedKey(keys[..|keys| - 1], p), keys[|keys| - 1], p)
  }

  method CombineKeys(keys: seq<nat>, p: int) returns (h: nat)
    requires p > 1 && keys != []
    ensures h == CombinedKey(keys, p)
  {
    h := keys[0];
    assert keys[..1] == [keys[0]];
    for i := 1 to |keys|
      invariant h == CombinedKey(keys[..i], p)
    {
      assert keys[..i + 1][..i] == keys[..i];
      h := Mul(h, keys[i], p);
    }
    assert keys[..|keys|] == keys;
  }

  // ----- mixing -----

  lemma {:induction false} BytesTotal(s: seq<nat>, t: seq<nat>)
    ensures BytesLeq(s, t) || BytesLeq(t, s)
  {
    if s != [] && t != [] && s[0] == t[0] {
      BytesTotal(s[1..], t[1..]);
    }
  }

  /** order lists the first n positions once each, by encoding and, among equals, by position. */
  ghost predicate Ordered(keys: seq<seq<nat>>, order: seq<int>, n: nat)
    requires n <= |keys|
  {
    && |order| == n
    && (forall i :: 0 <= i < n ==> 0 <= order[i] < n)
    && (forall i, j :: 0 <= i < j < n ==> order[i] != order[j])
    && (forall j :: 0 <= j < n ==> j in order)
    && (forall i :: 0 < i < n ==> InOrder(keys, order[i - 1], order[i]))
  }

  ghost predicate InOrder(keys: seq<seq<nat>>, a: int, b: int)
    requires 0 <= a < |keys| && 0 <= b < |keys|
  {
    BytesLeq(keys[a], keys[b]) && (BytesLeq(keys[b], keys[a]) ==> a < b)
  }

  lemma {:induction false} InsertKeepsOrder(keys: seq<seq<nat>>, order: seq<int>, n: nat, j: nat, after: seq<int>)
    requires n < |keys| && Ordered(keys, order, n) && j <= n && after == order[..j] + [n] + order[j..]
    requires j > 0 ==> BytesLeq(keys[order[j - 1]], keys[n])
    requires j < n ==> !BytesLeq(keys[order[j]], keys[n])
    ensures Ordered(keys, after, n + 1)
  {
    InsertKeepsOnce(order, n, j, after);
    forall i | 0 < i <= n ensures InOrder(keys, after[i - 1], after[i]) {
      InsertKeepsNeighbours(keys, order, n, j, after, i);
    }
    forall x | 0 <= x <= n ensures x in after {
      if x < n {
        InsertKeepsMember(order, n, j, after, x);
      } else {
        assert after[j] == n;
      }
    }
  }

  lemma {:induction false} InsertKeepsOnce(order: seq<int>, n: nat, j: nat, after: seq<int>)
    requires |order| == n && j <= n && after == order[..j] + [n] + order[j..]
    requires forall i :: 0 <= i < n ==> 0 <= order[i] < n
    requires forall i, k :: 0 <= i < k < n ==> order[i] != order[k]
    ensures forall i :: 0 <= i <= n ==> 0 <= after[i] <= n
    ensures forall i, k :: 0 <= i < k <= n ==> after[i] != after[k]
  {
    assert after[j] == n;
    assert forall i :: 0 <= i < j ==> after[i] == order[i];
    assert forall i :: j < i <= n ==> after[i] == order[i - 1];
  }

  lemma {:induction false} InsertKeepsNeighbours(keys: seq<seq<nat>>, order: seq<int>, n: nat, j: nat, after: seq<int>, i: nat)
    requires n < |keys| && Ordered(keys, order, n) && j <= n && after == order[..j] + [n] + order[j..]
    requires j > 0 ==> BytesLeq(keys[order[j - 1]], keys[n])
    requires j < n ==> !BytesLeq(keys[order[j]], keys[n])
    requires 0 < i <= n
    ensures 0 <= after[i - 1] < |keys| && 0 <= after[i] < |keys| && InOrder(keys, after[i - 1], after[i])
  {
    if i < j {
      assert after[i - 1] == order[i - 1] && after[i] == order[i];
    } else if i == j {
      assert after[i - 1] == order[i - 1] && after[i] == n;
    } else if i == j + 1 {
      assert after[i - 1] == n && after[i] == order[j];
      BytesTotal(keys[order[j]], keys[n]);
    } else {
      assert after[i - 1] == order[i - 2] && after[i] == order[i - 1];
      assert InOrder(keys, order[i - 2], order[i - 1]);
    }
  }

  lemma {:induction false} InsertKeepsMember(order: seq<int>, n: int, j: nat, after: seq<int>, x: int)
    requires j <= |order| && after == order[..j] + [n] + order[j..] && x in order
    ensures x in after
  {
    var i :| 0 <= i < |order| && order[i] == x;
    assert after[if i < j then i else i + 1] == x;
  }

  method SortByEncoding(keys: seq<seq<nat>>) returns (order: seq<int>)
    ensures Ordered(keys, order, |keys|)
  {
    order := [];
    for n := 0 to |keys|
      invariant Ordered(keys, order, n)
    {
      var j := n;
      while j > 0 && !BytesLeq(keys[order[j - 1]], keys[n])
        invariant 0 <= j <= n
        invariant j < n ==> !BytesLeq(keys[order[j]], keys[n])
      {
        j := j - 1;
      }
      var inserted := order[..j] + [n] + order[j..];
      InsertKeepsOrder(keys, order, n, j, inserted);
      order := inserted;
    }
  }

  method InvertOrder(pi: seq<int>) returns (inv: seq<int>)
    requires forall i :: 0 <= i < |pi| ==> 0 <= pi[i] < |pi|
    requires forall i, j :: 0 <= i < j < |pi| ==> pi[i] != pi[j]
    requires forall j :: 0 <= j < |pi| ==> j in pi
    ensures Inverts(pi, inv)
  {
    inv := seq(|pi|, i => 0);
    for i := 0 to |pi|
      invariant |inv| == |pi|
      invariant forall j :: 0 <= j < i ==> inv[pi[j]] == j
    {
      inv := inv[pi[i] := i];
    }
    forall j | 0 <= j < |inv| ensures 0 <= inv[j] < |pi| && pi[inv[j]] == j {
      assert j in pi;
      var i :| 0 <= i < |pi| && pi[i] == j;
      assert inv[pi[i]] == i;
    }
  }

  /** Re-encryption and mixing; the output is in the order of the encodings. */
  method Mix(G: Params, h: nat, input: seq<Pair>, beta: seq<nat>, encode: Pair -> seq<nat>)
    returns (output: seq<Pair>, pi: seq<int>, inv: seq<int>)
    requires G.p > 1 && |beta| == |input|
    ensures |output| == |pi| == |input| && Inverts(pi, inv)
    ensures forall i :: 0 <= i < |output| ==> output[i] == Reencrypt(G, h, input[pi[i]], beta[pi[i]])
    ensures SortedOutput(encode, output)
  {
    var fresh' := [];
    var keys := [];
    for i := 0 to |input|
      invariant |fresh'| == |keys| == i
      invariant forall j :: 0 <= j < i ==> fresh'[j] == Reencrypt(G, h, input[j], beta[j])
      invariant forall j :: 0 <= j < i ==> keys[j] == encode(fresh'[j])
    {
      var c := Pair(Mul(input[i].shared, Pow(G.g, beta[i], G.p), G.p), Mul(input[i].secret, Pow(h, beta[i], G.p), G.p));
      fresh' := fresh' + [c];
      keys := keys + [encode(c)];
    }
    pi := SortByEncoding(keys);
    inv := InvertOrder(pi);
    assert forall i :: 0 < i < |pi| ==> InOrder(keys, pi[i - 1], pi[i]);
    output := [];
    for i := 0 to |pi|
      invariant |output| == i
      invariant forall j :: 0 <= j < i ==> output[j] == fresh'[pi[j]]
    {
      output := output + [fresh'[pi[i]]];
    }
  }

  // ----- the prover's parts -----

  /** Part 1: commitments. */
  method Commit(P: Prover) returns (Gamma: nat, A: seq<nat>, C: seq<nat>, U: seq<nat>, W: seq<nat>)
    requires P.Ready()
    ensures forall output, d0, d1 :: HonestCommitments(P, Shares(output, Gamma, A, C, U, W, d0, d1))
  {
    var k, p, q, g, sec := |P.input|, P.G.p, P.G.q, P.G.g, P.sec;
    Gamma := Pow(g, sec.gamma, p);
    A, C, U, W := [], [], [], [];
    for i := 0 to k
      invariant |A| == |U| == |W| == i
      invariant forall j :: 0 <= j < i ==> A[j] == Pow(g, sec.a[j], p)
      invariant forall j :: 0 <= j < i ==> U[j] == Pow(g, sec.u[j], p)
      invariant forall j :: 0 <= j < i ==> W[j] == Pow(g, (sec.gamma * sec.w[j]) % q, p)
    {
      A := A + [Pow(g, sec.a[i], p)];
      U := U + [Pow(g, sec.u[i], p)];
      W := W + [Pow(g, (sec.gamma * sec.w[i]) % q, p)];
    }
    for i := 0 to k
      invariant |C| == i
      invariant forall j :: 0 <= j < i ==> C[j] == Pow(A[P.pi[j]], sec.gamma, p)
    {
      C := C + [Pow(A[P.pi[i]], sec.gamma, p)];
    }
  }

  lemma {:induction false} SumModAppend(start: int, terms: seq<int>, x: int, q: int)
    requires q > 0
    ensures SumMod(start, terms + [x], q) == (SumMod(start, terms, q) + x) % q
  {
    assert (terms + [x])[..|terms|] == terms;
  }

  method DeltaSum(P: Prover) returns (sum: nat)
    requires P.Ready()
    ensures sum == SumMod(P.sec.tau0, DeltaExponents(P.sec, P.pi), P.G.q)
  {
    ghost var terms := DeltaExponents(P.sec, P.pi);
    sum := P.sec.tau0;
    for i := 0 to |P.input|
      invariant sum == SumMod(P.sec.tau0, terms[..i], P.G.q)
    {
      SumModAppend(P.sec.tau0, terms[..i], terms[i], P.G.q);
      assert terms[..i + 1] == terms[..i] + [terms[i]];
      sum := (sum + P.sec.w[i] * P.sec.beta[P.pi[i]]) % P.G.q;
    }
    assert terms[..|P.input|] == terms;
  }

  /** x_multi and y_multi: the inputs raised to w - u. */
  method DeltaProduct(P: Prover, Z: seq<int>) returns (product: nat)
    requires P.Ready() && |Z| == |P.input|
    ensures product == Prod(DeltaTerms(P.G, Z, P.sec, P.inv), P.G.p)
  {
    ghost var terms := DeltaTerms(P.G, Z, P.sec, P.inv);
    product := 1;
    for i := 0 to |Z|
      invariant product == Prod(terms[..i], P.G.p)
    {
      ProdAppend(terms[..i], terms[i], P.G.p);
      assert terms[..i + 1] == terms[..i] + [terms[i]];
      product := Mul(product, Pow(Z[i], (P.sec.w[P.inv[i]] - P.sec.u[i]) % P.G.q, P.G.p), P.G.p);
    }
    assert terms[..|Z|] == terms;
  }

  method MakeShares(P: Prover, output: seq<Pair>) returns (S: Shares)
    requires P.Ready() && HonestOutput(P, output)
    ensures HonestShares(P, S) && S.output == output
  {
    var Gamma, A, C, U, W := Commit(P);
    var sum := DeltaSum(P);
    var X := DeltaProduct(P, Shareds(P.input));
    var Y := DeltaProduct(P, Secretses(P.input));
    S := Shares(output, Gamma, A, C, U, W,
                Mul(Pow(P.G.g, sum, P.G.p), X, P.G.p), Mul(Pow(P.h, sum, P.G.p), Y, P.G.p));
  }

  /** Part 3: b and the blinded values D. */
  method Blind(P: Prover, rand: Oracle, S: Shares) returns (b: seq<int>, D: seq<nat>)
    requires P.Ready()
    ensures HonestB(P, rand, S, b) && HonestBlinding(P, D, b)
  {
    b, D := [], [];
    for i := 0 to |P.input|
      invariant |b| == i
      invariant forall j :: 0 <= j < i ==> b[j] == (rand(P.input, AfterShares(S), j) - P.sec.u[j]) % P.G.q
    {
      b := b + [(rand(P.input, AfterShares(S), i) - P.sec.u[i]) % P.G.q];
    }
    for i := 0 to |P.input|
      invariant |D| == i
      invariant forall j :: 0 <= j < i ==> D[j] == Pow(P.G.g, (P.sec.gamma * b[P.pi[j]]) % P.G.q, P.G.p)
    {
      D := D + [Pow(P.G.g, (P.sec.gamma * b[P.pi[i]]) % P.G.q, P.G.p)];
    }
  }

  lemma {:induction false} TauStep(start: int, b: seq<int>, beta: seq<nat>, i: nat, q: int)
    requires q > 0 && |b| == |beta| && i < |b|
    ensures SumMod(start, TauExponents(b, beta)[..i + 1], q) == (SumMod(start, TauExponents(b, beta)[..i], q) + b[i] * beta[i]) % q
  {
    var terms := TauExponents(b, beta);
    SumModAppend(start, terms[..i], terms[i], q);
    assert terms[..i + 1] == terms[..i] + [terms[i]];
  }

  function ROf(P: Prover, lambda: nat, b: seq<int>, i: nat): int
    requires P.Ready() && |b| == |P.input| && i < |b|
  {
    (P.sec.a[i] + lambda * b[i]) % P.G.q
  }

  function SOf(P: Prover, r: seq<int>, i: nat): int
    requires P.Ready() && |r| == |P.input| && i < |r|
  {
    (P.sec.gamma * r[P.pi[i]]) % P.G.q
  }

  function SigmaOf(P: Prover, b: seq<int>, i: nat): nat
    requires P.Ready() && |b| == |P.input| && i < |b|
  {
    (P.sec.w[i] + b[P.pi[i]]) % P.G.q
  }

  /** Part 5: the responses r, s, sigma and tau. */
  method Respond(P: Prover, lambda: nat, b: seq<int>)
    returns (r: seq<int>, s: seq<int>, sigma: seq<nat>, tau: nat)
    requires P.Ready() && |b| == |P.input|
    ensures |r| == |s| == |P.input|
    ensures forall i :: 0 <= i < |r| ==> r[i] == (P.sec.a[i] + lambda * b[i]) % P.G.q
    ensures forall i :: 0 <= i < |s| ==> s[i] == (P.sec.gamma * r[P.pi[i]]) % P.G.q
    ensures HonestResponses(P, tau, sigma, b)
  {
    var k := |P.input|;
    r := [];
    for i := 0 to k
      invariant |r| == i && forall j :: 0 <= j < i ==> r[j] == ROf(P, lambda, b, j)
    {
      r := r + [ROf(P, lambda, b, i)];
    }
    s, sigma, tau := RespondAll(P, b, r);
    assert forall j :: 0 <= j < k ==> sigma[j] == SigmaOf(P, b, j);
  }

  /** The second loop of part 5. */
  method RespondAll(P: Prover, b: seq<int>, r: seq<int>) returns (s: seq<int>, sigma: seq<nat>, tau: nat)
    requires P.Ready() && |b| == |r| == |P.input|
    ensures |s| == |sigma| == |b|
    ensures forall j :: 0 <= j < |s| ==> s[j] == SOf(P, r, j)
    ensures forall j :: 0 <= j < |s| ==> sigma[j] == SigmaOf(P, b, j)
    ensures tau == SumMod(P.G.q - P.sec.tau0, TauExponents(b, P.sec.beta), P.G.q)
  {
    var start, beta, q := P.G.q - P.sec.tau0, P.sec.beta, P.G.q;
    ghost var terms := TauExponents(b, beta);
    var sum := start;
    s, sigma := [], [];
    for i := 0 to |b|
      invariant |s| == |sigma| == i
      invariant forall j :: 0 <= j < i ==> s[j] == SOf(P, r, j)
      invariant forall j :: 0 <= j < i ==> sigma[j] == SigmaOf(P, b, j)
      invariant sum == SumMod(start, terms[..i], q)
    {
      s, sigma := s + [SOf(P, r, i)], sigma + [SigmaOf(P, b, i)];
      TauStep(start, b, beta, i, q);
      sum := (sum + b[i] * beta[i]) % q;
    }
    assert terms[..|b|] == terms;
    tau := sum;
  }

  /** Part 6.2: shifting by the challenge t. */
  method Shift(P: Prover, t: nat, r: seq<int>, s: seq<int>) returns (rt: seq<int>, st: seq<int>)
    requires P.Ready() && |r| == |s|
    ensures |rt| == |st| == |r|
    ensures forall i :: 0 <= i < |r| ==> rt[i] == (r[i] - t) % P.G.q
    ensures forall i :: 0 <= i < |s| ==> st[i] == (s[i] - P.sec.gamma * t) % P.G.q
  {
    rt, st := [], [];
    for i := 0 to |r|
      invariant |rt| == |st| == i
      invariant forall j :: 0 <= j < i ==> rt[j] == (r[j] - t) % P.G.q
      invariant forall j :: 0 <= j < i ==> st[j] == (s[j] - P.sec.gamma * t) % P.G.q
    {
      rt := rt + [(r[i] - t) % P.G.q];
      st := st + [(s[i] - P.sec.gamma * t) % P.G.q];
    }
  }

  lemma FirstTheta(G: Params, e: int)
    requires G.Valid()
    ensures Pow(G.g, G.q - e % G.q, G.p) == G.E(G.g, -e)
  {
    PowGNeg(G, e % G.q);
    CongMod(e, G.q);
    ModSmall(0, G.q);
    CongAdd(0, 0, e % G.q, e, G.q);
  }

  /** Part 6.2: the commitments Theta. */
  method MakeThetas(P: Prover, K: Work) returns (Theta: seq<nat>)
    requires P.Ready() && |K.rt| == |K.st| == |P.input|
    ensures HonestThetas(P, Theta, K)
  {
    var k, p, q, g, theta, gamma := |P.input|, P.G.p, P.G.q, P.G.g, P.sec.theta, P.sec.gamma;
    Theta := [Pow(g, q - (theta[0] * K.st[0]) % q, p)];
    FirstTheta(P.G, theta[0] * K.st[0]);
    for i := 1 to k
      invariant |Theta| == i
      invariant forall j :: 0 <= j < i ==> Theta[j] == P.G.E(g, ThetaExponent(P.sec, K, j))
    {
      Theta := Theta + [Pow(g, (theta[i - 1] * K.rt[i] - theta[i] * K.st[i]) % q, p)];
    }
    for i := k to 2 * k - 1
      invariant |Theta| == i
      invariant forall j :: 0 <= j < i ==> Theta[j] == P.G.E(g, ThetaExponent(P.sec, K, j))
    {
      Theta := Theta + [Pow(g, (gamma * theta[i - 1] - theta[i]) % q, p)];
    }
    Theta := Theta + [Pow(g, (gamma * theta[2 * k - 2]) % q, p)];
  }

  /** Part 6.4: the responses alpha. */
  method MakeAlphas(P: Prover, c: nat, K: Work) returns (alpha: seq<nat>)
    requires P.Ready() && |K.rt| == |K.st| == |P.input|
    ensures HonestAlphas(P, c, alpha, K)
  {
    var k, q := |P.input|, P.G.q;
    alpha := [];
    var multi := c;
    for i := 0 to k
      invariant |alpha| == i
      invariant multi == Quotient(c, K.rt, K.st, i, q)
      invariant forall j :: 0 <= j < i ==> alpha[j] == (P.sec.theta[j] + Response(P.G, c, P.sec, K, j)) % q
    {
      multi := (multi * K.rt[i] * Inverse(K.st[i], q)) % q;
      alpha := alpha + [(P.sec.theta[i] + multi) % q];
    }
    var inverse := Inverse(P.sec.gamma, q);
    for i := k to 2 * k - 1
      invariant |alpha| == i
      invariant forall j :: 0 <= j < i ==> alpha[j] == (P.sec.theta[j] + Response(P.G, c, P.sec, K, j)) % q
    {
      alpha := alpha + [(P.sec.theta[i] + c * Pow(inverse, 2 * k - i - 1, q)) % q];
    }
  }

  /** Part 8: verifiable decryption of the output. */
  method DecryptAll(P: Prover, rand: Oracle, prefix: Prefix, output: seq<Pair>)
    returns (ok: bool, decrypted: seq<Pair>, proofs: seq<(nat, nat)>)
    requires P.Ready() && HonestOutput(P, output)
    ensures ok && HonestDecryptions(P, rand, prefix, output, decrypted, proofs)
  {
    ok, decrypted, proofs := true, [], [];
    for i := 0 to |output|
      invariant |decrypted| == |proofs| == i
      invariant forall j :: 0 <= j < i ==> decrypted[j] == Decrypt(P.G, P.x, output[j])
      invariant forall j :: 0 <= j < i ==>
        proofs[j] == (Pow(output[j].shared, P.sec.nonces[j], P.G.p),
                      (P.sec.nonces[j] + rand(P.input, prefix, j) * P.x) % P.G.q)
    {
      ReducedDecrypts(P.G, P.x, output[i]);
      var plain := SeriesDecrypt(P.G, P.x, output[i]);
      if plain.None? {
        ok := false;
        return;
      }
      decrypted := decrypted + [plain.value];
      proofs := proofs + [(Pow(output[i].shared, P.sec.nonces[i], P.G.p),
                           (P.sec.nonces[i] + rand(P.input, prefix, i) * P.x) % P.G.q)];
    }
  }

  /** Parts 3 to 6.1: blinding, responses and the shift by t, with their challenges. */
  method Answer(P: Prover, rand: Oracle, S: Shares) returns (D: seq<nat>, tau: nat, sigma: seq<nat>, K: Work)
    requires P.Ready()
    ensures HonestB(P, rand, S, K.b) && HonestBlinding(P, D, K.b) && HonestResponses(P, tau, sigma, K.b)
    ensures HonestWork(P, rand(P.input, AfterBlinding(S, D), 0), rand(P.input, AfterResponses(S, D, tau, sigma), 0), K)
  {
    var b, r, s;
    b, D := Blind(P, rand, S);
    r, s, sigma, tau := Respond(P, rand(P.input, AfterBlinding(S, D), 0), b);
    var rt, st := Shift(P, rand(P.input, AfterResponses(S, D, tau, sigma), 0), r, s);
    K := Work(b, r, s, rt, st);
  }

  /** Everything after mixing. */
  method Prove(P: Prover, rand: Oracle, output: seq<Pair>) returns (ok: bool, T: Transcript, K: Work)
    requires P.Ready() && HonestOutput(P, output) && OracleInRange(rand, P.G.q)
    ensures ok && T.shares.output == output && Honest(P, rand, T, K)
  {
    var S := MakeShares(P, output);
    var D, tau, sigma;
    D, tau, sigma, K := Answer(P, rand, S);
    var Theta := MakeThetas(P, K);
    var alpha := MakeAlphas(P, rand(P.input, AfterThetas(S, D, tau, sigma, Theta), 0), K);
    var decrypted, proofs;
    ok, decrypted, proofs := DecryptAll(P, rand, AfterAlphas(S, D, tau, sigma, Theta, alpha), output);
    T := Transcript(S, D, tau, sigma, Theta, alpha, decrypted, proofs);
  }

  /** NeffShuffle::Shuffle: keys holds the prover's own public key and then the remaining ones. */
  method Shuffle(G: Params, x: nat, keys: seq<nat>, input: seq<Pair>, sec: Secrets, encode: Pair -> seq<nat>, rand: Oracle)
    returns (ok: bool, T: Transcript, P: Prover, K: Work)
    requires G.Valid() && keys != [] && sec.Sized(|input|) && OracleInRange(rand, G.q)
    ensures ok <==> input != []
    ensures ok ==> P.G == G && P.x == x && P.h == CombinedKey(keys, G.p) && P.input == input && P.sec == sec
    ensures ok ==> Honest(P, rand, T, K) && SortedOutput(encode, T.shares.output)
  {
    var h := CombineKeys(keys, G.p);
    if |input| == 0 {
      P, K := Prover(G, x, h, input, sec, [], []), Work([], [], [], [], []);
      T := Transcript(Shares([], 0, [], [], [], [], 0, 0), [], 0, [], [], [], [], []);
      ok := false;
      return;
    }
    var output, pi, inv := Mix(G, h, input, sec.beta, encode);
    P := Prover(G, x, h, input, sec, pi, inv);
    ok, T, K := Prove(P, rand, output);
  }

  // ----- the verifier -----

  method CheckInput(G: Params, input: seq<Pair>) returns (ok: bool)
    requires G.p > 1 && G.q > 0
    ensures ok <==> InputsInGroup(G, input)
  {
    for i := 0 to |input|
      invariant forall j :: 0 <= j < i ==> G.InGroup(input[j].shared) && G.InGroup(input[j].secret)
    {
      if !G.InGroup(input[i].shared) || !G.InGroup(input[i].secret) {
        return false;
      }
    }
    return true;
  }

  method CheckSorted(encode: Pair -> seq<nat>, output: seq<Pair>) returns (ok: bool)
    ensures ok <==> SortedOutput(encode, output)
  {
    for i := 0 to |output|
      invariant forall j :: 0 < j < i ==> BytesLeq(encode(output[j - 1]), encode(output[j]))
    {
      if i > 0 && !BytesLeq(encode(output[i - 1]), encode(output[i])) {
        return false;
      }
    }
    return true;
  }

  method CheckThetas(G: Params, rand: Oracle, input: seq<Pair>, T: Transcript) returns (ok: bool)
    requires G.p > 1 && WellFormed(G, |input|, T)
    requires ChallengeT(rand, input, T) <= G.q && ChallengeC(rand, input, T) <= G.q
    ensures ok <==> ThetasHold(G, rand, input, T)
  {
    var k, p, q := |input|, G.p, G.q;
    var lambda, t, c := ChallengeLambda(rand, input, T), ChallengeT(rand, input, T), ChallengeC(rand, input, T);
    var U, W := Pow(G.g, q - t, p), Pow(T.shares.Gamma, q - t, p);
    var Rt, St := [], [];
    for i := 0 to k
      invariant |Rt| == |St| == i
      invariant forall j :: 0 <= j < i ==> Rt[j] == RtOf(G, rand, input, T, j)
      invariant forall j :: 0 <= j < i ==> St[j] == StOf(G, rand, input, T, j)
    {
      var B := Mul(Pow(G.g, ChallengeP(rand, input, T, i), p), Inverse(T.shares.U[i], p), p);
      Rt := Rt + [Mul(Mul(T.shares.A[i], Pow(B, lambda, p), p), U, p)];
      St := St + [Mul(Mul(T.shares.C[i], Pow(T.D[i], lambda, p), p), W, p)];
    }
    for i := 0 to 2 * k
      invariant forall j :: 0 <= j < i ==> T.Theta[j] == ThetaCheck(G, rand, input, T, j)
    {
      var expected;
      if i == 0 {
        expected := Mul(Pow(Rt[0], c, p), Pow(St[0], q - T.alpha[0], p), p);
      } else if i < k {
        expected := Mul(Pow(Rt[i], T.alpha[i - 1], p), Pow(St[i], q - T.alpha[i], p), p);
      } else if i < 2 * k - 1 {
        expected := Mul(Pow(T.shares.Gamma, T.alpha[i - 1], p), Pow(G.g, q - T.alpha[i], p), p);
      } else {
        expected := Mul(Pow(T.shares.Gamma, T.alpha[2 * k - 2], p), Pow(G.g, q - c, p), p);
      }
      assert expected == ThetaCheck(G, rand, input, T, i);
      if T.Theta[i] != expected {
        return false;
      }
    }
    return true;
  }

  method CheckSigmas(G: Params, k: nat, T: Transcript) returns (ok: bool)
    requires G.p > 1 && WellFormed(G, k, T)
    ensures ok <==> SigmasHold(G, k, T)
  {
    for i := 0 to k
      invariant forall j :: 0 <= j < i ==> Pow(T.shares.Gamma, T.sigma[j], G.p) == Mul(T.shares.W[j], T.D[j], G.p)
    {
      if Pow(T.shares.Gamma, T.sigma[i], G.p) != Mul(T.shares.W[i], T.D[i], G.p) {
        return false;
      }
    }
    return true;
  }

  /** The accumulated iota_0 or iota_1. */
  method Iota(G: Params, bars: seq<int>, Z: seq<int>, sigma: seq<nat>, ps: seq<nat>) returns (iota: nat)
    requires G.p > 1 && |bars| == |Z| == |sigma| == |ps| && forall i :: 0 <= i < |ps| ==> ps[i] <= G.q
    ensures iota == Prod(IotaTerms(G, bars, Z, sigma, ps), G.p)
  {
    ghost var terms := IotaTerms(G, bars, Z, sigma, ps);
    iota := 1;
    for i := 0 to |Z|
      invariant iota == Prod(terms[..i], G.p)
    {
      ProdAppend(terms[..i], terms[i], G.p);
      assert terms[..i + 1] == terms[..i] + [terms[i]];
      var bar, z := Pow(bars[i], sigma[i], G.p), Pow(Z[i], G.q - ps[i], G.p);
      MulAssoc(iota, bar, z, G.p);
      iota := (iota * bar * z) % G.p;
    }
    assert terms[..|Z|] == terms;
  }

  method CheckDecryptions(G: Params, rand: Oracle, input: seq<Pair>, T: Transcript) returns (ok: bool)
    requires G.p > 1 && WellFormed(G, |input|, T)
    ensures ok <==> DecryptionsHold(G, rand, input, T)
  {
    for i := 0 to |input|
      invariant forall j :: 0 <= j < i ==>
        DecryptionHolds(G, T.shares.output[j], T.decrypted[j], T.proofs[j], ChallengeDecrypt(rand, input, T, j))
    {
      var before, after, c := T.shares.output[i], T.decrypted[i], ChallengeDecrypt(rand, input, T, i);
      var pair := Mul(before.secret, Inverse(after.secret, G.p), G.p);
      if before.shared != after.shared {
        return false;
      }
      if Pow(after.shared, T.proofs[i].1, G.p) != Mul(T.proofs[i].0, Pow(pair, c, G.p), G.p) {
        return false;
      }
    }
    return true;
  }

  /** NeffShuffle::Verify: keys starts with the prover's key; output is left as it was on failure. */
  method Verify(G: Params, keys: seq<nat>, input: seq<Pair>, T: Transcript, encode: Pair -> seq<nat>, rand: Oracle,
                before: seq<Pair>)
    returns (ok: bool, output: seq<Pair>)
    requires G.p > 1 && G.q > 0 && OracleInRange(rand, G.q)
    ensures ok <==> keys != [] && Accepts(G, CombinedKey(keys, G.p), encode, rand, input, T)
    ensures output == if ok then T.decrypted else before
  {
    output := before;
    if keys == [] {
      return false, before;
    }
    var h := CombineKeys(keys, G.p);
    ok := CheckInput(G, input);
    if !ok || !WellFormed(G, |input|, T) {
      return false, before;
    }
    ok := CheckSorted(encode, T.shares.output);
    if !ok {
      return;
    }
    ok := CheckThetas(G, rand, input, T);
    if !ok {
      return;
    }
    ok := CheckSigmas(G, |input|, T);
    if !ok {
      return;
    }
    var ps := PChallenges(rand, input, T);
    var iota0 := Iota(G, Shareds(T.shares.output), Shareds(input), T.sigma, ps);
    var iota1 := Iota(G, Secretses(T.shares.output), Secretses(input), T.sigma, ps);
    if iota0 != Mul(T.shares.Delta0, Pow(G.g, T.tau, G.p), G.p) || iota1 != Mul(T.shares.Delta1, Pow(h, T.tau, G.p), G.p) {
      return false, before;
    }
    ok := CheckDecryptions(G, rand, input, T);
    if ok {
      output := T.decrypted;
    }
  }
}
