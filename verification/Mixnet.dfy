/** The mixnet: a series of servers, each shuffling and removing its own layer of encryption.
    What the ciphertexts mean under the keys still to be removed never changes. */
module Mixnet {
  import opened Modular
  import opened Group
  import opened NeffSpec
  import opened NeffLinks
  import opened NeffCompleteness
  import opened NeffShuffle
  import opened Dsa

  function Sum(xs: seq<nat>): nat {
    if xs == [] then 0 else xs[0] + Sum(xs[1..])
  }

  function PublicKeys(G: Params, xs: seq<nat>): seq<nat>
    requires G.p > 1
  {
    seq(|xs|, i requires 0 <= i < |xs| => Pow(G.g, xs[i], G.p))
  }

  /** The plaintext of a ciphertext under the sum X of the private exponents still to come. */
  function Plain(G: Params, X: nat, c: Pair): nat
    requires G.p > 1
  {
    Decrypt(G, X, c).secret
  }

  function Plains(G: Params, X: nat, cs: seq<Pair>): seq<nat>
    requires G.p > 1
  {
    seq(|cs|, i requires 0 <= i < |cs| => Plain(G, X, cs[i]))
  }

  // ----- keys -----

  lemma {:induction false} SumAppend(xs: seq<nat>, x: nat)
    ensures Sum(xs + [x]) == Sum(xs) + x
  {
    if xs == [] {
      assert [] + [x] == [x];
    } else {
      assert (xs + [x])[1..] == xs[1..] + [x];
      SumAppend(xs[1..], x);
    }
  }

  /** The combined key of a series is the generator raised to the sum of the exponents. */
  lemma {:induction false} CombinedKeyIsPower(G: Params, xs: seq<nat>)
    requires G.Valid() && xs != []
    ensures CombinedKey(PublicKeys(G, xs), G.p) == G.E(G.g, Sum(xs))
  {
    var n := |xs| - 1;
    if n == 0 {
      PowG(G, xs[0]);
      assert Sum(xs) == xs[0] + Sum(xs[1..]);
    } else {
      CombinedKeyIsPower(G, xs[..n]);
      assert PublicKeys(G, xs)[..n] == PublicKeys(G, xs[..n]);
      PowG(G, xs[n]);
      MulOfE(G, Sum(xs[..n]), xs[n]);
      SumAppend(xs[..n], xs[n]);
      assert xs == xs[..n] + [xs[n]];
    }
  }

  lemma {:induction false} KeyProductIsPower(G: Params, xs: seq<nat>)
    requires G.Valid()
    ensures Prod(PublicKeys(G, xs), G.p) == G.E(G.g, Sum(xs))
  {
    if xs == [] {
      EZero(G, G.g);
    } else {
      var n := |xs| - 1;
      KeyProductIsPower(G, xs[..n]);
      assert PublicKeys(G, xs)[..n] == PublicKeys(G, xs[..n]);
      PowG(G, xs[n]);
      MulOfE(G, Sum(xs[..n]), xs[n]);
      SumAppend(xs[..n], xs[n]);
      assert xs == xs[..n] + [xs[n]];
    }
  }

  // ----- one ciphertext -----

  predicate PairInGroup(G: Params, c: Pair)
    requires G.p > 1 && G.q > 0
  {
    G.InGroup(c.shared) && G.InGroup(c.secret)
  }

  lemma {:induction false} PlainIs(G: Params, X: nat, c: Pair)
    requires G.Valid() && PairInGroup(G, c)
    ensures Plain(G, X, c) == Mul(c.secret, G.E(c.shared, -(X as int)), G.p)
    ensures PairInGroup(G, Decrypt(G, X, c))
  {
    PowIsE(G, c.shared, X);
    InverseIsE(G, G.E(c.shared, X));
    EMul(G, c.shared, X, -1);
    EClosed(G, c.shared, -(X as int));
    Closed(G, c.secret, G.E(c.shared, -(X as int)));
  }

  /** (m * y) * z == m when y and z are inverse. */
  lemma {:induction false} MaskCancels(m: int, y: int, z: int, p: int)
    requires p > 1 && 0 <= m < p && Mul(y, z, p) == 1
    ensures Mul(Mul(m, y, p), z, p) == m
  {
    MulAssoc(m, y, z, p);
    MulOne(m, p);
    ModSmall(m, p);
  }

  /** Encrypting under all keys and decrypting under the sum of the exponents gives the message. */
  lemma {:induction false} SeriesEncryptMeans(G: Params, xs: seq<nat>, value: nat, secret: nat)
    requires G.Valid() && G.InGroup(value)
    ensures var c := Pair(Pow(G.g, secret, G.p), Mul(value, Pow(Prod(PublicKeys(G, xs), G.p), secret, G.p), G.p));
            PairInGroup(G, c) && Plain(G, Sum(xs), c) == value
  {
    var X := Sum(xs);
    KeyProductIsPower(G, xs);
    PowG(G, secret);
    PowOfE(G, X, secret);
    One(G);
    EClosed(G, G.g, secret);
    EClosed(G, G.g, X * secret);
    Closed(G, value, G.E(G.g, X * secret));
    var c := Pair(G.E(G.g, secret), Mul(value, G.E(G.g, X * secret), G.p));
    PlainIs(G, X, c);
    EMul(G, G.g, secret, -(X as int));
    MaskExponents(G, X, secret);
    MaskCancels(value, G.E(G.g, X * secret), G.E(G.g, secret * -(X as int)), G.p);
  }

  lemma {:induction false} MaskExponents(G: Params, X: nat, e: int)
    requires G.Valid()
    ensures Mul(G.E(G.g, X * e), G.E(G.g, e * -(X as int)), G.p) == 1
  {
    MulOfE(G, X * e, e * -(X as int));
    assert X * e + e * -(X as int) == 0;
    EZero(G, G.g);
  }

  /** Re-encryption under the combined key leaves the plaintext alone. */
  lemma {:induction false} ReencryptMeans(G: Params, X: nat, h: int, c: Pair, beta: nat)
    requires G.Valid() && PairInGroup(G, c) && h == G.E(G.g, X)
    ensures PairInGroup(G, Reencrypt(G, h, c, beta))
    ensures Plain(G, X, Reencrypt(G, h, c, beta)) == Plain(G, X, c)
  {
    One(G);
    EClosed(G, G.g, X);
    ReencryptClosed(G, h, c, beta);
    PlainIs(G, X, Reencrypt(G, h, c, beta));
    PlainIs(G, X, c);
    var p, nX := G.p, -(X as int);
    PowG(G, beta);
    PowOfE(G, X, beta);
    EProduct(G, c.shared, G.E(G.g, beta), nX);
    EMul(G, G.g, beta, nX);
    MaskExponents(G, X, beta);
    var m, y, s, z := c.secret, G.E(G.g, X * beta), G.E(c.shared, nX), G.E(G.g, beta * nX);
    MulSwap(m, y, s, z, p);
    MulOne(Mul(m, s, p), p);
    ModSmall(Mul(m, s, p), p);
  }

  /** Removing one layer and reading under the rest is reading under all. */
  lemma {:induction false} LayerMeans(G: Params, x: nat, rest: nat, c: Pair)
    requires G.Valid() && PairInGroup(G, c)
    ensures PairInGroup(G, Decrypt(G, x, c))
    ensures Plain(G, rest, Decrypt(G, x, c)) == Plain(G, x + rest, c)
  {
    PlainIs(G, x, c);
    PlainIs(G, rest, Decrypt(G, x, c));
    PlainIs(G, x + rest, c);
    var a, b := G.E(c.shared, -(x as int)), G.E(c.shared, -(rest as int));
    MulAssoc(c.secret, a, b, G.p);
    EAdd(G, c.shared, -(x as int), -(rest as int));
  }

  lemma PlainZero(G: Params, c: Pair)
    requires G.Valid() && PairInGroup(G, c)
    ensures Plain(G, 0, c) == c.secret
  {
    PlainIs(G, 0, c);
    EZero(G, c.shared);
    MulOne(c.secret, G.p);
    ModSmall(c.secret, G.p);
  }

  // ----- one server -----

  /** One server's turn: re-encrypted and permuted pairs, then its layer removed from each. */
  ghost predicate Mixed(P: Prover, output: seq<Pair>, decrypted: seq<Pair>) {
    && P.Ready() && HonestOutput(P, output)
    && |decrypted| == |output|
    && forall i :: 0 <= i < |output| ==> decrypted[i] == Decrypt(P.G, P.x, output[i])
  }

  lemma HonestMixes(P: Prover, rand: Oracle, T: Transcript, K: Work)
    requires Honest(P, rand, T, K)
    ensures Mixed(P, T.shares.output, T.decrypted)
  {
  }

  /** A server's turn keeps, under the remaining keys, the plaintexts it was given. */
  lemma {:induction false} TurnMeans(P: Prover, output: seq<Pair>, decrypted: seq<Pair>, rest: nat)
    requires Mixed(P, output, decrypted) && InputsInGroup(P.G, P.input) && P.h == P.G.E(P.G.g, P.x + rest)
    ensures InputsInGroup(P.G, decrypted)
    ensures multiset(Plains(P.G, rest, decrypted)) == multiset(Plains(P.G, P.x + rest, P.input))
  {
    var before, after := Plains(P.G, P.x + rest, P.input), Plains(P.G, rest, decrypted);
    forall i | 0 <= i < |P.input|
      ensures PairInGroup(P.G, decrypted[i]) && after[i] == before[P.pi[i]]
    {
      TurnMeansAt(P.G, P.x, rest, P.h, P.input[P.pi[i]], P.sec.beta[P.pi[i]]);
    }
    PermutedMultiset(before, P.pi, P.inv, after);
  }

  lemma {:induction false} TurnMeansAt(G: Params, x: nat, rest: nat, h: int, c: Pair, beta: nat)
    requires G.Valid() && PairInGroup(G, c) && h == G.E(G.g, x + rest)
    ensures var d := Decrypt(G, x, Reencrypt(G, h, c, beta));
            PairInGroup(G, d) && Plain(G, rest, d) == Plain(G, x + rest, c)
  {
    ReencryptMeans(G, x + rest, h, c, beta);
    LayerMeans(G, x, rest, Reencrypt(G, h, c, beta));
  }

  // ----- the whole series -----

  datatype Stage = Stage(P: Prover, output: seq<Pair>, decrypted: seq<Pair>)

  /** Server i shuffles what server i-1 decrypted, under the keys i, i+1, ... */
  ghost predicate StageOf(G: Params, xs: seq<nat>, s: Stage, i: nat)
    requires G.p > 1 && i < |xs|
  {
    && Mixed(s.P, s.output, s.decrypted)
    && s.P.G == G && s.P.x == xs[i] && s.P.h == CombinedKey(PublicKeys(G, xs[i..]), G.p)
  }

  ghost predicate Chain(G: Params, xs: seq<nat>, stages: seq<Stage>) {
    && G.Valid() && 0 < |stages| == |xs|
    && (forall i :: 0 <= i < |stages| ==> StageOf(G, xs, stages[i], i))
    && (forall i :: 0 < i < |stages| ==> stages[i].P.input == stages[i - 1].decrypted)
  }

  /** What stage i starts from; stage n is the result of the last one. */
  ghost function StageInput(stages: seq<Stage>, i: nat): seq<Pair>
    requires 0 < |stages| && i <= |stages|
  {
    if i == 0 then stages[0].P.input else stages[i - 1].decrypted
  }

  lemma {:induction false} StageMeans(G: Params, xs: seq<nat>, s: Stage, i: nat)
    requires G.Valid() && i < |xs| && StageOf(G, xs, s, i) && InputsInGroup(G, s.P.input)
    ensures InputsInGroup(G, s.decrypted)
    ensures multiset(Plains(G, Sum(xs[i + 1..]), s.decrypted)) == multiset(Plains(G, Sum(xs[i..]), s.P.input))
  {
    assert xs[i..][0] == xs[i] && xs[i..][1..] == xs[i + 1..];
    CombinedKeyIsPower(G, xs[i..]);
    TurnMeans(s.P, s.output, s.decrypted, Sum(xs[i + 1..]));
  }

  /** At every stage the pairs encrypt, under the keys still to come, the original plaintexts. */
  lemma {:induction false} ChainMeans(G: Params, xs: seq<nat>, stages: seq<Stage>, i: nat)
    requires Chain(G, xs, stages) && i <= |stages| && InputsInGroup(G, stages[0].P.input)
    ensures InputsInGroup(G, StageInput(stages, i))
    ensures multiset(Plains(G, Sum(xs[i..]), StageInput(stages, i))) == multiset(Plains(G, Sum(xs), stages[0].P.input))
  {
    if i == 0 {
      assert xs[0..] == xs;
    } else {
      ChainMeans(G, xs, stages, i - 1);
      assert stages[i - 1].P.input == StageInput(stages, i - 1);
      StageMeans(G, xs, stages[i - 1], i - 1);
    }
  }

  ghost predicate EncryptedTo(G: Params, xs: seq<nat>, data: Bytes, c: Pair)
    requires G.p > 1 && G.q > 0
  {
    exists value: nat, secret: nat ::
      && EncodesAs(G, data, value)
      && c == Pair(Pow(G.g, secret, G.p), Mul(value, Pow(Prod(PublicKeys(G, xs), G.p), secret, G.p), G.p))
  }

  function Finished(G: Params, cs: seq<Pair>): seq<Option<Bytes>>
    requires G.p > 1 && G.q > 0
  {
    seq(|cs|, i requires 0 <= i < |cs| => SeriesDecryptFinish(G, cs[i]))
  }

  function Delivered(msgs: seq<Bytes>): seq<Option<Bytes>> {
    seq(|msgs|, i requires 0 <= i < |msgs| => Some(msgs[i]))
  }

  lemma {:induction false} EncryptedMeans(G: Params, xs: seq<nat>, data: Bytes, c: Pair)
    requires G.Valid() && SafePrime(G) && EncryptedTo(G, xs, data, c)
    ensures PairInGroup(G, c) && Decode(G, Plain(G, Sum(xs), c)) == Some(data)
  {
    var value: nat, secret: nat :|
      && EncodesAs(G, data, value)
      && c == Pair(Pow(G.g, secret, G.p), Mul(value, Pow(Prod(PublicKeys(G, xs), G.p), secret, G.p), G.p));
    SeriesEncryptMeans(G, xs, value, secret);
    DecodeEncode(G, data, value);
  }

  function Map<A, B>(f: A -> B, s: seq<A>): (r: seq<B>)
    ensures |r| == |s| && forall i :: 0 <= i < |s| ==> r[i] == f(s[i])
  {
    seq(|s|, i requires 0 <= i < |s| => f(s[i]))
  }

  /** Equal contents stay equal under any function applied to each element. */
  lemma {:induction false} MapMultiset<A, B>(s: seq<A>, t: seq<A>, f: A -> B)
    requires multiset(s) == multiset(t)
    ensures multiset(Map(f, s)) == multiset(Map(f, t))
    decreases |s|
  {
    if s == [] {
      assert |multiset(t)| == 0;
    } else {
      var n := |s| - 1;
      var x := s[n];
      assert s == s[..n] + [x];
      assert x in multiset(t);
      var i :| 0 <= i < |t| && t[i] == x;
      var a, b := t[..i], t[i + 1..];
      assert t == a + [x] + b;
      RemoveOne(s[..n], x, a, b);
      MapMultiset(s[..n], a + b, f);
      MapInserted(f, s[..n], [], x);
      assert s[..n] + [x] + [] == s && s[..n] + [] == s[..n];
      MapInserted(f, a, b, x);
    }
  }

  lemma MapInserted<A, B>(f: A -> B, a: seq<A>, b: seq<A>, x: A)
    ensures multiset(Map(f, a + [x] + b)) == multiset(Map(f, a + b)) + multiset{f(x)}
  {
    assert Map(f, a + [x] + b) == Map(f, a) + [f(x)] + Map(f, b);
    assert Map(f, a + b) == Map(f, a) + Map(f, b);
  }

  /** End to end: if every client's message was encoded and encrypted to the series, then after
      the last server the finished messages are a permutation of the clients' messages. */
  lemma {:induction false} MixnetDelivers(G: Params, xs: seq<nat>, stages: seq<Stage>, msgs: seq<Bytes>)
    requires Chain(G, xs, stages) && SafePrime(G) && |msgs| == |stages[0].P.input|
    requires forall i :: 0 <= i < |msgs| ==> EncryptedTo(G, xs, msgs[i], stages[0].P.input[i])
    ensures multiset(Finished(G, StageInput(stages, |stages|))) == multiset(Delivered(msgs))
  {
    var n, input, out := |stages|, stages[0].P.input, StageInput(stages, |stages|);
    var decode := v => Decode(G, v);
    InputsMean(G, xs, msgs, input);
    ChainMeans(G, xs, stages, n);
    assert xs[n..] == [];
    OutputsMean(G, out);
    MapMultiset(Plains(G, 0, out), Plains(G, Sum(xs), input), decode);
    assert Map(decode, Plains(G, 0, out)) == Finished(G, out);
    assert Map(decode, Plains(G, Sum(xs), input)) == Delivered(msgs);
  }

  lemma InputsMean(G: Params, xs: seq<nat>, msgs: seq<Bytes>, input: seq<Pair>)
    requires G.Valid() && SafePrime(G) && |msgs| == |input|
    requires forall i :: 0 <= i < |msgs| ==> EncryptedTo(G, xs, msgs[i], input[i])
    ensures InputsInGroup(G, input)
    ensures forall i :: 0 <= i < |msgs| ==> Decode(G, Plains(G, Sum(xs), input)[i]) == Some(msgs[i])
  {
    forall i | 0 <= i < |input| ensures PairInGroup(G, input[i]) && Decode(G, Plain(G, Sum(xs), input[i])) == Some(msgs[i]) {
      EncryptedMeans(G, xs, msgs[i], input[i]);
    }
  }

  lemma OutputsMean(G: Params, out: seq<Pair>)
    requires G.Valid() && InputsInGroup(G, out)
    ensures forall i :: 0 <= i < |out| ==> Plains(G, 0, out)[i] == out[i].secret
  {
    forall i | 0 <= i < |out| ensures Plain(G, 0, out[i]) == out[i].secret {
      PlainZero(G, out[i]);
    }
  }

  // ----- shuffling and verifying -----

  lemma {:induction false} HonestTurnAccepted(P: Prover, xs: seq<nat>, encode: Pair -> seq<nat>, rand: Oracle, T: Transcript, K: Work)
    requires Honest(P, rand, T, K) && SortedOutput(encode, T.shares.output) && InputsInGroup(P.G, P.input)
    requires xs != [] && P.h == CombinedKey(PublicKeys(P.G, xs), P.G.p)
    ensures Accepts(P.G, P.h, encode, rand, P.input, T) <==> GoodDraws(P.G.q, ChallengeC(rand, P.input, T), P.sec.gamma, K.rt)
  {
    CombinedKeyInGroup(P.G, xs);
    HonestAcceptedIff(P, encode, rand, T, K);
  }

  lemma {:induction false} CombinedKeyInGroup(G: Params, xs: seq<nat>)
    requires G.Valid() && xs != []
    ensures G.InGroup(CombinedKey(PublicKeys(G, xs), G.p))
  {
    CombinedKeyIsPower(G, xs);
    One(G);
    EClosed(G, G.g, Sum(xs));
  }

  lemma {:induction false} HonestTurnMeans(P: Prover, xs: seq<nat>, output: seq<Pair>, decrypted: seq<Pair>)
    requires Mixed(P, output, decrypted) && InputsInGroup(P.G, P.input)
    requires xs != [] && P.x == xs[0] && P.h == CombinedKey(PublicKeys(P.G, xs), P.G.p)
    ensures multiset(Plains(P.G, Sum(xs[1..]), decrypted)) == multiset(Plains(P.G, Sum(xs), P.input))
  {
    CombinedKeyIsPower(P.G, xs);
    TurnMeans(P, output, decrypted, Sum(xs[1..]));
  }

  /** Whatever is shuffled with matching keys is verified, up to the exceptional draws. */
  method ShuffleAndVerify(G: Params, xs: seq<nat>, input: seq<Pair>, sec: Secrets, encode: Pair -> seq<nat>, rand: Oracle)
    returns (accepted: bool, output: seq<Pair>, P: Prover, T: Transcript, K: Work)
    requires G.Valid() && xs != [] && sec.Sized(|input|) && OracleInRange(rand, G.q)
    requires input != [] && InputsInGroup(G, input)
    ensures P.G == G && P.x == xs[0] && P.h == CombinedKey(PublicKeys(G, xs), G.p) && P.input == input && P.sec == sec
    ensures Honest(P, rand, T, K) && SortedOutput(encode, T.shares.output)
    ensures accepted <==> GoodDraws(G.q, ChallengeC(rand, input, T), sec.gamma, K.rt)
    ensures output == if accepted then T.decrypted else []
    ensures multiset(Plains(G, Sum(xs[1..]), T.decrypted)) == multiset(Plains(G, Sum(xs), input))
  {
    var keys := PublicKeys(G, xs);
    var ok;
    ok, T, P, K := Shuffle(G, xs[0], keys, input, sec, encode, rand);
    HonestTurnAccepted(P, xs, encode, rand, T, K);
    HonestMixes(P, rand, T, K);
    HonestTurnMeans(P, xs, T.shares.output, T.decrypted);
    accepted, output := Verify(G, keys, input, T, encode, rand, []);
  }
}
