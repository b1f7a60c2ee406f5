/** The proof that a Diffie-Hellman secret was computed honestly: DiffieHellman::ProveSharedSecret
    and DiffieHellman::VerifySharedSecret. */
module DiffieHellman {
  import opened Modular
  import opened Group
  import opened Dsa

  /** The hash of a list of byte strings, streamed with their lengths. */
  type HashFn = seq<Bytes> -> Bytes

  /** The group and the length in bytes of its public components and agreed values. */
  datatype Domain = Domain(G: Params, length: nat) {
    ghost predicate Valid() {
      G.Valid() && (G.p - 1) % G.q == 0 && length == ByteCount(G.p)
    }
  }

  /** Zero-padded big-endian form: how the library writes keys and agreed values. */
  function Fixed(n: nat, length: nat): Bytes
    requires ByteCount(n) <= length
  {
    seq(length - ByteCount(n), i => 0) + Digits(n)
  }

  lemma {:induction false} FromZeros(k: nat, s: Bytes)
    ensures FromBytes(seq(k, i => 0) + s) == FromBytes(s)
    decreases |s|, k
  {
    var z: Bytes := seq(k, i => 0);
    if s == [] {
      assert z + s == z;
      if k > 0 {
        FromZeros(k - 1, []);
        assert z[..k - 1] == seq(k - 1, i => 0) && seq(k - 1, i => 0) + [] == seq(k - 1, i => 0);
      }
    } else {
      var n := |s| - 1;
      FromZeros(k, s[..n]);
      assert (z + s)[..|z + s| - 1] == z + s[..n];
    }
  }

  lemma FromFixed(n: nat, length: nat)
    requires ByteCount(n) <= length
    ensures FromBytes(Fixed(n, length)) == n
  {
    FromZeros(length - ByteCount(n), Digits(n));
    FromDigits(n);
  }

  lemma {:induction false} ByteCountMonotone(m: nat, n: nat)
    requires m <= n
    ensures ByteCount(m) <= ByteCount(n)
  {
    if m != 0 {
      ByteCountMonotone(m / 256, n / 256);
    }
  }

  /** Two ways to write a group element agree exactly when it fills all its bytes. */
  lemma FixedIsShortest(n: nat, length: nat)
    requires n > 0 && ByteCount(n) <= length
    ensures Fixed(n, length) == ToBytes(n) <==> ByteCount(n) == length
  {
    if ByteCount(n) == length {
      assert Fixed(n, length) == Digits(n);
    }
  }

  datatype Proof = Proof(secret: Bytes, challenge: Bytes, response: Bytes)

  /** g^e written as a public component. */
  function PublicComponent(D: Domain, e: nat): Bytes
    requires D.Valid()
  {
    ByteCountMonotone(Pow(D.G.g, e, D.G.p), D.G.p);
    Fixed(Pow(D.G.g, e, D.G.p), D.length)
  }

  /** The agreed value, written at full length; a key outside the group gives nothing. */
  function SharedSecret(D: Domain, e: nat, remote: Bytes): Bytes
    requires D.Valid()
  {
    var r := FromBytes(remote);
    if !D.G.InGroup(r) then []
    else
      ByteCountMonotone(Pow(r, e, D.G.p), D.G.p);
      Fixed(Pow(r, e, D.G.p), D.length)
  }

  /** a is the prover's private exponent, v the nonce. */
  function ProveSharedSecret(D: Domain, H: HashFn, a: nat, remote: Bytes, v: nat): Proof
    requires D.Valid()
  {
    var phi := D.G.p - 1;
    var secret := SharedSecret(D, a, remote);
    var challenge := H([ToBytes(D.G.g), PublicComponent(D, a), remote, secret,
                        PublicComponent(D, v), SharedSecret(D, v, remote)]);
    var product := Mul(a, FromBytes(challenge), phi);
    Proof(secret, challenge, ToBytes((v - product) % phi))
  }

  function VerifySharedSecret(D: Domain, H: HashFn, prover: Bytes, remote: Bytes, proof: Proof): Bytes
    requires D.Valid()
  {
    var p := D.G.p;
    var secret, challenge, response := FromBytes(proof.secret), FromBytes(proof.challenge), FromBytes(proof.response);
    var commit1 := Mul(Pow(D.G.g, response, p), Pow(FromBytes(prover), challenge, p), p);
    var commit2 := Mul(Pow(FromBytes(remote), response, p), Pow(secret, challenge, p), p);
    var expected := H([ToBytes(D.G.g), prover, remote, proof.secret, ToBytes(commit1), ToBytes(commit2)]);
    if proof.challenge == expected then proof.secret else []
  }

  // ----- completeness -----

  /** Reducing an exponent modulo p-1 keeps it modulo q. */
  lemma {:induction false} ReducedExponent(p: int, q: int, v: int, a: int, c: int, response: int)
    requires q > 0 && p > 1 && (p - 1) % q == 0 && response == (v - Mul(a, c, p - 1)) % (p - 1)
    ensures Cong(response, v - a * c, q)
  {
    var phi := p - 1;
    var m := phi / q;
    assert phi == m * q;
    var k := (v - Mul(a, c, phi)) / phi;
    var l := (a * c) / phi;
    assert v - Mul(a, c, phi) == k * phi + response;
    assert a * c == l * phi + Mul(a, c, phi);
    assert response == v - a * c + (l - k) * phi;
    assert (l - k) * phi == ((l - k) * m) * q;
    CongByQuotient(response, v - a * c, (l - k) * m, q);
  }

  /** b^response * (b^a)^c recovers b^v. */
  lemma {:induction false} CommitRecovered(G: Params, b: int, a: nat, v: nat, c: nat, response: nat)
    requires G.Valid() && G.InGroup(b) && Cong(response, v - a * c, G.q)
    ensures Mul(Pow(b, response, G.p), Pow(Pow(b, a, G.p), c, G.p), G.p) == Pow(b, v, G.p)
  {
    PowIsE(G, b, response);
    PowIsE(G, b, a);
    PowIsE(G, G.E(b, a), c);
    EMul(G, b, a, c);
    PowIsE(G, b, v);
    ECong(G, b, response, v - a * c);
    EAdd(G, b, v - a * c, a * c);
  }

  /** The verifier computes the prover's commitments as numbers. */
  lemma {:induction false} CommitmentsMatch(D: Domain, H: HashFn, a: nat, remote: Bytes, v: nat)
    requires D.Valid() && D.G.InGroup(FromBytes(remote))
    ensures var proof := ProveSharedSecret(D, H, a, remote, v);
            var c, response := FromBytes(proof.challenge), FromBytes(proof.response);
            && Mul(Pow(D.G.g, response, D.G.p), Pow(FromBytes(PublicComponent(D, a)), c, D.G.p), D.G.p) == Pow(D.G.g, v, D.G.p)
            && Mul(Pow(FromBytes(remote), response, D.G.p), Pow(FromBytes(proof.secret), c, D.G.p), D.G.p)
               == Pow(FromBytes(remote), v, D.G.p)
  {
    var r := FromBytes(remote);
    var proof := ProveSharedSecret(D, H, a, remote, v);
    var c := FromBytes(proof.challenge);
    var e := (v - Mul(a, c, D.G.p - 1)) % (D.G.p - 1);
    FromDigits(e);
    assert FromBytes(ToBytes(e)) == e by {
      assert FromBytes([0]) == 256 * FromBytes([]) + 0;
    }
    ReducedExponent(D.G.p, D.G.q, v, a, c, e);
    ByteCountMonotone(Pow(D.G.g, a, D.G.p), D.G.p);
    FromFixed(Pow(D.G.g, a, D.G.p), D.length);
    ByteCountMonotone(Pow(r, a, D.G.p), D.G.p);
    FromFixed(Pow(r, a, D.G.p), D.length);
    One(D.G);
    CommitRecovered(D.G, D.G.g, a, v, c, e);
    CommitRecovered(D.G, r, a, v, c, e);
  }

  /** Both commitments fill all the bytes of a public component. */
  predicate FullLength(D: Domain, remote: Bytes, v: nat)
    requires D.Valid()
  {
    && ByteCount(Pow(D.G.g, v, D.G.p)) == D.length
    && ByteCount(Pow(FromBytes(remote), v, D.G.p)) == D.length
  }

  lemma {:induction false} EncodingsMatchIff(D: Domain, remote: Bytes, v: nat)
    requires D.Valid() && D.G.InGroup(FromBytes(remote))
    ensures FullLength(D, remote, v)
            <==> PublicComponent(D, v) == ToBytes(Pow(D.G.g, v, D.G.p))
                 && SharedSecret(D, v, remote) == ToBytes(Pow(FromBytes(remote), v, D.G.p))
  {
    var t1, t2 := Pow(D.G.g, v, D.G.p), Pow(FromBytes(remote), v, D.G.p);
    One(D.G);
    PowClosed(D.G, D.G.g, v);
    PowClosed(D.G, FromBytes(remote), v);
    ZeroNotInGroup(D.G);
    ByteCountMonotone(t1, D.G.p);
    ByteCountMonotone(t2, D.G.p);
    FixedIsShortest(t1, D.length);
    FixedIsShortest(t2, D.length);
  }

  ghost predicate Injective(H: HashFn) {
    forall s, t :: H(s) == H(t) ==> s == t
  }

  /** Completeness: with full-length commitments the verifier returns the shared secret. With an
      injective hash it does so only then, because it hashes the shortest form of its commitments
      where the prover hashed the padded one. */
  lemma {:induction false} HonestProofVerifies(D: Domain, H: HashFn, a: nat, remote: Bytes, v: nat)
    requires D.Valid() && D.G.InGroup(FromBytes(remote))
    ensures FullLength(D, remote, v) ==>
              VerifySharedSecret(D, H, PublicComponent(D, a), remote, ProveSharedSecret(D, H, a, remote, v))
              == SharedSecret(D, a, remote)
    ensures Injective(H) && !FullLength(D, remote, v) ==>
              VerifySharedSecret(D, H, PublicComponent(D, a), remote, ProveSharedSecret(D, H, a, remote, v)) == []
  {
    var r := FromBytes(remote);
    var proof := ProveSharedSecret(D, H, a, remote, v);
    CommitmentsMatch(D, H, a, remote, v);
    EncodingsMatchIff(D, remote, v);
    var proved := [ToBytes(D.G.g), PublicComponent(D, a), remote, proof.secret,
                   PublicComponent(D, v), SharedSecret(D, v, remote)];
    var checked := [ToBytes(D.G.g), PublicComponent(D, a), remote, proof.secret,
                    ToBytes(Pow(D.G.g, v, D.G.p)), ToBytes(Pow(r, v, D.G.p))];
    assert proof.challenge == H(proved);
    if Injective(H) && !FullLength(D, remote, v) {
      assert proved[4] != checked[4] || proved[5] != checked[5];
      assert H(proved) != H(checked);
    }
  }

  /** The group of order 11 modulo 331; three of its elements take two bytes. */
  const SMALL_DOMAIN: Domain := Domain(Params(331, 11, 270), 2)

  lemma {:induction false} SmallPowers()
    ensures Pow(270, 1, 331) == 270 && Pow(270, 2, 331) == 80 && Pow(270, 6, 331) == 274 && Pow(270, 11, 331) == 1
  {
    assert Pow(270, 0, 331) == 1 && Pow(270, 1, 331) == 270;
    assert Pow(270, 2, 331) == 80 && Pow(270, 3, 331) == 85;
    assert Pow(270, 4, 331) == 111 && Pow(270, 5, 331) == 180;
    assert Pow(270, 6, 331) == 274 && Pow(270, 7, 331) == 167;
    assert Pow(270, 8, 331) == 74 && Pow(270, 9, 331) == 120 && Pow(270, 10, 331) == 293;
  }

  lemma {:induction false} SmallDigits()
    ensures ByteCount(80) == 1 && ByteCount(270) == ByteCount(274) == ByteCount(331) == 2
  {
    assert Digits(0) == [] && Digits(1) == Digits(0) + [1] && Digits(80) == Digits(0) + [80];
    assert Digits(270) == Digits(1) + [14] && Digits(274) == Digits(1) + [18] && Digits(331) == Digits(1) + [75];
  }

  lemma {:induction false} SmallRemote()
    ensures FromBytes([1, 18]) == 274
  {
    var remote: Bytes := [1, 18];
    assert remote[..1] == [1] && [1][..0] == [];
    assert FromBytes([1]) == 1;
  }

  lemma {:induction false} SmallDomainValid()
    ensures SMALL_DOMAIN.Valid() && SMALL_DOMAIN.G.InGroup(274)
  {
    SmallPowers();
    SmallDigits();
    assert SMALL_DOMAIN.Valid();
    One(SMALL_DOMAIN.G);
    PowClosed(SMALL_DOMAIN.G, 270, 6);
  }

  lemma {:induction false} SmallLengths()
    requires SMALL_DOMAIN.Valid()
    ensures FullLength(SMALL_DOMAIN, [1, 18], 1) && !FullLength(SMALL_DOMAIN, [1, 18], 2)
  {
    SmallPowers();
    SmallDigits();
    SmallRemote();
    assert Pow(274, 0, 331) == 1 && Pow(274, 1, 331) == 274;
  }

  /** Two honest proofs in that group: with nonce 1 both commitments take two bytes and the proof
      is accepted; with nonce 2 the first one is 80, one byte short, and the proof is refused. */
  lemma {:induction false} ShortCommitmentRejected(H: HashFn, a: nat)
    requires Injective(H)
    ensures var D, remote: Bytes := SMALL_DOMAIN, [1, 18];
            && D.Valid() && SharedSecret(D, a, remote) != []
            && VerifySharedSecret(D, H, PublicComponent(D, a), remote, ProveSharedSecret(D, H, a, remote, 1)) == SharedSecret(D, a, remote)
            && VerifySharedSecret(D, H, PublicComponent(D, a), remote, ProveSharedSecret(D, H, a, remote, 2)) == []
  {
    var D, remote: Bytes := SMALL_DOMAIN, [1, 18];
    SmallDomainValid();
    SmallLengths();
    SmallRemote();
    HonestProofVerifies(D, H, a, remote, 1);
    HonestProofVerifies(D, H, a, remote, 2);
    SmallDigits();
    ByteCountMonotone(Pow(274, a, 331), 331);
    assert |SharedSecret(D, a, remote)| == 2;
  }
}
