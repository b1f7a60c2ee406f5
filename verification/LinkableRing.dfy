/** Linkable ring signatures: LRSPublicKey and LRSPrivateKey. */
module LinkableRing {
  import opened Modular
  import opened Group

  /** A DSA public key: its parameters and public element. */
  datatype DsaKey = DsaKey(G: Params, y: nat)

  /** What the hash is applied to. */
  datatype HashInput =
    | Context(context: seq<nat>)
    | Message(groupGen: nat, tag: nat, data: seq<nat>)
    | Commitment(precompute: nat, z: nat, zz: nat)

  type HashFn = HashInput -> nat

  datatype Signature = Signature(commit1: nat, signatures: seq<nat>, tag: nat)

  /** LRSSignature's parser refuses fewer than two responses. */
  predicate Parses(sig: Signature) {
    |sig.signatures| > 1
  }

  /** The public side of a ring: what both signer and verifier compute with. */
  datatype Ring = Ring(G: Params, keys: seq<nat>, groupGen: nat)

  function GroupGenerator(H: HashFn, G: Params, context: seq<nat>): nat
    requires G.p > 1 && G.q > 0
  {
    Pow(G.g, H(Context(context)) % G.q, G.p)
  }

  /** One link of the hash chain: the commitment after index i. */
  function Link(H: HashFn, R: Ring, tag: nat, pre: nat, i: nat, s: nat, c: nat): nat
    requires R.G.p > 1 && R.G.q > 0 && i < |R.keys|
  {
    var p := R.G.p;
    H(Commitment(pre, Mul(Pow(R.G.g, s, p), Pow(R.keys[i], c, p), p),
                 Mul(Pow(R.groupGen, s, p), Pow(tag, c, p), p))) % R.G.q
  }

  /** The chain from index `from` up to index `upto`. */
  function Walk(H: HashFn, R: Ring, tag: nat, pre: nat, ss: seq<nat>, c: nat, from: nat, upto: nat): nat
    requires R.G.p > 1 && R.G.q > 0 && from <= upto <= |R.keys| == |ss|
    decreases upto - from
  {
    if from == upto then c else Walk(H, R, tag, pre, ss, Link(H, R, tag, pre, from, ss[from], c), from + 1, upto)
  }

  lemma {:induction false} WalkSplit(H: HashFn, R: Ring, tag: nat, pre: nat, ss: seq<nat>, c: nat, from: nat, mid: nat, upto: nat)
    requires R.G.p > 1 && R.G.q > 0 && from <= mid <= upto <= |R.keys| == |ss|
    ensures Walk(H, R, tag, pre, ss, c, from, upto)
            == Walk(H, R, tag, pre, ss, Walk(H, R, tag, pre, ss, c, from, mid), mid, upto)
    decreases mid - from
  {
    if from < mid {
      WalkSplit(H, R, tag, pre, ss, Link(H, R, tag, pre, from, ss[from], c), from + 1, mid, upto);
    }
  }

  lemma {:induction false} WalkExtend(H: HashFn, R: Ring, tag: nat, pre: nat, ss: seq<nat>, c: nat, from: nat, upto: nat)
    requires R.G.p > 1 && R.G.q > 0 && from <= upto < |R.keys| == |ss|
    ensures Walk(H, R, tag, pre, ss, c, from, upto + 1)
            == Link(H, R, tag, pre, upto, ss[upto], Walk(H, R, tag, pre, ss, c, from, upto))
  {
    WalkSplit(H, R, tag, pre, ss, c, from, upto, upto + 1);
    var d := Walk(H, R, tag, pre, ss, c, from, upto);
    var e := Link(H, R, tag, pre, upto, ss[upto], d);
    assert Walk(H, R, tag, pre, ss, e, upto + 1, upto + 1) == e;
  }

  /** The chain only looks at the responses it passes. */
  lemma {:induction false} WalkFrame(H: HashFn, R: Ring, tag: nat, pre: nat, ss: seq<nat>, tt: seq<nat>, c: nat, from: nat, upto: nat)
    requires R.G.p > 1 && R.G.q > 0 && from <= upto <= |R.keys| == |ss| == |tt|
    requires forall i :: from <= i < upto ==> ss[i] == tt[i]
    ensures Walk(H, R, tag, pre, ss, c, from, upto) == Walk(H, R, tag, pre, tt, c, from, upto)
    decreases upto - from
  {
    if from < upto {
      WalkFrame(H, R, tag, pre, ss, tt, Link(H, R, tag, pre, from, ss[from], c), from + 1, upto);
    }
  }

  // ----- why the ring closes -----

  /** b^s * (b^x)^c == b^u for the response s = u - x*c. */
  lemma {:induction false} ResponseCloses(G: Params, b: int, x: nat, u: nat, c: nat, s: nat)
    requires G.Valid() && G.InGroup(b) && s == (u - x * c) % G.q
    ensures Mul(Pow(b, s, G.p), Pow(Pow(b, x, G.p), c, G.p), G.p) == Pow(b, u, G.p)
  {
    PowIsE(G, b, s);
    PowIsE(G, b, x);
    PowIsE(G, G.E(b, x), c);
    EMul(G, b, x, c);
    PowIsE(G, b, u);
    CongMod(u - x * c, G.q);
    ECong(G, b, s, u - x * c);
    EAdd(G, b, u - x * c, x * c);
  }

  /** At the signer's own index the chain returns to the commitment it started from. */
  lemma {:induction false} OwnLinkCloses(H: HashFn, R: Ring, x: nat, pre: nat, my: nat, u: nat, c: nat, s: nat)
    requires R.G.Valid() && R.G.InGroup(R.groupGen) && my < |R.keys| && R.keys[my] == Pow(R.G.g, x, R.G.p)
    requires s == (u - x * c) % R.G.q
    ensures Link(H, R, Pow(R.groupGen, x, R.G.p), pre, my, s, c)
            == H(Commitment(pre, Pow(R.G.g, u, R.G.p), Pow(R.groupGen, u, R.G.p))) % R.G.q
  {
    One(R.G);
    ResponseCloses(R.G, R.G.g, x, u, c, s);
    ResponseCloses(R.G, R.groupGen, x, u, c, s);
  }

  /** Walking from index 0 with commit1 comes back to commit1. */
  lemma {:induction false} RingCloses(H: HashFn, R: Ring, x: nat, pre: nat, draws: seq<nat>, my: nat, u: nat, c0: nat, commit1: nat, last: nat, s: nat)
    requires R.G.Valid() && R.G.InGroup(R.groupGen) && my < |R.keys| == |draws| && R.keys[my] == Pow(R.G.g, x, R.G.p)
    requires c0 == H(Commitment(pre, Pow(R.G.g, u, R.G.p), Pow(R.groupGen, u, R.G.p))) % R.G.q
    requires var tag := Pow(R.groupGen, x, R.G.p);
             && commit1 == Walk(H, R, tag, pre, draws, c0, my + 1, |R.keys|)
             && last == Walk(H, R, tag, pre, draws, commit1, 0, my)
    requires s == (u - x * last) % R.G.q
    ensures Walk(H, R, Pow(R.groupGen, x, R.G.p), pre, draws[my := s], commit1, 0, |R.keys|) == commit1
  {
    var tag, n, ss := Pow(R.groupGen, x, R.G.p), |R.keys|, draws[my := s];
    WalkSplit(H, R, tag, pre, ss, commit1, 0, my, n);
    WalkFrame(H, R, tag, pre, ss, draws, commit1, 0, my);
    OwnLinkCloses(H, R, x, pre, my, u, last, s);
    assert Walk(H, R, tag, pre, ss, last, my, n) == Walk(H, R, tag, pre, ss, c0, my + 1, n);
    WalkFrame(H, R, tag, pre, ss, draws, c0, my + 1, n);
  }

  /** Two keys have the same tag under a context exactly when they are the same key, or the
      context hashes to zero. */
  lemma {:induction false} TagsLinkIff(H: HashFn, G: Params, context: seq<nat>, x: nat, y: nat)
    requires G.Valid()
    ensures Pow(GroupGenerator(H, G, context), x, G.p) == Pow(GroupGenerator(H, G, context), y, G.p)
            <==> Cong(x, y, G.q) || H(Context(context)) % G.q == 0
  {
    var h := H(Context(context)) % G.q;
    TagIsPower(G, h, x);
    TagIsPower(G, h, y);
    GeneratorInjective(G, h * x, h * y);
    ScaledCong(h, x, y, G.q);
    ModSmall(h, G.q);
  }

  lemma {:induction false} TagIsPower(G: Params, h: nat, x: nat)
    requires G.Valid()
    ensures Pow(Pow(G.g, h, G.p), x, G.p) == G.E(G.g, h * x)
  {
    One(G);
    PowIsE(G, G.g, h);
    PowIsE(G, G.E(G.g, h), x);
    EMul(G, G.g, h, x);
  }

  lemma {:induction false} ScaledCong(h: int, x: int, y: int, q: int)
    requires Prime(q)
    ensures Cong(h * x, h * y, q) <==> Cong(x, y, q) || h % q == 0
  {
    if Cong(x, y, q) {
      CongMul(h, h, x, y, q);
    } else if h % q == 0 {
      ModSmall(0, q);
      CongMul(h, 0, x, x, q);
      CongMul(h, 0, y, y, q);
    } else {
      if Cong(h * x, h * y, q) {
        PrimeInverse(h, q);
        InverseCancels(h, Inverse(h, q), x, y, q);
      }
    }
  }

  lemma {:induction false} InverseCancels(h: int, i: int, x: int, y: int, q: int)
    requires q > 1 && Mul(h, i, q) == 1 && Cong(h * x, h * y, q)
    ensures Cong(x, y, q)
  {
    ModSmall(1, q);
    CongMul(h * x, h * y, i, i, q);
    CongMul(h * i, 1, x, x, q);
    CongMul(h * i, 1, y, y, q);
    assert h * x * i == h * i * x && h * y * i == h * i * y;
  }

  // ----- the keys as objects -----

  /** The chain has gone idx - 1 links past the signer, around the end of the ring or not. */
  ghost predicate Around(H: HashFn, R: Ring, tag: nat, pre: nat, draws: seq<nat>, my: nat, c0: nat, idx: nat, commit: nat, commit1: nat)
    requires R.G.p > 1 && R.G.q > 0 && my < |R.keys| == |draws| && 1 <= idx <= |R.keys|
  {
    var max := |R.keys|;
    && (my + idx <= max ==> commit == Walk(H, R, tag, pre, draws, c0, my + 1, my + idx))
    && (my + idx >= max ==> commit1 == Walk(H, R, tag, pre, draws, c0, my + 1, max)
                            && commit == Walk(H, R, tag, pre, draws, commit1, 0, my + idx - max))
  }

  lemma {:induction false} AroundStep(H: HashFn, R: Ring, tag: nat, pre: nat, draws: seq<nat>, my: nat, c0: nat, idx: nat, commit: nat, commit1: nat)
    requires R.G.p > 1 && R.G.q > 0 && my < |R.keys| == |draws| && 1 <= idx < |R.keys|
    requires Around(H, R, tag, pre, draws, my, c0, idx, commit, commit1)
    ensures var fixed := (idx + my) % |R.keys|;
            fixed < |R.keys|
            && var c := Link(H, R, tag, pre, fixed, draws[fixed], commit);
               Around(H, R, tag, pre, draws, my, c0, idx + 1, c, if fixed == |R.keys| - 1 then c else commit1)
  {
    var max := |R.keys|;
    WrappedIndex(idx, my, max);
    if my + idx < max {
      WalkExtend(H, R, tag, pre, draws, c0, my + 1, my + idx);
      if my + idx + 1 == max {
        var c := Walk(H, R, tag, pre, draws, c0, my + 1, max);
        assert Walk(H, R, tag, pre, draws, c, 0, 0) == c;
      }
    } else {
      WalkExtend(H, R, tag, pre, draws, commit1, 0, my + idx - max);
    }
  }

  /** The loop of Sign: everybody else's response, and the chain from behind the signer around to it. */
  method SignOthers(H: HashFn, R: Ring, tag: nat, pre: nat, draws: seq<nat>, my: nat, c0: nat)
    returns (signatures: seq<nat>, commit: nat, commit1: nat)
    requires R.G.p > 1 && R.G.q > 0 && my < |R.keys| == |draws|
    ensures |signatures| == |R.keys| && forall i :: 0 <= i < |R.keys| && i != my ==> signatures[i] == draws[i]
    ensures Around(H, R, tag, pre, draws, my, c0, |R.keys|, commit, commit1)
  {
    var max, p := |R.keys|, R.G.p;
    signatures, commit, commit1 := seq(max, i => 0), c0, 0;
    if my == max - 1 {
      commit1 := commit;
    }
    for idx: nat := 1 to max
      invariant |signatures| == max
      invariant Around(H, R, tag, pre, draws, my, c0, idx, commit, commit1)
      invariant forall i :: my < i < max && i < my + idx ==> signatures[i] == draws[i]
      invariant forall i :: 0 <= i < my + idx - max ==> signatures[i] == draws[i]
    {
      AroundStep(H, R, tag, pre, draws, my, c0, idx, commit, commit1);
      WrappedIndex(idx, my, max);
      var fixed := (idx + my) % max;
      var sign := draws[fixed];
      signatures := signatures[fixed := sign];
      var z := Mul(Pow(R.G.g, sign, p), Pow(R.keys[fixed], commit, p), p);
      var zz := Mul(Pow(R.groupGen, sign, p), Pow(tag, commit, p), p);
      commit := H(Commitment(pre, z, zz)) % R.G.q;
      if fixed == max - 1 {
        commit1 := commit;
      }
    }
  }

  lemma {:induction false} WrappedIndex(idx: nat, my: nat, max: nat)
    requires idx < max && my < max
    ensures (idx + my) % max == if idx + my < max then idx + my else idx + my - max
  {
    if idx + my < max {
      ModSmall(idx + my, max);
    } else {
      QuotientUnique(max, 1, idx + my - max);
    }
  }

  class RingKey {
    const H: HashFn
    var valid: bool
    var G: Params
    var keys: seq<nat>
    var context: seq<nat>
    var groupGen: nat
    // the private part: exponent, own position and tag
    var x: nat
    var myIndex: int
    var tag: nat

    ghost predicate Usable()
      reads this
    {
      valid && keys != [] && G.Valid() && groupGen == GroupGenerator(H, G, context)
    }

    /** A private key placed in its ring. */
    ghost predicate CanSign()
      reads this
    {
      && Usable() && 0 <= myIndex < |keys| && keys[myIndex] == Pow(G.g, x, G.p)
      && tag == Pow(groupGen, x, G.p)
    }

    function TheRing(): Ring
      reads this
    {
      Ring(G, keys, groupGen)
    }

    /** LRSPrivateKey: a ring of public keys, the own private exponent and a linkage context. */
    constructor (H: HashFn, publicKeys: seq<DsaKey>, own: DsaKey, x: nat, context: seq<nat>)
      requires forall i :: 0 <= i < |publicKeys| ==> publicKeys[i].G.Valid()
      requires own.G.Valid() && own.y == Pow(own.G.g, x, own.G.p)
      ensures valid <==> publicKeys != [] && (forall i :: 0 <= i < |publicKeys| ==> publicKeys[i].G == publicKeys[0].G)
                         && own.G == publicKeys[0].G
      ensures valid ==> Usable() && |keys| == |publicKeys| && forall i :: 0 <= i < |keys| ==> keys[i] == publicKeys[i].y
      ensures valid && own.y in keys ==> CanSign()
      ensures valid && own.y !in keys ==> myIndex == -1
    {
      this.H := H;
      this.valid := true;
      this.G := if publicKeys == [] then own.G else publicKeys[0].G;
      this.keys, this.context, this.groupGen := [], context, 0;
      this.x, this.myIndex, this.tag := x, -1, 0;
      new;
      if publicKeys == [] {
        valid := false;
        return;
      }
      for i := 0 to |publicKeys|
        invariant valid && |keys| == i && G == publicKeys[0].G && this.context == context && this.x == x
        invariant forall j :: 0 <= j < i ==> keys[j] == publicKeys[j].y && publicKeys[j].G == G
      {
        var added := AddKey(publicKeys[i]);
        if !added {
          valid := false;
          return;
        }
      }
      groupGen := GroupGenerator(H, G, context);
      if own.G != G {
        valid := false;
        return;
      }
      myIndex := IndexOf(keys, own.y);
      tag := Pow(groupGen, x, G.p);
    }

    /** LRSPublicKey::AddKey: only keys over the same group join. */
    method AddKey(key: DsaKey) returns (added: bool)
      modifies this`keys
      ensures added <==> key.G == G
      ensures keys == if added then old(keys) + [key.y] else old(keys)
    {
      if key.G != G {
        return false;
      }
      keys := keys + [key.y];
      return true;
    }

    /** SetLinkageContext: a new group generator and with it a new tag. */
    method SetLinkageContext(context: seq<nat>)
      requires Usable()
      modifies this`context, this`groupGen, this`tag
      ensures this.context == context && Usable() && tag == Pow(groupGen, x, G.p)
      ensures old(CanSign()) ==> CanSign()
    {
      this.context := context;
      groupGen := GroupGenerator(H, G, context);
      tag := Pow(groupGen, x, G.p);
    }

    /** LRSPrivateKey::Sign; u and draws are its random numbers, draws[i] the response for index i. */
    method Sign(data: seq<nat>, u: nat, draws: seq<nat>) returns (sig: Signature)
      requires CanSign() && |draws| == |keys|
      ensures |sig.signatures| == |keys| && sig.tag == tag
      ensures forall i :: 0 <= i < |keys| && i != myIndex ==> sig.signatures[i] == draws[i]
      ensures Walk(H, TheRing(), tag, H(Message(groupGen, tag, data)), sig.signatures, sig.commit1, 0, |keys|) == sig.commit1
    {
      var pre := H(Message(groupGen, tag, data));
      var p, q, my, R := G.p, G.q, myIndex, TheRing();
      var commit := H(Commitment(pre, Pow(G.g, u, p), Pow(groupGen, u, p))) % q;
      var signatures, last, commit1 := SignOthers(H, R, tag, pre, draws, my, commit);
      var own := (u - x * last) % q;
      signatures := signatures[my := own];
      assert signatures == draws[my := own];
      assert G.InGroup(groupGen) by {
        One(G);
        PowClosed(G, G.g, H(Context(context)) % G.q);
      }
      RingCloses(H, R, x, pre, draws, my, u, commit, commit1, last, own);
      sig := Signature(commit1, signatures, tag);
    }

    /** LRSPublicKey::Verify on a parsed signature. */
    method Verify(data: seq<nat>, sig: Signature) returns (ok: bool)
      requires Usable()
      ensures ok <==> && Parses(sig) && |sig.signatures| == |keys|
                      && Walk(H, TheRing(), sig.tag, H(Message(groupGen, sig.tag, data)), sig.signatures, sig.commit1, 0, |keys|)
                         == sig.commit1
    {
      if !Parses(sig) || |sig.signatures| != |keys| {
        return false;
      }
      var pre := H(Message(groupGen, sig.tag, data));
      ghost var R := TheRing();
      var tcommit := sig.commit1;
      for i := 0 to |keys|
        invariant tcommit == Walk(H, R, sig.tag, pre, sig.signatures, sig.commit1, 0, i)
      {
        var z := Mul(Pow(G.g, sig.signatures[i], G.p), Pow(keys[i], tcommit, G.p), G.p);
        var zz := Mul(Pow(groupGen, sig.signatures[i], G.p), Pow(sig.tag, tcommit, G.p), G.p);
        WalkExtend(H, R, sig.tag, pre, sig.signatures, sig.commit1, 0, i);
        tcommit := H(Commitment(pre, z, zz)) % G.q;
      }
      return tcommit == sig.commit1;
    }
  }

  function IndexOf(s: seq<nat>, v: nat): (r: int)
    ensures -1 <= r < |s|
    ensures r >= 0 ==> s[r] == v && forall i :: 0 <= i < r ==> s[i] != v
    ensures r == -1 ==> v !in s
  {
    if s == [] then -1
    else if s[0] == v then 0
    else
      var r := IndexOf(s[1..], v);
      if r == -1 then -1 else r + 1
  }

  /** Signing and verifying: the signature is accepted exactly for rings of two or more, whatever
      the position of the signer, the message and the randomness; signing twice in one context
      gives equal tags. */
  method SignThenVerify(key: RingKey, data: seq<nat>, u: nat, draws: seq<nat>, data': seq<nat>, u': nat, draws': seq<nat>)
    returns (ok: bool, linked: bool)
    requires key.CanSign() && |draws| == |draws'| == |key.keys|
    ensures ok <==> |key.keys| >= 2
    ensures linked
  {
    var sig := key.Sign(data, u, draws);
    ok := key.Verify(data, sig);
    var sig' := key.Sign(data', u', draws');
    linked := sig.tag == sig'.tag;
  }
}
