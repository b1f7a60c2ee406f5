/** DSA keys used for ElGamal: encoding of messages as group elements, encryption under the
    product of a series of keys, and layer-by-layer decryption. */
module Dsa {
  import opened Modular
  import opened Group
  import opened NeffSpec

  datatype Option<+T> = None | Some(value: T)

  type Byte = b: int | 0 <= b < 256
  type Bytes = seq<Byte>

  // ----- big integers as byte strings -----

  /** Integer(const QByteArray &): big-endian. */
  function FromBytes(s: Bytes): nat {
    if s == [] then 0 else 256 * FromBytes(s[..|s| - 1]) + s[|s| - 1]
  }

  function Digits(n: nat): Bytes {
    if n == 0 then [] else Digits(n / 256) + [n % 256]
  }

  /** Integer::GetByteArray: the shortest big-endian form, one zero byte for zero. */
  function ToBytes(n: nat): Bytes {
    if n == 0 then [0] else Digits(n)
  }

  function ByteCount(n: nat): nat {
    |Digits(n)|
  }

  function BitCount(n: nat): nat {
    if n == 0 then 0 else 1 + BitCount(n / 2)
  }

  lemma {:induction false} FromDigits(n: nat)
    ensures FromBytes(Digits(n)) == n
  {
    if n != 0 {
      FromDigits(n / 256);
      assert (Digits(n / 256) + [n % 256])[..|Digits(n / 256)|] == Digits(n / 256);
    }
  }

  lemma {:induction false} LeadingDigit(n: nat)
    requires n > 0
    ensures |Digits(n)| > 0 && Digits(n)[0] != 0
  {
    if n >= 256 {
      LeadingDigit(n / 256);
    }
  }

  lemma {:induction false} DigitsFrom(s: Bytes)
    requires s != [] && s[0] != 0
    ensures FromBytes(s) > 0 && Digits(FromBytes(s)) == s
  {
    var n := |s| - 1;
    if n == 0 {
      assert FromBytes(s[..0]) == 0;
      assert Digits(0) == [];
      assert Digits(s[0]) == Digits(s[0] / 256) + [s[0]];
    } else {
      DigitsFrom(s[..n]);
      var hi := FromBytes(s[..n]);
      assert FromBytes(s) == 256 * hi + s[n];
      assert (256 * hi + s[n]) / 256 == hi && (256 * hi + s[n]) % 256 == s[n];
      assert s == s[..n] + [s[n]];
    }
  }

  /** A byte string is the encoding of its own value exactly when it has no leading zero. */
  lemma {:induction false} ToBytesFrom(s: Bytes)
    requires FromBytes(s) > 0
    ensures ToBytes(FromBytes(s)) == s <==> s[0] != 0
    ensures |ToBytes(FromBytes(s))| <= |s|
  {
    LeadingDigit(FromBytes(s));
    StripsZeros(s);
    if s[0] != 0 {
      DigitsFrom(s);
    }
  }

  lemma {:induction false} StripsZeros(s: Bytes)
    ensures |Digits(FromBytes(s))| <= |s|
  {
    if s != [] {
      var n := |s| - 1;
      StripsZeros(s[..n]);
      var hi := FromBytes(s[..n]);
      assert (256 * hi + s[n]) / 256 == hi;
    }
  }

  lemma {:induction false} BitCountMonotone(m: nat, n: nat)
    requires m <= n
    ensures BitCount(m) <= BitCount(n)
  {
    if m != 0 {
      BitCountMonotone(m / 2, n / 2);
    }
  }

  lemma {:induction false} BytesWithinBits(n: nat)
    ensures ByteCount(n) <= BitCount(n)
  {
    if n != 0 {
      BytesWithinBits(n / 256);
      BitCountMonotone(n / 256, n / 2);
    }
  }

  // ----- messages as group elements -----

  predicate SafePrime(G: Params) {
    2 * G.q + 1 == G.p
  }

  function Padded(data: Bytes, pad: Byte): Bytes {
    [0xff] + data + [pad] + [0xff]
  }

  function Room(G: Params): int
    requires G.q >= 0
  {
    ByteCount(G.q) - 4
  }

  /** The encodings Encode may pick for data, in the order it tries them. */
  ghost predicate EncodesAs(G: Params, data: Bytes, value: nat)
    requires G.p > 1 && G.q > 0
  {
    && G.InGroup(value)
    && if SafePrime(G) then
         && |data| <= Room(G)
         && exists pad: Byte ::
              && pad < 0xff && value == FromBytes(Padded(data, pad))
              && forall earlier: Byte :: earlier < pad ==> !G.InGroup(FromBytes(Padded(data, earlier)))
       else
         value == FromBytes(data)
  }

  method Encode(G: Params, data: Bytes) returns (encoded: Option<nat>)
    requires G.p > 1 && G.q > 0
    ensures encoded.Some? ==> EncodesAs(G, data, encoded.value)
    ensures encoded.None? ==> forall value: nat :: !EncodesAs(G, data, value)
  {
    if !SafePrime(G) {
      var value := FromBytes(data);
      return if G.InGroup(value) then Some(value) else None;
    }
    if Room(G) < |data| {
      return None;
    }
    var pad := 0;
    while pad < 0xff
      invariant 0 <= pad <= 0xff
      invariant forall earlier: Byte :: earlier < pad ==> !G.InGroup(FromBytes(Padded(data, earlier)))
    {
      var value := FromBytes(Padded(data, pad));
      if G.InGroup(value) {
        return Some(value);
      }
      pad := pad + 1;
    }
    return None;
  }

  /** Decoding strips a leading 0xff and the trailing pad and 0xff when both ends are 0xff. */
  predicate Framed(s: Bytes) {
    |s| >= 3 && s[0] == 0xff && s[|s| - 1] == 0xff
  }

  function Decode(G: Params, value: nat): Option<Bytes>
    requires G.p > 1 && G.q > 0
  {
    if !G.InGroup(value) then None
    else
      var s := ToBytes(value);
      if Framed(s) then Some(s[1..|s| - 2]) else Some(s)
  }

  lemma ZeroNotInGroup(G: Params)
    requires G.p > 1 && G.q > 0
    ensures !G.InGroup(0)
  {
    assert Pow(0, G.q, G.p) == Mul(0, Pow(0, G.q - 1, G.p), G.p);
  }

  /** In safe-prime mode decoding inverts every successful encoding. */
  lemma {:induction false} DecodeEncode(G: Params, data: Bytes, value: nat)
    requires G.p > 1 && G.q > 0 && SafePrime(G) && EncodesAs(G, data, value)
    ensures Decode(G, value) == Some(data)
  {
    var pad: Byte :| pad < 0xff && value == FromBytes(Padded(data, pad));
    var s := Padded(data, pad);
    DigitsFrom(s);
    assert s[1..|s| - 2] == data;
  }

  /** Outside safe-prime mode it does so exactly for data without a leading zero byte that does
      not itself look framed. */
  lemma {:induction false} DecodeEncodeRaw(G: Params, data: Bytes, value: nat)
    requires G.p > 1 && G.q > 0 && !SafePrime(G) && EncodesAs(G, data, value)
    ensures Decode(G, value) == Some(data) <==> data[0] != 0 && !Framed(data)
  {
    ZeroNotInGroup(G);
    ToBytesFrom(data);
  }

  // ----- series encryption -----

  /** DsaPublicKey::SeriesEncrypt; secret is the random exponent it draws. */
  method SeriesEncrypt(G: Params, keys: seq<nat>, data: Bytes, secret: nat) returns (r: Option<Pair>)
    requires G.p > 1 && G.q > 0
    ensures r.Some? <==> keys != [] && exists value: nat :: EncodesAs(G, data, value)
    ensures r.Some? ==>
      exists value: nat ::
        EncodesAs(G, data, value)
        && r.value == Pair(Pow(G.g, secret, G.p), Mul(value, Pow(Prod(keys, G.p), secret, G.p), G.p))
  {
    if |keys| == 0 {
      return None;
    }
    var encoded := Encode(G, data);
    if encoded.None? {
      return None;
    }
    var encrypted := 1;
    for i := 0 to |keys|
      invariant encrypted == Prod(keys[..i], G.p)
    {
      ProdAppend(keys[..i], keys[i], G.p);
      assert keys[..i + 1] == keys[..i] + [keys[i]];
      encrypted := Mul(encrypted, keys[i], G.p);
    }
    assert keys[..|keys|] == keys;
    var shared := Pow(G.g, secret, G.p);
    encrypted := Pow(encrypted, secret, G.p);
    r := Some(Pair(shared, Mul(encoded.value, encrypted, G.p)));
  }

  /** DsaPrivateKey::SeriesDecrypt: one layer; it refuses elements longer than the key. */
  function SeriesDecrypt(G: Params, x: nat, c: Pair): Option<Pair>
    requires G.p > 1
  {
    if ByteCount(c.shared) > BitCount(G.p) || ByteCount(c.secret) > BitCount(G.p) then None
    else Some(Decrypt(G, x, c))
  }

  /** Reduced ciphertexts are never refused. */
  lemma {:induction false} ReducedDecrypts(G: Params, x: nat, c: Pair)
    requires G.p > 1 && c.shared < G.p && c.secret < G.p
    ensures SeriesDecrypt(G, x, c) == Some(Decrypt(G, x, c))
  {
    BytesWithinBits(c.shared);
    BytesWithinBits(c.secret);
    BitCountMonotone(c.shared, G.p);
    BitCountMonotone(c.secret, G.p);
  }

  /** DsaPrivateKey::SeriesDecryptFinish. */
  function SeriesDecryptFinish(G: Params, c: Pair): Option<Bytes>
    requires G.p > 1 && G.q > 0
  {
    Decode(G, c.secret)
  }
}
