/** Pads of the client/server DC-net: what the clients and servers mask with, and how the masks
    cancel when the servers' ciphertexts are combined. */
module DcNetPads {
  import opened Modular
  import opened Group
  import opened Xor

  // ----- one phase -----

  /** One phase: how many clients and servers, the message length, the pads as each client and as
      each server generates them, who was handled and, for handled clients, by which server. */
  datatype Phase = Phase(clients: nat, servers: nat, length: nat, pad: (nat, nat) -> Buf, serverPad: (nat, nat) -> Buf,
                         handled: seq<bool>, server: seq<nat>)
  {
    ghost predicate Valid() {
      && |handled| == |server| == clients
      && (forall c :: 0 <= c < clients && handled[c] ==> server[c] < servers)
      && (forall c, s :: |pad(c, s)| == |serverPad(c, s)| == length)
    }

    /** Both sides generate the same pads. */
    ghost predicate Agreed() {
      forall c, s :: 0 <= c < clients && 0 <= s < servers ==> serverPad(c, s) == pad(c, s)
    }

    predicate Handled(c: nat) {
      c < |handled| && handled[c]
    }

    predicate HandledBy(c: nat, s: nat) {
      Handled(c) && c < |server| && server[c] == s
    }
  }

  // ----- where the pads come from -----

  /** The generator for a pair: seeded by the shared secret, the phase and the nonce. */
  type Generator = (nat, nat, nat) -> nat -> Buf

  /** Client and server arrive at the same pad: each raises the other's public key to its own
      exponent. */
  lemma {:induction false} PadsAgree(G: Params, prg: Generator, a: nat, b: nat, phase: nat, nonce: nat, length: nat)
    requires G.p > 1
    ensures prg(Pow(Pow(G.g, b, G.p), a, G.p), phase, nonce)(length)
            == prg(Pow(Pow(G.g, a, G.p), b, G.p), phase, nonce)(length)
  {
    PowPow(G.g, a, b, G.p);
    PowPow(G.g, b, a, G.p);
    assert a * b == b * a;
  }

  /** The exponents of the clients and of the servers, and what else seeds the generators. */
  datatype Keys = Keys(G: Params, prg: Generator, client: nat -> nat, server: nat -> nat, phase: nat, nonce: nat)
  {
    function ClientPad(length: nat, c: nat, s: nat): Buf
      requires G.p > 1
    {
      prg(Pow(Pow(G.g, server(s), G.p), client(c), G.p), phase, nonce)(length)
    }

    function ServerPad(length: nat, c: nat, s: nat): Buf
      requires G.p > 1
    {
      prg(Pow(Pow(G.g, client(c), G.p), server(s), G.p), phase, nonce)(length)
    }
  }

  /** Each side generates its pads from its own exponent and the other's public key. */
  ghost predicate Keyed(P: Phase, K: Keys) {
    && K.G.p > 1
    && (forall c, s :: 0 <= c < P.clients && 0 <= s < P.servers ==> P.pad(c, s) == K.ClientPad(P.length, c, s))
    && (forall c, s :: 0 <= c < P.clients && 0 <= s < P.servers ==> P.serverPad(c, s) == K.ServerPad(P.length, c, s))
  }

  lemma {:induction false} KeyedAgrees(P: Phase, K: Keys)
    requires Keyed(P, K)
    ensures P.Agreed()
  {
    forall c, s | 0 <= c < P.clients && 0 <= s < P.servers ensures P.serverPad(c, s) == P.pad(c, s) {
      PadsAgree(K.G, K.prg, K.client(c), K.server(s), K.phase, K.nonce, P.length);
    }
  }

  function At(b: Buf, k: nat): Byte {
    if k < |b| then b[k] else 0
  }

  function PadByte(P: Phase, k: nat): (nat, nat) -> Byte {
    (c: nat, s: nat) => At(P.pad(c, s), k)
  }

  /** A client's ciphertext: its contribution under one pad per server. */
  ghost predicate IsClientCiphertext(P: Phase, c: nat, contribution: Buf, cipher: Buf) {
    && |contribution| == |cipher| == P.length
    && forall k :: 0 <= k < P.length ==> cipher[k] == Add(contribution[k], Fold(Row(PadByte(P, k), c), P.servers))
  }

  function HandledPadAt(P: Phase, k: nat, c: nat, s: nat): Byte {
    if P.Handled(c) then At(P.serverPad(c, s), k) else 0
  }

  function HandledPad(P: Phase, k: nat): (nat, nat) -> Byte {
    (c: nat, s: nat) => HandledPadAt(P, k, c, s)
  }

  function Received(P: Phase, ciphers: nat -> Buf, k: nat): (nat, nat) -> Byte {
    (c: nat, s: nat) => if P.HandledBy(c, s) then At(ciphers(c), k) else 0
  }

  /** A server's ciphertext: one pad per handled client, and the ciphertexts it received. */
  ghost predicate IsServerCiphertext(P: Phase, s: nat, ciphers: nat -> Buf, cipher: Buf) {
    && |cipher| == P.length
    && forall k :: 0 <= k < P.length ==>
         cipher[k] == Add(Fold(Column(HandledPad(P, k), s), P.clients), Fold(Column(Received(P, ciphers, k), s), P.clients))
  }

  // ----- how the ciphertexts are built -----

  function ListByte(pads: seq<Buf>, k: nat): nat -> Byte {
    (i: nat) => if i < |pads| then At(pads[i], k) else 0
  }

  /** The pad loop of GenerateCiphertext, in place on one buffer. */
  method SumPads(pads: seq<Buf>, length: nat) returns (r: Buf)
    requires forall i :: 0 <= i < |pads| ==> |pads[i]| == length
    ensures |r| == length
    ensures forall k :: 0 <= k < length ==> r[k] == Fold(ListByte(pads, k), |pads|)
  {
    var message := new Byte[length](i => 0);
    for i := 0 to |pads|
      invariant fresh(message)
      invariant forall k :: 0 <= k < length ==> message[k] == Fold(ListByte(pads, k), i)
    {
      var block := new Byte[length](j requires 0 <= j < length => pads[i][j]);
      ghost var before := message[..];
      XorInPlace(message, message, block);
      assert forall k :: 0 <= k < length ==> message[k] == message[..][k] == Add(before[k], pads[i][k]);
    }
    r := message[..];
  }

  /** The client's side, before its slot or open bit is combined in. */
  method ClientCiphertext(P: Phase, c: nat, contribution: Buf) returns (cipher: Buf)
    requires P.Valid() && c < P.clients && |contribution| == P.length
    ensures IsClientCiphertext(P, c, contribution, cipher)
  {
    var pads := seq(P.servers, s requires 0 <= s < P.servers => P.pad(c, s));
    var sum := SumPads(pads, P.length);
    forall k | 0 <= k < P.length ensures sum[k] == Fold(Row(PadByte(P, k), c), P.servers) {
      FoldEqual(ListByte(pads, k), Row(PadByte(P, k), c), P.servers);
    }
    cipher := Xored(contribution, sum);
  }

  /** f and g differ only in that g lacks the term at k. */
  lemma {:induction false} FoldAdd(f: nat -> Byte, g: nat -> Byte, n: nat, k: nat)
    requires k < n && g(k) == 0 && forall i :: 0 <= i < n && i != k ==> f(i) == g(i)
    ensures Fold(f, n) == Add(Fold(g, n), f(k))
  {
    if k == n - 1 {
      FoldEqual(f, g, n - 1);
    } else {
      FoldAdd(f, g, n - 1, k);
      Regroup(Fold(g, n - 1), f(k), g(n - 1), 0);
    }
  }

  /** The received list, one entry per client in order of arrival. */
  ghost predicate ListOf(list: seq<(nat, Buf)>, P: Phase, ciphers: nat -> Buf, s: nat) {
    && (forall i :: 0 <= i < |list| ==> list[i].1 == ciphers(list[i].0) && |list[i].1| == P.length)
    && (forall i, j :: 0 <= i < j < |list| ==> list[i].0 != list[j].0)
    && (forall c: nat :: P.HandledBy(c, s) <==> exists i :: 0 <= i < |list| && list[i].0 == c)
  }

  /** The bytes of the ciphertexts among the first n list entries, by client. */
  ghost function Among(list: seq<(nat, Buf)>, ciphers: nat -> Buf, n: nat, k: nat): nat -> Byte
    requires n <= |list|
  {
    (c: nat) => if exists i :: 0 <= i < n && list[i].0 == c then At(ciphers(c), k) else 0
  }

  lemma {:induction false} AmongStep(list: seq<(nat, Buf)>, P: Phase, ciphers: nat -> Buf, s: nat, n: nat, k: nat)
    requires P.Valid() && ListOf(list, P, ciphers, s) && n < |list|
    ensures Fold(Among(list, ciphers, n + 1, k), P.clients) == Add(Fold(Among(list, ciphers, n, k), P.clients), At(list[n].1, k))
  {
    var c := list[n].0;
    assert P.HandledBy(c, s);
    FoldAdd(Among(list, ciphers, n + 1, k), Among(list, ciphers, n, k), P.clients, c);
  }

  lemma {:induction false} AmongAll(list: seq<(nat, Buf)>, P: Phase, ciphers: nat -> Buf, s: nat, k: nat)
    requires ListOf(list, P, ciphers, s)
    ensures Fold(Among(list, ciphers, |list|, k), P.clients) == Fold(Column(Received(P, ciphers, k), s), P.clients)
  {
    FoldEqual(Among(list, ciphers, |list|, k), Column(Received(P, ciphers, k), s), P.clients);
  }

  lemma {:induction false} ListAppend(pads: seq<Buf>, x: Buf, k: nat)
    ensures Fold(ListByte(pads + [x], k), |pads| + 1) == Add(Fold(ListByte(pads, k), |pads|), At(x, k))
  {
    FoldEqual(ListByte(pads + [x], k), ListByte(pads, k), |pads|);
  }

  /** SetupRngs on a server: one generator per handled client, in roster order. */
  method HandledPads(P: Phase, s: nat) returns (pads: seq<Buf>)
    requires P.Valid()
    ensures forall i :: 0 <= i < |pads| ==> |pads[i]| == P.length
    ensures forall k :: 0 <= k < P.length ==> Fold(ListByte(pads, k), |pads|) == Fold(Column(HandledPad(P, k), s), P.clients)
  {
    pads := [];
    for c := 0 to P.clients
      invariant forall i :: 0 <= i < |pads| ==> |pads[i]| == P.length
      invariant forall k :: 0 <= k < P.length ==> Fold(ListByte(pads, k), |pads|) == Fold(Column(HandledPad(P, k), s), c)
    {
      if P.handled[c] {
        forall k | 0 <= k < P.length
          ensures Fold(ListByte(pads + [P.serverPad(c, s)], k), |pads| + 1) == Fold(Column(HandledPad(P, k), s), c + 1)
        {
          ListAppend(pads, P.serverPad(c, s), k);
        }
        pads := pads + [P.serverPad(c, s)];
      }
    }
  }

  /** GenerateServerCiphertext: list holds the received ciphertexts in order of arrival. */
  method ServerCiphertext(P: Phase, s: nat, list: seq<(nat, Buf)>, ghost ciphers: nat -> Buf) returns (cipher: Buf)
    requires P.Valid() && s < P.servers && ListOf(list, P, ciphers, s)
    ensures IsServerCiphertext(P, s, ciphers, cipher)
  {
    var pads := HandledPads(P, s);
    var sum := SumPads(pads, P.length);
    cipher := sum;
    forall k | 0 <= k < P.length ensures Fold(Among(list, ciphers, 0, k), P.clients) == 0 {
      FoldZero(Among(list, ciphers, 0, k), P.clients);
    }
    for i := 0 to |list|
      invariant |cipher| == P.length
      invariant forall k :: 0 <= k < P.length ==> cipher[k] == Add(sum[k], Fold(Among(list, ciphers, i, k), P.clients))
    {
      assert P.HandledBy(list[i].0, s);
      if P.handled[list[i].0] {
        ghost var before := cipher;
        cipher := Xored(cipher, list[i].1);
        forall k | 0 <= k < P.length
          ensures cipher[k] == Add(sum[k], Fold(Among(list, ciphers, i + 1, k), P.clients))
        {
          AmongStep(list, P, ciphers, s, i, k);
          AddAssoc(sum[k], Fold(Among(list, ciphers, i, k), P.clients), list[i].1[k]);
        }
      }
    }
    forall k | 0 <= k < P.length
      ensures cipher[k] == Add(Fold(Column(HandledPad(P, k), s), P.clients), Fold(Column(Received(P, ciphers, k), s), P.clients))
    {
      AmongAll(list, P, ciphers, s, k);
    }
  }

  /** SubmitValidation: the cleartext is the sum of all servers' ciphertexts. */
  method Combine(servers: seq<Buf>, length: nat) returns (cleartext: Buf)
    requires forall s :: 0 <= s < |servers| ==> |servers[s]| == length
    ensures |cleartext| == length
    ensures forall k :: 0 <= k < length ==> cleartext[k] == Fold(ListByte(servers, k), |servers|)
  {
    cleartext := SumPads(servers, length);
  }

  // ----- cancellation -----

  function HandledContribution(P: Phase, contributions: nat -> Buf, k: nat): nat -> Byte {
    (c: nat) => if P.Handled(c) then At(contributions(c), k) else 0
  }

  function PadsOfServer(P: Phase, k: nat): nat -> Byte {
    (s: nat) => Fold(Column(HandledPad(P, k), s), P.clients)
  }

  function PadsOfClient(P: Phase, k: nat): nat -> Byte {
    (c: nat) => if P.Handled(c) then Fold(Row(PadByte(P, k), c), P.servers) else 0
  }

  function ReceivedByServer(P: Phase, ciphers: nat -> Buf, k: nat): nat -> Byte {
    (s: nat) => Fold(Column(Received(P, ciphers, k), s), P.clients)
  }

  function SentByClient(P: Phase, ciphers: nat -> Buf, k: nat): nat -> Byte {
    (c: nat) => if P.Handled(c) then At(ciphers(c), k) else 0
  }

  /** The handled clients' pad sums, as seen from the servers' side. */
  lemma {:induction false} ServerPads(P: Phase, k: nat)
    requires P.Valid() && P.Agreed()
    ensures Fold(PadsOfServer(P, k), P.servers) == Fold(PadsOfClient(P, k), P.clients)
  {
    FoldSwap(HandledPad(P, k), P.clients, P.servers);
    var byClient := (c: nat) => Fold(Row(HandledPad(P, k), c), P.servers);
    forall c: nat | 0 <= c < P.clients ensures byClient(c) == PadsOfClient(P, k)(c) {
      if P.Handled(c) {
        FoldEqual(Row(HandledPad(P, k), c), Row(PadByte(P, k), c), P.servers);
      } else {
        FoldZero(Row(HandledPad(P, k), c), P.servers);
      }
    }
    FoldEqual(byClient, PadsOfClient(P, k), P.clients);
    FoldEqual((s: nat) => Fold(Column(HandledPad(P, k), s), P.clients), PadsOfServer(P, k), P.servers);
  }

  lemma {:induction false} ReceivedFrom(P: Phase, ciphers: nat -> Buf, k: nat, c: nat)
    requires P.Valid() && c < P.clients
    ensures Fold(Row(Received(P, ciphers, k), c), P.servers) == SentByClient(P, ciphers, k)(c)
  {
    var row := Row(Received(P, ciphers, k), c);
    assert forall s :: 0 <= s < P.servers ==> row(s) == if P.HandledBy(c, s) then At(ciphers(c), k) else 0;
    if P.Handled(c) {
      assert P.HandledBy(c, P.server[c]);
      FoldSingle(row, P.servers, P.server[c]);
    } else {
      FoldZero(row, P.servers);
    }
  }

  /** Each handled client's ciphertext enters exactly once, through its one server. */
  lemma {:induction false} ReceivedOnce(P: Phase, ciphers: nat -> Buf, k: nat)
    requires P.Valid()
    ensures Fold(ReceivedByServer(P, ciphers, k), P.servers) == Fold(SentByClient(P, ciphers, k), P.clients)
  {
    FoldSwap(Received(P, ciphers, k), P.clients, P.servers);
    var byClient := (c: nat) => Fold(Row(Received(P, ciphers, k), c), P.servers);
    var sent := SentByClient(P, ciphers, k);
    forall c | 0 <= c < P.clients ensures byClient(c) == sent(c) {
      ReceivedFrom(P, ciphers, k, c);
    }
    FoldEqual(byClient, sent, P.clients);
    FoldEqual((s: nat) => Fold(Column(Received(P, ciphers, k), s), P.clients), ReceivedByServer(P, ciphers, k), P.servers);
  }

  lemma {:induction false} ContributionIs(P: Phase, contributions: nat -> Buf, ciphers: nat -> Buf, k: nat, c: nat)
    requires P.Valid() && k < P.length && c < P.clients
    requires P.Handled(c) ==> IsClientCiphertext(P, c, contributions(c), ciphers(c))
    ensures HandledContribution(P, contributions, k)(c) == Add(PadsOfClient(P, k)(c), SentByClient(P, ciphers, k)(c))
  {
    if P.Handled(c) {
      AddCancel(contributions(c)[k], Fold(Row(PadByte(P, k), c), P.servers));
    } else {
      assert HandledContribution(P, contributions, k)(c) == 0;
      assert PadsOfClient(P, k)(c) == 0 && SentByClient(P, ciphers, k)(c) == 0;
    }
  }

  /** One server's byte, split into its pads and what it received. */
  lemma {:induction false} ServerByteIs(P: Phase, ciphers: nat -> Buf, servers: seq<Buf>, k: nat, s: nat)
    requires k < P.length && s < |servers|
    requires IsServerCiphertext(P, s, ciphers, servers[s])
    ensures ListByte(servers, k)(s) == Add(PadsOfServer(P, k)(s), ReceivedByServer(P, ciphers, k)(s))
  {
    assert servers[s][k] == Add(Fold(Column(HandledPad(P, k), s), P.clients), Fold(Column(Received(P, ciphers, k), s), P.clients));
  }

  lemma {:induction false} ServersSum(P: Phase, ciphers: nat -> Buf, servers: seq<Buf>, k: nat)
    requires k < P.length && |servers| == P.servers
    requires forall s: nat :: s < P.servers ==> IsServerCiphertext(P, s, ciphers, servers[s])
    ensures Fold(ListByte(servers, k), P.servers)
            == Add(Fold(PadsOfServer(P, k), P.servers), Fold(ReceivedByServer(P, ciphers, k), P.servers))
  {
    var f, g, h := PadsOfServer(P, k), ReceivedByServer(P, ciphers, k), ListByte(servers, k);
    forall s | 0 <= s < P.servers ensures h(s) == Add(f(s), g(s)) {
      ServerByteIs(P, ciphers, servers, k, s);
    }
    FoldXor(f, g, h, P.servers);
  }

  lemma {:induction false} ClientsSum(P: Phase, contributions: nat -> Buf, ciphers: nat -> Buf, k: nat)
    requires P.Valid() && k < P.length
    requires forall c: nat :: c < P.clients && P.Handled(c) ==> IsClientCiphertext(P, c, contributions(c), ciphers(c))
    ensures Fold(HandledContribution(P, contributions, k), P.clients)
            == Add(Fold(PadsOfClient(P, k), P.clients), Fold(SentByClient(P, ciphers, k), P.clients))
  {
    var f, g, h := PadsOfClient(P, k), SentByClient(P, ciphers, k), HandledContribution(P, contributions, k);
    forall c | 0 <= c < P.clients ensures h(c) == Add(f(c), g(c)) {
      ContributionIs(P, contributions, ciphers, k, c);
    }
    FoldXor(f, g, h, P.clients);
  }

  /** Every pad occurs twice: the combined ciphertexts are the handled clients' contributions. */
  lemma {:induction false} PadsCancel(P: Phase, contributions: nat -> Buf, ciphers: nat -> Buf, servers: seq<Buf>, k: nat)
    requires P.Valid() && P.Agreed() && k < P.length && |servers| == P.servers
    requires forall c: nat :: c < P.clients && P.Handled(c) ==> IsClientCiphertext(P, c, contributions(c), ciphers(c))
    requires forall s: nat :: s < P.servers ==> IsServerCiphertext(P, s, ciphers, servers[s])
    ensures Fold(ListByte(servers, k), P.servers) == Fold(HandledContribution(P, contributions, k), P.clients)
  {
    ServersSum(P, ciphers, servers, k);
    ServerPads(P, k);
    ReceivedOnce(P, ciphers, k);
    ClientsSum(P, contributions, ciphers, k);
  }
}
