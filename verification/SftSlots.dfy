/** The SFT message exchange: clients put their message into their slot and mask it for the
    servers of the view; the servers remove the masks together. */
module SftSlots {
  import opened Xor
  import P = DcNetPads

  // ----- slots -----

  /** Where client i's slot begins. */
  function SlotStart(keyLength: nat, i: nat): nat {
    if i == 0 then 0 else SlotStart(keyLength, i - 1) + keyLength
  }

  lemma {:induction false} SlotStartMonotone(keyLength: nat, i: nat, j: nat)
    requires i < j
    ensures SlotStart(keyLength, i + 1) <= SlotStart(keyLength, j)
  {
    if i + 1 < j {
      SlotStartMonotone(keyLength, i, j - 1);
    }
  }

  /** insertInSlot. */
  method InsertInSlot(clients: nat, keyLength: nat, index: nat, msg: Buf) returns (full: Buf)
    requires index < clients && |msg| == keyLength
    ensures IsInserted(clients, keyLength, index, msg, full)
  {
    full := [];
    for i := 0 to index
      invariant |full| == SlotStart(keyLength, i) && forall k :: 0 <= k < |full| ==> full[k] == 0
    {
      full := full + Zeros(keyLength);
    }
    ghost var start := |full|;
    full := full + msg;
    for i := index + 1 to clients
      invariant |full| == SlotStart(keyLength, i) && start + keyLength <= |full|
      invariant full[start..start + keyLength] == msg
      invariant forall k :: 0 <= k < |full| && (k < start || k >= start + keyLength) ==> full[k] == 0
    {
      full := full + Zeros(keyLength);
    }
  }

  ghost predicate IsInserted(clients: nat, keyLength: nat, index: nat, msg: Buf, full: Buf)
  {
    var start := SlotStart(keyLength, index);
    && |full| == SlotStart(keyLength, clients) && |msg| == keyLength && start + keyLength <= |full|
    && full[start..start + keyLength] == msg
    && forall k :: 0 <= k < |full| && (k < start || k >= start + keyLength) ==> full[k] == 0
  }

  /** xorBytes. */
  method XorBytes(a: Buf, b: Buf) returns (r: Buf)
    requires |a| == |b|
    ensures r == Xored(a, b)
  {
    r := [];
    for i := 0 to |a|
      invariant |r| == i && forall j :: 0 <= j < i ==> r[j] == Add(a[j], b[j])
    {
      r := r + [Add(a[i], b[i])];
    }
  }

  // ----- masks -----

  /** One exchange, seen as a phase of a DC-net: who takes part and at which server is the
      phase's; servers outside the view share no mask with anybody. */
  datatype Exchange = Exchange(keyLength: nat, inView: seq<bool>, key: (nat, nat) -> Buf, phase: P.Phase)
  {
    function Length(): nat {
      phase.length
    }

    function Pad(c: nat, s: nat): Buf {
      if s < |inView| && inView[s] then key(s, c) else Zeros(Length())
    }

    ghost predicate Valid() {
      && phase.Valid()
      && phase.length == SlotStart(keyLength, phase.clients)
      && |inView| == phase.servers
      && (forall s, c :: |key(s, c)| == phase.length)
      && (forall c, s :: phase.pad(c, s) == phase.serverPad(c, s) == Pad(c, s))
    }
  }

  /** encryptClientMessage: one key for every server in the view. */
  method EncryptClientMessage(X: Exchange, c: nat, data: Buf) returns (xored: Buf)
    requires X.Valid() && |data| == X.Length()
    ensures P.IsClientCiphertext(X.phase, c, data, xored)
  {
    xored := data;
    ghost var Q := X.phase;
    for s := 0 to X.phase.servers
      invariant |xored| == X.Length()
      invariant forall k :: 0 <= k < X.Length() ==> xored[k] == Add(data[k], Fold(Row(P.PadByte(Q, k), c), s))
    {
      ghost var before := xored;
      xored := MaskOnce(xored, X.inView[s], X.key(s, c));
      forall k | 0 <= k < X.Length() ensures xored[k] == Add(data[k], Fold(Row(P.PadByte(Q, k), c), s + 1)) {
        MaskStep(X, c, s, k, data[k]);
        assert xored[k] == Add(before[k], if X.inView[s] then X.key(s, c)[k] else 0);
      }
    }
  }

  /** A server outside the view is passed over. */
  method MaskOnce(text: Buf, inView: bool, key: Buf) returns (xored: Buf)
    requires |text| == |key|
    ensures |xored| == |text| && forall k :: 0 <= k < |text| ==> xored[k] == Add(text[k], if inView then key[k] else 0)
  {
    xored := text;
    if inView {
      xored := XorBytes(text, key);
    } else {
      forall k | 0 <= k < |text| ensures Add(text[k], 0) == text[k] {
        AddZero(text[k]);
      }
    }
  }

  lemma {:induction false} MaskStep(X: Exchange, c: nat, s: nat, k: nat, d: Byte)
    requires X.Valid() && s < X.phase.servers && k < X.Length()
    ensures Add(d, Fold(Row(P.PadByte(X.phase, k), c), s + 1))
            == Add(Add(d, Fold(Row(P.PadByte(X.phase, k), c), s)), if X.inView[s] then X.key(s, c)[k] else 0)
  {
    var row := Row(P.PadByte(X.phase, k), c);
    assert X.phase.pad(c, s) == X.Pad(c, s);
    assert row(s) == P.At(X.Pad(c, s), k);
    assert row(s) == if X.inView[s] then X.key(s, c)[k] else 0;
    AddAssoc(d, Fold(row, s), row(s));
  }

  // ----- sums over lists of clients -----

  function SumList(f: nat -> Byte, list: seq<nat>): Byte {
    if list == [] then 0 else Add(SumList(f, list[..|list| - 1]), f(list[|list| - 1]))
  }

  ghost predicate Distinct(list: seq<nat>, n: nat) {
    && (forall i :: 0 <= i < |list| ==> list[i] < n)
    && (forall i, j :: 0 <= i < j < |list| ==> list[i] != list[j])
  }

  function Listed(f: nat -> Byte, list: seq<nat>): nat -> Byte {
    (c: nat) => ListedAt(f, list, c)
  }

  function ListedAt(f: nat -> Byte, list: seq<nat>, c: nat): Byte {
    if c in list then f(c) else 0
  }

  lemma {:induction false} ListedFront(f: nat -> Byte, front: seq<nat>, last: nat, c: nat)
    requires c != last
    ensures Listed(f, front + [last])(c) == Listed(f, front)(c)
  {
    assert c in front + [last] <==> c in front;
  }

  /** The order of a list does not matter. */
  lemma {:induction false} SumListIs(f: nat -> Byte, list: seq<nat>, n: nat)
    requires Distinct(list, n)
    ensures SumList(f, list) == Fold(Listed(f, list), n)
  {
    if list == [] {
      FoldZero(Listed(f, list), n);
    } else {
      var front, last := list[..|list| - 1], list[|list| - 1];
      SumListIs(f, front, n);
      assert list == front + [last];
      var g, h := Listed(f, list), Listed(f, front);
      forall i | 0 <= i < n && i != last ensures g(i) == h(i) {
        ListedFront(f, front, last, i);
      }
      assert last !in front;
      assert h(last) == 0 && g(last) == f(last);
      P.FoldAdd(g, h, n, last);
    }
  }

  // ----- the servers -----

  function TextByte(texts: nat -> Buf, k: nat): nat -> Byte {
    (c: nat) => P.At(texts(c), k)
  }

  function KeyByte(X: Exchange, s: nat, k: nat): nat -> Byte {
    (c: nat) => P.At(X.key(s, c), k)
  }

  lemma {:induction false} SumListStep(f: nat -> Byte, list: seq<nat>, i: nat)
    requires i < |list|
    ensures SumList(f, list[..i + 1]) == Add(SumList(f, list[..i]), f(list[i]))
  {
    assert list[..i + 1][..i] == list[..i];
  }

  lemma {:induction false} SumListOne(f: nat -> Byte, list: seq<nat>)
    requires |list| > 0
    ensures SumList(f, list[..1]) == f(list[0])
  {
    SumListStep(f, list, 0);
    AddZero(f(list[0]));
  }

  /** The clients' texts, then the keys of all clients in the round unless the server is outside
      the view: createCipher. A server must have heard at least one client. */
  method CreateCipher(X: Exchange, s: nat, received: seq<nat>, texts: nat -> Buf, all: seq<nat>) returns (xored: Buf)
    requires X.Valid() && s < X.phase.servers && |received| > 0
    requires forall i :: 0 <= i < |received| ==> |texts(received[i])| == X.Length()
    ensures |xored| == X.Length()
    ensures forall k :: 0 <= k < X.Length() ==>
      xored[k] == Add(SumList(TextByte(texts, k), received), if X.inView[s] then SumList(KeyByte(X, s, k), all) else 0)
  {
    xored := SumTexts(X.Length(), received, texts);
    forall k | 0 <= k < X.Length() ensures Add(xored[k], 0) == xored[k] {
      AddZero(xored[k]);
    }
    if !X.inView[s] {
      return;
    }
    ghost var base := xored;
    for i := 0 to |all|
      invariant |xored| == X.Length()
      invariant forall k :: 0 <= k < X.Length() ==> xored[k] == Add(base[k], SumList(KeyByte(X, s, k), all[..i]))
    {
      ghost var before := xored;
      var key := X.key(s, all[i]);
      xored := XorBytes(xored, key);
      forall k | 0 <= k < X.Length() ensures xored[k] == Add(base[k], SumList(KeyByte(X, s, k), all[..i + 1])) {
        SumListStep(KeyByte(X, s, k), all, i);
        AddAssoc(base[k], SumList(KeyByte(X, s, k), all[..i]), key[k]);
      }
    }
    assert all[..|all|] == all;
  }

  method SumTexts(length: nat, received: seq<nat>, texts: nat -> Buf) returns (xored: Buf)
    requires |received| > 0 && forall i :: 0 <= i < |received| ==> |texts(received[i])| == length
    ensures |xored| == length
    ensures forall k :: 0 <= k < length ==> xored[k] == SumList(TextByte(texts, k), received)
  {
    xored := texts(received[0]);
    forall k | 0 <= k < length ensures xored[k] == SumList(TextByte(texts, k), received[..1]) {
      SumListOne(TextByte(texts, k), received);
    }
    for i := 1 to |received|
      invariant |xored| == length
      invariant forall k :: 0 <= k < length ==> xored[k] == SumList(TextByte(texts, k), received[..i])
    {
      ghost var before := xored;
      xored := XorBytes(xored, texts(received[i]));
      forall k | 0 <= k < length ensures xored[k] == SumList(TextByte(texts, k), received[..i + 1]) {
        SumListStep(TextByte(texts, k), received, i);
      }
    }
    assert received[..|received|] == received;
  }

  /** The lists a server ends up with: its own clients, and everybody in the round. */
  ghost predicate ListsFit(X: Exchange, s: nat, received: seq<nat>, all: seq<nat>)
    requires X.Valid()
  {
    && Distinct(received, X.phase.clients) && Distinct(all, X.phase.clients)
    && (forall c :: 0 <= c < X.phase.clients ==> (c in received <==> X.phase.handled[c] && X.phase.server[c] == s))
    && (forall c :: 0 <= c < X.phase.clients ==> (c in all <==> X.phase.handled[c]))
  }

  /** A server's cipher is a DC-net server ciphertext, in the view or not. */
  lemma {:induction false} CipherIs(X: Exchange, s: nat, received: seq<nat>, texts: nat -> Buf, all: seq<nat>, xored: Buf)
    requires X.Valid() && s < X.phase.servers && ListsFit(X, s, received, all) && |xored| == X.Length()
    requires forall k :: 0 <= k < X.Length() ==>
      xored[k] == Add(SumList(TextByte(texts, k), received), if X.inView[s] then SumList(KeyByte(X, s, k), all) else 0)
    ensures P.IsServerCiphertext(X.phase, s, texts, xored)
  {
    var Q := X.phase;
    forall k | 0 <= k < X.Length()
      ensures xored[k] == Add(Fold(Column(P.HandledPad(Q, k), s), X.phase.clients), Fold(Column(P.Received(Q, texts, k), s), X.phase.clients))
    {
      KeysAre(X, s, received, all, k);
      TextsAre(X, s, received, texts, all, k);
      AddCommutes(SumList(TextByte(texts, k), received), if X.inView[s] then SumList(KeyByte(X, s, k), all) else 0);
    }
  }

  lemma {:induction false} KeysAre(X: Exchange, s: nat, received: seq<nat>, all: seq<nat>, k: nat)
    requires X.Valid() && s < X.phase.servers && ListsFit(X, s, received, all) && k < X.Length()
    ensures Fold(Column(P.HandledPad(X.phase, k), s), X.phase.clients) == if X.inView[s] then SumList(KeyByte(X, s, k), all) else 0
  {
    var f, g := Column(P.HandledPad(X.phase, k), s), Listed(KeyByte(X, s, k), all);
    forall c: nat | c < X.phase.clients ensures f(c) == if X.inView[s] then g(c) else 0 {
      assert f(c) == P.HandledPadAt(X.phase, k, c, s);
      assert X.phase.serverPad(c, s) == X.Pad(c, s);
    }
    if X.inView[s] {
      FoldEqual(f, g, X.phase.clients);
      SumListIs(KeyByte(X, s, k), all, X.phase.clients);
    } else {
      FoldZero(f, X.phase.clients);
    }
  }

  lemma {:induction false} TextsAre(X: Exchange, s: nat, received: seq<nat>, texts: nat -> Buf, all: seq<nat>, k: nat)
    requires X.Valid() && s < X.phase.servers && ListsFit(X, s, received, all) && k < X.Length()
    ensures Fold(Column(P.Received(X.phase, texts, k), s), X.phase.clients) == SumList(TextByte(texts, k), received)
  {
    var f, g := Column(P.Received(X.phase, texts, k), s), Listed(TextByte(texts, k), received);
    forall c: nat | c < X.phase.clients ensures f(c) == g(c) {
      assert X.phase.HandledBy(c, s) <==> c in received;
    }
    FoldEqual(f, g, X.phase.clients);
    SumListIs(TextByte(texts, k), received, X.phase.clients);
  }

  /** getDecrypted: the sum of all ciphers. */
  method GetDecrypted(ciphers: seq<Buf>, length: nat) returns (decrypted: Buf)
    requires |ciphers| > 0 && forall s :: 0 <= s < |ciphers| ==> |ciphers[s]| == length
    ensures |decrypted| == length && IsDecrypted(ciphers, |ciphers|, decrypted)
  {
    decrypted := ciphers[0];
    forall k | 0 <= k < length ensures decrypted[k] == Fold(P.ListByte(ciphers, k), 1) {
      FoldSingle(P.ListByte(ciphers, k), 1, 0);
    }
    for i := 1 to |ciphers|
      invariant |decrypted| == length
      invariant forall k :: 0 <= k < length ==> decrypted[k] == Fold(P.ListByte(ciphers, k), i)
    {
      decrypted := XorBytes(decrypted, ciphers[i]);
    }
  }

  // ----- recovery -----

  ghost predicate AllInserted(X: Exchange, messages: nat -> Buf, inserted: nat -> Buf)
    requires X.Valid()
  {
    forall c: nat :: c < X.phase.clients && X.phase.handled[c] ==> IsInserted(X.phase.clients, X.keyLength, c, messages(c), inserted(c))
  }

  ghost predicate AllMasked(X: Exchange, inserted: nat -> Buf, texts: nat -> Buf)
    requires X.Valid()
  {
    forall c: nat :: c < X.phase.clients && X.phase.handled[c] ==> P.IsClientCiphertext(X.phase, c, inserted(c), texts(c))
  }

  ghost predicate AllCiphers(X: Exchange, texts: nat -> Buf, ciphers: seq<Buf>)
    requires |ciphers| == X.phase.servers
  {
    forall s: nat :: s < X.phase.servers ==> P.IsServerCiphertext(X.phase, s, texts, ciphers[s])
  }

  /** Byte k of client c's contribution, in terms of c's own slot. */
  lemma {:induction false} InsertedByte(clients: nat, keyLength: nat, c: nat, msg: Buf, full: Buf, i: nat, k: nat)
    requires IsInserted(clients, keyLength, c, msg, full) && i < clients && k < keyLength
    ensures P.At(full, SlotStart(keyLength, i) + k) == if c == i then msg[k] else 0
  {
    var start, at := SlotStart(keyLength, c), SlotStart(keyLength, i) + k;
    if c < i {
      SlotStartMonotone(keyLength, c, i);
    } else if i < c {
      SlotStartMonotone(keyLength, i, c);
    } else {
      assert full[start..start + keyLength][k] == full[at];
    }
  }

  lemma {:induction false} ContributionByte(X: Exchange, inserted: nat -> Buf, at: nat, c: nat)
    requires X.Valid() && c < X.phase.clients
    ensures P.HandledContribution(X.phase, inserted, at)(c) == if X.phase.handled[c] then P.At(inserted(c), at) else 0
  {
    var Q := X.phase;
    assert Q.handled == X.phase.handled;
    assert Q.Handled(c) == X.phase.handled[c];
  }

  lemma {:induction false} OwnerByte(X: Exchange, inserted: nat -> Buf, msg: Buf, i: nat, k: nat, c: nat)
    requires X.Valid() && i < X.phase.clients && k < X.keyLength && c < X.phase.clients
    requires X.phase.handled[c] ==> IsInserted(X.phase.clients, X.keyLength, c, msg, inserted(c))
    ensures P.HandledContribution(X.phase, inserted, SlotStart(X.keyLength, i) + k)(c)
            == if X.phase.handled[c] && c == i then P.At(msg, k) else 0
  {
    ContributionByte(X, inserted, SlotStart(X.keyLength, i) + k, c);
    if X.phase.handled[c] {
      InsertedByte(X.phase.clients, X.keyLength, c, msg, inserted(c), i, k);
    }
  }

  lemma {:induction false} OnlyOwner(X: Exchange, inserted: nat -> Buf, messages: nat -> Buf, i: nat, k: nat)
    requires X.Valid() && i < X.phase.clients && k < X.keyLength
    requires AllInserted(X, messages, inserted)
    ensures Fold(P.HandledContribution(X.phase, inserted, SlotStart(X.keyLength, i) + k), X.phase.clients)
            == if X.phase.handled[i] then P.At(messages(i), k) else 0
  {
    var f := P.HandledContribution(X.phase, inserted, SlotStart(X.keyLength, i) + k);
    forall c | 0 <= c < X.phase.clients && c != i ensures f(c) == 0 {
      OwnerByte(X, inserted, messages(c), i, k, c);
    }
    FoldSingle(f, X.phase.clients, i);
    OwnerByte(X, inserted, messages(i), i, k, i);
  }

  /** Slot recovery: for every view and every assignment of clients to servers, the decrypted
      buffer holds, byte by byte, each participant's message in its own slot and zeros in the
      slots of the others. */
  lemma {:induction false} SlotsRecovered(X: Exchange, messages: nat -> Buf, inserted: nat -> Buf, texts: nat -> Buf,
                                          ciphers: seq<Buf>, decrypted: Buf, i: nat, k: nat)
    requires X.Valid() && i < X.phase.clients && |ciphers| == X.phase.servers && k < X.keyLength && |decrypted| == X.Length()
    requires AllInserted(X, messages, inserted)
    requires AllMasked(X, inserted, texts)
    requires AllCiphers(X, texts, ciphers)
    requires IsDecrypted(ciphers, X.phase.servers, decrypted)
    ensures SlotStart(X.keyLength, i) + k < |decrypted|
    ensures decrypted[SlotStart(X.keyLength, i) + k] == if X.phase.handled[i] then P.At(messages(i), k) else 0
  {
    var at := SlotStart(X.keyLength, i) + k;
    SlotStartMonotone(X.keyLength, i, X.phase.clients);
    DecryptedByte(ciphers, X.phase.servers, decrypted, at);
    RecoveredByte(X, messages, inserted, texts, ciphers, i, k, at);
  }

  lemma {:induction false} RecoveredByte(X: Exchange, messages: nat -> Buf, inserted: nat -> Buf, texts: nat -> Buf,
                                         ciphers: seq<Buf>, i: nat, k: nat, at: nat)
    requires X.Valid() && i < X.phase.clients && |ciphers| == X.phase.servers && k < X.keyLength
    requires at == SlotStart(X.keyLength, i) + k < X.Length()
    requires AllInserted(X, messages, inserted) && AllMasked(X, inserted, texts) && AllCiphers(X, texts, ciphers)
    ensures Fold(P.ListByte(ciphers, at), X.phase.servers) == if X.phase.handled[i] then P.At(messages(i), k) else 0
  {
    Cancelled(X, inserted, texts, ciphers, at);
    OnlyOwner(X, inserted, messages, i, k);
  }

  ghost predicate IsDecrypted(ciphers: seq<Buf>, servers: nat, decrypted: Buf) {
    forall j :: 0 <= j < |decrypted| ==> decrypted[j] == Fold(P.ListByte(ciphers, j), servers)
  }

  lemma DecryptedByte(ciphers: seq<Buf>, servers: nat, decrypted: Buf, j: nat)
    requires IsDecrypted(ciphers, servers, decrypted) && j < |decrypted|
    ensures decrypted[j] == Fold(P.ListByte(ciphers, j), servers)
  {
  }

  lemma {:induction false} Cancelled(X: Exchange, inserted: nat -> Buf, texts: nat -> Buf, ciphers: seq<Buf>, j: nat)
    requires X.Valid() && |ciphers| == X.phase.servers && j < X.Length()
    requires AllMasked(X, inserted, texts)
    requires AllCiphers(X, texts, ciphers)
    ensures Fold(P.ListByte(ciphers, j), X.phase.servers) == Fold(P.HandledContribution(X.phase, inserted, j), X.phase.clients)
  {
    var Q := X.phase;
    forall c: nat | c < Q.clients && Q.Handled(c) ensures P.IsClientCiphertext(Q, c, inserted(c), texts(c)) {
      assert X.phase.handled[c];
    }
    P.PadsCancel(Q, inserted, texts, ciphers, j);
  }
}
