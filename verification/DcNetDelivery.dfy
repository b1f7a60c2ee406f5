/** Whole runs of the DC-net round: every phase, each client contributes, an arbitrary subset of
    the clients makes it into the cleartext, and everybody reads that cleartext. */
module DcNetDelivery {
  import opened Xor
  import opened DcNetCodec
  import opened DcNetLayout
  import opened DcNetMember
  import DcNetPads

  /** MAX_GET: the most that one request for data returns. */
  const MAX_GET: nat := 4096

  /** What all participants agree on, each owner's own state, and two histories: the messages
      pushed to the application, and the data each owner took from it. */
  datatype Net = Net(phase: nat, layout: Layout, length: nat, owners: seq<Owner>,
                     pushed: seq<(nat, Buf)>, taken: seq<seq<Buf>>)

  /** What one phase depends on: the data offered, the seeds drawn, and who was handled. */
  datatype Input = Input(data: seq<Buf>, seeds: seq<Buf>, handled: seq<bool>)

  ghost predicate Fits(C: Codec, net: Net, x: Input) {
    && |net.taken| == |net.owners| == |x.data| == |x.seeds| == |x.handled|
    && Base(|net.owners|) <= net.length
    && (forall i :: 0 <= i < |x.data| ==> |x.data[i]| <= MAX_GET)
    && (forall i :: 0 <= i < |x.seeds| ==> C.GoodSeed(x.seeds[i]))
  }

  /** Client i's ciphertext with the pads removed. */
  function ContributionOf(C: Codec, net: Net, x: Input, i: nat): Buf
    requires i < |net.owners| && i < |x.data| && i < |x.seeds| && |x.seeds[i]| == C.seedSize && Base(|net.owners|) <= net.length
  {
    Contribution(C, net.phase, |net.owners|, i, net.layout, net.length, net.owners[i], x.data[i], x.seeds[i])
  }

  ghost predicate AreContributions(C: Codec, net: Net, x: Input, contributions: seq<Buf>)
    requires Fits(C, net, x)
  {
    && |contributions| == |net.owners|
    && forall i :: 0 <= i < |net.owners| ==> IsContribution(C, net, x, contributions, i)
  }

  ghost predicate IsContribution(C: Codec, net: Net, x: Input, contributions: seq<Buf>, i: nat)
    requires Fits(C, net, x) && i < |net.owners| == |contributions|
  {
    contributions[i] == ContributionOf(C, net, x, i)
  }

  function HandledByte(handled: seq<bool>, contributions: seq<Buf>, k: nat): nat -> Byte {
    (c: nat) => HandledByteAt(handled, contributions, k, c)
  }

  function HandledByteAt(handled: seq<bool>, contributions: seq<Buf>, k: nat, c: nat): Byte {
    if c < |handled| && handled[c] && c < |contributions| && k < |contributions[c]| then contributions[c][k] else 0
  }

  /** The cleartext of a phase: the sum of what the handled clients contributed. A server only
      handles a ciphertext of the phase's length. */
  ghost predicate Combined(handled: seq<bool>, contributions: seq<Buf>, length: nat, cleartext: Buf) {
    && |cleartext| == length
    && |handled| == |contributions|
    && (forall i :: 0 <= i < |handled| && handled[i] ==> |contributions[i]| == length)
    && (forall k :: 0 <= k < length ==> SumsTo(handled, contributions, cleartext, k))
  }

  predicate SumsTo(handled: seq<bool>, contributions: seq<Buf>, cleartext: Buf, k: nat)
    requires k < |cleartext|
  {
    cleartext[k] == Fold(HandledByte(handled, contributions, k), |handled|)
  }

  /** That is what the servers compute from ciphertexts under pads that each side generates from
      its own exponent. */
  lemma {:induction false} ServersCombine(P: DcNetPads.Phase, K: DcNetPads.Keys, contributions: seq<Buf>, ciphers: nat -> Buf,
                                          servers: seq<Buf>, cleartext: Buf)
    requires P.Valid() && DcNetPads.Keyed(P, K) && |servers| == P.servers && |contributions| == P.clients
    requires forall c: nat :: c < P.clients && P.Handled(c) ==>
      DcNetPads.IsClientCiphertext(P, c, contributions[c], ciphers(c))
    requires forall s: nat :: s < P.servers ==> DcNetPads.IsServerCiphertext(P, s, ciphers, servers[s])
    requires |cleartext| == P.length
    requires forall k :: 0 <= k < P.length ==> cleartext[k] == Fold(DcNetPads.ListByte(servers, k), P.servers)
    ensures Combined(P.handled, contributions, P.length, cleartext)
  {
    var all := (c: nat) => if c < |contributions| then contributions[c] else [];
    DcNetPads.KeyedAgrees(P, K);
    forall c: nat | c < P.clients && P.Handled(c) ensures DcNetPads.IsClientCiphertext(P, c, all(c), ciphers(c)) {
    }
    forall k | 0 <= k < P.length
      ensures SumsTo(P.handled, contributions, cleartext, k)
    {
      DcNetPads.PadsCancel(P, all, ciphers, servers, k);
      var f, g := DcNetPads.HandledContribution(P, all, k), HandledByte(P.handled, contributions, k);
      forall c | 0 <= c < P.clients ensures f(c) == g(c) {
        HandledByteIs(P, all, contributions, k, c);
      }
      FoldEqual(f, g, P.clients);
    }
    forall i | 0 <= i < P.clients && P.handled[i] ensures |contributions[i]| == P.length {
      assert P.Handled(i);
    }
  }

  lemma {:induction false} HandledByteIs(P: DcNetPads.Phase, all: nat -> Buf, contributions: seq<Buf>, k: nat, c: nat)
    requires P.Valid() && c < P.clients == |contributions| && all(c) == contributions[c]
    ensures DcNetPads.HandledContribution(P, all, k)(c) == HandledByte(P.handled, contributions, k)(c)
  {
  }

  // ----- one phase -----

  /** What owner i knows after its turn and after reading. */
  ghost function OwnerAfter(C: Codec, net: Net, x: Input, R: Reading, i: nat): Owner
    requires Fits(C, net, x) && i < |net.owners| && R.Valid() && R.n == |net.owners|
  {
    AfterReading(Turn(C, net.phase, net.owners[i], x.data[i], x.seeds[i]), i, R)
  }

  /** The data that owner i has taken, once its turn is over. */
  function TakenAfter(net: Net, x: Input, i: nat): seq<Buf>
    requires i < |net.owners| && i < |net.taken| && i < |x.data|
  {
    net.taken[i] + if Takes(net.owners[i]) then [x.data[i]] else []
  }

  ghost predicate Step(C: Codec, net: Net, x: Input, contributions: seq<Buf>, cleartext: Buf, R: Reading, after: Net) {
    && Fits(C, net, x)
    && AreContributions(C, net, x, contributions)
    && Combined(x.handled, contributions, net.length, cleartext)
    && Reads(C, net, x, cleartext, R, after)
  }

  /** What everybody makes of the cleartext. */
  ghost predicate Reads(C: Codec, net: Net, x: Input, cleartext: Buf, R: Reading, after: Net)
    requires Fits(C, net, x)
  {
    && R.n == |net.owners| && R.layout == net.layout && ReadsAs(C, net.phase, R, cleartext)
    && after.phase == net.phase + 1
    && after.layout == R.NextLayout() && after.length == R.NextLength()
    && after.pushed == net.pushed + R.Deliveries(R.n)
    && |after.owners| == |after.taken| == |net.owners|
    && (forall i :: 0 <= i < |net.owners| ==> after.owners[i] == OwnerAfter(C, net, x, R, i))
    && (forall i :: 0 <= i < |net.owners| ==> after.taken[i] == TakenAfter(net, x, i))
  }

  // ----- the three conditions a slot can be in -----

  /** The messages pushed for owner i. */
  function Got(pushed: seq<(nat, Buf)>, i: nat): seq<Buf> {
    if pushed == [] then []
    else
      var last := pushed[|pushed| - 1];
      Got(pushed[..|pushed| - 1], i) + if last.0 == i then [last.1] else []
  }

  function NonEmpty(list: seq<Buf>): seq<Buf> {
    if list == [] then []
    else
      var last := list[|list| - 1];
      NonEmpty(list[..|list| - 1]) + if last == [] then [] else [last]
  }

  /** Taken from the application, but not pushed yet. */
  function Pending(o: Owner): seq<Buf> {
    if o.read then [o.nextMsg] else [o.lastMsg, o.nextMsg]
  }

  /** Exactly-once delivery: what was pushed, followed by what is pending, is what was taken. */
  ghost predicate Delivered(net: Net, i: nat)
    requires i < |net.owners| && i < |net.taken|
  {
    Got(net.pushed, i) + NonEmpty(Pending(net.owners[i])) == NonEmpty(net.taken[i])
  }

  ghost predicate Closed(net: Net, i: nat)
    requires i < |net.owners| && i < |net.taken|
  {
    var o := net.owners[i];
    && !o.slotOpen && !o.accuse && o.nextMsg == [] && o.lastMsg == []
    && i !in net.layout
    && Got(net.pushed, i) == [] && NonEmpty(net.taken[i]) == []
  }

  ghost predicate Open(C: Codec, net: Net, i: nat)
    requires i < |net.owners| && i < |net.taken|
  {
    var o := net.owners[i];
    && o.slotOpen && !o.accuse && |o.nextMsg| <= MAX_GET
    && i in net.layout && net.layout[i] == C.Header() + |Outgoing(o)|
    && Delivered(net, i)
  }

  /** The owner believes its slot is open, but nobody else does. */
  ghost predicate Stranded(net: Net, i: nat)
    requires i < |net.owners| && i < |net.taken|
  {
    net.owners[i].slotOpen && i !in net.layout && Got(net.pushed, i) == []
  }

  ghost predicate Inv(C: Codec, net: Net) {
    && |net.taken| == |net.owners|
    && net.length == Offset(net.layout, |net.owners|, |net.owners|)
    && (forall i :: i in net.layout ==> i < |net.owners|)
    && (forall i :: 0 <= i < |net.owners| ==> Closed(net, i) || Open(C, net, i) || Stranded(net, i))
  }

  // ----- what each client adds where -----

  /** A stranded owner's ciphertext is too long for any server to take. */
  lemma {:induction false} StrandedTooLong(C: Codec, net: Net, x: Input, i: nat)
    requires Inv(C, net) && Fits(C, net, x) && i < |net.owners| && Stranded(net, i)
    ensures |ContributionOf(C, net, x, i)| > net.length
  {
  }

  /** Outside its own slot, an open owner adds nothing; the others at most mark an open bit. */
  lemma {:induction false} AddsElsewhere(C: Codec, net: Net, x: Input, j: nat, k: nat)
    requires Inv(C, net) && Fits(C, net, x) && j < |net.owners| && k < net.length
    requires |ContributionOf(C, net, x, j)| == net.length
    requires k < Offset(net.layout, |net.owners|, j) || k >= Offset(net.layout, |net.owners|, j + 1)
    ensures ContributionOf(C, net, x, j)[k]
            == if Asks(net.owners[j], x.data[j]) && k == j / 8 then Weight(j % 8) else 0
  {
    if Stranded(net, j) {
      StrandedTooLong(C, net, x, j);
    } else if Open(C, net, j) {
      assert |TurnText(C, net.phase, net.owners[j], x.data[j], x.seeds[j])| == Len(net.layout, j);
    }
  }

  /** Everything known about one phase before its cleartext is read. */
  ghost predicate Phase(C: Codec, net: Net, x: Input, contributions: seq<Buf>, cleartext: Buf) {
    && Inv(C, net)
    && Fits(C, net, x)
    && AreContributions(C, net, x, contributions)
    && Combined(x.handled, contributions, net.length, cleartext)
  }

  lemma {:induction false} NothingFrom(C: Codec, net: Net, x: Input, contributions: seq<Buf>, cleartext: Buf, i: nat, j: nat, k: nat)
    requires Phase(C, net, x, contributions, cleartext) && i < |net.owners| && j < |net.owners| && i != j
    requires Offset(net.layout, |net.owners|, i) <= k < Offset(net.layout, |net.owners|, i + 1) <= net.length
    ensures HandledByteAt(x.handled, contributions, k, j) == 0
  {
    assert IsContribution(C, net, x, contributions, j);
    if x.handled[j] {
      var n := |net.owners|;
      if i < j {
        SlotsTile(net.layout, n, i, j);
      } else {
        SlotsTile(net.layout, n, j, i);
      }
      SlotRange(net.layout, n, j);
      SlotRange(net.layout, n, i);
      AddsElsewhere(C, net, x, j, k);
    }
  }

  /** Within slot i the cleartext is owner i's own text, or nothing. */
  lemma {:induction false} ByteInSlot(C: Codec, net: Net, x: Input, contributions: seq<Buf>, cleartext: Buf, i: nat, k: nat)
    requires Phase(C, net, x, contributions, cleartext) && i < |net.owners|
    requires Offset(net.layout, |net.owners|, i) <= k < Offset(net.layout, |net.owners|, i + 1) <= net.length
    ensures cleartext[k] == HandledByteAt(x.handled, contributions, k, i)
  {
    var f := HandledByte(x.handled, contributions, k);
    forall j | 0 <= j < |net.owners| && j != i ensures f(j) == 0 {
      NothingFrom(C, net, x, contributions, cleartext, i, j, k);
    }
    FoldSingle(f, |net.owners|, i);
    assert SumsTo(x.handled, contributions, cleartext, k);
  }

  lemma {:induction false} OwnByte(C: Codec, net: Net, x: Input, i: nat, k: nat)
    requires Inv(C, net) && Fits(C, net, x) && i < |net.owners| && Open(C, net, i) && k < net.layout[i]
    ensures |ContributionOf(C, net, x, i)| == net.length
    ensures Offset(net.layout, |net.owners|, i) + k < net.length
    ensures |TurnText(C, net.phase, net.owners[i], x.data[i], x.seeds[i])| == net.layout[i]
    ensures ContributionOf(C, net, x, i)[Offset(net.layout, |net.owners|, i) + k]
            == TurnText(C, net.phase, net.owners[i], x.data[i], x.seeds[i])[k]
  {
    SlotRange(net.layout, |net.owners|, i);
  }

  lemma {:induction false} HandledOwn(C: Codec, net: Net, x: Input, contributions: seq<Buf>, cleartext: Buf, i: nat, k: nat)
    requires Phase(C, net, x, contributions, cleartext) && i < |net.owners| && Open(C, net, i) && k < net.layout[i]
    ensures Offset(net.layout, |net.owners|, i) + k < Offset(net.layout, |net.owners|, i + 1) <= net.length
    ensures |TurnText(C, net.phase, net.owners[i], x.data[i], x.seeds[i])| == net.layout[i]
    ensures HandledByteAt(x.handled, contributions, Offset(net.layout, |net.owners|, i) + k, i)
            == if x.handled[i] then TurnText(C, net.phase, net.owners[i], x.data[i], x.seeds[i])[k] else 0
  {
    OwnByte(C, net, x, i, k);
    SlotRange(net.layout, |net.owners|, i);
    assert IsContribution(C, net, x, contributions, i);
  }

  /** The bytes of slot i. */
  ghost predicate SlotBytes(cleartext: Buf, offset: nat, held: Buf) {
    offset + |held| <= |cleartext| && forall k :: 0 <= k < |held| ==> held[k] == cleartext[offset + k]
  }

  lemma {:induction false} HeldBytes(R: Reading, cleartext: Buf, i: nat)
    requires Splits(R, cleartext) && i < R.n
    ensures |R.texts[i]| == Len(R.layout, i) && SlotBytes(cleartext, Offset(R.layout, R.n, i), R.texts[i])
  {
    assert HoldsText(R, cleartext, i);
  }

  /** What slot i holds is what its owner sent, byte by byte. */
  lemma {:induction false} SentBytes(C: Codec, net: Net, x: Input, contributions: seq<Buf>, cleartext: Buf, i: nat, held: Buf)
    requires Phase(C, net, x, contributions, cleartext) && i < |net.owners| && |held| == Len(net.layout, i)
    requires SlotBytes(cleartext, Offset(net.layout, |net.owners|, i), held)
    ensures forall k :: 0 <= k < |held| ==>
      held[k] == HandledByteAt(x.handled, contributions, Offset(net.layout, |net.owners|, i) + k, i)
  {
    var offset := Offset(net.layout, |net.owners|, i);
    SlotRange(net.layout, |net.owners|, i);
    forall k | 0 <= k < |held| ensures held[k] == HandledByteAt(x.handled, contributions, offset + k, i) {
      ByteInSlot(C, net, x, contributions, cleartext, i, offset + k);
    }
  }

  lemma {:induction false} OwnText(C: Codec, net: Net, x: Input, contributions: seq<Buf>, cleartext: Buf, i: nat, held: Buf)
    requires Phase(C, net, x, contributions, cleartext) && i < |net.owners| && Open(C, net, i) && |held| == net.layout[i]
    requires forall k :: 0 <= k < |held| ==>
      held[k] == HandledByteAt(x.handled, contributions, Offset(net.layout, |net.owners|, i) + k, i)
    ensures held == if x.handled[i] then TurnText(C, net.phase, net.owners[i], x.data[i], x.seeds[i]) else Zeros(net.layout[i])
  {
    var text := TurnText(C, net.phase, net.owners[i], x.data[i], x.seeds[i]);
    forall k | 0 <= k < |held| ensures |text| == |held| && held[k] == if x.handled[i] then text[k] else 0 {
      HandledOwn(C, net, x, contributions, cleartext, i, k);
    }
    HandledOwn(C, net, x, contributions, cleartext, i, 0);
    SameText(held, text, net.layout[i], x.handled[i]);
  }

  lemma {:induction false} TextInSlot(C: Codec, net: Net, x: Input, contributions: seq<Buf>, cleartext: Buf, R: Reading, i: nat)
    requires Phase(C, net, x, contributions, cleartext) && i < |net.owners|
    requires Splits(R, cleartext) && R.n == |net.owners| && R.layout == net.layout
    requires Open(C, net, i)
    ensures R.texts[i] == if x.handled[i] then TurnText(C, net.phase, net.owners[i], x.data[i], x.seeds[i])
                          else Zeros(net.layout[i])
  {
    HeldBytes(R, cleartext, i);
    SentBytes(C, net, x, contributions, cleartext, i, R.texts[i]);
    OwnText(C, net, x, contributions, cleartext, i, R.texts[i]);
  }

  lemma SameText(held: Buf, text: Buf, length: nat, handled: bool)
    requires |held| == |text| == length
    requires forall k :: 0 <= k < length ==> held[k] == if handled then text[k] else 0
    ensures held == if handled then text else Zeros(length)
  {
  }

  /** The bit at i of client j's byte. */
  lemma {:induction false} BitFrom(C: Codec, net: Net, x: Input, contributions: seq<Buf>, cleartext: Buf, i: nat, j: nat)
    requires Phase(C, net, x, contributions, cleartext) && i < |net.owners| && j < |net.owners|
    ensures Bit(HandledByteAt(x.handled, contributions, i / 8, j), i % 8)
            == if j == i && x.handled[i] && Asks(net.owners[i], x.data[i]) then 1 else 0
  {
    ZeroBits(i % 8);
    assert IsContribution(C, net, x, contributions, j);
    if x.handled[j] {
      SlotRange(net.layout, |net.owners|, i);
      SlotRange(net.layout, |net.owners|, j);
      AddsElsewhere(C, net, x, j, i / 8);
      WeightBit(j % 8, i % 8);
    }
  }

  /** The open bit of i is set exactly when i asked and was handled. */
  lemma {:induction false} OpenBitOf(C: Codec, net: Net, x: Input, contributions: seq<Buf>, cleartext: Buf, R: Reading, i: nat)
    requires Phase(C, net, x, contributions, cleartext) && i < |net.owners|
    requires Splits(R, cleartext) && R.n == |net.owners| && R.layout == net.layout
    ensures R.opens[i] == (x.handled[i] && Asks(net.owners[i], x.data[i]))
  {
    SlotRange(net.layout, |net.owners|, i);
    var f := HandledByte(x.handled, contributions, i / 8);
    forall j | 0 <= j < |net.owners| && j != i ensures Bit(f(j), i % 8) == 0 {
      BitFrom(C, net, x, contributions, cleartext, i, j);
    }
    FoldBit(f, |net.owners|, i % 8, i);
    assert SumsTo(x.handled, contributions, cleartext, i / 8);
    BitFrom(C, net, x, contributions, cleartext, i, i);
    assert OpensAs(R, cleartext, i);
  }

  // ----- histories -----

  lemma {:induction false} GotConcat(a: seq<(nat, Buf)>, b: seq<(nat, Buf)>, i: nat)
    ensures Got(a + b, i) == Got(a, i) + Got(b, i)
  {
    if b == [] {
      assert a + b == a;
    } else {
      var front := b[..|b| - 1];
      GotConcat(a, front, i);
      assert (a + b)[..|a + b| - 1] == a + front;
    }
  }

  lemma {:induction false} NonEmptyConcat(a: seq<Buf>, b: seq<Buf>)
    ensures NonEmpty(a + b) == NonEmpty(a) + NonEmpty(b)
  {
    if b == [] {
      assert a + b == a;
    } else {
      var front := b[..|b| - 1];
      NonEmptyConcat(a, front);
      assert (a + b)[..|a + b| - 1] == a + front;
    }
  }

  lemma NonEmptyOne(m: Buf)
    ensures NonEmpty([m]) == if m == [] then [] else [m]
  {
    assert [m][..0] == [];
  }

  lemma NonEmptyTwo(m: Buf, m': Buf)
    ensures NonEmpty([m, m']) == NonEmpty([m]) + NonEmpty([m'])
  {
    NonEmptyConcat([m], [m']);
    assert [m] + [m'] == [m, m'];
  }

  lemma {:induction false} GotOne(j: nat, m: Buf, i: nat)
    ensures Got(if m == [] then [] else [(j, m)], i) == if j == i then NonEmpty([m]) else []
  {
    NonEmptyOne(m);
    assert [(j, m)][..0] == [];
  }

  lemma {:induction false} GotAppend(before: seq<(nat, Buf)>, j: nat, m: Buf, after: seq<(nat, Buf)>, i: nat)
    requires after == before + if m == [] then [] else [(j, m)]
    ensures Got(after, i) == Got(before, i) + if j == i then NonEmpty([m]) else []
  {
    GotConcat(before, if m == [] then [] else [(j, m)], i);
    GotOne(j, m, i);
  }

  /** One owner's entry in the list, if there is anything to push. */
  function Push(j: nat, m: Buf): seq<(nat, Buf)> {
    if m == [] then [] else [(j, m)]
  }

  lemma {:induction false} GotPushes(lists: seq<seq<(nat, Buf)>>, msgs: seq<Buf>, m: nat, i: nat)
    requires |lists| == |msgs| + 1 && lists[0] == [] && m <= |msgs| && i < |msgs|
    requires forall k :: 0 <= k < |msgs| ==> lists[k + 1] == lists[k] + Push(k, msgs[k])
    ensures Got(lists[m], i) == if i < m then NonEmpty([msgs[i]]) else []
  {
    if m > 0 {
      GotPushes(lists, msgs, m - 1, i);
      GotAppend(lists[m - 1], m - 1, msgs[m - 1], lists[m], i);
    }
  }

  lemma {:induction false} DeliveriesStep(R: Reading, m: nat)
    requires R.Valid() && m < R.n
    ensures R.Deliveries(m + 1) == R.Deliveries(m) + Push(m, R.Delivery(m))
  {
  }

  /** Each owner's slot delivers at most one message. */
  lemma {:induction false} GotDeliveries(R: Reading, m: nat, i: nat)
    requires R.Valid() && m <= R.n && i < R.n
    ensures Got(R.Deliveries(m), i) == if i < m then NonEmpty([R.Delivery(i)]) else []
  {
    var lists := seq(R.n + 1, k requires 0 <= k <= R.n => R.Deliveries(k));
    var msgs := seq(R.n, k requires 0 <= k < R.n => R.Delivery(k));
    forall k | 0 <= k < |msgs| ensures lists[k + 1] == lists[k] + Push(k, msgs[k]) {
      DeliveriesStep(R, k);
    }
    GotPushes(lists, msgs, m, i);
  }

  /** What one phase adds to the messages pushed for i. */
  lemma {:induction false} GotAfter(pushed: seq<(nat, Buf)>, R: Reading, i: nat)
    requires R.Valid() && i < R.n
    ensures Got(pushed + R.Deliveries(R.n), i) == Got(pushed, i) + NonEmpty([R.Delivery(i)])
  {
    GotConcat(pushed, R.Deliveries(R.n), i);
    GotDeliveries(R, R.n, i);
  }

  /** The stop-and-wait exchange, handled or not: what is pending after the turn, together with
      what this phase delivered, is what was pending before and what was taken. */
  lemma {:induction false} TurnConserves(o: Owner, data: Buf, handled: bool)
    requires o.slotOpen
    ensures NonEmpty([if handled then Outgoing(o) else []])
            + NonEmpty(Pending(Advanced(o, data).(read := handled)))
            == NonEmpty(Pending(o)) + NonEmpty(if Takes(o) then [data] else [])
  {
    NonEmptyOne([]);
    NonEmptyTwo(o.lastMsg, o.nextMsg);
    NonEmptyTwo(o.nextMsg, data);
  }

  // ----- each condition, one phase later -----

  ghost predicate SmallSizes(C: Codec, net: Net) {
    net.phase < INT_LIMIT && C.Header() + MAX_GET < INT_LIMIT
  }

  lemma {:induction false} TurnTextIs(C: Codec, phase: nat, o: Owner, data: Buf, seed: Buf, text: Buf, next: nat, msg: Buf)
    requires |seed| == C.seedSize && !o.accuse && text == TurnText(C, phase, o, data, seed)
    requires next == C.Header() + |Advanced(o, data).nextMsg| && msg == Outgoing(o)
    ensures text == SlotText(C, phase, false, next, msg, seed)
  {
  }

  lemma {:induction false} SlotReads(C: Codec, phase: nat, next: nat, msg: Buf, seed: Buf, text: Buf)
    requires C.GoodSeed(seed) && phase < INT_LIMIT && next < INT_LIMIT && text == SlotText(C, phase, false, next, msg, seed)
    ensures Parse(C, phase, text) == Good(next, msg) && !Accuses(C, text)
  {
    ParseSlotText(C, phase, next, msg, seed);
  }

  lemma {:induction false} TurnReads(C: Codec, phase: nat, o: Owner, data: Buf, seed: Buf, text: Buf, next: nat, msg: Buf)
    requires C.GoodSeed(seed) && phase < INT_LIMIT && !o.accuse && text == TurnText(C, phase, o, data, seed)
    requires next == C.Header() + |Advanced(o, data).nextMsg| < INT_LIMIT && msg == Outgoing(o)
    ensures Parse(C, phase, text) == Good(next, msg) && !Accuses(C, text)
  {
    TurnTextIs(C, phase, o, data, seed, text, next, msg);
    SlotReads(C, phase, next, msg, seed, text);
  }

  lemma {:induction false} OpenReads(C: Codec, net: Net, x: Input, contributions: seq<Buf>, cleartext: Buf, R: Reading, i: nat)
    requires Phase(C, net, x, contributions, cleartext) && i < |net.owners| && SmallSizes(C, net)
    requires R.n == |net.owners| && R.layout == net.layout && ReadsAs(C, net.phase, R, cleartext)
    requires Open(C, net, i)
    ensures R.outcomes[i] == if x.handled[i]
                             then Good(C.Header() + |Advanced(net.owners[i], x.data[i]).nextMsg|, Outgoing(net.owners[i]))
                             else Absent
    ensures !AccusesAt(C, R, i)
  {
    TextInSlot(C, net, x, contributions, cleartext, R, i);
    var text, outcome := R.texts[i], R.outcomes[i];
    assert outcome == Parse(C, net.phase, text) by {
      assert ParsesAs(C, net.phase, R, i);
    }
    if x.handled[i] {
      var o := net.owners[i];
      TurnReads(C, net.phase, o, x.data[i], x.seeds[i], text, C.Header() + |Advanced(o, x.data[i]).nextMsg|, Outgoing(o));
    } else {
      ParseZeros(C, net.phase, net.layout[i]);
    }
  }

  /** A phase whose cleartext has been read. */
  ghost predicate Taken(C: Codec, net: Net, x: Input, contributions: seq<Buf>, cleartext: Buf, R: Reading, after: Net) {
    Inv(C, net) && SmallSizes(C, net) && Step(C, net, x, contributions, cleartext, R, after)
  }

  lemma {:induction false} AfterSlot(C: Codec, net: Net, x: Input, contributions: seq<Buf>, cleartext: Buf, R: Reading, after: Net, i: nat)
    requires Taken(C, net, x, contributions, cleartext, R, after) && i < |net.owners|
    ensures R.Valid()
    ensures Len(after.layout, i) == R.NextLen(i) && (i in after.layout <==> R.NextLen(i) > 0)
    ensures Got(after.pushed, i) == Got(net.pushed, i) + NonEmpty([R.Delivery(i)])
    ensures NonEmpty(after.taken[i])
            == NonEmpty(net.taken[i]) + NonEmpty(if Takes(net.owners[i]) then [x.data[i]] else [])
    ensures R.opens[i] == (x.handled[i] && Asks(net.owners[i], x.data[i]))
  {
    NextEntry(R, i);
    NextKeys(R);
    GotAfter(net.pushed, R, i);
    NonEmptyConcat(net.taken[i], if Takes(net.owners[i]) then [x.data[i]] else []);
    OpenBitOf(C, net, x, contributions, cleartext, R, i);
  }

  lemma {:induction false} ConserveAcross(got: seq<Buf>, pend: seq<Buf>, taken: seq<Buf>, told: seq<Buf>, pend': seq<Buf>, took: seq<Buf>)
    requires got + pend == taken && told + pend' == pend + took
    ensures (got + told) + pend' == taken + took
  {
    assert (got + told) + pend' == got + (told + pend');
    assert got + (pend + took) == (got + pend) + took;
  }

  /** An open slot stays open, handled or not, and delivers exactly the message that was due. */
  lemma {:induction false} OpenStays(C: Codec, net: Net, x: Input, contributions: seq<Buf>, cleartext: Buf, R: Reading, after: Net, i: nat)
    requires Taken(C, net, x, contributions, cleartext, R, after) && i < |net.owners| && Open(C, net, i)
    ensures Open(C, after, i)
    ensures Got(after.pushed, i) == Got(net.pushed, i) + NonEmpty([if x.handled[i] then Outgoing(net.owners[i]) else []])
    ensures !R.opens[i] && !AccusesAt(C, R, i)
  {
    var o, data, handled := net.owners[i], x.data[i], x.handled[i];
    AfterSlot(C, net, x, contributions, cleartext, R, after, i);
    OpenReads(C, net, x, contributions, cleartext, R, i);
    assert R.Delivery(i) == if handled then Outgoing(o) else [];
    var text := TurnText(C, net.phase, o, data, x.seeds[i]);
    assert after.owners[i] == Advanced(o, data).(lastText := text, read := handled);
    var plain := Advanced(o, data).(read := handled);
    assert Pending(after.owners[i]) == Pending(plain);
    TurnConserves(o, data, handled);
    ConserveAcross(Got(net.pushed, i), NonEmpty(Pending(o)), NonEmpty(net.taken[i]),
                   NonEmpty([R.Delivery(i)]), NonEmpty(Pending(plain)), NonEmpty(if Takes(o) then [data] else []));
  }

  lemma {:induction false} ClosedTurn(C: Codec, net: Net, x: Input, contributions: seq<Buf>, cleartext: Buf, R: Reading, after: Net, i: nat)
    requires Taken(C, net, x, contributions, cleartext, R, after) && i < |net.owners| && Closed(net, i)
    ensures R.texts[i] == [] && after.owners[i] == Turn(C, net.phase, net.owners[i], x.data[i], x.seeds[i])
    ensures Got(after.pushed, i) == []
    ensures NonEmpty(after.taken[i]) == if x.data[i] == [] then [] else [x.data[i]]
    ensures i in after.layout <==> x.handled[i] && Asks(net.owners[i], x.data[i])
    ensures i in after.layout ==> after.layout[i] == C.Header()
  {
    AfterSlot(C, net, x, contributions, cleartext, R, after, i);
    assert |R.texts[i]| == Len(net.layout, i) == 0;
    NonEmptyOne(x.data[i]);
    NonEmptyOne([]);
  }

  /** A closed owner's turn, and what it makes of its slot. */
  lemma {:induction false} ClosedOutcome(C: Codec, phase: nat, o: Owner, data: Buf, seed: Buf, handled: bool, after: Net, i: nat)
    requires |seed| == C.seedSize && |data| <= MAX_GET && i < |after.owners| && i < |after.taken|
    requires !o.slotOpen && !o.accuse && o.nextMsg == [] && o.lastMsg == []
    requires after.owners[i] == Turn(C, phase, o, data, seed) && Got(after.pushed, i) == []
    requires NonEmpty(after.taken[i]) == if data == [] then [] else [data]
    requires i in after.layout <==> handled && Asks(o, data)
    requires i in after.layout ==> after.layout[i] == C.Header()
    ensures !Asks(o, data) ==> Closed(after, i)
    ensures Asks(o, data) && handled ==> Open(C, after, i)
    ensures Asks(o, data) && !handled ==> Stranded(after, i)
  {
    NonEmptyOne(data);
    NonEmptyOne([]);
    NonEmptyTwo([], data);
  }

  /** A closed slot opens when its request is handled; a request that is not strands its owner. */
  lemma {:induction false} ClosedNext(C: Codec, net: Net, x: Input, contributions: seq<Buf>, cleartext: Buf, R: Reading, after: Net, i: nat)
    requires Taken(C, net, x, contributions, cleartext, R, after) && i < |net.owners| && Closed(net, i)
    ensures !Asks(net.owners[i], x.data[i]) ==> Closed(after, i)
    ensures Asks(net.owners[i], x.data[i]) && x.handled[i] ==> Open(C, after, i)
    ensures Asks(net.owners[i], x.data[i]) && !x.handled[i] ==> Stranded(after, i)
    ensures R.texts[i] == []
  {
    ClosedTurn(C, net, x, contributions, cleartext, R, after, i);
    ClosedOutcome(C, net.phase, net.owners[i], x.data[i], x.seeds[i], x.handled[i], after, i);
  }

  /** A stranded owner is never handled again. */
  lemma {:induction false} StrandedStays(C: Codec, net: Net, x: Input, contributions: seq<Buf>, cleartext: Buf, R: Reading, after: Net, i: nat)
    requires Taken(C, net, x, contributions, cleartext, R, after) && i < |net.owners| && Stranded(net, i)
    ensures Stranded(after, i) && !x.handled[i] && R.texts[i] == []
  {
    AfterSlot(C, net, x, contributions, cleartext, R, after, i);
    StrandedTooLong(C, net, x, i);
    assert IsContribution(C, net, x, contributions, i);
    assert |R.texts[i]| == Len(net.layout, i) == 0;
    NonEmptyOne([]);
  }

  /** Every phase keeps the invariant; the announced length is exact, and nobody accuses. */
  lemma {:induction false} StepKeepsInv(C: Codec, net: Net, x: Input, contributions: seq<Buf>, cleartext: Buf, R: Reading, after: Net)
    requires Taken(C, net, x, contributions, cleartext, R, after)
    ensures Inv(C, after) && !Accused(C, R, R.n)
  {
    forall i | 0 <= i < |net.owners|
      ensures Closed(after, i) || Open(C, after, i) || Stranded(after, i)
      ensures !Overlaps(R, i) && !AccusesAt(C, R, i)
    {
      if Open(C, net, i) {
        OpenStays(C, net, x, contributions, cleartext, R, after, i);
      } else if Closed(net, i) {
        ClosedNext(C, net, x, contributions, cleartext, R, after, i);
      } else {
        StrandedStays(C, net, x, contributions, cleartext, R, after, i);
      }
    }
    LengthMatchesIff(R);
    NextKeys(R);
  }

  // ----- runs -----

  datatype Event = Event(x: Input, contributions: seq<Buf>, cleartext: Buf, R: Reading)

  /** PrepareForBulk: nothing is open, nothing has been taken. */
  function Start(n: nat, phase: nat): Net {
    Net(phase, map[], Base(n), seq(n, i => Owner(false, false, false, [], [], [])), [], seq(n, i => []))
  }

  ghost predicate Run(C: Codec, n: nat, nets: seq<Net>, events: seq<Event>) {
    && |nets| == |events| + 1
    && nets[0] == Start(n, nets[0].phase)
    && forall t :: 0 <= t < |events| ==> Moves(C, nets[t], events[t], nets[t + 1])
  }

  ghost predicate Moves(C: Codec, net: Net, e: Event, after: Net) {
    SmallSizes(C, net) && Step(C, net, e.x, e.contributions, e.cleartext, e.R, after)
  }

  /** In this phase client i asks for its slot and is left out. */
  predicate LosesRequest(net: Net, e: Event, i: nat) {
    && i < |net.owners| && i < |e.x.data| && i < |e.x.handled|
    && Asks(net.owners[i], e.x.data[i]) && !e.x.handled[i]
  }

  ghost predicate LostRequest(nets: seq<Net>, events: seq<Event>, i: nat) {
    exists t :: 0 <= t < |events| && t < |nets| && LosesRequest(nets[t], events[t], i)
  }

  lemma {:induction false} StartInv(C: Codec, n: nat, phase: nat)
    ensures Inv(C, Start(n, phase))
  {
    EmptyRoom(n);
    var net := Start(n, phase);
    assert forall i :: 0 <= i < n ==> Closed(net, i);
  }

  /** Over every run, whatever the pattern of omissions: the layout is exact, and a slot is
      stranded if and only if its open request was left out once. */
  lemma {:induction false} RunKeeps(C: Codec, n: nat, nets: seq<Net>, events: seq<Event>, i: nat)
    requires Run(C, n, nets, events) && i < n
    ensures |nets[|events|].owners| == n && Inv(C, nets[|events|])
    ensures Stranded(nets[|events|], i) <==> LostRequest(nets, events, i)
  {
    if events == [] {
      StartInv(C, n, nets[0].phase);
    } else {
      var m := |events| - 1;
      var nets', events', e := nets[..m + 1], events[..m], events[m];
      assert Run(C, n, nets', events');
      RunKeeps(C, n, nets', events', i);
      var net, after := nets[m], nets[m + 1];
      assert Moves(C, net, e, after);
      StepKeepsInv(C, net, e.x, e.contributions, e.cleartext, e.R, after);
      LostRequestStep(nets, events, i);
      if Open(C, net, i) {
        OpenStays(C, net, e.x, e.contributions, e.cleartext, e.R, after, i);
      } else if Closed(net, i) {
        ClosedNext(C, net, e.x, e.contributions, e.cleartext, e.R, after, i);
      } else {
        StrandedStays(C, net, e.x, e.contributions, e.cleartext, e.R, after, i);
      }
    }
  }

  lemma {:induction false} LostRequestStep(nets: seq<Net>, events: seq<Event>, i: nat)
    requires |nets| == |events| + 1 && |events| > 0
    ensures LostRequest(nets, events, i)
            <==> LostRequest(nets[..|events|], events[..|events| - 1], i) || LosesRequest(nets[|events| - 1], events[|events| - 1], i)
  {
    var m := |events| - 1;
    if LostRequest(nets[..m + 1], events[..m], i) {
      var t :| 0 <= t < m && LosesRequest(nets[..m + 1][t], events[..m][t], i);
      assert LosesRequest(nets[t], events[t], i);
    }
    if t :| 0 <= t < |events| && LosesRequest(nets[t], events[t], i) {
      if t < m {
        assert LosesRequest(nets[..m + 1][t], events[..m][t], i);
      }
    }
  }

  /** Exactly-once delivery: unless a slot's open request was left out, the messages pushed for
      it, followed by the owner's pending ones, are the messages the owner took, in order. */
  lemma {:induction false} ExactlyOnce(C: Codec, n: nat, nets: seq<Net>, events: seq<Event>, i: nat)
    requires Run(C, n, nets, events) && i < n && !LostRequest(nets, events, i)
    ensures |nets[|events|].owners| == |nets[|events|].taken| == n && Delivered(nets[|events|], i)
  {
    RunKeeps(C, n, nets, events, i);
    NonEmptyOne([]);
    NonEmptyTwo([], []);
  }

  // ----- after a lost request -----

  /** What a stranded owner remembers, by the number of phases since the one that lost its
      request: the message it asked for, sent into the void, then overwritten. */
  ghost predicate StrandedFor(net: Net, i: nat, age: nat)
    requires i < |net.owners| && i < |net.taken|
  {
    var o, took := net.owners[i], NonEmpty(net.taken[i]);
    && Stranded(net, i)
    && (age == 0 ==> !o.read && o.lastMsg == [] && o.nextMsg != [] && took == [o.nextMsg])
    && (age == 1 ==> o.read && o.nextMsg != [] && took == [o.nextMsg])
    && (age >= 2 ==> o.read && |took| > |NonEmpty([o.nextMsg])|)
  }

  lemma {:induction false} LossStrands(C: Codec, net: Net, e: Event, after: Net, i: nat)
    requires Inv(C, net) && Moves(C, net, e, after) && LosesRequest(net, e, i)
    ensures |after.owners| == |after.taken| == |net.owners| && StrandedFor(after, i, 0)
  {
    ClosedNext(C, net, e.x, e.contributions, e.cleartext, e.R, after, i);
    AfterSlot(C, net, e.x, e.contributions, e.cleartext, e.R, after, i);
    NonEmptyOne(e.x.data[i]);
    assert after.owners[i] == Turn(C, net.phase, net.owners[i], e.x.data[i], e.x.seeds[i]);
  }

  lemma {:induction false} StrandedAges(C: Codec, net: Net, e: Event, after: Net, i: nat, age: nat)
    requires Inv(C, net) && Moves(C, net, e, after) && i < |net.owners| && StrandedFor(net, i, age)
    ensures |after.owners| == |after.taken| == |net.owners| && StrandedFor(after, i, age + 1)
  {
    var o, data := net.owners[i], e.x.data[i];
    StrandedStays(C, net, e.x, e.contributions, e.cleartext, e.R, after, i);
    AfterSlot(C, net, e.x, e.contributions, e.cleartext, e.R, after, i);
    NonEmptyOne(data);
    NonEmptyOne(o.nextMsg);
    assert after.owners[i] == Turn(C, net.phase, o, data, e.x.seeds[i]);
  }

  lemma {:induction false} AgeDelivers(net: Net, i: nat, age: nat)
    requires i < |net.owners| && i < |net.taken| && StrandedFor(net, i, age)
    ensures Delivered(net, i) <==> age <= 1
  {
    var o := net.owners[i];
    NonEmptyOne(o.nextMsg);
    NonEmptyOne([]);
    NonEmptyTwo([], o.nextMsg);
  }

  lemma {:induction false} InvAt(C: Codec, n: nat, nets: seq<Net>, events: seq<Event>, i: nat, m: nat)
    requires Run(C, n, nets, events) && i < n && m <= |events|
    ensures |nets[m].owners| == |nets[m].taken| == n && Inv(C, nets[m])
  {
    assert Run(C, n, nets[..m + 1], events[..m]);
    RunKeeps(C, n, nets[..m + 1], events[..m], i);
  }

  lemma {:induction false} StrandedSince(C: Codec, n: nat, nets: seq<Net>, events: seq<Event>, i: nat, t: nat, m: nat)
    requires Run(C, n, nets, events) && i < n && t < m <= |events| && LosesRequest(nets[t], events[t], i)
    ensures |nets[m].owners| == |nets[m].taken| == n && StrandedFor(nets[m], i, m - t - 1)
  {
    InvAt(C, n, nets, events, i, t);
    assert Moves(C, nets[t], events[t], nets[t + 1]);
    LossStrands(C, nets[t], events[t], nets[t + 1], i);
    for k := t + 1 to m
      invariant |nets[k].owners| == |nets[k].taken| == n && StrandedFor(nets[k], i, k - t - 1)
    {
      InvAt(C, n, nets, events, i, k);
      assert Moves(C, nets[k], events[k], nets[k + 1]);
      StrandedAges(C, nets[k], events[k], nets[k + 1], i, k - t - 1);
    }
  }

  /** A request lost in phase t destroys delivery from the third phase on, and not before. */
  lemma {:induction false} LostAt(C: Codec, n: nat, nets: seq<Net>, events: seq<Event>, i: nat, t: nat, m: nat)
    requires Run(C, n, nets, events) && i < n && t < m <= |events| && LosesRequest(nets[t], events[t], i)
    ensures |nets[m].owners| == |nets[m].taken| == n && Got(nets[m].pushed, i) == []
    ensures Delivered(nets[m], i) <==> m <= t + 2
  {
    StrandedSince(C, n, nets, events, i, t, m);
    AgeDelivers(nets[m], i, m - t - 1);
  }

  /** Exactly-once delivery, exactly: it holds at the end of a run if and only if no request was
      lost before the last two phases. */
  lemma {:induction false} DeliveredIff(C: Codec, n: nat, nets: seq<Net>, events: seq<Event>, i: nat)
    requires Run(C, n, nets, events) && i < n
    ensures |nets[|events|].owners| == |nets[|events|].taken| == n
    ensures Delivered(nets[|events|], i)
            <==> forall t :: 0 <= t < |events| && LosesRequest(nets[t], events[t], i) ==> |events| <= t + 2
  {
    if t :| 0 <= t < |events| && LosesRequest(nets[t], events[t], i) {
      LostAt(C, n, nets, events, i, t, |events|);
      forall t' | 0 <= t' < |events| && LosesRequest(nets[t'], events[t'], i)
        ensures Delivered(nets[|events|], i) <==> |events| <= t' + 2
      {
        LostAt(C, n, nets, events, i, t', |events|);
      }
    } else {
      ExactlyOnce(C, n, nets, events, i);
    }
  }

  // ----- runs exist -----

  /** Every choice of data, seeds and handled clients is a phase, as long as the servers take
      only ciphertexts of the right length. */
  lemma {:induction false} StepExists(C: Codec, net: Net, x: Input) returns (e: Event, after: Net)
    requires Inv(C, net) && SmallSizes(C, net) && Fits(C, net, x)
    requires forall i :: 0 <= i < |net.owners| && x.handled[i] ==> |ContributionOf(C, net, x, i)| == net.length
    ensures e.x == x && Moves(C, net, e, after)
  {
    var n := |net.owners|;
    var contributions := seq(n, i requires 0 <= i < n => ContributionOf(C, net, x, i));
    var cleartext: Buf := seq(net.length, k requires 0 <= k < net.length => Fold(HandledByte(x.handled, contributions, k), n));
    var R := Read(C, net.phase, n, net.layout, cleartext);
    ReadIs(C, net.phase, n, net.layout, cleartext);
    e := Event(x, contributions, cleartext, R);
    after := Net(net.phase + 1, R.NextLayout(), R.NextLength(),
                 seq(n, i requires 0 <= i < n => OwnerAfter(C, net, x, R, i)),
                 net.pushed + R.Deliveries(R.n),
                 seq(n, i requires 0 <= i < n => TakenAfter(net, x, i)));
  }

  lemma {:induction false} RunExtends(C: Codec, n: nat, nets: seq<Net>, events: seq<Event>, e: Event, after: Net)
    requires Run(C, n, nets, events) && Moves(C, nets[|events|], e, after)
    ensures Run(C, n, nets + [after], events + [e])
  {
  }

  /** Everybody has d to send, and nobody is handled. */
  function Silent(n: nat, d: Buf, seed: Buf): Input {
    Input(seq(n, i => d), seq(n, i => seed), seq(n, i => false))
  }

  /** A run of m phases in which everybody has something to send and nobody is handled. */
  lemma {:induction false} SilentRun(C: Codec, n: nat, d: Buf, seed: Buf, m: nat) returns (nets: seq<Net>, events: seq<Event>)
    requires C.GoodSeed(seed) && 0 < |d| <= MAX_GET && m <= INT_LIMIT && C.Header() + MAX_GET < INT_LIMIT && n > 0
    ensures Run(C, n, nets, events) && |events| == m && nets[m].phase == m
    ensures forall t :: 0 <= t < m ==> events[t].x == Silent(n, d, seed)
    ensures forall i :: 0 <= i < n && m > 0 ==> LosesRequest(nets[0], events[0], i)
  {
    nets, events := [Start(n, 0)], [];
    for k := 0 to m
      invariant Run(C, n, nets, events) && |events| == k && nets[k].phase == k
      invariant forall t :: 0 <= t < k ==> events[t].x == Silent(n, d, seed)
      invariant forall i :: 0 <= i < n && k > 0 ==> LosesRequest(nets[0], events[0], i)
    {
      RunKeeps(C, n, nets, events, 0);
      var e, after := StepExists(C, nets[k], Silent(n, d, seed));
      RunExtends(C, n, nets, events, e, after);
      nets, events := nets + [after], events + [e];
    }
  }

  /** The smallest failure: one client whose request is lost, and two more phases. */
  lemma {:induction false} LossExample() returns (C: Codec, nets: seq<Net>, events: seq<Event>)
    ensures Run(C, 1, nets, events) && |events| == 3 && |nets[3].owners| == |nets[3].taken| == 1
    ensures forall t :: 0 <= t < 3 ==> events[t].x == Silent(1, [7], [1])
    ensures !Delivered(nets[3], 0)
  {
    C := Codec(1, 0, b => [], (s, k) => []);
    assert Zeros(1)[0] == 0;
    nets, events := SilentRun(C, 1, [7], [1], 3);
    LostAt(C, 1, nets, events, 0, 0, 3);
  }
}
