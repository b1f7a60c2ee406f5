/** The layout of a DC-net cleartext: one open-request bit per client, then one slot per open
    client in client order; and how a cleartext determines the layout of the next phase. */
module DcNetLayout {
  import opened Xor
  import opened DcNetCodec
  import opened Counting

  type Layout = map<nat, nat>

  // ----- layouts -----

  function Len(layout: Layout, i: nat): nat {
    if i in layout then layout[i] else 0
  }

  /** The room taken by the first m owners. */
  function Room(layout: Layout, m: nat): nat {
    if m == 0 then 0 else Room(layout, m - 1) + Len(layout, m - 1)
  }

  /** The bytes that hold n open-request bits. */
  function Base(n: nat): nat {
    n / 8 + if n % 8 == 0 then 0 else 1
  }

  function Offset(layout: Layout, n: nat, i: nat): nat {
    Base(n) + Room(layout, i)
  }

  lemma {:induction false} RoomMonotone(layout: Layout, m: nat, n: nat)
    requires m <= n
    ensures Room(layout, m) <= Room(layout, n)
  {
    if m < n {
      RoomMonotone(layout, m, n - 1);
    }
  }

  lemma {:induction false} EmptyRoom(m: nat)
    ensures Room(map[], m) == 0
  {
    if m > 0 {
      EmptyRoom(m - 1);
    }
  }

  /** Slots of different owners never overlap, and all lie between the open bits and the end. */
  lemma {:induction false} SlotsTile(layout: Layout, n: nat, i: nat, j: nat)
    requires i < j
    ensures Base(n) <= Offset(layout, n, i)
    ensures Offset(layout, n, i) + Len(layout, i) <= Offset(layout, n, j)
  {
    RoomMonotone(layout, i + 1, j);
  }

  /** bit_masks. */
  function Mask(b: nat): (r: Byte)
    requires b < 8
    ensures r == Weight(b)
  {
    ByteWeight();
    WeightMonotone(b, 8);
    Weight(b)
  }

  /** Whether client i's open-request bit is set. */
  predicate BitAt(b: Buf, i: nat)
    requires i / 8 < |b|
  {
    Bit(b[i / 8], i % 8) == 1
  }

  // ----- what one phase's cleartext says -----

  /** What a slot's text asks for next; 0 when there is no slot or it closes. Unless it was
      read as good, the slot keeps its length. */
  function Asked(text: Buf, outcome: Outcome): nat {
    if text == [] then 0 else if outcome.Good? then outcome.next else |text|
  }

  /** The message that a slot's text delivers; empty when it delivers none. */
  function Told(text: Buf, outcome: Outcome): Buf {
    if text != [] && outcome.Good? then outcome.msg else []
  }

  /** A cleartext taken apart under the layout it was written with: the open bits, the text of
      each slot, and how that text reads. */
  datatype Reading = Reading(header: nat, n: nat, layout: Layout,
                             opens: seq<bool>, texts: seq<Buf>, outcomes: seq<Outcome>)
  {
    ghost predicate Valid() {
      && header > 0
      && (forall i :: i in layout ==> i < n)
      && |opens| == |texts| == |outcomes| == n
      && (forall i :: 0 <= i < n ==> |texts[i]| == Len(layout, i))
    }

    function SlotNext(i: nat): nat
      requires Valid() && i < n
    {
      Asked(texts[i], outcomes[i])
    }

    function OpenNext(i: nat): nat
      requires Valid() && i < n
    {
      if opens[i] then header else 0
    }

    /** The entry that remains in next_msgs: the slot's own request overwrites the open bit. */
    function NextLen(i: nat): nat
      requires Valid() && i < n
    {
      if SlotNext(i) > 0 then SlotNext(i) else OpenNext(i)
    }

    function NextLayout(): Layout
      requires Valid()
    {
      map i: nat | i < n && NextLen(i) > 0 :: NextLen(i)
    }

    /** What the first m open bits ask for. */
    function OpenRoom(m: nat): nat
      requires Valid() && m <= n
    {
      if m == 0 then 0 else OpenRoom(m - 1) + OpenNext(m - 1)
    }

    /** What the first m slots ask for. */
    function SlotRoom(m: nat): nat
      requires Valid() && m <= n
    {
      if m == 0 then 0 else SlotRoom(m - 1) + SlotNext(m - 1)
    }

    /** The next message length, accumulated request by request. */
    function NextLength(): nat
      requires Valid()
    {
      Base(n) + OpenRoom(n) + SlotRoom(n)
    }

    function Delivery(i: nat): Buf
      requires Valid() && i < n
    {
      Told(texts[i], outcomes[i])
    }

    /** The non-empty messages of the first m slots, with their owners. */
    function Deliveries(m: nat): seq<(nat, Buf)>
      requires Valid() && m <= n
    {
      if m == 0 then []
      else Deliveries(m - 1) + if Delivery(m - 1) == [] then [] else [(m - 1, Delivery(m - 1))]
    }
  }

  lemma {:induction false} SlotRange(layout: Layout, n: nat, i: nat)
    requires i < n
    ensures i / 8 < Base(n) <= Offset(layout, n, i)
    ensures Offset(layout, n, i + 1) == Offset(layout, n, i) + Len(layout, i) <= Offset(layout, n, n)
  {
    RoomMonotone(layout, i + 1, n);
  }

  /** The cleartext's own bits and slots. */
  ghost predicate Splits(R: Reading, cleartext: Buf) {
    && R.Valid()
    && Offset(R.layout, R.n, R.n) <= |cleartext|
    && forall i :: 0 <= i < R.n ==> OpensAs(R, cleartext, i) && HoldsText(R, cleartext, i)
  }

  predicate OpensAs(R: Reading, cleartext: Buf, i: nat)
    requires i < |R.opens|
  {
    i / 8 < |cleartext| && R.opens[i] == BitAt(cleartext, i)
  }

  predicate HoldsText(R: Reading, cleartext: Buf, i: nat)
    requires i < |R.texts|
  {
    && Offset(R.layout, R.n, i) + |R.texts[i]| <= |cleartext|
    && R.texts[i] == cleartext[Offset(R.layout, R.n, i)..Offset(R.layout, R.n, i) + |R.texts[i]|]
  }

  lemma {:induction false} NextEntry(R: Reading, i: nat)
    requires R.Valid() && i < R.n
    ensures Len(R.NextLayout(), i) == R.NextLen(i)
  {
  }

  lemma {:induction false} NextKeys(R: Reading)
    requires R.Valid()
    ensures forall i :: i in R.NextLayout() ==> i < R.n && R.NextLayout()[i] > 0
  {
  }

  // ----- when the announced length matches the layout -----

  /** Owner i asks to open a slot and at the same time keeps one. */
  predicate Overlaps(R: Reading, i: nat)
    requires R.Valid() && i < R.n
  {
    R.opens[i] && R.SlotNext(i) > 0
  }

  /** One header per overlapping owner. */
  function Excess(R: Reading, m: nat): nat
    requires R.Valid() && m <= R.n
  {
    if m == 0 then 0 else Excess(R, m - 1) + if Overlaps(R, m - 1) then R.header else 0
  }

  /** One owner's share of the announced length. */
  lemma {:induction false} ShareOf(R: Reading, i: nat)
    requires R.Valid() && i < R.n
    ensures R.OpenNext(i) + R.SlotNext(i) == Len(R.NextLayout(), i) + if Overlaps(R, i) then R.header else 0
  {
    NextEntry(R, i);
  }

  lemma {:induction false} ExcessTo(R: Reading, m: nat)
    requires R.Valid() && m <= R.n
    ensures R.OpenRoom(m) + R.SlotRoom(m) == Room(R.NextLayout(), m) + Excess(R, m)
  {
    if m > 0 {
      ExcessTo(R, m - 1);
      ShareOf(R, m - 1);
    }
  }

  lemma {:induction false} NoExcess(R: Reading, m: nat)
    requires R.Valid() && m <= R.n
    ensures Excess(R, m) == 0 <==> forall i :: 0 <= i < m ==> !Overlaps(R, i)
  {
    if m > 0 {
      NoExcess(R, m - 1);
    }
  }

  /** The announced length exceeds the layout by one header per owner that both opens and keeps
      a slot: it is exact if and only if there is no such owner. */
  lemma {:induction false} LengthMatchesIff(R: Reading)
    requires R.Valid()
    ensures R.NextLength() == Offset(R.NextLayout(), R.n, R.n) + Excess(R, R.n)
    ensures R.NextLength() == Offset(R.NextLayout(), R.n, R.n) <==> forall i :: 0 <= i < R.n ==> !Overlaps(R, i)
  {
    ExcessTo(R, R.n);
    NoExcess(R, R.n);
  }

  // ----- zero entries -----

  /** Two layouts that differ only in zero entries. */
  ghost predicate SameSlots(a: Layout, b: Layout) {
    forall i: nat :: Len(a, i) == Len(b, i)
  }

  lemma {:induction false} SameRoom(a: Layout, b: Layout, m: nat)
    requires SameSlots(a, b)
    ensures Room(a, m) == Room(b, m)
  {
    if m > 0 {
      SameRoom(a, b, m - 1);
    }
  }

  ghost predicate DifferInZeros(R: Reading, S: Reading) {
    R.Valid() && SameSlots(R.layout, S.layout) && (forall i :: i in S.layout ==> i < R.n) && S == R.(layout := S.layout)
  }

  lemma {:induction false} SameSlotReading(R: Reading, S: Reading, i: nat)
    requires DifferInZeros(R, S) && i < R.n
    ensures S.Valid() && S.Delivery(i) == R.Delivery(i)
    ensures S.OpenNext(i) == R.OpenNext(i) && S.SlotNext(i) == R.SlotNext(i) && S.NextLen(i) == R.NextLen(i)
  {
  }

  lemma {:induction false} SameRooms(R: Reading, S: Reading, m: nat)
    requires DifferInZeros(R, S) && m <= R.n
    ensures S.Valid() && S.OpenRoom(m) == R.OpenRoom(m) && S.SlotRoom(m) == R.SlotRoom(m)
  {
    if m > 0 {
      SameRooms(R, S, m - 1);
      SameSlotReading(R, S, m - 1);
    }
  }

  lemma {:induction false} SameDeliveries(R: Reading, S: Reading, m: nat)
    requires DifferInZeros(R, S) && m <= R.n
    ensures S.Valid() && S.Deliveries(m) == R.Deliveries(m)
  {
    if m > 0 {
      SameDeliveries(R, S, m - 1);
      SameSlotReading(R, S, m - 1);
    }
  }

  /** Zero entries change nothing in how a cleartext splits... */
  lemma {:induction false} ZeroEntriesSplit(R: Reading, S: Reading, cleartext: Buf)
    requires DifferInZeros(R, S) && Splits(R, cleartext)
    ensures Splits(S, cleartext)
  {
    SameRoom(R.layout, S.layout, R.n);
    forall i | 0 <= i < R.n ensures OpensAs(S, cleartext, i) && HoldsText(S, cleartext, i) {
      SameRoom(R.layout, S.layout, i);
      assert OpensAs(R, cleartext, i) && HoldsText(R, cleartext, i);
    }
  }

  /** ... nor in what it is read for. */
  lemma {:induction false} ZeroEntriesInvisible(R: Reading, S: Reading)
    requires DifferInZeros(R, S)
    ensures S.Valid() && S.NextLayout() == R.NextLayout()
    ensures S.NextLength() == R.NextLength()
    ensures S.Deliveries(R.n) == R.Deliveries(R.n)
  {
    SameRooms(R, S, R.n);
    SameDeliveries(R, S, R.n);
    forall i | 0 <= i < R.n ensures Len(S.NextLayout(), i) == Len(R.NextLayout(), i) {
      SameSlotReading(R, S, i);
      NextEntry(R, i);
      NextEntry(S, i);
    }
    NextKeys(R);
    NextKeys(S);
    SameEntries(S.NextLayout(), R.NextLayout(), R.n);
  }

  lemma {:induction false} SameEntries(a: Layout, b: Layout, n: nat)
    requires forall i :: i in a ==> i < n && a[i] > 0
    requires forall i :: i in b ==> i < n && b[i] > 0
    requires forall i :: 0 <= i < n ==> Len(a, i) == Len(b, i)
    ensures a == b
  {
    forall i: nat ensures i in a <==> i in b {
      if i < n {
        assert Len(a, i) == Len(b, i);
      }
    }
    forall i | i in a ensures a[i] == b[i] {
      assert Len(a, i) == Len(b, i);
    }
  }

  lemma {:induction false} KeyBeyond(keys: set<nat>, m: nat) returns (last: nat)
    requires m < |keys|
    ensures last in keys && last >= m
  {
    if forall i :: i in keys ==> i < m {
      SubsetSize(keys, Below(m));
    }
    last :| last in keys && last >= m;
  }

  lemma {:induction false} KeyBounds(keys: set<nat>, m: nat, n: nat)
    requires forall i :: 0 <= i < m ==> i in keys
    requires forall i :: i in keys ==> i < n
    ensures m <= |keys| <= n
    ensures |keys| == m ==> keys == Below(m)
  {
    SubsetSize(Below(m), keys);
    SubsetSize(keys, Below(n));
  }

  /** The server's walk over its layout, which indexes the map while its size bounds the loop:
      it ends, having added a zero entry for every missing owner up to the last one. */
  method FillGaps(layout: Layout, n: nat) returns (open: seq<bool>, filled: Layout)
    requires forall i :: i in layout ==> i < n
    ensures SameSlots(filled, layout)
    ensures filled.Keys == Below(|filled|) && |filled| <= n
    ensures |filled| > 0 ==> |filled| - 1 in layout
    ensures layout.Keys <= filled.Keys
    ensures |open| == n && forall i :: 0 <= i < n ==> open[i] == (Len(layout, i) != 0)
  {
    filled := layout;
    open := seq(n, i => false);
    var idx := 0;
    KeyBounds(filled.Keys, 0, n);
    while idx < |filled.Keys|
      invariant 0 <= idx <= |filled.Keys| <= n
      invariant forall i :: i in filled ==> i < n
      invariant forall i :: 0 <= i < idx ==> i in filled
      invariant forall i :: i in layout ==> i in filled && filled[i] == layout[i]
      invariant forall i :: i in filled && i !in layout ==> i < idx && filled[i] == 0
      invariant idx > 0 ==> exists i :: idx - 1 <= i && i in layout
      invariant |open| == n && forall i :: 0 <= i < n ==> open[i] == (i < idx && Len(layout, i) != 0)
      decreases n - idx
    {
      ghost var last := KeyBeyond(filled.Keys, idx);
      assert last in layout;
      if idx !in filled {
        filled := filled[idx := 0];
      }
      open := open[idx := filled[idx] != 0];
      idx := idx + 1;
      KeyBounds(filled.Keys, idx, n);
    }
    KeyBounds(filled.Keys, idx, n);
    assert |filled| == |filled.Keys| == idx;
  }
}
