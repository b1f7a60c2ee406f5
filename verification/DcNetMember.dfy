/** A participant of the DC-net round: it fills its own slot, and it reads everybody's. */
module DcNetMember {
  import opened Xor
  import opened DcNetCodec
  import opened DcNetLayout
  import DcNetPads

  // ----- the owner of a slot -----

  /** What the owner of a slot remembers: the message taken last, the one before it, and whether
      that one still has to be sent (read is false). */
  datatype Owner = Owner(slotOpen: bool, read: bool, accuse: bool, nextMsg: Buf, lastMsg: Buf, lastText: Buf)

  /** The message that goes out in this turn. */
  function Outgoing(o: Owner): Buf {
    if o.read then o.nextMsg else o.lastMsg
  }

  /** Whether this turn asks the application for data. */
  predicate Takes(o: Owner) {
    if o.slotOpen then o.read else o.nextMsg == []
  }

  /** GenerateSlotMessage's effect on the two messages. */
  function Advanced(o: Owner, data: Buf): Owner {
    if o.read then o.(lastMsg := o.nextMsg, nextMsg := data) else o.(read := true)
  }

  function TurnText(C: Codec, phase: nat, o: Owner, data: Buf, seed: Buf): (r: Buf)
    requires |seed| == C.seedSize
    ensures |r| == C.Header() + |Outgoing(o)|
  {
    SlotText(C, phase, o.accuse, |Advanced(o, data).nextMsg| + C.Header(), Outgoing(o), seed)
  }

  /** CheckData. */
  function Checked(o: Owner, data: Buf): Owner {
    if o.nextMsg != [] then o else o.(nextMsg := data, lastMsg := [])
  }

  predicate Asks(o: Owner, data: Buf) {
    !o.slotOpen && Checked(o, data).nextMsg != []
  }

  /** The owner after producing its ciphertext. */
  function Turn(C: Codec, phase: nat, o: Owner, data: Buf, seed: Buf): Owner
    requires |seed| == C.seedSize
  {
    if o.slotOpen then Advanced(o, data).(lastText := TurnText(C, phase, o, data, seed))
    else if Asks(o, data) then Checked(o, data).(read := false, slotOpen := true)
    else Checked(o, data)
  }

  /** The writer adds up the slots before its own; all slots when it has none. */
  function WriterOffset(layout: Layout, n: nat, me: nat): nat {
    Offset(layout, n, if me in layout then me else n)
  }

  function Place(offset: nat, text: Buf, length: nat): (r: Buf)
    ensures |r| == if offset + |text| <= length then length else offset + |text|
    ensures forall k :: 0 <= k < |r| ==> r[k] == if offset <= k < offset + |text| then text[k - offset] else 0
  {
    Zeros(offset) + text + Zeros(if offset + |text| <= length then length - offset - |text| else 0)
  }

  function OpenMark(me: nat, length: nat): (r: Buf)
    requires me / 8 < length
    ensures |r| == length
    ensures forall k :: 0 <= k < length ==> r[k] == if k == me / 8 then Mask(me % 8) else 0
  {
    Zeros(length)[me / 8 := Mask(me % 8)]
  }

  /** The slot's part of the pads is replaced by its combination with the slot text. */
  function Overwrite(sum: Buf, offset: nat, text: Buf): (r: Buf)
    requires offset <= |sum|
    ensures |r| == if offset + |text| <= |sum| then |sum| else offset + |text|
  {
    var end := if offset + |text| <= |sum| then offset + |text| else |sum|;
    sum[..offset] + XorInto(text, text, sum[offset..end]) + sum[end..]
  }

  lemma {:induction false} OverwriteIs(sum: Buf, offset: nat, text: Buf, k: nat)
    requires offset <= |sum| && k < |sum|
    ensures Overwrite(sum, offset, text)[k] == Add(Place(offset, text, |sum|)[k], sum[k])
  {
    var end := if offset + |text| <= |sum| then offset + |text| else |sum|;
    var front, back := sum[..offset], sum[end..];
    var mine := XorInto(text, text, sum[offset..end]);
    var r := Overwrite(sum, offset, text);
    assert r == front + mine + back && |mine| == |text|;
    var x := Place(offset, text, |sum|)[k];
    AddZero(sum[k]);
    if offset <= k < end {
      assert r[k] == mine[k - offset];
      assert x == text[k - offset];
    } else {
      assert r[k] == sum[k];
      assert x == 0;
    }
  }

  function ToggleBit(sum: Buf, me: nat): (r: Buf)
    requires me / 8 < |sum|
    ensures |r| == |sum| && forall k :: 0 <= k < |sum| ==> r[k] == Add(OpenMark(me, |sum|)[k], sum[k])
  {
    sum[me / 8 := Add(Mask(me % 8), sum[me / 8])]
  }

  /** What the owner adds to the cleartext. */
  function Contribution(C: Codec, phase: nat, n: nat, me: nat, layout: Layout, length: nat,
                        o: Owner, data: Buf, seed: Buf): Buf
    requires |seed| == C.seedSize && me < n && Base(n) <= length
  {
    if o.slotOpen then Place(WriterOffset(layout, n, me), TurnText(C, phase, o, data, seed), length)
    else if Asks(o, data) then OpenMark(me, length)
    else Zeros(length)
  }

  /** A bit that was sent as 0 and came out as 1. */
  ghost predicate FlippedIn(expected: Buf, actual: Buf, m: nat) {
    exists k, b :: 0 <= k < m && k < |expected| && k < |actual| && 0 <= b < 8 && FlippedAt(expected, actual, k, b)
  }

  predicate FlippedAt(expected: Buf, actual: Buf, k: nat, b: nat)
    requires k < |expected| && k < |actual| && b < 8
  {
    Bit(expected[k], b) == 0 && Bit(actual[k], b) == 1
  }

  /** The owner after it has read its own slot. */
  ghost function AfterText(o: Owner, text: Buf, outcome: Outcome): Owner {
    if text == [] then o
    else match outcome
      case Absent => o.(read := false, slotOpen := true)
      case Corrupt =>
        if o.accuse then o
        else o.(read := false, slotOpen := true, accuse := FlippedIn(o.lastText, text, |text|))
      case _ => o
  }

  ghost function AfterReading(o: Owner, me: nat, R: Reading): Owner
    requires R.Valid() && me < R.n
  {
    AfterText(o, R.texts[me], R.outcomes[me])
  }

  // ----- reading slot by slot -----

  /** The requests of the first m slots, written over the open requests. */
  function Updated(R: Reading, requested: Layout, m: nat): Layout
    requires R.Valid() && m <= R.n
  {
    if m == 0 then requested
    else
      var before := Updated(R, requested, m - 1);
      if R.SlotNext(m - 1) > 0 then before[m - 1 := R.SlotNext(m - 1)] else before
  }

  /** The entries that stand for the open bits alone. */
  ghost predicate OnlyOpen(R: Reading, requested: Layout)
    requires R.Valid()
  {
    && (forall i :: i in requested ==> i < R.n && requested[i] > 0)
    && (forall i :: 0 <= i < R.n ==> Len(requested, i) == R.OpenNext(i))
  }

  lemma {:induction false} UpdatedEntry(R: Reading, requested: Layout, m: nat, i: nat)
    requires R.Valid() && m <= R.n && OnlyOpen(R, requested) && i < R.n
    ensures Len(Updated(R, requested, m), i) == if i < m then R.NextLen(i) else R.OpenNext(i)
  {
    if m > 0 {
      UpdatedEntry(R, requested, m - 1, i);
      var before, after, next := Updated(R, requested, m - 1), Updated(R, requested, m), R.SlotNext(m - 1);
      assert after == if next > 0 then before[m - 1 := next] else before;
      assert Len(after, i) == if i == m - 1 && next > 0 then next else Len(before, i);
    }
  }

  lemma {:induction false} UpdatedKeys(R: Reading, requested: Layout, m: nat, i: nat)
    requires R.Valid() && m <= R.n && OnlyOpen(R, requested)
    requires i in Updated(R, requested, m)
    ensures i < R.n && Updated(R, requested, m)[i] > 0
  {
    if m > 0 && i in Updated(R, requested, m - 1) {
      UpdatedKeys(R, requested, m - 1, i);
    }
  }

  lemma {:induction false} UpdatedAll(R: Reading, requested: Layout)
    requires R.Valid() && OnlyOpen(R, requested)
    ensures Updated(R, requested, R.n) == R.NextLayout()
  {
    var all := Updated(R, requested, R.n);
    forall i | i in all ensures i < R.n && all[i] > 0 {
      UpdatedKeys(R, requested, R.n, i);
    }
    forall i | 0 <= i < R.n ensures Len(all, i) == Len(R.NextLayout(), i) {
      UpdatedEntry(R, requested, R.n, i);
      NextEntry(R, i);
    }
    NextKeys(R);
    SameEntries(all, R.NextLayout(), R.n);
  }

  /** The comparison that looks for a bit to blame. */
  method FindFlip(expected: Buf, actual: Buf) returns (found: bool)
    ensures found == FlippedIn(expected, actual, |actual|)
  {
    found := false;
    var k := 0;
    while k < |actual| && k < |expected| && !found
      invariant 0 <= k <= |actual| && k <= |expected|
      invariant found == FlippedIn(expected, actual, k)
    {
      for b := 0 to 8
        invariant found == (FlippedIn(expected, actual, k)
                            || exists c :: 0 <= c < b && FlippedAt(expected, actual, k, c))
      {
        if Bit(expected[k], b) == 0 && Bit(actual[k], b) == 1 {
          assert FlippedAt(expected, actual, k, b);
          found := true;
        }
      }
      k := k + 1;
    }
  }

  /** The open requests. */
  method ReadOpenBits(ghost R: Reading, header: nat, n: nat, cleartext: Buf) returns (nextMsgs: Layout, nextLength: nat)
    requires Splits(R, cleartext) && header == R.header && n == R.n
    ensures OnlyOpen(R, nextMsgs) && nextLength == Base(n) + R.OpenRoom(n)
  {
    nextLength := Base(n);
    nextMsgs := map[];
    for i: nat := 0 to n
      invariant forall j :: j in nextMsgs ==> j < i && nextMsgs[j] > 0
      invariant forall j :: 0 <= j < i ==> Len(nextMsgs, j) == R.OpenNext(j)
      invariant nextLength == Base(n) + R.OpenRoom(i)
    {
      assert OpensAs(R, cleartext, i);
      if BitAt(cleartext, i) {
        nextMsgs := nextMsgs[i := header];
        nextLength := nextLength + header;
      }
    }
  }

  lemma {:induction false} AccusedStep(C: Codec, R: Reading, m: nat)
    requires R.Valid() && m < R.n
    ensures Accused(C, R, m + 1) == (Accused(C, R, m) || AccusesAt(C, R, m))
  {
    if AccusesAt(C, R, m) {
      assert Accused(C, R, m + 1);
    }
  }

  function TextAt(layout: Layout, n: nat, cleartext: Buf, i: nat): (r: Buf)
    requires i < n && Offset(layout, n, n) <= |cleartext|
    ensures |r| == Len(layout, i)
  {
    SlotRange(layout, n, i);
    cleartext[Offset(layout, n, i)..Offset(layout, n, i) + Len(layout, i)]
  }

  /** The cleartext, taken apart. */
  function Read(C: Codec, phase: int, n: nat, layout: Layout, cleartext: Buf): (R: Reading)
    requires forall i :: i in layout ==> i < n
    requires Offset(layout, n, n) <= |cleartext|
    ensures R.Valid() && R.n == n && R.layout == layout
  {
    var texts := seq(n, i requires 0 <= i < n => TextAt(layout, n, cleartext, i));
    var opens := seq(n, i requires 0 <= i < n => SlotRange(layout, n, i); BitAt(cleartext, i));
    Reading(C.Header(), n, layout, opens, texts, seq(n, i requires 0 <= i < n => Parse(C, phase, texts[i])))
  }

  /** R is how the cleartext reads. */
  ghost predicate ReadsAs(C: Codec, phase: int, R: Reading, cleartext: Buf) {
    && Splits(R, cleartext)
    && R.header == C.Header()
    && forall i :: 0 <= i < R.n ==> ParsesAs(C, phase, R, i)
  }

  predicate ParsesAs(C: Codec, phase: int, R: Reading, i: nat)
    requires i < |R.texts| && i < |R.outcomes|
  {
    R.outcomes[i] == Parse(C, phase, R.texts[i])
  }

  lemma {:induction false} ReadIs(C: Codec, phase: int, n: nat, layout: Layout, cleartext: Buf)
    requires forall i :: i in layout ==> i < n
    requires Offset(layout, n, n) <= |cleartext|
    ensures ReadsAs(C, phase, Read(C, phase, n, layout, cleartext), cleartext)
  {
    var R := Read(C, phase, n, layout, cleartext);
    forall i | 0 <= i < n ensures OpensAs(R, cleartext, i) && HoldsText(R, cleartext, i) && ParsesAs(C, phase, R, i) {
      SlotRange(layout, n, i);
    }
  }

  /** The smallest cleartext whose announced length is wrong: the one client there is sets its
      open bit, and the slot it has is empty and stays. */
  lemma {:induction false} OverlapExample(C: Codec, phase: int)
    ensures var layout: Layout := map[0 := C.Header()];
            var cleartext := [1] + Zeros(C.Header());
            Offset(layout, 1, 1) == |cleartext|
            && var R := Read(C, phase, 1, layout, cleartext);
               ReadsAs(C, phase, R, cleartext) && R.NextLength() == Offset(R.NextLayout(), 1, 1) + C.Header()
  {
    var layout: Layout, cleartext := map[0 := C.Header()], [1] + Zeros(C.Header());
    assert Room(layout, 0) == 0 && Room(layout, 1) == C.Header() && Base(1) == 1;
    var R := Read(C, phase, 1, layout, cleartext);
    ReadIs(C, phase, 1, layout, cleartext);
    assert OpensAs(R, cleartext, 0) && HoldsText(R, cleartext, 0) && ParsesAs(C, phase, R, 0);
    assert R.texts[0] == Zeros(C.Header());
    ParseZeros(C, phase, C.Header());
    WeightBit(0, 0);
    assert Bit(1, 0) == 1;
    assert Overlaps(R, 0);
    LengthMatchesIff(R);
    assert Excess(R, 0) == 0 && Excess(R, 1) == C.Header();
  }

  /** Some slot carries the accusation flag. */
  ghost predicate Accused(C: Codec, R: Reading, m: nat)
    requires R.Valid() && m <= R.n
  {
    exists i :: 0 <= i < m && AccusesAt(C, R, i)
  }

  predicate AccusesAt(C: Codec, R: Reading, i: nat)
    requires R.Valid() && i < R.n
  {
    R.texts[i] != [] && Accuses(C, R.texts[i])
  }

  /** One slot: what it asks for next, what it delivers, whether it accuses, and what its owner
      learns. */
  method ReadSlot(C: Codec, phase: int, mine: bool, o: Owner, text: Buf)
    returns (next: nat, msg: Buf, flag: bool, own: Owner)
    ensures next == Asked(text, Parse(C, phase, text)) && msg == Told(text, Parse(C, phase, text))
    ensures flag == (text != [] && Accuses(C, text))
    ensures own == if mine then AfterText(o, text, Parse(C, phase, text)) else o
  {
    next, msg, flag, own := |text|, [], false, o;
    if |text| == 0 {
      return;
    }
    flag := Accuses(C, text);
    var outcome := Parse(C, phase, text);
    match outcome {
      case Absent =>
        if mine {
          own := o.(read := false, slotOpen := true);
        }
      case Corrupt =>
        if mine && !o.accuse {
          var flipped := FindFlip(o.lastText, text);
          own := o.(read := false, slotOpen := true, accuse := flipped);
        }
      case WrongPhase =>
      case NegativeLength =>
      case Good(asked, contents) =>
        next, msg := asked, contents;
    }
  }

  /** The slot at the given offset. */
  method ReadSlotAt(C: Codec, phase: int, ghost R: Reading, length: nat, cleartext: Buf, offset: nat, owner: nat,
                    mine: bool, o: Owner)
    returns (next: nat, msg: Buf, flag: bool, own: Owner)
    requires ReadsAs(C, phase, R, cleartext) && owner < R.n
    requires offset == Offset(R.layout, R.n, owner) && length == Len(R.layout, owner)
    ensures next == R.SlotNext(owner) && msg == R.Delivery(owner) && flag == AccusesAt(C, R, owner)
    ensures own == if mine then AfterReading(o, owner, R) else o
  {
    assert HoldsText(R, cleartext, owner) && ParsesAs(C, phase, R, owner);
    var text := cleartext[offset..offset + length];
    assert text == R.texts[owner] && Parse(C, phase, text) == R.outcomes[owner];
    next, msg, flag, own := ReadSlot(C, phase, mine, o, text);
  }

  /** The slots, in order of their owners. */
  method ReadSlots(C: Codec, phase: int, ghost R: Reading, layout: Layout, n: nat, cleartext: Buf, me: nat, o: Owner,
                   requested: Layout, startLength: nat)
    returns (nextMsgs: Layout, nextLength: nat, batch: seq<(nat, Buf)>, accused: bool, own: Owner)
    requires ReadsAs(C, phase, R, cleartext) && me < n && layout == R.layout && n == R.n
    ensures nextMsgs == Updated(R, requested, n) && nextLength == startLength + R.SlotRoom(n)
    ensures batch == R.Deliveries(n) && accused == Accused(C, R, n)
    ensures own == AfterReading(o, me, R)
  {
    nextMsgs, nextLength, batch, accused, own := requested, startLength, [], false, o;
    var offset := Base(n);
    for owner: nat := 0 to n
      invariant offset == Offset(layout, n, owner)
      invariant nextLength == startLength + R.SlotRoom(owner)
      invariant nextMsgs == Updated(R, requested, owner)
      invariant batch == R.Deliveries(owner)
      invariant accused == Accused(C, R, owner)
      invariant own == if owner <= me then o else AfterReading(o, me, R)
    {
      AccusedStep(C, R, owner);
      var length := Len(layout, owner);
      var next, msg, flag, own' := ReadSlotAt(C, phase, R, length, cleartext, offset, owner, owner == me, own);
      own, offset, accused := own', offset + length, accused || flag;
      if next > 0 {
        nextMsgs := nextMsgs[owner := next];
        nextLength := nextLength + next;
      }
      if msg != [] {
        batch := batch + [(owner, msg)];
      }
    }
  }

  /** All of the reading: the next layout and length, the messages, and what the owner learns. */
  method ReadCleartext(C: Codec, phase: int, ghost R: Reading, layout: Layout, n: nat, cleartext: Buf, me: nat, o: Owner)
    returns (nextMsgs: Layout, nextLength: nat, batch: seq<(nat, Buf)>, accused: bool, own: Owner)
    requires ReadsAs(C, phase, R, cleartext) && me < n && layout == R.layout && n == R.n
    ensures nextMsgs == R.NextLayout() && nextLength == R.NextLength()
    ensures Offset(nextMsgs, n, n) <= nextLength && forall i :: i in nextMsgs ==> i < n
    ensures batch == R.Deliveries(n) && accused == Accused(C, R, n)
    ensures own == AfterReading(o, me, R)
  {
    var requested: Layout, startLength: nat := ReadOpenBits(R, C.Header(), n, cleartext);
    nextMsgs, nextLength, batch, accused, own := ReadSlots(C, phase, R, layout, n, cleartext, me, o, requested, startLength);
    UpdatedAll(R, requested);
    LengthMatchesIff(R);
    NextKeys(R);
  }

  /** The owner's turn in an open slot: the message due goes out, with the length of the next. */
  method FillSlot(C: Codec, phase: nat, o: Owner, data: Buf, seed: Buf) returns (text: Buf, after: Owner)
    requires |seed| == C.seedSize && o.slotOpen
    ensures text == TurnText(C, phase, o, data, seed)
    ensures after == Turn(C, phase, o, data, seed)
  {
    var msg := o.nextMsg;
    if o.read {
      after := o.(lastMsg := o.nextMsg, nextMsg := data);
    } else {
      msg := o.lastMsg;
      after := o.(read := true);
    }
    var next := |after.nextMsg| + C.Header();
    assert after == Advanced(o, data) && msg == Outgoing(o) && next == |Advanced(o, data).nextMsg| + C.Header();
    text := SlotText(C, phase, o.accuse, next, msg, seed);
    after := after.(lastText := text);
  }

  // ----- the participant -----

  class Member {
    const C: Codec
    const n: nat
    const me: nat
    var phase: nat
    var layout: Layout
    var length: nat
    var pushed: seq<(nat, Buf)>
    var startAccuse: bool
    var own: Owner

    ghost predicate Valid()
      reads this
    {
      && me < n
      && (forall i :: i in layout ==> i < n)
      && Offset(layout, n, n) <= length
    }

    /** PrepareForBulk: no slot is open, and the cleartext is just the open bits. */
    constructor (C: Codec, n: nat, me: nat, phase: nat)
      requires me < n
      ensures Valid() && this.C == C && this.n == n && this.me == me && this.phase == phase
      ensures layout == map[] && length == Offset(map[], n, n) == Base(n)
      ensures pushed == [] && !startAccuse && own == Owner(false, false, false, [], [], [])
    {
      this.C, this.n, this.me, this.phase := C, n, me, phase;
      layout, pushed, startAccuse := map[], [], false;
      length := n / 8 + if n % 8 == 0 then 0 else 1;
      own := Owner(false, false, false, [], [], []);
      new;
      EmptyRoom(n);
    }

    method CheckData(data: Buf) returns (ready: bool)
      modifies this`own
      ensures own == Checked(old(own), data)
      ensures ready == (own.nextMsg != [])
    {
      if own.nextMsg != [] {
        return true;
      }
      own := own.(nextMsg := data, lastMsg := []);
      return own.nextMsg != [];
    }

    method GenerateSlotMessage(data: Buf, seed: Buf) returns (text: Buf)
      requires |seed| == C.seedSize && own.slotOpen
      modifies this`own
      ensures text == TurnText(C, phase, old(own), data, seed)
      ensures own == Turn(C, phase, old(own), data, seed)
    {
      var after;
      text, after := FillSlot(C, phase, own, data, seed);
      own := after;
    }

    /** The writer's walk over the layout. */
    method FindOffset() returns (offset: nat)
      requires Valid()
      ensures offset == WriterOffset(layout, n, me)
    {
      offset := n / 8 + if n % 8 == 0 then 0 else 1;
      for owner := 0 to n
        invariant offset == Offset(layout, n, owner)
        invariant me < owner ==> me !in layout
      {
        if owner in layout {
          if owner == me {
            break;
          }
          offset := offset + layout[owner];
        }
      }
    }

    /** The ciphertext is the contribution under the pads. When the slot does not fit the
        phase's length, the ciphertext comes out longer than that. */
    method GenerateCiphertext(pads: seq<Buf>, data: Buf, seed: Buf) returns (cipher: Buf)
      requires Valid() && |seed| == C.seedSize
      requires forall i :: 0 <= i < |pads| ==> |pads[i]| == length
      modifies this`own
      ensures Valid() && own == Turn(C, phase, old(own), data, seed)
      ensures |cipher| == |Contribution(C, phase, n, me, layout, length, old(own), data, seed)|
      ensures forall k :: 0 <= k < length ==>
        cipher[k] == Add(Contribution(C, phase, n, me, layout, length, old(own), data, seed)[k],
                         Fold(DcNetPads.ListByte(pads, k), |pads|))
    {
      var sum := DcNetPads.SumPads(pads, length);
      if own.slotOpen {
        var offset := FindOffset();
        RoomMonotone(layout, me, n);
        assert offset <= length;
        var text := GenerateSlotMessage(data, seed);
        cipher := Overwrite(sum, offset, text);
        forall k | 0 <= k < length ensures cipher[k] == Add(Place(offset, text, length)[k], sum[k]) {
          OverwriteIs(sum, offset, text, k);
        }
      } else {
        var ready := CheckData(data);
        cipher := sum;
        if ready {
          cipher := ToggleBit(cipher, me);
          own := own.(read := false, slotOpen := true);
        }
      }
    }

    /** ProcessCleartext: everybody reads the same next layout and the same messages from it. */
    method ProcessCleartext(cleartext: Buf, ghost R: Reading)
      requires Valid() && |cleartext| == length && ReadsAs(C, phase, R, cleartext)
      requires R.n == n && R.layout == layout
      modifies this`own, this`startAccuse, this`layout, this`length, this`pushed
      ensures Valid()
      ensures layout == R.NextLayout() && length == R.NextLength()
      ensures pushed == old(pushed) + R.Deliveries(n)
      ensures startAccuse == (old(startAccuse) || Accused(C, R, n))
      ensures own == AfterReading(old(own), me, R)
    {
      var nextMsgs, nextLength, batch, accused, after := ReadCleartext(C, phase, R, layout, n, cleartext, me, own);
      own, startAccuse := after, startAccuse || accused;
      layout, length, pushed := nextMsgs, nextLength, pushed + batch;
    }
  }
}
