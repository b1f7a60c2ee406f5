/** The session's send queue and the tunnel framing that goes through it. */
module SendQueue {
  import opened Xor
  import opened DcNetCodec

  // ----- batches -----

  /** How many entries a batch uses up: entries above max are passed over, and the batch ends at
      the first entry that no longer fits. */
  function Used(queue: seq<Buf>, max: nat, size: nat): (k: nat)
    ensures k <= |queue|
  {
    if queue == [] then 0
    else if |queue[0]| > max then 1 + Used(queue[1..], max, size)
    else if size + |queue[0]| > max then 0
    else 1 + Used(queue[1..], max, size + |queue[0]|)
  }

  /** The entries that can be sent at all. */
  function Fitting(queue: seq<Buf>, max: nat): seq<Buf> {
    if queue == [] then []
    else
      var last := queue[|queue| - 1];
      Fitting(queue[..|queue| - 1], max) + if |last| <= max then [last] else []
  }

  function Joined(list: seq<Buf>): Buf {
    if list == [] then [] else Joined(list[..|list| - 1]) + list[|list| - 1]
  }

  lemma {:induction false} JoinedAppend(list: seq<Buf>, m: Buf)
    ensures Joined(list + [m]) == Joined(list) + m
  {
    assert (list + [m])[..|list|] == list;
  }

  lemma {:induction false} FittingStep(queue: seq<Buf>, max: nat, k: nat)
    requires k < |queue|
    ensures |queue[k]| <= max ==> Fitting(queue[..k + 1], max) == Fitting(queue[..k], max) + [queue[k]]
    ensures |queue[k]| > max ==> Fitting(queue[..k + 1], max) == Fitting(queue[..k], max)
  {
    assert queue[..k + 1][..k] == queue[..k];
  }

  /** What Used counts, from entry k on. */
  lemma {:induction false} UsedStep(queue: seq<Buf>, max: nat, k: nat, size: nat)
    requires k <= |queue|
    ensures k < |queue| && |queue[k]| > max ==> Used(queue[k..], max, size) == 1 + Used(queue[k + 1..], max, size)
    ensures k < |queue| && |queue[k]| <= max && size + |queue[k]| <= max ==>
      Used(queue[k..], max, size) == 1 + Used(queue[k + 1..], max, size + |queue[k]|)
    ensures k == |queue| || (|queue[k]| <= max && size + |queue[k]| > max) ==> Used(queue[k..], max, size) == 0
  {
    if k < |queue| {
      assert queue[k..][0] == queue[k] && queue[k..][1..] == queue[k + 1..];
    }
  }

  /** The loop of GetData. */
  method Collect(queue: seq<Buf>, max: nat) returns (data: Buf, idx: nat)
    ensures idx == Used(queue, max, 0) && data == Joined(Fitting(queue[..idx], max)) && |data| <= max
    ensures idx < |queue| ==> |queue[idx]| <= max < |data| + |queue[idx]|
  {
    data, idx := [], 0;
    assert queue[0..] == queue;
    while idx < |queue|
      invariant idx <= |queue| && |data| <= max
      invariant data == Joined(Fitting(queue[..idx], max))
      invariant Used(queue, max, 0) == idx + Used(queue[idx..], max, |data|)
    {
      UsedStep(queue, max, idx, |data|);
      FittingStep(queue, max, idx);
      if max < |queue[idx]| {
        idx := idx + 1;
        continue;
      } else if max < |data| + |queue[idx]| {
        break;
      }
      JoinedAppend(Fitting(queue[..idx], max), queue[idx]);
      data := data + queue[idx];
      idx := idx + 1;
    }
    UsedStep(queue, max, idx, |data|);
  }

  // ----- the queue -----

  /** The entries a batch used up, and the maximum it was asked for with. */
  datatype Batch = Batch(entries: seq<Buf>, max: nat)
  {
    function Data(): Buf { Joined(Fitting(entries, max)) }
  }

  const NOTHING: Batch := Batch([], 0)

  /** The queue and its position, with everything ever added, the batches that are final, and the
      last batch, which can still be taken back. */
  datatype State = State(queue: seq<Buf>, trim: nat, added: seq<Buf>, final: seq<Batch>, last: Batch)
  {
    /** The batches that were not taken back. */
    function Retained(): seq<Batch> { final + [last] }
  }

  datatype Call = Adding(data: Buf) | Getting(max: nat) | UnGetting

  ghost predicate Inv(s: State) {
    && s.trim <= |s.queue| && s.last.entries == s.queue[..s.trim]
    && s.added == Entries(s.final) + s.queue
  }

  function Entries(batches: seq<Batch>): seq<Buf> {
    if batches == [] then [] else Entries(batches[..|batches| - 1]) + batches[|batches| - 1].entries
  }

  const START: State := State([], 0, [], [], NOTHING)

  function After(s: State, c: Call): State
    requires s.trim <= |s.queue|
  {
    match c
    case Adding(data) => s.(queue := s.queue + [data], added := s.added + [data])
    case UnGetting => s.(trim := 0, last := NOTHING)
    case Getting(max) =>
      var rest := s.queue[s.trim..];
      var k := Used(rest, max, 0);
      State(rest, k, s.added, s.final + [s.last], Batch(rest[..k], max))
  }

  lemma {:induction false} EntriesAppend(batches: seq<Batch>, b: Batch)
    ensures Entries(batches + [b]) == Entries(batches) + b.entries
  {
    assert (batches + [b])[..|batches|] == batches;
  }

  lemma {:induction false} RetainedThenQueued(s: State)
    requires Inv(s)
    ensures Entries(s.Retained()) + s.queue[s.trim..] == s.added
  {
    EntriesAppend(s.final, s.last);
    assert s.queue == s.queue[..s.trim] + s.queue[s.trim..];
    assert Entries(s.final) + (s.queue[..s.trim] + s.queue[s.trim..]) == (Entries(s.final) + s.queue[..s.trim]) + s.queue[s.trim..];
  }

  /** Whatever is called: the final batches, in order, and the queue make up exactly what was
      added, and the last batch is at the front of the queue. */
  lemma {:induction false} CallKeepsInv(s: State, c: Call)
    requires Inv(s)
    ensures Inv(After(s, c))
  {
    match c
    case Adding(data) =>
      assert (s.queue + [data])[..s.trim] == s.queue[..s.trim];
      assert Entries(s.final) + (s.queue + [data]) == (Entries(s.final) + s.queue) + [data];
    case UnGetting =>
    case Getting(max) => RetainedThenQueued(s);
  }

  /** SessionSharedState::DataQueue. */
  class DataQueue {
    var queue: seq<Buf>
    var trim: nat
    ghost var added: seq<Buf>
    ghost var final: seq<Batch>
    ghost var last: Batch

    ghost function View(): State
      reads this
    {
      State(queue, trim, added, final, last)
    }

    constructor ()
      ensures View() == START && Inv(View())
    {
      queue, trim, added, final, last := [], 0, [], [], NOTHING;
    }

    method AddData(data: Buf)
      requires Inv(View())
      modifies this
      ensures View() == After(old(View()), Adding(data)) && Inv(View())
    {
      CallKeepsInv(View(), Adding(data));
      queue := queue + [data];
      added := added + [data];
    }

    /** The last batch will be offered again; earlier ones will not. */
    method UnGet()
      requires Inv(View())
      modifies this
      ensures View() == After(old(View()), UnGetting) && Inv(View())
    {
      CallKeepsInv(View(), UnGetting);
      trim := 0;
      last := NOTHING;
    }

    /** A batch is the concatenation of the next whole messages that fit; taking it makes the
        previous batch final. */
    method GetData(max: nat) returns (data: Buf, more: bool)
      requires Inv(View())
      modifies this
      ensures View() == After(old(View()), Getting(max)) && Inv(View())
      ensures data == last.Data() && |data| <= max
      ensures more <==> trim < |queue|
      ensures more ==> |queue[trim]| <= max < |data| + |queue[trim]|
    {
      CallKeepsInv(View(), Getting(max));
      final := final + [last];
      if trim > 0 {
        queue := queue[trim..];
      }
      var idx;
      data, idx := Collect(queue, max);
      last := Batch(queue[..idx], max);
      trim := idx;
      more := |queue| != trim;
    }
  }

  // ----- framing -----

  /** SessionEntryTunnel::OutgoingData: length, the constant one, and the packet. */
  function Frame(packet: Buf): (r: Buf)
    ensures |r| == 8 + |packet|
  {
    Body(|packet|, 1, packet)
  }

  /** A frame as the other end reads it. */
  predicate IsFrame(f: Buf, packet: Buf) {
    |f| == 8 + |packet| && ReadInt(f, 0) == |packet| && ReadInt(f, 4) == 1 && f[8..] == packet
  }

  lemma {:induction false} FrameIs(packet: Buf)
    requires |packet| < INT_LIMIT
    ensures IsFrame(Frame(packet), packet)
  {
    ReadBody(|packet|, 1, packet);
  }

  /** What the exit makes of the bytes at one offset: nothing more to read, a frame to skip, or a
      frame with a packet. */
  datatype Cut = End | Skip(next: nat) | Take(next: nat, msg: Buf)

  /** A frame must be followed by at least one more byte after its header. */
  function CutAt(data: Buf, offset: nat): (c: Cut)
    ensures !c.End? ==> offset < c.next <= |data|
  {
    if offset + 8 >= |data| then End
    else
      var length := ReadInt(data, offset);
      if length < 0 || |data| < offset + 8 + length then End
      else if ReadInt(data, offset + 4) != 1 then Skip(offset + 8 + length)
      else Take(offset + 8 + length, data[offset + 8..offset + 8 + length])
  }

  type Cutter = nat -> Cut

  function CutterOf(data: Buf): Cutter {
    (offset: nat) => CutAt(data, offset)
  }

  ghost predicate Advances(at: Cutter, size: nat) {
    forall offset: nat :: at(offset).End? || offset < at(offset).next <= size
  }

  lemma CutterAdvances(data: Buf)
    ensures Advances(CutterOf(data), |data|)
  {
  }

  /** The packets from an offset on. */
  ghost function Unframed(at: Cutter, size: nat, offset: nat): seq<Buf>
    requires Advances(at, size)
    decreases size - offset
  {
    match at(offset)
    case End => []
    case Skip(next) => if next <= offset || next > size then [] else Unframed(at, size, next)
    case Take(next, msg) => if next <= offset || next > size then [] else [msg] + Unframed(at, size, next)
  }

  function Filtered(packets: seq<Buf>, valid: Buf -> bool): seq<Buf> {
    if packets == [] then [] else (if valid(packets[0]) then [packets[0]] else []) + Filtered(packets[1..], valid)
  }

  function Kept(packet: Buf, valid: Buf -> bool): seq<Buf> {
    if valid(packet) then [packet] else []
  }

  lemma {:induction false} FilteredConcat(a: seq<Buf>, b: seq<Buf>, valid: Buf -> bool)
    ensures Filtered(a + b, valid) == Filtered(a, valid) + Filtered(b, valid)
  {
    if a == [] {
      assert a + b == b;
    } else {
      var head, rest := Kept(a[0], valid), a[1..];
      FilteredConcat(rest, b, valid);
      assert (a + b)[0] == a[0] && (a + b)[1..] == rest + b;
      assert head + (Filtered(rest, valid) + Filtered(b, valid)) == (head + Filtered(rest, valid)) + Filtered(b, valid);
    }
  }

  lemma {:induction false} FilteredHead(packet: Buf, rest: seq<Buf>, valid: Buf -> bool)
    ensures Filtered([packet] + rest, valid) == Kept(packet, valid) + Filtered(rest, valid)
  {
    assert ([packet] + rest)[1..] == rest;
  }

  lemma {:induction false} FilteredMore(sofar: seq<Buf>, msg: Buf, rest: seq<Buf>, valid: Buf -> bool)
    ensures sofar + Filtered([msg] + rest, valid) == (if valid(msg) then sofar + [msg] else sofar) + Filtered(rest, valid)
  {
    FilteredHead(msg, rest, valid);
  }

  /** The packets in one batch of data. */
  ghost function Packets(data: Buf): seq<Buf> {
    CutterAdvances(data); Unframed(CutterOf(data), |data|, 0)
  }

  /** IncomingData: the loop over the frames of a batch. */
  method IncomingData(data: Buf, valid: Buf -> bool) returns (packets: seq<Buf>)
    ensures packets == Filtered(Packets(data), valid)
  {
    var offset: nat := 0;
    packets := [];
    CutterAdvances(data);
    ghost var at, all := CutterOf(data), Filtered(Packets(data), valid);
    while offset + 8 < |data|
      invariant offset <= |data|
      invariant packets + Filtered(Unframed(at, |data|, offset), valid) == all
      decreases |data| - offset
    {
      ghost var c := at(offset);
      assert c == CutAt(data, offset);
      var length := ReadInt(data, offset);
      if length < 0 || |data| < offset + 8 + length {
        assert c == End && packets + [] == packets;
        return;
      }
      var one, next: nat := ReadInt(data, offset + 4), offset + 8 + length;
      if one != 1 {
        assert c == Skip(next);
        offset := next;
        continue;
      }
      var msg := data[offset + 8..next];
      assert c == Take(next, msg);
      FilteredMore(packets, msg, Unframed(at, |data|, next), valid);
      offset := next;
      if !valid(msg) {
        continue;
      }
      packets := packets + [msg];
    }
    assert at(offset) == End && packets + [] == packets;
  }

  // ----- what comes out of the tunnel -----

  /** A last frame without contents is not seen. */
  function Seen(packets: seq<Buf>): seq<Buf> {
    if packets != [] && packets[|packets| - 1] == [] then packets[..|packets| - 1] else packets
  }

  ghost predicate AreFrames(frames: seq<Buf>, packets: seq<Buf>) {
    |frames| == |packets| && forall i :: 0 <= i < |packets| ==> IsFrame(frames[i], packets[i])
  }

  lemma {:induction false} ReadShift(front: Buf, f: Buf, back: Buf, j: nat)
    requires j + 4 <= |f|
    ensures ReadInt(front + f + back, |front| + j) == ReadInt(f, j)
  {
    var data := front + f + back;
    assert forall i :: 0 <= i < |f| ==> data[|front| + i] == f[i];
  }

  lemma {:induction false} CutFrame(front: Buf, f: Buf, back: Buf, packet: Buf)
    requires IsFrame(f, packet)
    ensures CutAt(front + f + back, |front|) == if packet == [] && back == [] then End else Take(|front + f|, packet)
  {
    var data := front + f + back;
    ReadShift(front, f, back, 0);
    ReadShift(front, f, back, 4);
    assert data[|front| + 8..|front| + 8 + |packet|] == f[8..];
  }

  lemma {:induction false} UnframeOne(at: Cutter, size: nat, offset: nat, next: nat, packet: Buf)
    requires Advances(at, size) && at(offset) == Take(next, packet)
    ensures Unframed(at, size, offset) == [packet] + Unframed(at, size, next)
  {
  }

  lemma {:induction false} JoinedHead(list: seq<Buf>)
    requires list != []
    ensures Joined(list) == list[0] + Joined(list[1..])
  {
    var n := |list| - 1;
    if n == 0 {
      assert list[..0] == [] && list[1..] == [];
    } else {
      var front, tail := list[..n], list[1..];
      JoinedHead(front);
      assert front[1..] == tail[..n - 1];
      Regrouped(list[0], Joined(front[1..]), list[n]);
    }
  }

  lemma {:induction false} Regrouped(a: Buf, b: Buf, c: Buf)
    ensures (a + b) + c == a + (b + c)
  {
  }

  lemma {:induction false} SeenHead(packets: seq<Buf>)
    requires |packets| > 1 || (|packets| == 1 && packets[0] != [])
    ensures Seen(packets) == [packets[0]] + Seen(packets[1..])
  {
    if |packets| > 1 {
      assert packets[1..][|packets| - 2] == packets[|packets| - 1];
    }
  }

  lemma {:induction false} UnframeFrom(data: Buf, front: Buf, frames: seq<Buf>, packets: seq<Buf>)
    requires AreFrames(frames, packets) && data == front + Joined(frames) && Advances(CutterOf(data), |data|)
    ensures Unframed(CutterOf(data), |data|, |front|) == Seen(packets)
    decreases |packets|
  {
    var at := CutterOf(data);
    assert at(|front|) == CutAt(data, |front|);
    if packets != [] {
      var f, p, back := frames[0], packets[0], Joined(frames[1..]);
      JoinedHead(frames);
      assert data == front + f + back;
      assert IsFrame(f, p) && AreFrames(frames[1..], packets[1..]);
      BackPresent(frames[1..], packets[1..]);
      CutFrame(front, f, back, p);
      if p != [] || back != [] {
        UnframeOne(at, |data|, |front|, |front + f|, p);
        UnframeFrom(data, front + f, frames[1..], packets[1..]);
        SeenHead(packets);
      }
    }
  }

  lemma {:induction false} BackPresent(frames: seq<Buf>, packets: seq<Buf>)
    requires AreFrames(frames, packets)
    ensures packets != [] <==> Joined(frames) != []
  {
    if packets != [] {
      assert IsFrame(frames[|frames| - 1], packets[|packets| - 1]);
    }
  }

  lemma {:induction false} SeenFiltered(packets: seq<Buf>, valid: Buf -> bool)
    requires !valid([])
    ensures Filtered(Seen(packets), valid) == Filtered(packets, valid)
  {
    if Seen(packets) != packets {
      var front := packets[..|packets| - 1];
      var tail: seq<Buf> := [[]];
      assert packets == front + tail;
      FilteredConcat(front, tail, valid);
      assert tail[1..] == [] && Filtered(tail, valid) == [];
    }
  }

  /** The exit recovers exactly the valid packets out of frames that are joined in order. */
  lemma {:induction false} UnframeFrames(frames: seq<Buf>, packets: seq<Buf>, valid: Buf -> bool)
    requires AreFrames(frames, packets) && !valid([])
    ensures Filtered(Packets(Joined(frames)), valid) == Filtered(packets, valid)
  {
    var data := Joined(frames);
    assert data == [] + data;
    CutterAdvances(data);
    UnframeFrom(data, [], frames, packets);
    SeenFiltered(packets, valid);
  }

  /** The entry's messages for these packets. */
  function Framed(packets: seq<Buf>): (r: seq<Buf>)
    ensures |r| == |packets| && forall i :: 0 <= i < |packets| ==> r[i] == Frame(packets[i])
  {
    seq(|packets|, i requires 0 <= i < |packets| => Frame(packets[i]))
  }

  /** End to end: a batch that the queue joins out of framed packets comes out of the exit tunnel
      as exactly the valid ones among those packets, in order. */
  lemma {:induction false} BatchUnframes(packets: seq<Buf>, valid: Buf -> bool)
    requires (forall i :: 0 <= i < |packets| ==> |packets[i]| < INT_LIMIT) && !valid([])
    ensures Filtered(Packets(Joined(Framed(packets))), valid) == Filtered(packets, valid)
  {
    var frames := Framed(packets);
    forall i | 0 <= i < |packets| ensures IsFrame(frames[i], packets[i]) {
      FrameIs(packets[i]);
    }
    UnframeFrames(frames, packets, valid);
  }

  /** The packets whose frames can be sent at all. */
  function Sendable(packets: seq<Buf>, max: nat): seq<Buf> {
    if packets == [] then []
    else
      var last := packets[|packets| - 1];
      Sendable(packets[..|packets| - 1], max) + if |last| + 8 <= max then [last] else []
  }

  lemma {:induction false} FramedAppend(packets: seq<Buf>, p: Buf)
    ensures Framed(packets + [p]) == Framed(packets) + [Frame(p)]
  {
  }

  lemma {:induction false} FittingFramed(packets: seq<Buf>, max: nat)
    ensures Fitting(Framed(packets), max) == Framed(Sendable(packets, max))
  {
    if packets != [] {
      var front, last := packets[..|packets| - 1], packets[|packets| - 1];
      FittingFramed(front, max);
      FramedAppend(Sendable(front, max), last);
      assert Framed(packets)[..|packets| - 1] == Framed(front) && Framed(packets)[|packets| - 1] == Frame(last);
    }
  }

  lemma {:induction false} SendableSizes(packets: seq<Buf>, max: nat)
    ensures forall i :: 0 <= i < |Sendable(packets, max)| ==> |Sendable(packets, max)[i]| + 8 <= max
  {
    if packets != [] {
      SendableSizes(packets[..|packets| - 1], max);
    }
  }

  /** Whatever packets make up a batch of the queue, the exit hands over exactly the valid ones
      whose frames fit, in order. */
  lemma {:induction false} TunnelDelivers(packets: seq<Buf>, max: nat, valid: Buf -> bool)
    requires max < INT_LIMIT && !valid([])
    ensures Filtered(Packets(Joined(Fitting(Framed(packets), max))), valid) == Filtered(Sendable(packets, max), valid)
  {
    FittingFramed(packets, max);
    SendableSizes(packets, max);
    BatchUnframes(Sendable(packets, max), valid);
  }

  // ----- whole runs -----

  ghost function Run(calls: seq<Call>): (s: State)
    ensures Inv(s)
  {
    if calls == [] then START
    else
      var before := Run(calls[..|calls| - 1]);
      CallKeepsInv(before, calls[|calls| - 1]);
      After(before, calls[|calls| - 1])
  }

  /** What the exit hands over when it gets these batches. */
  ghost function Handed(batches: seq<Batch>, valid: Buf -> bool): seq<Buf> {
    if batches == [] then []
    else
      var last := batches[|batches| - 1];
      Handed(batches[..|batches| - 1], valid) + Filtered(Packets(last.Data()), valid)
  }

  /** No valid packet has a frame above the maximum. */
  predicate AllFit(packets: seq<Buf>, max: nat, valid: Buf -> bool) {
    forall i :: 0 <= i < |packets| ==> valid(packets[i]) ==> |packets[i]| + 8 <= max
  }

  /** The entry frames a valid packet and is above the maximum. */
  predicate TooLarge(entry: Buf, max: nat, valid: Buf -> bool) {
    |entry| >= 8 && valid(entry[8..]) && |entry| > max
  }

  /** No entry of the batch that frames a valid packet was passed over. */
  ghost predicate NonePassedOver(b: Batch, valid: Buf -> bool) {
    forall i :: 0 <= i < |b.entries| ==> !TooLarge(b.entries[i], b.max, valid)
  }

  ghost predicate NoneTooLarge(batches: seq<Batch>, valid: Buf -> bool) {
    batches == [] || (NoneTooLarge(batches[..|batches| - 1], valid) && NonePassedOver(batches[|batches| - 1], valid))
  }

  lemma {:induction false} FramedFit(b: Batch, packets: seq<Buf>, valid: Buf -> bool)
    requires b.entries == Framed(packets)
    ensures NonePassedOver(b, valid) <==> AllFit(packets, b.max, valid)
  {
    forall i | 0 <= i < |packets| ensures b.entries[i][8..] == packets[i] && |b.entries[i]| == 8 + |packets[i]| {
      assert b.entries[i] == Frame(packets[i]);
    }
  }

  lemma {:induction false} FilteredLast(packets: seq<Buf>, last: Buf, valid: Buf -> bool)
    ensures Filtered(packets + [last], valid) == Filtered(packets, valid) + Kept(last, valid)
  {
    FilteredConcat(packets, [last], valid);
    assert [last][1..] == [];
  }

  lemma {:induction false} AllFitLast(packets: seq<Buf>, last: Buf, max: nat, valid: Buf -> bool)
    ensures AllFit(packets + [last], max, valid) <==> AllFit(packets, max, valid) && (valid(last) ==> |last| + 8 <= max)
  {
    if AllFit(packets + [last], max, valid) {
      assert (packets + [last])[|packets|] == last;
      forall i | 0 <= i < |packets| ensures valid(packets[i]) ==> |packets[i]| + 8 <= max {
        assert (packets + [last])[i] == packets[i];
      }
    }
  }

  lemma {:induction false} SendableLoss(packets: seq<Buf>, max: nat, valid: Buf -> bool)
    ensures |Filtered(Sendable(packets, max), valid)| <= |Filtered(packets, valid)|
    ensures |Filtered(Sendable(packets, max), valid)| == |Filtered(packets, valid)| <==> AllFit(packets, max, valid)
    ensures AllFit(packets, max, valid) ==> Filtered(Sendable(packets, max), valid) == Filtered(packets, valid)
  {
    if packets != [] {
      var n := |packets| - 1;
      var front, last := packets[..n], packets[n];
      SendableLoss(front, max, valid);
      assert packets == front + [last];
      FilteredLast(front, last, valid);
      FilteredLast(Sendable(front, max), last, valid);
      assert Sendable(packets, max) == if |last| + 8 <= max then Sendable(front, max) + [last] else Sendable(front, max);
      AllFitLast(front, last, max, valid);
    }
  }

  lemma {:induction false} FramedSplit(packets: seq<Buf>, a: seq<Buf>, b: seq<Buf>)
    requires a + b == Framed(packets)
    ensures |a| <= |packets| && a == Framed(packets[..|a|]) && b == Framed(packets[|a|..])
  {
    forall i | 0 <= i < |b| ensures b[i] == Framed(packets[|a|..])[i] {
      assert b[i] == (a + b)[|a| + i];
    }
    forall i | 0 <= i < |a| ensures a[i] == Framed(packets[..|a|])[i] {
      assert a[i] == (a + b)[i];
    }
  }

  ghost predicate SmallBatches(batches: seq<Batch>) {
    forall j :: 0 <= j < |batches| ==> batches[j].max < INT_LIMIT
  }

  /** No more comes out than went in, and as much only if it is the same. */
  ghost predicate LosesOnly(out: seq<Buf>, wanted: seq<Buf>, nothing: bool) {
    |out| <= |wanted| && (|out| == |wanted| <==> nothing) && (nothing ==> out == wanted)
  }

  lemma {:induction false} LosesConcat(out: seq<Buf>, wanted: seq<Buf>, nothing: bool, out': seq<Buf>, wanted': seq<Buf>, nothing': bool)
    requires LosesOnly(out, wanted, nothing) && LosesOnly(out', wanted', nothing')
    ensures LosesOnly(out + out', wanted + wanted', nothing && nothing')
  {
  }

  lemma {:induction false} BatchLoses(b: Batch, packets: seq<Buf>, valid: Buf -> bool)
    requires b.entries == Framed(packets) && !valid([]) && b.max < INT_LIMIT
    ensures LosesOnly(Filtered(Packets(b.Data()), valid), Filtered(packets, valid), NonePassedOver(b, valid))
  {
    TunnelDelivers(packets, b.max, valid);
    SendableLoss(packets, b.max, valid);
    FramedFit(b, packets, valid);
  }

  function Content(entry: Buf): Buf {
    if |entry| >= 8 then entry[8..] else []
  }

  /** The packets in these frames. */
  function Contents(entries: seq<Buf>): (r: seq<Buf>)
    ensures |r| == |entries| && forall i :: 0 <= i < |r| ==> r[i] == Content(entries[i])
  {
    seq(|entries|, i requires 0 <= i < |entries| => Content(entries[i]))
  }

  ghost predicate AllFrames(entries: seq<Buf>) {
    forall i :: 0 <= i < |entries| ==> entries[i] == Frame(Content(entries[i]))
  }

  lemma {:induction false} FramedContents(packets: seq<Buf>)
    ensures AllFrames(Framed(packets)) && Contents(Framed(packets)) == packets
  {
    forall i | 0 <= i < |packets| ensures Content(Framed(packets)[i]) == packets[i] {
      assert Frame(packets[i])[8..] == packets[i];
    }
  }

  lemma {:induction false} ContentsFramed(entries: seq<Buf>)
    requires AllFrames(entries)
    ensures entries == Framed(Contents(entries))
  {
  }

  lemma {:induction false} ContentsConcat(a: seq<Buf>, b: seq<Buf>)
    ensures Contents(a + b) == Contents(a) + Contents(b)
    ensures AllFrames(a + b) ==> AllFrames(a) && AllFrames(b)
  {
    if AllFrames(a + b) {
      forall i | 0 <= i < |a| ensures a[i] == Frame(Content(a[i])) {
        assert (a + b)[i] == a[i];
      }
      forall i | 0 <= i < |b| ensures b[i] == Frame(Content(b[i])) {
        assert (a + b)[|a| + i] == b[i];
      }
    }
  }

  lemma {:induction false} BatchesRecover(batches: seq<Batch>, valid: Buf -> bool)
    requires AllFrames(Entries(batches)) && !valid([]) && SmallBatches(batches)
    ensures |Handed(batches, valid)| <= |Filtered(Contents(Entries(batches)), valid)|
    ensures |Handed(batches, valid)| == |Filtered(Contents(Entries(batches)), valid)| <==> NoneTooLarge(batches, valid)
    ensures NoneTooLarge(batches, valid) ==> Handed(batches, valid) == Filtered(Contents(Entries(batches)), valid)
  {
    if batches == [] {
      assert Contents([]) == [];
    } else {
      var front, b := batches[..|batches| - 1], batches[|batches| - 1];
      ContentsConcat(Entries(front), b.entries);
      BatchesRecover(front, valid);
      ContentsFramed(b.entries);
      BatchLoses(b, Contents(b.entries), valid);
      FilteredConcat(Contents(Entries(front)), Contents(b.entries), valid);
      LosesConcat(Handed(front, valid), Filtered(Contents(Entries(front)), valid), NoneTooLarge(front, valid),
                  Filtered(Packets(b.Data()), valid), Filtered(Contents(b.entries), valid), NonePassedOver(b, valid));
    }
  }

  lemma {:induction false} RunSmall(calls: seq<Call>)
    requires forall i :: 0 <= i < |calls| && calls[i].Getting? ==> calls[i].max < INT_LIMIT
    ensures SmallBatches(Run(calls).Retained())
  {
    if calls != [] {
      var n := |calls| - 1;
      RunSmall(calls[..n]);
      var before, s := Run(calls[..n]), Run(calls);
      assert s == After(before, calls[n]);
      assert s.Retained() == if calls[n].Getting? then before.Retained() + [s.last] else before.final + [s.last];
      assert forall j :: 0 <= j < |before.final| ==> before.final[j] == before.Retained()[j];
      assert before.last == before.Retained()[|before.final|];
    }
  }

  /** End to end, over every interleaving of adding, getting and taking back, with any maxima: the
      retained batches and the queue behind them hold what was added, each entry once and in order;
      and the exit hands over exactly the valid packets of the retained batches if and only if each
      fits the maximum its batch was asked for with. */
  lemma {:induction false} RunDelivers(calls: seq<Call>, packets: seq<Buf>, valid: Buf -> bool)
    requires Run(calls).added == Framed(packets) && !valid([])
    requires forall i :: 0 <= i < |calls| && calls[i].Getting? ==> calls[i].max < INT_LIMIT
    ensures var s := Run(calls);
            var batches := s.Retained();
            var n := |Entries(batches)|;
            && n <= |packets| && s.queue[s.trim..] == Framed(packets[n..])
            && (Handed(batches, valid) == Filtered(packets[..n], valid) <==> NoneTooLarge(batches, valid))
  {
    var s := Run(calls);
    var batches := s.Retained();
    RetainedThenQueued(s);
    FramedSplit(packets, Entries(batches), s.queue[s.trim..]);
    RunSmall(calls);
    FramedContents(packets[..|Entries(batches)|]);
    BatchesRecover(batches, valid);
  }

  lemma {:induction false} OversizedRun(f: Buf, max: nat)
    requires |f| > max
    ensures Run([Adding(f), Getting(max)]) == State([f], 1, [f], [NOTHING], Batch([f], max))
  {
    var calls: seq<Call>, first: seq<Call>, one: seq<Buf> := [Adding(f), Getting(max)], [Adding(f)], [f];
    assert calls[..1] == first && first[..0] == [];
    assert Run(first) == State(one, 0, one, [], NOTHING);
    assert one[0..] == one && one[1..] == [] && one[..1] == one;
    assert Used(one, max, 0) == 1 + Used([], max, 0) == 1;
  }

  /** For one: a valid packet whose frame is above the maximum leaves the queue and does not come
      out of the exit. */
  lemma {:induction false} OversizedLost(p: Buf, max: nat, valid: Buf -> bool)
    requires valid(p) && !valid([]) && |p| + 8 > max && max < INT_LIMIT
    ensures var s := Run([Adding(Frame(p)), Getting(max)]);
            && s.added == Framed([p]) && s.queue[s.trim..] == []
            && !NoneTooLarge(s.Retained(), valid) && Handed(s.Retained(), valid) != Filtered([p], valid)
  {
    var f, calls := Frame(p), [Adding(Frame(p)), Getting(max)];
    OversizedRun(f, max);
    var last := Batch([f], max);
    assert Framed([p]) == [f];
    RunDelivers(calls, [p], valid);
    LargeLast([NOTHING], last, valid);
    assert TooLarge(last.entries[0], max, valid) by {
      assert f[8..] == p;
    }
    EntriesAppend([NOTHING], last);
    EntriesAppend([], NOTHING);
    assert [] + [NOTHING] == [NOTHING] && [p][..1] == [p];
  }

  lemma {:induction false} LargeLast(front: seq<Batch>, b: Batch, valid: Buf -> bool)
    ensures NoneTooLarge(front + [b], valid) ==> NonePassedOver(b, valid)
  {
    assert (front + [b])[..|front|] == front;
  }
}
