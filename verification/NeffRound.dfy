/** NeffShuffleRound on a server: shuffle transcripts arrive in any order and are verified in
    batches, each the longest run of consecutive transcripts at hand. */
module NeffRound {
  import opened NeffSpec
  import opened Dsa

  /** What the round is configured with: how a transcript is verified, how a pair is finished,
      and the servers' keys in roster order. */
  datatype Config = Config(verify: (seq<Pair>, seq<nat>, Transcript) -> Option<seq<Pair>>,
                           finish: Pair -> Option<Bytes>, keys: seq<nat>)
  {
    function N(): nat { |keys| }
  }

  datatype State = State(proofs: map<nat, Transcript>, next: nat, end: nat, newEnd: nat,
                         input: seq<Pair>, keys: seq<nat>, cleartext: seq<Option<Bytes>>)

  /** NeffShuffle::Verify leaves its output argument alone when it fails. */
  function VerifyOne(C: Config, input: seq<Pair>, keys: seq<nat>, tr: Transcript, output: seq<Pair>): seq<Pair> {
    match C.verify(input, keys, tr)
    case Some(decrypted) => decrypted
    case None => output
  }

  /** The loop of VerifyShuffles::run over count transcripts: the last output, which is also the
      next input when count > 0. */
  function RunBatch(C: Config, proofs: map<nat, Transcript>, from: nat, upto: nat, input: seq<Pair>, output: seq<Pair>): seq<Pair>
    requires from <= upto <= C.N() && forall i :: from <= i < upto ==> i in proofs
    decreases upto - from
  {
    if from == upto then output
    else
      var o := VerifyOne(C, input, C.keys[from..], proofs[from], output);
      RunBatch(C, proofs, from + 1, upto, o, o)
  }

  /** The first index at or after i without a transcript. */
  function FirstMissing(proofs: map<nat, Transcript>, i: nat, n: nat): (r: nat)
    requires i <= n
    ensures i <= r <= n && (forall j :: i <= j < r ==> j in proofs) && (r < n ==> r !in proofs)
    decreases n - i
  {
    if i < n && i in proofs then FirstMissing(proofs, i + 1, n) else i
  }

  function Finish(C: Config, output: seq<Pair>): seq<Option<Bytes>> {
    seq(|output|, i requires 0 <= i < |output| => C.finish(output[i]))
  }

  ghost predicate Valid(C: Config, s: State) {
    && s.next <= s.end <= s.newEnd <= C.N()
    && (forall i :: 0 <= i < s.newEnd ==> i in s.proofs)
    && s.keys == C.keys[s.next..]
  }

  function Start(C: Config): State {
    State(map[], 0, 0, 0, [], C.keys, [])
  }

  /** One verification batch. */
  function AfterBatch(C: Config, s: State): State
    requires Valid(C, s) && s.next < s.end
  {
    var output := RunBatch(C, s.proofs, s.next, s.end, s.input, []);
    s.(input := output, keys := C.keys[s.end..], next := s.end,
       cleartext := if s.end == C.N() then Finish(C, output) else s.cleartext)
  }

  /** No batch is under way. */
  ghost predicate Idle(C: Config, s: State) {
    Valid(C, s) && s.next == s.end == s.newEnd
  }

  /** HandleShuffle, with the verification it starts as one atomic step. */
  function Handle(C: Config, s: State, from: nat, initial: seq<Pair>, tr: Transcript): (r: State)
    requires Idle(C, s)
    ensures Idle(C, r)
  {
    if from >= C.N() || from in s.proofs then s
    else
      var s1 := s.(proofs := s.proofs[from := tr], input := if from == 0 then initial else s.input);
      if from != s.newEnd then s1
      else
        var index := FirstMissing(s1.proofs, from, C.N());
        AfterBatch(C, s1.(newEnd := index, end := index))
  }

  /** The loop that looks for the end of the contiguous transcripts. */
  method Contiguous(C: Config, proofs: map<nat, Transcript>, from: nat) returns (index: nat)
    requires from <= C.N()
    ensures index == FirstMissing(proofs, from, C.N())
  {
    index := from;
    while index < C.N() && index in proofs
      invariant from <= index <= C.N()
      invariant FirstMissing(proofs, index, C.N()) == FirstMissing(proofs, from, C.N())
    {
      index := index + 1;
    }
  }

  class ShuffleServer {
    const C: Config
    const myIndex: nat
    var proofs: map<nat, Transcript>
    var next: nat
    var end: nat
    var newEnd: nat
    var input: seq<Pair>
    var keys: seq<nat>
    var cleartext: seq<Option<Bytes>>

    ghost function View(): State
      reads this
    {
      State(proofs, next, end, newEnd, input, keys, cleartext)
    }

    constructor (C: Config, myIndex: nat)
      ensures View() == Start(C) && this.C == C && this.myIndex == myIndex
    {
      this.C, this.myIndex := C, myIndex;
      proofs, next, end, newEnd, input, keys, cleartext := map[], 0, 0, 0, [], C.keys, [];
    }

    /** VerifyShuffles::run. */
    method VerifyShuffles()
      requires Valid(C, View()) && next < end
      modifies this
      ensures View() == AfterBatch(C, old(View()))
    {
      var remaining, current, output := keys, input, [];
      var idx := next;
      while idx < end
        invariant next <= idx <= end && View() == old(View())
        invariant remaining == C.keys[idx..]
        invariant idx > next ==> current == output
        invariant idx == next ==> current == input && output == []
        invariant RunBatch(C, proofs, idx, end, current, output) == RunBatch(C, proofs, next, end, input, [])
      {
        match C.verify(current, remaining, proofs[idx]) {
          case Some(decrypted) => output := decrypted;
          case None =>
        }
        current := output;
        remaining := remaining[1..];
        idx := idx + 1;
      }
      keys, input, next := remaining, current, end;
      if end == C.N() {
        cleartext := [];
        var done := [];
        for i := 0 to |output|
          invariant |done| == i && forall j :: 0 <= j < i ==> done[j] == C.finish(output[j])
        {
          done := done + [C.finish(output[i])];
        }
        cleartext := done;
      }
    }

    /** HandleShuffle and VerifyShufflesDone; complete says whether the state machine moves on. */
    method HandleShuffle(from: nat, initial: seq<Pair>, tr: Transcript) returns (accepted: bool, complete: bool)
      requires Idle(C, View())
      modifies this
      ensures accepted <==> from < C.N() && from !in old(proofs)
      ensures View() == Handle(C, old(View()), from, initial, tr)
      ensures complete <==> next > old(next) && (end == myIndex || end == C.N())
    {
      if from >= C.N() || from in proofs {
        return false, false;
      }
      if from == 0 {
        input := initial;
      }
      proofs := proofs[from := tr];
      accepted, complete := true, false;
      if from == newEnd {
        var index := Contiguous(C, proofs, from);
        var increment := index - from;
        newEnd := newEnd + increment;
        end := end + increment;
        assert Valid(C, View());
        ghost var ready := View();
        VerifyShuffles();
        assert View() == AfterBatch(C, ready) == Handle(C, old(View()), from, initial, tr);
        complete := end == myIndex || end == C.N();
      }
    }
  }

  // ----- verifying together and apart -----

  /** The result of the first m transcripts in one batch: a failure keeps the previous output. */
  function Together(C: Config, initial: seq<Pair>, trs: seq<Transcript>, m: nat): seq<Pair>
    requires m <= |trs| == C.N()
  {
    if m == 0 then initial
    else
      var before := Together(C, initial, trs, m - 1);
      VerifyOne(C, before, C.keys[m - 1..], trs[m - 1], if m == 1 then [] else before)
  }

  /** The result of the first m transcripts, each in a batch of its own: a failure leaves nothing. */
  function Apart(C: Config, initial: seq<Pair>, trs: seq<Transcript>, m: nat): seq<Pair>
    requires m <= |trs| == C.N()
  {
    if m == 0 then initial else VerifyOne(C, Apart(C, initial, trs, m - 1), C.keys[m - 1..], trs[m - 1], [])
  }

  /** These transcripts are at hand from i up to m. */
  ghost predicate Holds(proofs: map<nat, Transcript>, trs: seq<Transcript>, i: nat, m: nat) {
    m <= |trs| && forall j :: i <= j < m ==> j in proofs && proofs[j] == trs[j]
  }

  /** Verifying a batch is Together: the loop and the recursion from the other end agree. */
  lemma {:induction false} BatchIsTogether(C: Config, initial: seq<Pair>, trs: seq<Transcript>, proofs: map<nat, Transcript>, i: nat, m: nat)
    requires 0 < i <= m <= |trs| == C.N() && Holds(proofs, trs, i, m)
    ensures RunBatch(C, proofs, i, m, Together(C, initial, trs, i), Together(C, initial, trs, i)) == Together(C, initial, trs, m)
    decreases m - i
  {
    if i < m {
      BatchIsTogether(C, initial, trs, proofs, i + 1, m);
    }
  }

  lemma {:induction false} WholeBatch(C: Config, initial: seq<Pair>, trs: seq<Transcript>, proofs: map<nat, Transcript>, m: nat)
    requires 0 < m <= |trs| == C.N() && Holds(proofs, trs, 0, m)
    ensures RunBatch(C, proofs, 0, m, initial, []) == Together(C, initial, trs, m)
  {
    BatchIsTogether(C, initial, trs, proofs, 1, m);
    assert Together(C, initial, trs, 0) == initial;
  }

  /** The i-th transcript does not reveal where a batch began. */
  ghost predicate Insensitive(C: Config, initial: seq<Pair>, trs: seq<Transcript>, i: nat)
    requires i < |trs| == C.N()
  {
    var before := Together(C, initial, trs, i);
    C.verify(before, C.keys[i..], trs[i]).Some? || before == []
  }

  ghost predicate AllInsensitive(C: Config, initial: seq<Pair>, trs: seq<Transcript>)
    requires |trs| == C.N()
  {
    forall i :: 0 < i < |trs| ==> Insensitive(C, initial, trs, i)
  }

  ghost predicate Agree(C: Config, initial: seq<Pair>, trs: seq<Transcript>, m: nat)
    requires m <= |trs| == C.N()
  {
    forall j :: 0 <= j <= m ==> Together(C, initial, trs, j) == Apart(C, initial, trs, j)
  }

  /** Batching is invisible, at every point, exactly when each transcript after the first verifies
      or follows an empty output. */
  lemma {:induction false} BatchingInvisibleIff(C: Config, initial: seq<Pair>, trs: seq<Transcript>, m: nat)
    requires 0 < m <= |trs| == C.N()
    ensures Agree(C, initial, trs, m) <==> (forall i :: 0 < i < m ==> Insensitive(C, initial, trs, i))
  {
    if m == 1 {
      assert Together(C, initial, trs, 0) == Apart(C, initial, trs, 0);
      assert Together(C, initial, trs, 1) == Apart(C, initial, trs, 1);
    } else {
      BatchingInvisibleIff(C, initial, trs, m - 1);
      AgreeStep(C, initial, trs, m);
    }
  }

  lemma {:induction false} AgreeStep(C: Config, initial: seq<Pair>, trs: seq<Transcript>, m: nat)
    requires 1 < m <= |trs| == C.N()
    ensures Agree(C, initial, trs, m) <==> Agree(C, initial, trs, m - 1) && Insensitive(C, initial, trs, m - 1)
  {
    if Agree(C, initial, trs, m - 1) {
      assert Together(C, initial, trs, m - 1) == Apart(C, initial, trs, m - 1);
      assert Together(C, initial, trs, m) == Apart(C, initial, trs, m) <==> Insensitive(C, initial, trs, m - 1);
    }
  }

  /** A batch that begins anywhere does what one batch from the start would have done. */
  lemma {:induction false} BatchContinues(C: Config, initial: seq<Pair>, trs: seq<Transcript>, proofs: map<nat, Transcript>, i: nat, m: nat)
    requires i < m <= |trs| == C.N() && Holds(proofs, trs, i, m) && AllInsensitive(C, initial, trs)
    ensures RunBatch(C, proofs, i, m, Together(C, initial, trs, i), []) == Together(C, initial, trs, m)
  {
    if i == 0 {
      WholeBatch(C, initial, trs, proofs, m);
    } else {
      assert Insensitive(C, initial, trs, i);
      BatchIsTogether(C, initial, trs, proofs, i + 1, m);
    }
  }

  // ----- arrivals -----

  /** The transcript that arrives from a server; one from outside the roster is ignored. */
  function Sent(trs: seq<Transcript>, from: nat): Transcript
    requires |trs| > 0
  {
    if from < |trs| then trs[from] else trs[0]
  }

  /** The states a server goes through as transcripts arrive in the given order. */
  function Arrivals(C: Config, s: State, initial: seq<Pair>, trs: seq<Transcript>, order: seq<nat>): (r: State)
    requires Idle(C, s) && |trs| > 0
    ensures Idle(C, r)
    decreases |order|
  {
    if order == [] then s
    else
      var from := order[0];
      Arrivals(C, Handle(C, s, from, initial, Sent(trs, from)), initial, trs, order[1..])
  }

  ghost predicate Covers(order: seq<nat>, n: nat) {
    forall i :: 0 <= i < n ==> i in order
  }

  ghost predicate Inv(C: Config, initial: seq<Pair>, trs: seq<Transcript>, s: State)
    requires |trs| == C.N()
  {
    && Idle(C, s)
    && (forall i :: i in s.proofs ==> i < |trs| && s.proofs[i] == trs[i])
    && (s.newEnd < C.N() ==> s.newEnd !in s.proofs)
    && (0 in s.proofs ==> s.input == Together(C, initial, trs, s.newEnd))
    && s.cleartext == if 0 < s.newEnd == C.N() then Finish(C, Together(C, initial, trs, C.N())) else []
  }

  lemma {:induction false} BatchKeepsInv(C: Config, initial: seq<Pair>, trs: seq<Transcript>, s: State, from: nat)
    requires 0 < |trs| == C.N() && AllInsensitive(C, initial, trs) && Inv(C, initial, trs, s)
    requires from < C.N() && from !in s.proofs && from == s.newEnd
    ensures Inv(C, initial, trs, Handle(C, s, from, initial, trs[from]))
  {
    var proofs, input := s.proofs[from := trs[from]], if from == 0 then initial else s.input;
    var index := FirstMissing(proofs, from, C.N());
    assert index > from;
    assert input == Together(C, initial, trs, from);
    assert Holds(proofs, trs, from, index);
    BatchContinues(C, initial, trs, proofs, from, index);
    assert forall i :: i in proofs ==> i < |trs| && proofs[i] == trs[i];
  }

  lemma {:induction false} HandleKeepsInv(C: Config, initial: seq<Pair>, trs: seq<Transcript>, s: State, from: nat)
    requires 0 < |trs| == C.N() && AllInsensitive(C, initial, trs) && Inv(C, initial, trs, s)
    ensures Inv(C, initial, trs, Handle(C, s, from, initial, Sent(trs, from)))
    ensures Handle(C, s, from, initial, Sent(trs, from)).proofs.Keys == s.proofs.Keys + (if from < |trs| then {from} else {})
  {
    KeysGrow(C, initial, trs, s, from);
    if from < C.N() && from !in s.proofs {
      if from == s.newEnd {
        BatchKeepsInv(C, initial, trs, s, from);
      } else {
        WaitingKeepsInv(C, initial, trs, s, from);
      }
    }
  }

  lemma {:induction false} WaitingKeepsInv(C: Config, initial: seq<Pair>, trs: seq<Transcript>, s: State, from: nat)
    requires 0 < |trs| == C.N() && Inv(C, initial, trs, s)
    requires from < C.N() && from !in s.proofs && from != s.newEnd
    ensures Inv(C, initial, trs, Handle(C, s, from, initial, trs[from]))
  {
    var r := Handle(C, s, from, initial, trs[from]);
    assert r.proofs == s.proofs[from := trs[from]];
    assert from == 0 ==> s.newEnd == 0;
  }

  lemma {:induction false} KeysGrow(C: Config, initial: seq<Pair>, trs: seq<Transcript>, s: State, from: nat)
    requires 0 < |trs| == C.N() && Idle(C, s)
    ensures Handle(C, s, from, initial, Sent(trs, from)).proofs.Keys == s.proofs.Keys + (if from < |trs| then {from} else {})
  {
  }

  lemma {:induction false} ArrivalsKeepInv(C: Config, initial: seq<Pair>, trs: seq<Transcript>, s: State, order: seq<nat>)
    requires 0 < |trs| == C.N() && AllInsensitive(C, initial, trs) && Inv(C, initial, trs, s)
    ensures Inv(C, initial, trs, Arrivals(C, s, initial, trs, order))
    decreases |order|
  {
    if order != [] {
      HandleKeepsInv(C, initial, trs, s, order[0]);
      ArrivalsKeepInv(C, initial, trs, Handle(C, s, order[0], initial, Sent(trs, order[0])), order[1..]);
    }
  }

  lemma {:induction false} ArrivalsCover(C: Config, initial: seq<Pair>, trs: seq<Transcript>, s: State, order: seq<nat>, i: nat)
    requires 0 < |trs| == C.N() && Idle(C, s) && i < |trs| && (i in order || i in s.proofs)
    ensures i in Arrivals(C, s, initial, trs, order).proofs
    decreases |order|
  {
    if order != [] {
      KeysGrow(C, initial, trs, s, order[0]);
      assert order == [order[0]] + order[1..];
      ArrivalsCover(C, initial, trs, Handle(C, s, order[0], initial, Sent(trs, order[0])), order[1..], i);
    }
  }

  /** What a server ends up with. */
  datatype Ending = Ending(next: nat, input: seq<Pair>, keys: seq<nat>, cleartext: seq<Option<Bytes>>)

  function EndingOf(C: Config, initial: seq<Pair>, trs: seq<Transcript>, order: seq<nat>): Ending
    requires |trs| > 0
  {
    assert C.keys[0..] == C.keys;
    var s := Arrivals(C, Start(C), initial, trs, order);
    Ending(s.next, s.input, s.keys, s.cleartext)
  }

  function EndingWith(C: Config, result: seq<Pair>): Ending {
    Ending(C.N(), result, [], Finish(C, result))
  }

  /** If no transcript is sensitive, every order of arrival ends as one batch would. */
  lemma {:induction false} EndsTogether(C: Config, initial: seq<Pair>, trs: seq<Transcript>, order: seq<nat>)
    requires 0 < |trs| == C.N() && AllInsensitive(C, initial, trs) && Covers(order, |trs|)
    ensures EndingOf(C, initial, trs, order) == EndingWith(C, Together(C, initial, trs, C.N()))
  {
    var start := Start(C);
    assert C.keys[0..] == C.keys;
    ArrivalsKeepInv(C, initial, trs, start, order);
    var s := Arrivals(C, start, initial, trs, order);
    ArrivalsCover(C, initial, trs, start, order, 0);
    if s.newEnd < C.N() {
      ArrivalsCover(C, initial, trs, start, order, s.newEnd);
    }
  }

  lemma {:induction false} ArrivalsAppend(C: Config, s: State, initial: seq<Pair>, trs: seq<Transcript>, order: seq<nat>, from: nat)
    requires Idle(C, s) && from < |trs|
    ensures Arrivals(C, s, initial, trs, order + [from])
            == Handle(C, Arrivals(C, s, initial, trs, order), from, initial, trs[from])
    decreases |order|
  {
    if order == [] {
      assert order + [from] == [from] && [from][1..] == [];
    } else {
      var first := order[0];
      ArrivalsAppend(C, Handle(C, s, first, initial, Sent(trs, first)), initial, trs, order[1..], from);
      assert (order + [from])[1..] == order[1..] + [from];
    }
  }

  // ----- the two extreme orders -----

  function Up(k: nat): (r: seq<nat>)
    ensures |r| == k && forall i :: 0 <= i < k ==> r[i] == i
  {
    seq(k, i => i)
  }

  function Down(n: nat, k: nat): (r: seq<nat>)
    requires k <= n
    ensures |r| == k && forall i :: 0 <= i < k ==> r[i] == n - 1 - i
  {
    seq(k, i requires 0 <= i < k => n - 1 - i)
  }

  /** After k transcripts in server order, each was verified on its own. */
  ghost predicate Upward(C: Config, initial: seq<Pair>, trs: seq<Transcript>, s: State, k: nat)
    requires k <= |trs| == C.N()
  {
    && Idle(C, s) && s.next == k
    && (forall i :: i in s.proofs <==> 0 <= i < k) && Holds(s.proofs, trs, 0, k)
    && (k > 0 ==> s.input == Apart(C, initial, trs, k))
    && (0 < k == C.N() ==> s.cleartext == Finish(C, Apart(C, initial, trs, k)))
  }

  lemma {:induction false} UpStep(C: Config, initial: seq<Pair>, trs: seq<Transcript>, s: State, k: nat)
    requires k < |trs| == C.N() && Upward(C, initial, trs, s, k)
    ensures Upward(C, initial, trs, Handle(C, s, k, initial, trs[k]), k + 1)
  {
    var proofs, input := s.proofs[k := trs[k]], if k == 0 then initial else s.input;
    assert FirstMissing(proofs, k, C.N()) == k + 1 by {
      assert k + 1 !in proofs;
      assert FirstMissing(proofs, k + 1, C.N()) == k + 1;
    }
    var o := VerifyOne(C, input, C.keys[k..], trs[k], []);
    assert RunBatch(C, proofs, k + 1, k + 1, o, o) == o;
    assert RunBatch(C, proofs, k, k + 1, input, []) == o;
    assert Apart(C, initial, trs, k) == input;
  }

  lemma {:induction false} UpEnds(C: Config, initial: seq<Pair>, trs: seq<Transcript>, k: nat)
    requires 0 < |trs| == C.N() && k <= |trs|
    ensures Idle(C, Start(C)) && Upward(C, initial, trs, Arrivals(C, Start(C), initial, trs, Up(k)), k)
  {
    assert C.keys[0..] == C.keys;
    if k > 0 {
      UpEnds(C, initial, trs, k - 1);
      assert Up(k) == Up(k - 1) + [k - 1];
      ArrivalsAppend(C, Start(C), initial, trs, Up(k - 1), k - 1);
      UpStep(C, initial, trs, Arrivals(C, Start(C), initial, trs, Up(k - 1)), k - 1);
    }
  }

  /** After the last k transcripts but not the first, nothing has been verified. */
  ghost predicate Downward(C: Config, trs: seq<Transcript>, s: State, k: nat)
    requires k < |trs| == C.N()
  {
    s == Start(C).(proofs := s.proofs) && (forall i :: i in s.proofs <==> |trs| - k <= i < |trs|) && Holds(s.proofs, trs, |trs| - k, |trs|)
  }

  lemma {:induction false} DownEnds(C: Config, initial: seq<Pair>, trs: seq<Transcript>, k: nat)
    requires 0 < |trs| == C.N() && k < |trs|
    ensures Idle(C, Start(C)) && Downward(C, trs, Arrivals(C, Start(C), initial, trs, Down(|trs|, k)), k)
  {
    assert C.keys[0..] == C.keys;
    if k > 0 {
      var n := |trs|;
      DownEnds(C, initial, trs, k - 1);
      assert Down(n, k) == Down(n, k - 1) + [n - k];
      ArrivalsAppend(C, Start(C), initial, trs, Down(n, k - 1), n - k);
      DownStep(C, initial, trs, Arrivals(C, Start(C), initial, trs, Down(n, k - 1)), k);
    }
  }

  lemma {:induction false} DownStep(C: Config, initial: seq<Pair>, trs: seq<Transcript>, s: State, k: nat)
    requires 0 < k < |trs| == C.N() && Idle(C, s) && Downward(C, trs, s, k - 1)
    ensures Downward(C, trs, Handle(C, s, |trs| - k, initial, trs[|trs| - k]), k)
  {
    assert Handle(C, s, |trs| - k, initial, trs[|trs| - k]).proofs == s.proofs[|trs| - k := trs[|trs| - k]];
  }

  /** In server order every transcript is a batch of its own; in the opposite order there is one
      batch. */
  lemma {:induction false} ExtremeOrders(C: Config, initial: seq<Pair>, trs: seq<Transcript>)
    requires 0 < |trs| == C.N()
    ensures EndingOf(C, initial, trs, Up(|trs|)) == EndingWith(C, Apart(C, initial, trs, |trs|))
    ensures EndingOf(C, initial, trs, Down(|trs|, |trs|)) == EndingWith(C, Together(C, initial, trs, |trs|))
  {
    var n := |trs|;
    UpEnds(C, initial, trs, n);
    DownEnds(C, initial, trs, n - 1);
    var s := Arrivals(C, Start(C), initial, trs, Down(n, n - 1));
    assert Down(n, n) == Down(n, n - 1) + [0];
    ArrivalsAppend(C, Start(C), initial, trs, Down(n, n - 1), 0);
    LastArrival(C, initial, trs, s);
  }

  lemma {:induction false} LastArrival(C: Config, initial: seq<Pair>, trs: seq<Transcript>, s: State)
    requires 0 < |trs| == C.N() && Idle(C, s) && Downward(C, trs, s, |trs| - 1)
    ensures var s' := Handle(C, s, 0, initial, trs[0]);
            Ending(s'.next, s'.input, s'.keys, s'.cleartext) == EndingWith(C, Together(C, initial, trs, |trs|))
  {
    var proofs := s.proofs[0 := trs[0]];
    assert FirstMissing(proofs, 0, C.N()) == C.N();
    assert Holds(proofs, trs, 0, |trs|);
    WholeBatch(C, initial, trs, proofs, |trs|);
  }

  // ----- when the order of arrival does not matter -----

  /** Nothing verifies from nothing, and nothing verifies to nothing. */
  ghost predicate Substantial(C: Config) {
    forall input, keys, tr :: (input == [] ==> C.verify(input, keys, tr) == None) && C.verify(input, keys, tr) != Some([])
  }

  /** Once the outputs differ in that one is empty, they go on doing so. */
  lemma {:induction false} StayApart(C: Config, initial: seq<Pair>, trs: seq<Transcript>, i: nat, m: nat)
    requires Substantial(C) && 0 < i <= m <= |trs| == C.N()
    requires Apart(C, initial, trs, i) == [] && Together(C, initial, trs, i) != []
    ensures Apart(C, initial, trs, m) == [] && Together(C, initial, trs, m) != []
  {
    if i < m {
      StayApart(C, initial, trs, i, m - 1);
    }
  }

  lemma {:induction false} FirstSensitive(C: Config, initial: seq<Pair>, trs: seq<Transcript>, m: nat) returns (i: nat)
    requires m <= |trs| == C.N() && exists j :: 0 < j < m && !Insensitive(C, initial, trs, j)
    ensures 0 < i < m && !Insensitive(C, initial, trs, i) && forall j :: 0 < j < i ==> Insensitive(C, initial, trs, j)
  {
    if j :| 0 < j < m - 1 && !Insensitive(C, initial, trs, j) {
      i := FirstSensitive(C, initial, trs, m - 1);
    } else {
      i := m - 1;
    }
  }

  lemma {:induction false} SensitiveSplits(C: Config, initial: seq<Pair>, trs: seq<Transcript>)
    requires Substantial(C) && |trs| == C.N() && !AllInsensitive(C, initial, trs)
    ensures Apart(C, initial, trs, |trs|) != Together(C, initial, trs, |trs|)
  {
    var i := FirstSensitive(C, initial, trs, |trs|);
    BatchingInvisibleIff(C, initial, trs, i);
    assert Together(C, initial, trs, i) == Apart(C, initial, trs, i);
    StayApart(C, initial, trs, i + 1, |trs|);
  }

  /** All orders in which every transcript arrives end alike. */
  ghost predicate OrderInvisible(C: Config, initial: seq<Pair>, trs: seq<Transcript>)
    requires |trs| > 0
  {
    forall order, order' :: Covers(order, |trs|) && Covers(order', |trs|) ==>
      EndingOf(C, initial, trs, order) == EndingOf(C, initial, trs, order')
  }

  /** Order independence, exactly: for every number of servers and any transcripts, valid or not,
      the verified input, the remaining keys and the cleartext are the same for all orders of
      arrival if and only if each transcript after the first verifies or follows an empty output. */
  lemma {:induction false} OrderInvisibleIff(C: Config, initial: seq<Pair>, trs: seq<Transcript>)
    requires Substantial(C) && 0 < |trs| == C.N()
    ensures OrderInvisible(C, initial, trs) <==> AllInsensitive(C, initial, trs)
  {
    if AllInsensitive(C, initial, trs) {
      forall order, order' | Covers(order, |trs|) && Covers(order', |trs|)
        ensures EndingOf(C, initial, trs, order) == EndingOf(C, initial, trs, order')
      {
        EndsTogether(C, initial, trs, order);
        EndsTogether(C, initial, trs, order');
      }
    } else {
      var n := |trs|;
      SensitiveSplits(C, initial, trs);
      ExtremeOrders(C, initial, trs);
      forall i | 0 <= i < n ensures i in Up(n) && i in Down(n, n) {
        assert Up(n)[i] == i && Down(n, n)[n - 1 - i] == i;
      }
      assert Covers(Up(n), n) && Covers(Down(n, n), n);
    }
  }

  /** Verifying in server order, one transcript after the other, all of them valid. */
  ghost predicate AllVerify(C: Config, initial: seq<Pair>, trs: seq<Transcript>, refs: seq<seq<Pair>>) {
    && 0 < |trs| == C.N() && |refs| == |trs| + 1 && refs[0] == initial
    && forall i :: 0 <= i < |trs| ==> C.verify(refs[i], C.keys[i..], trs[i]) == Some(refs[i + 1])
  }

  lemma {:induction false} ValidTogether(C: Config, initial: seq<Pair>, trs: seq<Transcript>, refs: seq<seq<Pair>>, m: nat)
    requires AllVerify(C, initial, trs, refs) && m <= |trs|
    ensures Together(C, initial, trs, m) == refs[m]
  {
    if m > 0 {
      ValidTogether(C, initial, trs, refs, m - 1);
    }
  }

  /** Whatever the order of arrival, once every server's valid transcript is in, the verified
      input, the remaining keys and the cleartext are those of verifying in server order. */
  lemma {:induction false} OrderIndependent(C: Config, initial: seq<Pair>, trs: seq<Transcript>, refs: seq<seq<Pair>>, order: seq<nat>)
    requires AllVerify(C, initial, trs, refs) && Covers(order, |trs|)
    ensures EndingOf(C, initial, trs, order) == EndingWith(C, refs[C.N()])
  {
    forall i | 0 < i < |trs| ensures Insensitive(C, initial, trs, i) {
      ValidTogether(C, initial, trs, refs, i);
      assert C.verify(refs[i], C.keys[i..], trs[i]) == Some(refs[i + 1]);
    }
    ValidTogether(C, initial, trs, refs, C.N());
    EndsTogether(C, initial, trs, order);
  }

  /** With two servers and an invalid second transcript, the two orders agree exactly if there was
      nothing to lose. */
  lemma {:induction false} InvalidTranscriptExposesOrder(C: Config, initial: seq<Pair>, good: Transcript, bad: Transcript, o: seq<Pair>)
    requires C.N() == 2 && C.verify(initial, C.keys, good) == Some(o) && C.verify(o, C.keys[1..], bad) == None
    ensures EndingOf(C, initial, [good, bad], [0, 1]).input == EndingOf(C, initial, [good, bad], [1, 0]).input <==> o == []
    ensures Substantial(C) ==> !OrderInvisible(C, initial, [good, bad])
  {
    var trs := [good, bad];
    ExtremeOrders(C, initial, trs);
    assert Up(2) == [0, 1] && Down(2, 2) == [1, 0];
    assert C.keys[0..] == C.keys;
    assert Together(C, initial, trs, 1) == Apart(C, initial, trs, 1) == o;
    if Substantial(C) {
      assert o != [];
      assert !Insensitive(C, initial, trs, 1);
      OrderInvisibleIff(C, initial, trs);
    }
  }
}
