/** The shuffle round as a whole: honest servers' transcripts arrive at a server in any order, are
    verified in batches by NeffShuffle::Verify, and end as the clients' messages. */
module MixRound {
  import opened Modular
  import opened Group
  import opened NeffSpec
  import opened NeffLinks
  import opened NeffShuffle
  import opened NeffRound
  import opened Dsa
  import NeffCompleteness
  import Mixnet

  /** What NeffShuffle::Verify promises. */
  ghost function Verified(G: Params, encode: Pair -> seq<nat>, rand: Oracle, input: seq<Pair>, keys: seq<nat>, T: Transcript): Option<seq<Pair>>
    requires G.p > 1 && G.q > 0 && OracleInRange(rand, G.q)
  {
    if keys != [] && Accepts(G, CombinedKey(keys, G.p), encode, rand, input, T) then Some(T.decrypted) else None
  }

  /** The round that verifies that way, with the servers' public keys in roster order. */
  ghost function RoundOf(G: Params, xs: seq<nat>, encode: Pair -> seq<nat>, rand: Oracle): Config
    requires G.p > 1 && G.q > 0 && OracleInRange(rand, G.q)
  {
    Config((input, keys, T) => Verified(G, encode, rand, input, keys, T), c => SeriesDecryptFinish(G, c), Mixnet.PublicKeys(G, xs))
  }

  lemma {:induction false} VerifyIs(G: Params, xs: seq<nat>, encode: Pair -> seq<nat>, rand: Oracle, input: seq<Pair>, i: nat, T: Transcript)
    requires G.p > 1 && G.q > 0 && OracleInRange(rand, G.q) && i <= |xs|
    ensures var C := RoundOf(G, xs, encode, rand);
            C.N() == |xs| && C.verify(input, C.keys[i..], T) == Verified(G, encode, rand, input, Mixnet.PublicKeys(G, xs[i..]), T)
  {
    assert Mixnet.PublicKeys(G, xs)[i..] == Mixnet.PublicKeys(G, xs[i..]);
  }

  lemma {:induction false} VerifyIsSubstantial(G: Params, xs: seq<nat>, encode: Pair -> seq<nat>, rand: Oracle)
    requires G.p > 1 && G.q > 0 && OracleInRange(rand, G.q)
    ensures Substantial(RoundOf(G, xs, encode, rand))
  {
    var C := RoundOf(G, xs, encode, rand);
    forall input, keys, T
      ensures (input == [] ==> C.verify(input, keys, T) == None) && C.verify(input, keys, T) != Some([])
    {
      assert C.verify(input, keys, T) == Verified(G, encode, rand, input, keys, T);
    }
  }

  // ----- honest servers -----

  /** One server's turn, with the working values behind its transcript. */
  datatype Turn = Turn(P: Prover, T: Transcript, K: Work)

  /** A turn under the keys of the private exponents xs, the first of which is the server's own. */
  ghost predicate HonestTurn(G: Params, xs: seq<nat>, encode: Pair -> seq<nat>, rand: Oracle, t: Turn)
    requires G.p > 1 && xs != []
  {
    && Honest(t.P, rand, t.T, t.K) && SortedOutput(encode, t.T.shares.output)
    && t.P.G == G && t.P.x == xs[0] && t.P.h == CombinedKey(Mixnet.PublicKeys(G, xs), G.p)
  }

  ghost function InputOf(initial: seq<Pair>, turns: seq<Turn>, i: nat): seq<Pair>
    requires i <= |turns|
  {
    if i == 0 then initial else turns[i - 1].T.decrypted
  }

  /** The i-th server shuffles what the one before it decrypted. */
  ghost predicate TurnAt(G: Params, xs: seq<nat>, encode: Pair -> seq<nat>, rand: Oracle, initial: seq<Pair>, turns: seq<Turn>, i: nat)
    requires G.p > 1 && i < |turns| == |xs|
  {
    turns[i].P.input == InputOf(initial, turns, i) && HonestTurn(G, xs[i..], encode, rand, turns[i])
  }

  ghost predicate HonestTurns(G: Params, xs: seq<nat>, encode: Pair -> seq<nat>, rand: Oracle, initial: seq<Pair>, turns: seq<Turn>) {
    && G.Valid() && OracleInRange(rand, G.q) && 0 < |turns| == |xs| && InputsInGroup(G, initial)
    && (forall i :: 0 <= i < |turns| ==> TurnAt(G, xs, encode, rand, initial, turns, i))
  }

  /** A server's draws are not among the exceptional ones. */
  ghost predicate Lucky(G: Params, rand: Oracle, t: Turn)
    requires G.q > 0
  {
    GoodDraws(G.q, ChallengeC(rand, t.P.input, t.T), t.P.sec.gamma, t.K.rt)
  }

  ghost function StageAt(turns: seq<Turn>, i: nat): Mixnet.Stage
    requires i < |turns|
  {
    Mixnet.Stage(turns[i].P, turns[i].T.shares.output, turns[i].T.decrypted)
  }

  ghost function Stages(turns: seq<Turn>): (r: seq<Mixnet.Stage>)
    ensures |r| == |turns| && forall i :: 0 <= i < |turns| ==> r[i] == StageAt(turns, i)
  {
    seq(|turns|, i requires 0 <= i < |turns| => StageAt(turns, i))
  }

  function Transcripts(turns: seq<Turn>): (r: seq<Transcript>)
    ensures |r| == |turns| && forall i :: 0 <= i < |turns| ==> r[i] == turns[i].T
  {
    seq(|turns|, i requires 0 <= i < |turns| => turns[i].T)
  }

  lemma {:induction false} TurnMixes(G: Params, xs: seq<nat>, encode: Pair -> seq<nat>, rand: Oracle, initial: seq<Pair>, turns: seq<Turn>, i: nat)
    requires G.p > 1 && i < |turns| == |xs| && TurnAt(G, xs, encode, rand, initial, turns, i)
    ensures Mixnet.StageOf(G, xs, StageAt(turns, i), i) && turns[i].P.input == InputOf(initial, turns, i)
  {
    Mixnet.HonestMixes(turns[i].P, rand, turns[i].T, turns[i].K);
    assert xs[i..][0] == xs[i];
  }

  lemma {:induction false} TurnInputs(G: Params, xs: seq<nat>, encode: Pair -> seq<nat>, rand: Oracle, initial: seq<Pair>, turns: seq<Turn>)
    requires HonestTurns(G, xs, encode, rand, initial, turns)
    ensures forall i :: 0 <= i < |turns| ==> Stages(turns)[i].P.input == InputOf(initial, turns, i)
  {
    forall i | 0 <= i < |turns| ensures Stages(turns)[i].P.input == InputOf(initial, turns, i) {
      assert TurnAt(G, xs, encode, rand, initial, turns, i);
    }
  }

  lemma {:induction false} TurnsChain(G: Params, xs: seq<nat>, encode: Pair -> seq<nat>, rand: Oracle, initial: seq<Pair>, turns: seq<Turn>)
    requires HonestTurns(G, xs, encode, rand, initial, turns)
    ensures Mixnet.Chain(G, xs, Stages(turns)) && Stages(turns)[0].P.input == initial
    ensures Mixnet.StageInput(Stages(turns), |turns|) == InputOf(initial, turns, |turns|)
  {
    var stages := Stages(turns);
    forall i | 0 <= i < |stages| ensures Mixnet.StageOf(G, xs, stages[i], i) {
      assert TurnAt(G, xs, encode, rand, initial, turns, i);
      TurnMixes(G, xs, encode, rand, initial, turns, i);
    }
    TurnInputs(G, xs, encode, rand, initial, turns);
  }

  lemma {:induction false} InputsStayInGroup(G: Params, xs: seq<nat>, initial: seq<Pair>, turns: seq<Turn>, i: nat)
    requires Mixnet.Chain(G, xs, Stages(turns)) && i < |turns| && Stages(turns)[0].P.input == initial && InputsInGroup(G, initial)
    ensures InputsInGroup(G, InputOf(initial, turns, i))
  {
    Mixnet.ChainMeans(G, xs, Stages(turns), i);
  }

  /** The verifier's answer to an honest turn depends on the draws alone. */
  lemma {:induction false} HonestAnswer(G: Params, xs: seq<nat>, encode: Pair -> seq<nat>, rand: Oracle, t: Turn)
    requires G.Valid() && OracleInRange(rand, G.q) && xs != [] && HonestTurn(G, xs, encode, rand, t) && InputsInGroup(G, t.P.input)
    ensures Verified(G, encode, rand, t.P.input, Mixnet.PublicKeys(G, xs), t.T) == if Lucky(G, rand, t) then Some(t.T.decrypted) else None
    ensures t.P.input != []
  {
    Mixnet.HonestTurnAccepted(t.P, xs, encode, rand, t.T, t.K);
  }

  // ----- the round -----

  /** How verification answers along the chain of inputs: transcript i turns inputs[i] into
      inputs[i + 1] or is refused, as good says. */
  ghost predicate Answers(C: Config, trs: seq<Transcript>, inputs: seq<seq<Pair>>, good: nat -> bool) {
    && 0 < |trs| == C.N() && |inputs| == |trs| + 1
    && forall i :: 0 <= i < |trs| ==> AnswersAt(C, trs, inputs, good, i)
  }

  ghost predicate AnswersAt(C: Config, trs: seq<Transcript>, inputs: seq<seq<Pair>>, good: nat -> bool, i: nat)
    requires i < |trs| == C.N() && |inputs| == |trs| + 1
  {
    && inputs[i] != []
    && C.verify(inputs[i], C.keys[i..], trs[i]) == if good(i) then Some(inputs[i + 1]) else None
  }

  ghost function Inputs(initial: seq<Pair>, turns: seq<Turn>): (r: seq<seq<Pair>>)
    ensures |r| == |turns| + 1 && forall i :: 0 <= i <= |turns| ==> r[i] == InputOf(initial, turns, i)
  {
    seq(|turns| + 1, i requires 0 <= i <= |turns| => InputOf(initial, turns, i))
  }

  ghost function Luck(G: Params, rand: Oracle, turns: seq<Turn>): nat -> bool
    requires G.q > 0
  {
    (i: nat) => i < |turns| && Lucky(G, rand, turns[i])
  }

  lemma {:induction false} TurnAnswers(G: Params, xs: seq<nat>, encode: Pair -> seq<nat>, rand: Oracle, initial: seq<Pair>, turns: seq<Turn>, i: nat)
    requires G.Valid() && OracleInRange(rand, G.q) && i < |turns| == |xs| && TurnAt(G, xs, encode, rand, initial, turns, i)
    requires InputsInGroup(G, InputOf(initial, turns, i))
    ensures RoundOf(G, xs, encode, rand).N() == |turns|
    ensures AnswersAt(RoundOf(G, xs, encode, rand), Transcripts(turns), Inputs(initial, turns), Luck(G, rand, turns), i)
  {
    VerifyIs(G, xs, encode, rand, InputOf(initial, turns, i), i, turns[i].T);
    HonestAnswer(G, xs[i..], encode, rand, turns[i]);
    assert Luck(G, rand, turns)(i) == Lucky(G, rand, turns[i]);
  }

  lemma {:induction false} TurnsAnswer(G: Params, xs: seq<nat>, encode: Pair -> seq<nat>, rand: Oracle, initial: seq<Pair>, turns: seq<Turn>)
    requires HonestTurns(G, xs, encode, rand, initial, turns)
    ensures Answers(RoundOf(G, xs, encode, rand), Transcripts(turns), Inputs(initial, turns), Luck(G, rand, turns))
  {
    var C, trs, inputs, good := RoundOf(G, xs, encode, rand), Transcripts(turns), Inputs(initial, turns), Luck(G, rand, turns);
    TurnsChain(G, xs, encode, rand, initial, turns);
    forall i | 0 <= i < |trs| ensures C.N() == |trs| && AnswersAt(C, trs, inputs, good, i) {
      InputsStayInGroup(G, xs, initial, turns, i);
      assert TurnAt(G, xs, encode, rand, initial, turns, i);
      TurnAnswers(G, xs, encode, rand, initial, turns, i);
    }
  }

  ghost predicate AllGood(good: nat -> bool, m: nat) {
    forall i :: 0 <= i < m ==> good(i)
  }

  lemma {:induction false} GoodVerify(C: Config, trs: seq<Transcript>, inputs: seq<seq<Pair>>, good: nat -> bool)
    requires Answers(C, trs, inputs, good) && AllGood(good, |trs|)
    ensures AllVerify(C, inputs[0], trs, inputs)
  {
    forall i | 0 <= i < |trs| ensures C.verify(inputs[i], C.keys[i..], trs[i]) == Some(inputs[i + 1]) {
      assert AnswersAt(C, trs, inputs, good, i) && good(i);
    }
  }

  /** End to end: with honest servers whose draws are not exceptional, and whatever the order in
      which the transcripts arrive, the round ends with every transcript verified, and its
      cleartext is a permutation of the clients' messages. */
  lemma {:induction false} RoundDelivers(G: Params, xs: seq<nat>, encode: Pair -> seq<nat>, rand: Oracle, initial: seq<Pair>,
                                         turns: seq<Turn>, msgs: seq<Bytes>, order: seq<nat>)
    requires HonestTurns(G, xs, encode, rand, initial, turns) && AllGood(Luck(G, rand, turns), |turns|) && SafePrime(G)
    requires |msgs| == |initial| && forall i :: 0 <= i < |msgs| ==> Mixnet.EncryptedTo(G, xs, msgs[i], initial[i])
    requires Covers(order, |xs|)
    ensures var e := EndingOf(RoundOf(G, xs, encode, rand), initial, Transcripts(turns), order);
            e.next == |xs| && e.keys == [] && multiset(e.cleartext) == multiset(Mixnet.Delivered(msgs))
  {
    var C, trs, inputs := RoundOf(G, xs, encode, rand), Transcripts(turns), Inputs(initial, turns);
    TurnsAnswer(G, xs, encode, rand, initial, turns);
    GoodVerify(C, trs, inputs, Luck(G, rand, turns));
    OrderIndependent(C, initial, trs, inputs, order);
    TurnsChain(G, xs, encode, rand, initial, turns);
    Mixnet.MixnetDelivers(G, xs, Stages(turns), msgs);
    FinishIs(G, xs, encode, rand, InputOf(initial, turns, |turns|));
  }

  lemma {:induction false} FinishIs(G: Params, xs: seq<nat>, encode: Pair -> seq<nat>, rand: Oracle, out: seq<Pair>)
    requires G.p > 1 && G.q > 0 && OracleInRange(rand, G.q)
    ensures RoundOf(G, xs, encode, rand).N() == |xs|
    ensures Finish(RoundOf(G, xs, encode, rand), out) == Mixnet.Finished(G, out)
  {
  }

  // ----- exceptional draws -----

  lemma {:induction false} NothingFollows(C: Config, initial: seq<Pair>, trs: seq<Transcript>, m: nat)
    requires Substantial(C) && 0 < m <= |trs| == C.N() && C.verify(initial, C.keys[0..], trs[0]) == None
    ensures Together(C, initial, trs, m) == []
  {
    if m > 1 {
      NothingFollows(C, initial, trs, m - 1);
    }
  }

  lemma {:induction false} GoodPrefix(C: Config, trs: seq<Transcript>, inputs: seq<seq<Pair>>, good: nat -> bool, m: nat)
    requires Answers(C, trs, inputs, good) && m <= |trs| && AllGood(good, m)
    ensures Together(C, inputs[0], trs, m) == inputs[m]
  {
    if m > 0 {
      GoodPrefix(C, trs, inputs, good, m - 1);
      assert AnswersAt(C, trs, inputs, good, m - 1) && good(m - 1);
    }
  }

  lemma {:induction false} FirstBad(good: nat -> bool, m: nat) returns (i: nat)
    requires !AllGood(good, m)
    ensures i < m && !good(i) && AllGood(good, i)
  {
    if m > 0 && !AllGood(good, m - 1) {
      i := FirstBad(good, m - 1);
    } else {
      i := m - 1;
    }
  }

  /** The order of arrival does not show exactly if nothing verifies or everything does. */
  lemma {:induction false} AnswersOrder(C: Config, trs: seq<Transcript>, inputs: seq<seq<Pair>>, good: nat -> bool)
    requires Substantial(C) && Answers(C, trs, inputs, good)
    ensures AllInsensitive(C, inputs[0], trs) <==> !good(0) || AllGood(good, |trs|)
  {
    assert AnswersAt(C, trs, inputs, good, 0);
    if !good(0) {
      forall i | 0 < i < |trs| ensures Insensitive(C, inputs[0], trs, i) {
        NothingFollows(C, inputs[0], trs, i);
      }
    } else if AllGood(good, |trs|) {
      forall i | 0 < i < |trs| ensures Insensitive(C, inputs[0], trs, i) {
        GoodPrefix(C, trs, inputs, good, i);
        assert AnswersAt(C, trs, inputs, good, i) && good(i);
      }
    } else {
      var i := FirstBad(good, |trs|);
      GoodPrefix(C, trs, inputs, good, i);
      assert AnswersAt(C, trs, inputs, good, i);
      assert !Insensitive(C, inputs[0], trs, i);
    }
  }

  /** Exactly when the order of arrival shows in a round of honest servers: some server's draws are
      exceptional, but not the first one's. */
  lemma {:induction false} OrderShowsIff(G: Params, xs: seq<nat>, encode: Pair -> seq<nat>, rand: Oracle, initial: seq<Pair>, turns: seq<Turn>)
    requires HonestTurns(G, xs, encode, rand, initial, turns)
    ensures !OrderInvisible(RoundOf(G, xs, encode, rand), initial, Transcripts(turns))
            <==> Lucky(G, rand, turns[0]) && !AllGood(Luck(G, rand, turns), |turns|)
  {
    var C, trs, inputs, good := RoundOf(G, xs, encode, rand), Transcripts(turns), Inputs(initial, turns), Luck(G, rand, turns);
    VerifyIsSubstantial(G, xs, encode, rand);
    TurnsAnswer(G, xs, encode, rand, initial, turns);
    OrderInvisibleIff(C, initial, trs);
    AnswersOrder(C, trs, inputs, good);
    assert good(0) == Lucky(G, rand, turns[0]);
  }

  // ----- two honest servers -----

  /** A prover of one pair whose u is 2 and whose a is given. */
  function PairProver(G: Params, x: nat, h: int, input: seq<Pair>, a: nat): Prover {
    Prover(G, x, h, input, Secrets([2], [2], [2], [a], 2, 2, [2], [2]), [0], [0])
  }

  /** When all challenges are 2, b is zero and r[0] is a. */
  lemma {:induction false} PairLuck(G: Params, rand: Oracle, t: Turn, a: nat)
    requires G.Valid() && G.q > 2 && NeffCompleteness.AllTwo(rand) && (a == 2 || a == 3)
    requires |t.P.input| == 1 && t.P == PairProver(G, t.P.x, t.P.h, t.P.input, a) && Honest(t.P, rand, t.T, t.K)
    ensures Lucky(G, rand, t) <==> a == 3
  {
    ModSmall(2, G.q);
    ModSmall(1, G.q);
    ModSmall(0, G.q);
    assert t.K.b[0] == (2 - 2) % G.q == 0;
    assert t.K.r[0] == (a + 2 * 0) % G.q;
    assert t.K.rt[0] == (t.K.r[0] - 2) % G.q;
    CongMod(a, G.q);
    CongAdd(t.K.r[0], a, 2, 2, G.q);
    assert t.K.rt[0] == (a - 2) % G.q == a - 2;
    ModSmall(a - 2, G.q);
    assert |t.K.rt| == 1;
  }

  lemma {:induction false} SomeTurn(P: Prover, rand: Oracle)
    requires P.Ready() && OracleInRange(rand, P.G.q)
    ensures exists T, K :: Honest(P, rand, T, K)
  {
    var T, K := NeffCompleteness.HonestExists(P, rand);
  }

  /** An honest turn of this prover. */
  ghost function TurnOf(P: Prover, rand: Oracle): Turn
    requires P.Ready() && OracleInRange(rand, P.G.q)
  {
    SomeTurn(P, rand);
    var T, K :| Honest(P, rand, T, K);
    Turn(P, T, K)
  }

  /** A turn over one pair under the keys of xs. */
  ghost function PairTurn(G: Params, xs: seq<nat>, rand: Oracle, input: seq<Pair>, a: nat): Turn
    requires G.Valid() && OracleInRange(rand, G.q) && xs != [] && |input| == 1
  {
    TurnOf(PairProver(G, xs[0], CombinedKey(Mixnet.PublicKeys(G, xs), G.p), input, a), rand)
  }

  lemma {:induction false} PairTurnIs(G: Params, xs: seq<nat>, encode: Pair -> seq<nat>, rand: Oracle, input: seq<Pair>, a: nat)
    requires G.Valid() && OracleInRange(rand, G.q) && xs != [] && |input| == 1
    ensures PairTurn(G, xs, rand, input, a).P.input == input && |PairTurn(G, xs, rand, input, a).T.decrypted| == 1
    ensures HonestTurn(G, xs, encode, rand, PairTurn(G, xs, rand, input, a))
  {
    SomeTurn(PairProver(G, xs[0], CombinedKey(Mixnet.PublicKeys(G, xs), G.p), input, a), rand);
  }

  lemma {:induction false} PairTurnLuck(G: Params, xs: seq<nat>, rand: Oracle, input: seq<Pair>, a: nat)
    requires G.Valid() && OracleInRange(rand, G.q) && xs != [] && |input| == 1
    requires G.q > 2 && NeffCompleteness.AllTwo(rand) && (a == 2 || a == 3)
    ensures |PairTurn(G, xs, rand, input, a).T.decrypted| == 1
    ensures Lucky(G, rand, PairTurn(G, xs, rand, input, a)) <==> a == 3
  {
    PairTurnIs(G, xs, _ => [], rand, input, a);
    PairLuck(G, rand, PairTurn(G, xs, rand, input, a), a);
  }

  ghost function TwoTurns(G: Params, xs: seq<nat>, rand: Oracle, initial: seq<Pair>): (turns: seq<Turn>)
    requires G.Valid() && OracleInRange(rand, G.q) && |xs| == 2 && |initial| == 1
    ensures |turns| == 2
  {
    var first := PairTurn(G, xs, rand, initial, 3);
    PairTurnIs(G, xs, _ => [], rand, initial, 3);
    [first, PairTurn(G, xs[1..], rand, first.T.decrypted, 2)]
  }

  lemma {:induction false} TwoTurnsHonest(G: Params, xs: seq<nat>, encode: Pair -> seq<nat>, rand: Oracle, initial: seq<Pair>)
    requires G.Valid() && OracleInRange(rand, G.q) && |xs| == 2 && |initial| == 1 && InputsInGroup(G, initial)
    ensures HonestTurns(G, xs, encode, rand, initial, TwoTurns(G, xs, rand, initial))
  {
    var turns := TwoTurns(G, xs, rand, initial);
    forall i | 0 <= i < |turns| ensures TurnAt(G, xs, encode, rand, initial, turns, i) {
      if i == 0 {
        assert xs[0..] == xs;
        PairTurnIs(G, xs, encode, rand, initial, 3);
      } else {
        SecondTurn(G, xs, encode, rand, initial);
      }
    }
  }

  lemma {:induction false} SecondTurn(G: Params, xs: seq<nat>, encode: Pair -> seq<nat>, rand: Oracle, initial: seq<Pair>)
    requires G.Valid() && OracleInRange(rand, G.q) && |xs| == 2 && |initial| == 1
    ensures TurnAt(G, xs, encode, rand, initial, TwoTurns(G, xs, rand, initial), 1)
  {
    var first := TwoTurns(G, xs, rand, initial)[0];
    assert |first.T.decrypted| == 1 by {
      PairTurnIs(G, xs, encode, rand, initial, 3);
    }
    PairTurnIs(G, xs[1..], encode, rand, first.T.decrypted, 2);
  }

  lemma {:induction false} TwoTurnsLuck(G: Params, xs: seq<nat>, rand: Oracle, initial: seq<Pair>)
    requires G.Valid() && OracleInRange(rand, G.q) && |xs| == 2 && |initial| == 1 && G.q > 2 && NeffCompleteness.AllTwo(rand)
    ensures Lucky(G, rand, TwoTurns(G, xs, rand, initial)[0]) && !Luck(G, rand, TwoTurns(G, xs, rand, initial))(1)
  {
    var first := TwoTurns(G, xs, rand, initial)[0];
    PairTurnLuck(G, xs, rand, initial, 3);
    PairTurnLuck(G, xs[1..], rand, first.T.decrypted, 2);
  }

  lemma {:induction false} TwoTurnsShow(G: Params, xs: seq<nat>, encode: Pair -> seq<nat>, rand: Oracle, initial: seq<Pair>)
    requires G.Valid() && OracleInRange(rand, G.q) && |xs| == 2 && |initial| == 1 && InputsInGroup(G, initial)
    requires G.q > 2 && NeffCompleteness.AllTwo(rand)
    ensures HonestTurns(G, xs, encode, rand, initial, TwoTurns(G, xs, rand, initial))
    ensures !OrderInvisible(RoundOf(G, xs, encode, rand), initial, Transcripts(TwoTurns(G, xs, rand, initial)))
  {
    TwoTurnsHonest(G, xs, encode, rand, initial);
    TwoTurnsLuck(G, xs, rand, initial);
    OrderShowsIff(G, xs, encode, rand, initial, TwoTurns(G, xs, rand, initial));
  }

  /** In every group with q > 2 there are two honest servers in whose round the order shows: the
      second one's draws are exceptional, and the first one's are not. */
  lemma {:induction false} OrderExample(G: Params, xs: seq<nat>, encode: Pair -> seq<nat>)
    returns (rand: Oracle, initial: seq<Pair>, turns: seq<Turn>)
    requires G.Valid() && G.q > 2 && |xs| == 2
    ensures HonestTurns(G, xs, encode, rand, initial, turns) && initial == [Pair(1, 1)] && |turns| == 2
    ensures !OrderInvisible(RoundOf(G, xs, encode, rand), initial, Transcripts(turns))
  {
    rand, initial := (input, prefix, n) => 2, [Pair(1, 1)];
    assert NeffCompleteness.AllTwo(rand) && OracleInRange(rand, G.q);
    One(G);
    assert InputsInGroup(G, initial);
    turns := TwoTurns(G, xs, rand, initial);
    TwoTurnsShow(G, xs, encode, rand, initial);
  }
}
