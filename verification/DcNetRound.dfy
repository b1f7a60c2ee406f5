/** The DC-net round as a whole: honest servers that commit to the ciphertexts of the DC-net push,
    in every phase, what the clients put in. */
module DcNetRound {
  import opened Xor
  import opened Counting
  import opened DcNetServers
  import opened DcNetAgreement
  import DcNetCodec
  import DcNetLayout
  import P = DcNetPads
  import D = DcNetDelivery

  /** The ciphertext that a server generates in a phase for the clients it takes to be handled. */
  type Generate = (nat, nat, Bits) -> Buf

  /** Once its lists are complete, a server commits to the ciphertext it generates. */
  ghost predicate Generates(T: Setting, gen: Generate, sys: Sys, a: Action) {
    match a
    case Deliver(i, msg, mine) =>
      i in sys.honest && sys.honest[i].stage == Lists ==>
        mine == gen(i, sys.honest[i].Phase(), Noted(T, sys.honest[i], msg.from, msg.payload).handledClients)
    case _ => true
  }

  // ----- where the ciphertexts come from -----

  function Online(v: Server, p: nat): Bits {
    if p < |v.proposed| then v.proposed[p].online else v.handledClients
  }

  /** An honest server's ciphertext is the one it generated. */
  ghost predicate TrueText(gen: Generate, i: nat, v: Server, p: nat, text: Buf) {
    && (p < v.Phase() || (p == v.Phase() && (v.stage == Ciphertexts || v.stage == Validations)))
    && text == gen(i, p, Online(v, p))
  }

  ghost predicate TrueMsg(gen: Generate, sys: Sys, msg: Msg) {
    msg.from in sys.honest && msg.payload.Ciphertext? ==>
      TrueText(gen, msg.from, sys.honest[msg.from], msg.phase, msg.payload.text)
  }

  /** These ciphertexts were all sent in phase p. */
  ghost predicate AllSent(sent: set<Msg>, p: nat, texts: map<nat, Buf>) {
    forall s :: s in texts ==> Msg(s, p, Ciphertext(texts[s])) in sent
  }

  /** A cleartext is the sum of one ciphertext per server. */
  ghost predicate SumOfSent(T: Setting, sent: set<Msg>, p: nat, cleartext: Buf) {
    exists texts: map<nat, Buf> ::
      (forall s: nat :: s < T.servers ==> s in texts) && AllSent(sent, p, texts) && cleartext == Combined(texts, T.servers, |cleartext|)
  }

  /** What a server holds comes from messages. */
  ghost predicate Sourced(T: Setting, gen: Generate, sent: set<Msg>, i: nat, v: Server) {
    && (v.stage == Commits || v.stage == Ciphertexts ==> v.mine == gen(i, v.Phase(), v.handledClients))
    && (v.stage != Validations ==> AllSent(sent, v.Phase(), v.ciphertexts))
    && (v.stage == Ciphertexts ==> forall s :: s in v.handledServers ==> s in v.ciphertexts)
    && (forall p :: 0 <= p < |v.proposed| ==> SumOfSent(T, sent, p, v.proposed[p].cleartext))
  }

  ghost predicate Sources(T: Setting, gen: Generate, sys: Sys) {
    && (forall i :: i in sys.honest ==> Sourced(T, gen, sys.sent, i, sys.honest[i]))
    && (forall msg :: msg in sys.sent ==> TrueMsg(gen, sys, msg))
  }

  lemma {:induction false} SumGrows(T: Setting, sent: set<Msg>, more: set<Msg>, p: nat, cleartext: Buf)
    requires SumOfSent(T, sent, p, cleartext) && sent <= more
    ensures SumOfSent(T, more, p, cleartext)
  {
    var texts: map<nat, Buf> :| (forall s: nat :: s < T.servers ==> s in texts) && AllSent(sent, p, texts)
      && cleartext == Combined(texts, T.servers, |cleartext|);
    assert AllSent(more, p, texts);
  }

  lemma {:induction false} SourcedGrows(T: Setting, gen: Generate, sent: set<Msg>, more: set<Msg>, i: nat, v: Server)
    requires Sourced(T, gen, sent, i, v) && sent <= more
    ensures Sourced(T, gen, more, i, v)
  {
    forall p | 0 <= p < |v.proposed| ensures SumOfSent(T, more, p, v.proposed[p].cleartext) {
      SumGrows(T, sent, more, p, v.proposed[p].cleartext);
    }
  }

  lemma {:induction false} NotedSourced(T: Setting, gen: Generate, sent: set<Msg>, i: nat, v: Server, msg: Msg)
    requires Sourced(T, gen, sent, i, v) && msg in sent && msg.phase == v.Phase() && Accepts(T, v, msg.from, msg.payload)
    ensures Sourced(T, gen, sent, i, Noted(T, v, msg.from, msg.payload))
  {
  }

  lemma {:induction false} AdvanceSourced(T: Setting, gen: Generate, sent: set<Msg>, i: nat, v: Server, mine: Buf)
    requires Sourced(T, gen, sent, i, v) && Inv(T, v) && (v.stage == Clients || |v.handledServers| == T.servers)
    requires v.stage == Lists ==> mine == gen(i, v.Phase(), v.handledClients)
    ensures Sourced(T, gen, sent, i, Advance(T, v, mine))
  {
    if v.stage == Ciphertexts {
      FullSet(v.handledServers, T.servers);
      var w, x := Advance(T, v, mine), Outcome(T, v);
      assert SumOfSent(T, sent, v.Phase(), x.cleartext);
      assert |v.proposed| == v.Phase();
      forall p | 0 <= p < |w.proposed| ensures SumOfSent(T, sent, p, w.proposed[p].cleartext) {
        assert w.proposed[p] == if p < |v.proposed| then v.proposed[p] else x;
      }
    }
  }

  /** What a server's own move does to the texts it sent before. */
  lemma {:induction false} TextStays(T: Setting, gen: Generate, i: nat, v: Server, w: Server, p: nat, text: Buf)
    requires TrueText(gen, i, v, p, text) && Inv(T, v) && Inv(T, w) && Steady(v, w)
    ensures TrueText(gen, i, w, p, text)
  {
    if p < |v.proposed| {
      assert w.proposed[p] == w.proposed[..|v.proposed|][p];
    }
  }

  /** A move that keeps what was proposed, and the clients from the commits on. */
  ghost predicate Steady(v: Server, w: Server) {
    && Extends(v, w) && v.Phase() <= w.Phase()
    && (v.stage == Ciphertexts ==> (w.stage == Ciphertexts && w.Phase() == v.Phase() && w.handledClients == v.handledClients)
                                   || (w.stage == Validations && |w.proposed| > |v.proposed| && w.proposed[|v.proposed|].online == v.handledClients))
    && (v.stage == Validations ==> w.stage == Validations || w.Phase() > v.Phase())
  }

  lemma {:induction false} NotedSteady(T: Setting, v: Server, from: nat, payload: Payload)
    requires Accepts(T, v, from, payload)
    ensures Steady(v, Noted(T, v, from, payload))
  {
  }

  lemma {:induction false} AdvanceSteady(T: Setting, v: Server, mine: Buf)
    requires Inv(T, v)
    ensures Steady(v, Advance(T, v, mine))
  {
    AdvanceShape(T, v, mine);
  }

  /** One server moves to w, sending what the new stage broadcasts. */
  lemma {:induction false} MoveSources(T: Setting, gen: Generate, sys: Sys, i: nat, w: Server)
    requires Sources(T, gen, sys) && i in sys.honest && Inv(T, sys.honest[i]) && Inv(T, w)
    requires Steady(sys.honest[i], w) && Sourced(T, gen, sys.sent, i, w)
    ensures Sources(T, gen, Updated(T, sys, i, w))
  {
    var next := Updated(T, sys, i, w);
    forall j | j in next.honest ensures Sourced(T, gen, next.sent, j, next.honest[j]) {
      SourcedGrows(T, gen, sys.sent, next.sent, j, next.honest[j]);
    }
    forall msg | msg in next.sent ensures TrueMsg(gen, next, msg) {
      if msg in sys.sent {
        assert TrueMsg(gen, sys, msg);
        if msg.from == i && msg.payload.Ciphertext? {
          TextStays(T, gen, i, sys.honest[i], w, msg.phase, msg.payload.text);
        }
      }
    }
  }

  lemma {:induction false} DeliverSources(T: Setting, gen: Generate, sys: Sys, i: nat, msg: Msg, mine: Buf)
    requires SysInv(T, sys) && Sources(T, gen, sys)
    requires Enabled(T, sys, Deliver(i, msg, mine)) && Generates(T, gen, sys, Deliver(i, msg, mine))
    ensures Sources(T, gen, Next(T, sys, Deliver(i, msg, mine)))
  {
    var v := sys.honest[i];
    var w := Handled(T, i, v, msg.from, msg.payload, mine);
    if Accepts(T, v, msg.from, msg.payload) {
      var n := Noted(T, v, msg.from, msg.payload);
      NotedKeepsInv(T, v, msg.from, msg.payload);
      NotedSourced(T, gen, sys.sent, i, v, msg);
      NotedSteady(T, v, msg.from, msg.payload);
      if |n.handledServers| == T.servers {
        AdvanceKeepsInv(T, n, mine);
        AdvanceSourced(T, gen, sys.sent, i, n, mine);
        AdvanceSteady(T, n, mine);
        SteadyOn(T, v, n, w);
      }
    } else {
      assert Steady(v, v);
    }
    MoveSources(T, gen, sys, i, w);
  }

  /** Noting and then advancing. */
  lemma {:induction false} SteadyOn(T: Setting, v: Server, n: Server, w: Server)
    requires Steady(v, n) && Steady(n, w) && n.stage == v.stage && n.proposed == v.proposed && n.Phase() == v.Phase()
    requires v.stage == Ciphertexts ==> n.handledClients == v.handledClients
    ensures Steady(v, w)
  {
  }

  lemma {:induction false} NextSources(T: Setting, gen: Generate, sys: Sys, a: Action)
    requires SysInv(T, sys) && Sources(T, gen, sys) && Enabled(T, sys, a) && Generates(T, gen, sys, a)
    ensures Sources(T, gen, Next(T, sys, a))
  {
    match a
    case Close(i, clients) =>
      var v := sys.honest[i];
      var n := v.(handledClients := clients);
      assert Inv(T, n) && Steady(v, n);
      AdvanceKeepsInv(T, n, []);
      AdvanceSourced(T, gen, sys.sent, i, n, []);
      AdvanceSteady(T, n, []);
      MoveSources(T, gen, sys, i, Opening(T, v, clients));
    case Deliver(i, msg, mine) => DeliverSources(T, gen, sys, i, msg, mine);
    case Forge(msg) =>
      var next := Next(T, sys, a);
      forall i | i in next.honest ensures Sourced(T, gen, next.sent, i, next.honest[i]) {
        SourcedGrows(T, gen, sys.sent, next.sent, i, sys.honest[i]);
      }
      forall m | m in next.sent ensures TrueMsg(gen, next, m) {
        assert m in sys.sent ==> TrueMsg(gen, sys, m);
      }
  }

  /** A run in which every honest server commits to what it generates. */
  ghost predicate Generating(T: Setting, gen: Generate, states: seq<Sys>, actions: seq<Action>) {
    Run(T, states, actions) && forall t :: 0 <= t < |actions| ==> Generates(T, gen, states[t], actions[t])
  }

  lemma {:induction false} RunSources(T: Setting, gen: Generate, states: seq<Sys>, actions: seq<Action>, t: nat)
    requires Generating(T, gen, states, actions) && t < |states|
    ensures Sources(T, gen, states[t])
  {
    if t > 0 {
      RunSources(T, gen, states, actions, t - 1);
      RunKeepsInv(T, states, actions, t - 1);
      assert Generates(T, gen, states[t - 1], actions[t - 1]);
      NextSources(T, gen, states[t - 1], actions[t - 1]);
    }
  }

  // ----- what the servers push -----

  /** What one honest server pushed, every other has proposed. */
  lemma {:induction false} ProposedTo(T: Setting, sys: Sys, i: nat, j: nat, p: nat)
    requires T.Ideal() && SysInv(T, sys) && i in sys.honest && j in sys.honest && p <= |sys.honest[i].pushed|
    ensures p <= |sys.honest[j].proposed| && sys.honest[i].pushed[..p] == sys.honest[j].proposed[..p]
  {
    if p > 0 {
      var v, w, k := sys.honest[i], sys.honest[j], p - 1;
      ProposedTo(T, sys, i, j, k);
      assert Backed(T, sys, i, j);
      assert Matches(T, v, w, k);
      assert v.pushed[k] == v.proposed[k] && v.proposed[..k] == v.pushed[..k];
      SameResult(T, v.pushed[k], w.proposed[k]);
      assert v.pushed[..p] == v.pushed[..k] + [v.pushed[k]] && w.proposed[..p] == w.proposed[..k] + [w.proposed[k]];
    }
  }

  ghost predicate AllHonest(T: Setting, sys: Sys) {
    forall s: nat :: s < T.servers ==> s in sys.honest
  }

  function Generated(gen: Generate, servers: nat, p: nat, online: Bits): (r: seq<Buf>)
    ensures |r| == servers && forall s :: 0 <= s < servers ==> r[s] == gen(s, p, online)
  {
    seq(servers, s requires 0 <= s < servers => gen(s, p, online))
  }

  ghost predicate IsSum(texts: seq<Buf>, cleartext: Buf) {
    forall k :: 0 <= k < |cleartext| ==> cleartext[k] == Fold(P.ListByte(texts, k), |texts|)
  }

  lemma {:induction false} CombinedIsSum(texts: map<nat, Buf>, list: seq<Buf>, cleartext: Buf)
    requires forall s: nat :: s < |list| ==> s in texts && texts[s] == list[s]
    requires cleartext == Combined(texts, |list|, |cleartext|)
    ensures IsSum(list, cleartext)
  {
    forall k | 0 <= k < |cleartext| ensures cleartext[k] == Fold(P.ListByte(list, k), |list|) {
      FoldEqual(CipherByte(texts, k), P.ListByte(list, k), |list|);
    }
  }

  /** A ciphertext from phase p is what its sender generated for the clients that were pushed. */
  lemma {:induction false} SentIs(T: Setting, gen: Generate, sys: Sys, i: nat, p: nat, s: nat, text: Buf)
    requires T.Ideal() && SysInv(T, sys) && Sources(T, gen, sys) && i in sys.honest && s in sys.honest
    requires p < |sys.honest[i].pushed| && Msg(s, p, Ciphertext(text)) in sys.sent
    ensures text == gen(s, p, sys.honest[i].pushed[p].online)
  {
    ProposedTo(T, sys, i, s, p + 1);
    assert sys.honest[i].pushed[p] == sys.honest[i].pushed[..p + 1][p] == sys.honest[s].proposed[..p + 1][p];
    assert TrueMsg(gen, sys, Msg(s, p, Ciphertext(text)));
  }

  /** With honest servers only, the cleartext pushed in a phase is the sum of the ciphertexts that
      all servers generated for the clients pushed with it, whatever the order of messages. */
  lemma {:induction false} PushedSum(T: Setting, gen: Generate, states: seq<Sys>, actions: seq<Action>, t: nat, i: nat, p: nat)
    requires T.Ideal() && Generating(T, gen, states, actions) && t < |states| && AllHonest(T, states[t])
    requires i in states[t].honest && p < |states[t].honest[i].pushed|
    ensures var pushed := states[t].honest[i].pushed;
            && IsSum(Generated(gen, T.servers, p, pushed[p].online), pushed[p].cleartext)
            && |pushed[p].cleartext| == T.lengthAfter(Cleartexts(pushed[..p]))
  {
    RunKeepsInv(T, states, actions, t);
    RunSources(T, gen, states, actions, t);
    var sys := states[t];
    var v := sys.honest[i];
    var r := v.pushed[p];
    assert v.proposed[p] == r && v.proposed[..p] == v.pushed[..p];
    assert SumOfSent(T, sys.sent, p, r.cleartext);
    var texts: map<nat, Buf> :| (forall s: nat :: s < T.servers ==> s in texts) && AllSent(sys.sent, p, texts)
      && r.cleartext == Combined(texts, T.servers, |r.cleartext|);
    var list := Generated(gen, T.servers, p, r.online);
    forall s: nat | s < T.servers ensures s in texts && texts[s] == list[s] {
      SentIs(T, gen, sys, i, p, s, texts[s]);
    }
    CombinedIsSum(texts, list, r.cleartext);
  }

  // ----- from the clients to what is pushed -----

  /** What the clients and servers do in one phase. */
  datatype PhaseData = PhaseData(Q: P.Phase, K: P.Keys, ciphers: nat -> Buf, x: D.Input, contributions: seq<Buf>, R: DcNetLayout.Reading)

  /** Each handled client's ciphertext is its contribution under its pads; each server's is made of
      its pads and the ciphertexts it received. */
  ghost predicate Masked(T: Setting, gen: Generate, p: nat, online: Bits, d: PhaseData) {
    && d.Q.Valid() && P.Keyed(d.Q, d.K) && d.Q.servers == T.servers && |d.contributions| == d.Q.clients && d.Q.handled == online
    && (forall c: nat :: c < d.Q.clients && d.Q.Handled(c) ==> P.IsClientCiphertext(d.Q, c, d.contributions[c], d.ciphers(c)))
    && (forall s: nat :: s < T.servers ==> P.IsServerCiphertext(d.Q, s, d.ciphers, gen(s, p, online)))
  }

  lemma {:induction false} MaskedCombines(T: Setting, gen: Generate, p: nat, online: Bits, d: PhaseData, cleartext: Buf)
    requires Masked(T, gen, p, online, d) && IsSum(Generated(gen, T.servers, p, online), cleartext) && |cleartext| == d.Q.length
    ensures D.Combined(online, d.contributions, d.Q.length, cleartext)
  {
    D.ServersCombine(d.Q, d.K, d.contributions, d.ciphers, Generated(gen, T.servers, p, online), cleartext);
  }

  /** Phase p of the round, between two states of the clients. */
  ghost predicate Plays(C: DcNetCodec.Codec, T: Setting, gen: Generate, pushed: seq<Result>, p: nat, net: D.Net, d: PhaseData, after: D.Net)
    requires p < |pushed|
  {
    && D.SmallSizes(C, net) && D.Fits(C, net, d.x) && D.AreContributions(C, net, d.x, d.contributions)
    && d.x.handled == pushed[p].online && Masked(T, gen, p, pushed[p].online, d)
    && d.Q.length == net.length == T.lengthAfter(Cleartexts(pushed[..p]))
    && D.Reads(C, net, d.x, pushed[p].cleartext, d.R, after)
  }

  function EventOf(d: PhaseData, r: Result): D.Event {
    D.Event(d.x, d.contributions, r.cleartext, d.R)
  }

  lemma {:induction false} PlaysMoves(C: DcNetCodec.Codec, T: Setting, gen: Generate, pushed: seq<Result>, p: nat, net: D.Net, d: PhaseData, after: D.Net)
    requires p < |pushed| && Plays(C, T, gen, pushed, p, net, d, after)
    requires IsSum(Generated(gen, T.servers, p, pushed[p].online), pushed[p].cleartext)
    requires |pushed[p].cleartext| == T.lengthAfter(Cleartexts(pushed[..p]))
    ensures D.Moves(C, net, EventOf(d, pushed[p]), after)
  {
    MaskedCombines(T, gen, p, pushed[p].online, d, pushed[p].cleartext);
  }

  /** End to end: honest servers in any order of messages, clients that are left out in any pattern.
      What the servers push is a run of the DC-net; in it, the messages of a client come out exactly
      once and in order if and only if no open request of the client was left out before the last
      two phases. */
  lemma {:induction false} RoundDelivers(C: DcNetCodec.Codec, T: Setting, gen: Generate, states: seq<Sys>, actions: seq<Action>, t: nat, i: nat,
                                         n: nat, nets: seq<D.Net>, data: seq<PhaseData>, c: nat)
    returns (events: seq<D.Event>)
    requires T.Ideal() && Generating(T, gen, states, actions) && t < |states| && AllHonest(T, states[t]) && i in states[t].honest
    requires |nets| == |data| + 1 && |data| == |states[t].honest[i].pushed| && nets[0] == D.Start(n, nets[0].phase) && c < n
    requires forall p :: 0 <= p < |data| ==> Plays(C, T, gen, states[t].honest[i].pushed, p, nets[p], data[p], nets[p + 1])
    ensures |events| == |data| && forall p :: 0 <= p < |data| ==> events[p] == EventOf(data[p], states[t].honest[i].pushed[p])
    ensures D.Run(C, n, nets, events) && |nets[|events|].owners| == |nets[|events|].taken| == n
    ensures D.Delivered(nets[|events|], c)
            <==> forall p :: 0 <= p < |events| && D.LosesRequest(nets[p], events[p], c) ==> |events| <= p + 2
  {
    var pushed := states[t].honest[i].pushed;
    events := seq(|data|, p requires 0 <= p < |data| => EventOf(data[p], pushed[p]));
    forall p | 0 <= p < |data| ensures D.Moves(C, nets[p], events[p], nets[p + 1]) {
      PushedSum(T, gen, states, actions, t, i, p);
      PlaysMoves(C, T, gen, pushed, p, nets[p], data[p], nets[p + 1]);
    }
    D.DeliveredIff(C, n, nets, events, c);
  }
}
