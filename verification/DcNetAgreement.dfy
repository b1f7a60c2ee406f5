/** All servers of the DC-net round together: honest servers follow the protocol, the others send
    whatever they like, and messages arrive in any order. */
module DcNetAgreement {
  import opened Xor
  import opened Counting
  import opened DcNetServers

  /** A message as its authenticated sender sent it. */
  datatype Msg = Msg(from: nat, phase: nat, payload: Payload)

  datatype Sys = Sys(honest: map<nat, Server>, sent: set<Msg>)

  /** The window of server i closes with the given clients handled; a message reaches server i,
      which would commit to mine next; a server outside the honest ones sends a message. */
  datatype Action = Close(i: nat, clients: Bits) | Deliver(i: nat, msg: Msg, mine: Buf) | Forge(msg: Msg)

  function Opening(T: Setting, v: Server, clients: Bits): Server {
    Advance(T, v.(handledClients := clients), [])
  }

  /** What entering a new stage adds to the network. */
  function Sends(T: Setting, i: nat, v: Server, w: Server): set<Msg> {
    if w.stage == v.stage || w.stage == Clients then {} else {Msg(i, w.Phase(), Broadcasts(T, i, w))}
  }

  ghost predicate Enabled(T: Setting, sys: Sys, a: Action) {
    match a
    case Close(i, _) => i in sys.honest && sys.honest[i].stage == Clients
    case Deliver(i, msg, _) => i in sys.honest && msg in sys.sent && msg.phase == sys.honest[i].Phase()
    case Forge(msg) => msg.from !in sys.honest
  }

  function Updated(T: Setting, sys: Sys, i: nat, w: Server): Sys
    requires i in sys.honest
  {
    Sys(sys.honest[i := w], sys.sent + Sends(T, i, sys.honest[i], w))
  }

  ghost function Next(T: Setting, sys: Sys, a: Action): Sys
    requires Enabled(T, sys, a)
  {
    match a
    case Close(i, clients) => Updated(T, sys, i, Opening(T, sys.honest[i], clients))
    case Deliver(i, msg, mine) => Updated(T, sys, i, Handled(T, i, sys.honest[i], msg.from, msg.payload, mine))
    case Forge(msg) => sys.(sent := sys.sent + {msg})
  }

  // ----- what holds throughout -----

  /** Two servers signed the same hash in phase p. */
  ghost predicate Matches(T: Setting, v: Server, w: Server, p: nat) {
    && p < |v.proposed| && p < |w.proposed|
    && SignedHash(T, v.proposed[p]) == SignedHash(T, w.proposed[p])
  }

  /** An honest server's validation carries the signature of what it proposed. */
  ghost predicate Genuine(T: Setting, sys: Sys, msg: Msg) {
    msg.from in sys.honest && msg.payload.Validation? ==>
      var v := sys.honest[msg.from];
      msg.phase < |v.proposed| && msg.payload.signature == Signature(msg.from, SignedHash(T, v.proposed[msg.phase]))
  }

  /** Servers whose validation was taken signed the same hash. */
  ghost predicate Collected(T: Setting, sys: Sys, i: nat, j: nat)
    requires i in sys.honest && j in sys.honest
  {
    var v := sys.honest[i];
    v.stage.Validations? && j in v.handledServers ==> Matches(T, v, sys.honest[j], v.Phase())
  }

  /** What a server pushed, all honest servers signed. */
  ghost predicate Backed(T: Setting, sys: Sys, i: nat, j: nat)
    requires i in sys.honest && j in sys.honest
  {
    forall p :: 0 <= p < |sys.honest[i].pushed| ==> Matches(T, sys.honest[i], sys.honest[j], p)
  }

  ghost predicate SysInv(T: Setting, sys: Sys) {
    && (forall i :: i in sys.honest ==> i < T.servers && Inv(T, sys.honest[i]))
    && (forall msg :: msg in sys.sent ==> Genuine(T, sys, msg))
    && (forall i, j :: i in sys.honest && j in sys.honest ==> Collected(T, sys, i, j) && Backed(T, sys, i, j))
  }

  // ----- every action keeps it -----

  ghost predicate Extends(v: Server, w: Server) {
    |v.proposed| <= |w.proposed| && w.proposed[..|v.proposed|] == v.proposed
  }

  lemma {:induction false} MatchesGrows(T: Setting, v: Server, w: Server, v': Server, w': Server, p: nat)
    requires Matches(T, v, w, p) && Extends(v, v') && Extends(w, w')
    ensures Matches(T, v', w', p)
  {
    assert v'.proposed[p] == v.proposed[p] && w'.proposed[p] == w.proposed[p];
  }

  /** What one server's move has to satisfy for the whole to stay consistent. */
  ghost predicate GoodMove(T: Setting, sys: Sys, i: nat, w: Server)
    requires i in sys.honest
  {
    var v := sys.honest[i];
    && Inv(T, w) && Extends(v, w)
    && (w.stage.Validations? && v.stage == w.stage ==> w.Phase() == v.Phase() && w.proposed == v.proposed)
    && (w.stage.Validations? ==> forall j :: j in w.handledServers && j in sys.honest ==> Matches(T, w, sys.honest[j], w.Phase()))
    && (forall j, p :: j in sys.honest && 0 <= p < |w.pushed| ==> Matches(T, w, sys.honest[j], p))
  }

  lemma {:induction false} GenuineAfter(T: Setting, sys: Sys, i: nat, w: Server, msg: Msg)
    requires SysInv(T, sys) && i in sys.honest && GoodMove(T, sys, i, w)
    requires msg in Updated(T, sys, i, w).sent
    ensures Genuine(T, Updated(T, sys, i, w), msg)
  {
    if msg in sys.sent {
      assert Genuine(T, sys, msg);
    }
  }

  lemma {:induction false} PairAfter(T: Setting, sys: Sys, i: nat, w: Server, a: nat, b: nat)
    requires SysInv(T, sys) && i in sys.honest && GoodMove(T, sys, i, w)
    requires a in sys.honest && b in sys.honest
    ensures Collected(T, Updated(T, sys, i, w), a, b) && Backed(T, Updated(T, sys, i, w), a, b)
  {
    var sys' := Updated(T, sys, i, w);
    var x, y, y' := sys'.honest[a], sys.honest[b], sys'.honest[b];
    assert Extends(y, y');
    assert Collected(T, sys, a, b) && Backed(T, sys, a, b);
    if x.stage.Validations? && b in x.handledServers {
      assert Matches(T, x, y, x.Phase());
      MatchesGrows(T, x, y, x, y', x.Phase());
    }
    forall p | 0 <= p < |x.pushed| ensures Matches(T, x, y', p) {
      assert Matches(T, x, y, p);
      MatchesGrows(T, x, y, x, y', p);
    }
  }

  lemma {:induction false} MoveKeepsInv(T: Setting, sys: Sys, i: nat, w: Server)
    requires SysInv(T, sys) && i in sys.honest && GoodMove(T, sys, i, w)
    ensures SysInv(T, Updated(T, sys, i, w))
  {
    var sys' := Updated(T, sys, i, w);
    forall msg | msg in sys'.sent ensures Genuine(T, sys', msg) {
      GenuineAfter(T, sys, i, w, msg);
    }
    forall a, b | a in sys'.honest && b in sys'.honest ensures Collected(T, sys', a, b) && Backed(T, sys', a, b) {
      PairAfter(T, sys, i, w, a, b);
    }
  }

  /** Noting a message that was really sent: a validation that verifies matches its sender's. */
  lemma {:induction false} NotedMove(T: Setting, sys: Sys, i: nat, msg: Msg)
    requires SysInv(T, sys) && i in sys.honest && msg in sys.sent && msg.phase == sys.honest[i].Phase()
    requires Accepts(T, sys.honest[i], msg.from, msg.payload)
    ensures GoodMove(T, sys, i, Noted(T, sys.honest[i], msg.from, msg.payload))
  {
    var v, w := sys.honest[i], Noted(T, sys.honest[i], msg.from, msg.payload);
    NotedKeepsInv(T, v, msg.from, msg.payload);
    if w.stage.Validations? {
      forall j | j in w.handledServers && j in sys.honest ensures Matches(T, w, sys.honest[j], w.Phase()) {
        if j == msg.from && j !in v.handledServers {
          assert Genuine(T, sys, msg);
        } else {
          assert Collected(T, sys, i, j);
        }
      }
    }
    assert w.proposed == v.proposed && w.pushed == v.pushed;
    forall j, p | j in sys.honest && 0 <= p < |w.pushed| ensures Matches(T, w, sys.honest[j], p) {
      assert Backed(T, sys, i, j);
      assert Matches(T, v, sys.honest[j], p);
    }
  }

  lemma {:induction false} AdvanceMove(T: Setting, sys: Sys, i: nat, n: Server, mine: Buf)
    requires SysInv(T, sys) && i in sys.honest && GoodMove(T, sys, i, n) && n.stage == sys.honest[i].stage
    requires n.stage == Clients || |n.handledServers| == T.servers
    ensures GoodMove(T, sys, i, Advance(T, n, mine))
  {
    var w := Advance(T, n, mine);
    AdvanceKeepsInv(T, n, mine);
    AdvanceShape(T, n, mine);
    forall j, p | j in sys.honest && 0 <= p < |w.pushed| ensures Matches(T, w, sys.honest[j], p) {
      AdvanceMatches(T, sys, i, n, w, j, p);
    }
  }

  lemma {:induction false} AdvanceMatches(T: Setting, sys: Sys, i: nat, n: Server, w: Server, j: nat, p: nat)
    requires SysInv(T, sys) && i in sys.honest && GoodMove(T, sys, i, n) && j in sys.honest && p < |w.pushed|
    requires Extends(n, w) && |w.pushed| == |n.pushed| + (if n.stage.Validations? then 1 else 0)
    requires n.stage == Clients || |n.handledServers| == T.servers
    ensures Matches(T, w, sys.honest[j], p)
  {
    if p >= |n.pushed| {
      FullSet(n.handledServers, T.servers);
      assert j in n.handledServers;
    }
    assert Matches(T, n, sys.honest[j], p);
    MatchesGrows(T, n, sys.honest[j], w, sys.honest[j], p);
  }

  lemma {:induction false} AdvanceShape(T: Setting, n: Server, mine: Buf)
    requires Inv(T, n)
    ensures var w := Advance(T, n, mine);
            && w.stage != n.stage && w.handledServers == {} && Extends(n, w)
            && |w.pushed| == |n.pushed| + (if n.stage.Validations? then 1 else 0)
  {
  }

  lemma {:induction false} IdleMove(T: Setting, sys: Sys, i: nat, clients: Bits)
    requires SysInv(T, sys) && i in sys.honest
    ensures GoodMove(T, sys, i, sys.honest[i].(handledClients := clients))
  {
    var v := sys.honest[i];
    var w := v.(handledClients := clients);
    forall j | j in v.handledServers && j in sys.honest && v.stage.Validations? ensures Matches(T, w, sys.honest[j], v.Phase()) {
      assert Collected(T, sys, i, j);
    }
    forall j, p | j in sys.honest && 0 <= p < |v.pushed| ensures Matches(T, w, sys.honest[j], p) {
      assert Backed(T, sys, i, j);
      assert Matches(T, v, sys.honest[j], p);
    }
  }

  /** Every action of every server, honest or not, keeps the invariant. */
  lemma {:induction false} NextKeepsInv(T: Setting, sys: Sys, a: Action)
    requires SysInv(T, sys) && Enabled(T, sys, a)
    ensures SysInv(T, Next(T, sys, a))
  {
    match a
    case Close(i, clients) =>
      IdleMove(T, sys, i, clients);
      var n := sys.honest[i].(handledClients := clients);
      AdvanceMove(T, sys, i, n, []);
      MoveKeepsInv(T, sys, i, Opening(T, sys.honest[i], clients));
    case Deliver(i, msg, mine) =>
      var v := sys.honest[i];
      if Accepts(T, v, msg.from, msg.payload) {
        NotedMove(T, sys, i, msg);
        var n := Noted(T, v, msg.from, msg.payload);
        if |n.handledServers| == T.servers {
          AdvanceMove(T, sys, i, n, mine);
        }
      } else {
        IdleMove(T, sys, i, v.handledClients);
      }
      MoveKeepsInv(T, sys, i, Handled(T, i, v, msg.from, msg.payload, mine));
    case Forge(msg) =>
      var sys' := Next(T, sys, a);
      assert forall i, j :: i in sys.honest && j in sys.honest ==>
        (Collected(T, sys', i, j) <==> Collected(T, sys, i, j)) && (Backed(T, sys', i, j) <==> Backed(T, sys, i, j));
      assert forall m :: m in sys.sent ==> (Genuine(T, sys', m) <==> Genuine(T, sys, m));
  }

  // ----- runs -----

  /** No server has done anything yet. */
  ghost predicate Initial(T: Setting, sys: Sys) {
    && sys.sent == {}
    && forall i :: i in sys.honest ==>
         i < T.servers && sys.honest[i] == Server(Clients, {}, [], [], map[], map[], [], [], [])
  }

  ghost predicate Run(T: Setting, states: seq<Sys>, actions: seq<Action>) {
    && |states| == |actions| + 1
    && Initial(T, states[0])
    && forall t :: 0 <= t < |actions| ==> Enabled(T, states[t], actions[t]) && states[t + 1] == Next(T, states[t], actions[t])
  }

  lemma {:induction false} RunKeepsInv(T: Setting, states: seq<Sys>, actions: seq<Action>, t: nat)
    requires Run(T, states, actions) && t < |states|
    ensures SysInv(T, states[t])
  {
    if t > 0 {
      RunKeepsInv(T, states, actions, t - 1);
      NextKeepsInv(T, states[t - 1], actions[t - 1]);
    }
  }

  // ----- agreement -----

  lemma {:induction false} SameResult(T: Setting, r: Result, r': Result)
    requires T.Ideal() && |r.cleartext| == |r'.cleartext| && SignedHash(T, r) == SignedHash(T, r')
    ensures r == r'
  {
    var a, b := T.encode(r.online), T.encode(r'.online);
    assert r.cleartext + a == r'.cleartext + b;
    assert r.cleartext == (r.cleartext + a)[..|r.cleartext|] == (r'.cleartext + b)[..|r.cleartext|] == r'.cleartext;
    assert a == (r.cleartext + a)[|r.cleartext|..] == (r'.cleartext + b)[|r.cleartext|..] == b;
  }

  lemma {:induction false} AgreeTo(T: Setting, sys: Sys, i: nat, j: nat, p: nat)
    requires T.Ideal() && SysInv(T, sys) && i in sys.honest && j in sys.honest
    requires p <= |sys.honest[i].pushed| && p <= |sys.honest[j].pushed|
    ensures sys.honest[i].pushed[..p] == sys.honest[j].pushed[..p]
  {
    if p > 0 {
      AgreeTo(T, sys, i, j, p - 1);
      var v, w, k := sys.honest[i], sys.honest[j], p - 1;
      assert Backed(T, sys, i, j);
      assert Matches(T, v, w, k);
      assert v.pushed[k] == v.proposed[k] && w.pushed[k] == w.proposed[k];
      assert v.proposed[..k] == v.pushed[..k] && w.proposed[..k] == w.pushed[..k];
      SameResult(T, v.pushed[k], w.pushed[k]);
      assert v.pushed[..p] == v.pushed[..k] + [v.pushed[k]] && w.pushed[..p] == w.pushed[..k] + [w.pushed[k]];
    }
  }

  /** Phase agreement: at any time of any run, two honest servers have pushed the same cleartext
      and the same online clients in every phase that both have pushed. */
  lemma {:induction false} HonestServersAgree(T: Setting, states: seq<Sys>, actions: seq<Action>, t: nat, i: nat, j: nat, p: nat)
    requires T.Ideal() && Run(T, states, actions) && t < |states|
    requires i in states[t].honest && j in states[t].honest
    requires p < |states[t].honest[i].pushed| && p < |states[t].honest[j].pushed|
    ensures states[t].honest[i].pushed[p] == states[t].honest[j].pushed[p]
  {
    RunKeepsInv(T, states, actions, t);
    var v, w := states[t].honest[i], states[t].honest[j];
    AgreeTo(T, states[t], i, j, p + 1);
    assert v.pushed[p] == v.pushed[..p + 1][p] && w.pushed[p] == w.pushed[..p + 1][p];
  }

  /** Commit before reveal: in every run, a ciphertext that an honest server folded in matches the
      only commit it recorded from that sender in that phase, and at that time it had recorded
      commits from all servers and had not yet sent its own ciphertext. */
  lemma {:induction false} CommitsPrecede(T: Setting, states: seq<Sys>, actions: seq<Action>, t: nat, i: nat, c: nat)
    requires Run(T, states, actions) && t < |states| && i in states[t].honest
    requires c < |states[t].honest[i].log| && states[t].honest[i].log[c].Folded?
    ensures var log, e := states[t].honest[i].log, states[t].honest[i].log[c];
            && (exists b :: 0 <= b < c && log[b].SentCiphertext? && log[b].phase == e.phase
                 && Earlier(log, b, RecordedCommit(e.phase, e.server, T.hash(e.text)))
                 && forall s: nat :: s < T.servers ==> Committed(log, b, e.phase, s))
            && CommitsOnce(log)
  {
    RunKeepsInv(T, states, actions, t);
    assert FoldedAt(T, states[t].honest[i].log, c);
  }
}
