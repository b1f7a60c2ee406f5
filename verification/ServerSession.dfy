/** The servers' session set-up: Init, Enlist, Agree, Register, List, Verify. Every honest server
    may restart at any time, and any message that was ever signed may arrive at any time. */
module ServerSession {
  import opened Counting

  datatype Stage = Waiting | Enlisting | Agreeing | Registering | Exchanging | Verifying | Communicating

  function Rank(stage: Stage): nat {
    match stage
    case Waiting => 0
    case Enlisting => 1
    case Agreeing => 2
    case Registering => 3
    case Exchanging => 4
    case Verifying => 5
    case Communicating => 6
  }

  /** A server's ephemeral key for one proposal; a client's registration for one round. */
  datatype Enlist = Enlist(id: nat, init: nat, key: nat)
  datatype Registration = Registration(client: nat, rid: nat, key: nat)

  type Enlists = map<nat, Enlist>
  type Clients = map<nat, Registration>

  /** The number of servers and the two hashes: of the enlist messages in server order, which is
      the round's id, and of the client list. */
  datatype Setting = Setting(servers: nat, roundId: Enlists -> nat, listHash: Clients -> nat)
  {
    ghost predicate Ideal() {
      && (forall a, b :: roundId(a) == roundId(b) ==> a == b)
      && (forall a, b :: listHash(a) == listHash(b) ==> a == b)
    }
  }

  /** What one attempt at a session has gathered. */
  datatype Session = Session(stage: Stage, init: nat, key: nat, enlists: Enlists, rid: nat, agreed: map<nat, nat>,
                             registered: Clients, received: set<nat>, clients: Clients, verified: set<nat>)

  const FRESH: Session := Session(Waiting, 0, 0, map[], 0, map[], map[], {}, map[], {})

  // ----- the handlers -----

  /** InitState and EnlistState::Init: a new ephemeral key for the adopted proposal. */
  function Adopt(s: Session, init: nat, key: nat): Session {
    if s.stage == Waiting then s.(stage := Enlisting, init := init, key := key) else s
  }

  /** EnlistState::VerifyEnlist, signature aside; on the last one AgreeState::Init. */
  function TakeEnlist(T: Setting, s: Session, e: Enlist): Session {
    if s.stage != Enlisting || e.id >= T.servers || e.init != s.init || e.id in s.enlists then s
    else
      var enlists := s.enlists[e.id := e];
      if |enlists| == T.servers then s.(enlists := enlists, stage := Agreeing, rid := T.roundId(enlists))
      else s.(enlists := enlists)
  }

  /** AgreeState::ProcessPacket, signature aside. */
  function TakeAgree(T: Setting, s: Session, from: nat, rid: nat, key: nat): Session {
    if s.stage != Agreeing || from >= T.servers || from in s.agreed || rid != s.rid
       || from !in s.enlists || s.enlists[from].key != key then s
    else
      var agreed := s.agreed[from := key];
      if |agreed| == T.servers then s.(agreed := agreed, stage := Registering) else s.(agreed := agreed)
  }

  /** RegisteringState::ProcessPacket. */
  function TakeRegister(s: Session, r: Registration): Session {
    if s.stage != Registering || r.client in s.registered || r.rid != s.rid then s
    else s.(registered := s.registered[r.client := r])
  }

  function CloseRegistration(s: Session): Session {
    if s.stage == Registering then s.(stage := Exchanging) else s
  }

  /** The merge of one server's list: the last writer wins. */
  function Merged(registered: Clients, list: seq<Registration>): Clients {
    if list == [] then registered
    else Merged(registered, list[..|list| - 1])[list[|list| - 1].client := list[|list| - 1]]
  }

  predicate ForRound(list: seq<Registration>, rid: nat) {
    forall k :: 0 <= k < |list| ==> list[k].rid == rid
  }

  /** ListExchangeState::ProcessPacket. */
  function TakeList(T: Setting, s: Session, from: nat, list: seq<Registration>): Session {
    if s.stage != Exchanging || from >= T.servers || from in s.received || !ForRound(list, s.rid) then s
    else
      var registered, received := Merged(s.registered, list), s.received + {from};
      if |received| == T.servers
      then s.(registered := registered, received := received, clients := registered, stage := Verifying)
      else s.(registered := registered, received := received)
  }

  /** VerifyListState::ProcessPacket, signature aside. */
  function TakeVerify(T: Setting, s: Session, from: nat, hash: nat): Session {
    if s.stage != Verifying || from >= T.servers || from in s.verified || hash != T.listHash(s.clients) then s
    else
      var verified := s.verified + {from};
      if |verified| == T.servers then s.(verified := verified, stage := Communicating) else s.(verified := verified)
  }

  // ----- all servers -----

  datatype Signed = SignedEnlist(id: nat, e: Enlist) | SignedAgree(id: nat, rid: nat, key: nat) | SignedList(id: nat, hash: nat)

  /** The attempts of every honest server, the last one current; a supply of fresh keys; and
      everything that honest servers have signed. */
  datatype Sys = Sys(honest: map<nat, seq<Session>>, clock: nat, signed: set<Signed>)

  datatype Action =
    | DoRestart(i: nat)
    | DoAdopt(i: nat, init: nat)
    | DoEnlist(i: nat, e: Enlist)
    | DoAgree(i: nat, from: nat, rid: nat, key: nat)
    | DoRegister(i: nat, r: Registration)
    | DoClose(i: nat)
    | DoList(i: nat, from: nat, list: seq<Registration>)
    | DoVerify(i: nat, from: nat, hash: nat)

  /** An honest server's signature exists only if that server made it. */
  predicate Authentic(sys: Sys, x: Signed) {
    x.id in sys.honest ==> x in sys.signed
  }

  function Current(sys: Sys, i: nat): Session
    requires i in sys.honest && |sys.honest[i]| > 0
  {
    sys.honest[i][|sys.honest[i]| - 1]
  }

  /** The server that proposes sessions; an honest one draws a new nonce each time. */
  const PROPOSER: nat := 0

  predicate NewProposal(history: seq<Session>, init: nat) {
    forall k :: 0 <= k < |history| ==> !TookUp(history[k], init)
  }

  ghost predicate Enabled(sys: Sys, a: Action) {
    && a.i in sys.honest && |sys.honest[a.i]| > 0
    && match a
       case DoAdopt(i, init) => i == PROPOSER ==> NewProposal(sys.honest[i], init)
       case DoEnlist(_, e) => Authentic(sys, SignedEnlist(e.id, e))
       case DoAgree(_, from, rid, key) => Authentic(sys, SignedAgree(from, rid, key))
       case DoVerify(_, from, hash) => Authentic(sys, SignedList(from, hash))
       case _ => true
  }

  /** What entering a new stage signs. */
  function Signs(T: Setting, i: nat, s: Session, s': Session): set<Signed> {
    if s'.stage == s.stage then {}
    else match s'.stage
      case Enlisting => {SignedEnlist(i, Enlist(i, s'.init, s'.key))}
      case Agreeing => {SignedAgree(i, s'.rid, s'.key)}
      case Verifying => {SignedList(i, T.listHash(s'.clients))}
      case _ => {}
  }

  function Moved(T: Setting, sys: Sys, a: Action, s: Session): Session {
    match a
    case DoRestart(_) => s
    case DoAdopt(_, init) => Adopt(s, init, sys.clock)
    case DoEnlist(_, e) => TakeEnlist(T, s, e)
    case DoAgree(_, from, rid, key) => TakeAgree(T, s, from, rid, key)
    case DoRegister(_, r) => TakeRegister(s, r)
    case DoClose(_) => CloseRegistration(s)
    case DoList(_, from, list) => TakeList(T, s, from, list)
    case DoVerify(_, from, hash) => TakeVerify(T, s, from, hash)
  }

  function Replaced(history: seq<Session>, s: Session): seq<Session>
    requires |history| > 0
  {
    history[|history| - 1 := s]
  }

  function Next(T: Setting, sys: Sys, a: Action): Sys
    requires a.i in sys.honest && |sys.honest[a.i]| > 0
  {
    if a.DoRestart? then sys.(honest := sys.honest[a.i := sys.honest[a.i] + [FRESH]])
    else
      var s := Current(sys, a.i);
      var s' := Moved(T, sys, a, s);
      Sys(sys.honest[a.i := Replaced(sys.honest[a.i], s')],
          if a.DoAdopt? then sys.clock + 1 else sys.clock,
          sys.signed + Signs(T, a.i, s, s'))
  }

  // ----- what holds throughout -----

  ghost predicate EnlistsFit(T: Setting, sys: Sys, s: Session) {
    forall id :: id in s.enlists ==>
      id < T.servers && s.enlists[id].id == id && s.enlists[id].init == s.init && Authentic(sys, SignedEnlist(id, s.enlists[id]))
  }

  ghost predicate AgreedFit(T: Setting, sys: Sys, s: Session) {
    forall id :: id in s.agreed ==>
      id < T.servers && id in s.enlists && s.agreed[id] == s.enlists[id].key && Authentic(sys, SignedAgree(id, s.rid, s.agreed[id]))
  }

  ghost predicate ClientsFit(s: Session) {
    && (forall c :: c in s.registered ==> s.registered[c].rid == s.rid)
    && (forall c :: c in s.clients ==> s.clients[c].rid == s.rid)
  }

  ghost predicate VerifiedFit(T: Setting, sys: Sys, s: Session) {
    forall id :: id in s.verified ==> id < T.servers && Authentic(sys, SignedList(id, T.listHash(s.clients)))
  }

  /** Before a stage is reached, what it gathers is empty; after it, it is complete. */
  ghost predicate StageFits(T: Setting, s: Session) {
    && (Rank(s.stage) < 1 ==> s.enlists == map[])
    && (Rank(s.stage) >= 2 ==> |s.enlists| == T.servers && s.rid == T.roundId(s.enlists))
    && (Rank(s.stage) < 2 ==> s.agreed == map[])
    && (Rank(s.stage) >= 3 ==> |s.agreed| == T.servers)
    && (Rank(s.stage) < 3 ==> s.registered == map[])
    && (Rank(s.stage) < 5 ==> s.clients == map[] && s.verified == {})
    && (Rank(s.stage) >= 6 ==> |s.verified| == T.servers)
  }

  ghost predicate SessionInv(T: Setting, sys: Sys, s: Session) {
    && (s.stage != Waiting ==> s.key < sys.clock)
    && StageFits(T, s) && EnlistsFit(T, sys, s) && AgreedFit(T, sys, s) && ClientsFit(s) && VerifiedFit(T, sys, s)
  }

  /** The attempt that a signature comes from. */
  ghost predicate Origin(T: Setting, x: Signed, s: Session) {
    match x
    case SignedEnlist(id, e) => s.stage != Waiting && e == Enlist(id, s.init, s.key)
    case SignedAgree(_, rid, key) => Rank(s.stage) >= 2 && s.rid == rid && s.key == key
    case SignedList(_, hash) => Rank(s.stage) >= 5 && hash == T.listHash(s.clients)
  }

  ghost predicate HasOrigin(T: Setting, sys: Sys, x: Signed) {
    x.id in sys.honest ==> exists k :: 0 <= k < |sys.honest[x.id]| && Origin(T, x, sys.honest[x.id][k])
  }

  ghost predicate SysInv(T: Setting, sys: Sys) {
    && (forall i :: i in sys.honest ==> i < T.servers && |sys.honest[i]| > 0)
    && (forall i, k :: i in sys.honest && 0 <= k < |sys.honest[i]| ==> SessionInv(T, sys, sys.honest[i][k]))
    && (forall x :: x in sys.signed ==> HasOrigin(T, sys, x))
  }

  // ----- every action keeps it -----

  /** An attempt never loses what it has signed. */
  ghost predicate Evolves(s: Session, s': Session) {
    && Rank(s.stage) <= Rank(s'.stage)
    && (s.stage != Waiting ==> s'.init == s.init && s'.key == s.key)
    && (Rank(s.stage) >= 2 ==> s'.rid == s.rid && s'.enlists == s.enlists)
    && (Rank(s.stage) >= 5 ==> s'.clients == s.clients)
  }

  lemma {:induction false} MergedFits(registered: Clients, list: seq<Registration>, rid: nat)
    requires forall c :: c in registered ==> registered[c].rid == rid
    requires ForRound(list, rid)
    ensures forall c :: c in Merged(registered, list) ==> Merged(registered, list)[c].rid == rid
  {
    if list != [] {
      MergedFits(registered, list[..|list| - 1], rid);
    }
  }

  /** More has been signed, more keys are in use; the servers are the same. */
  ghost predicate Grown(sys: Sys, sys': Sys) {
    sys.honest.Keys == sys'.honest.Keys && sys.clock <= sys'.clock && sys.signed <= sys'.signed
  }

  lemma {:induction false} SessionGrows(T: Setting, sys: Sys, sys': Sys, s: Session)
    requires SessionInv(T, sys, s) && Grown(sys, sys')
    ensures SessionInv(T, sys', s)
  {
  }

  lemma {:induction false} AdoptFits(T: Setting, sys: Sys, s: Session, init: nat)
    requires SessionInv(T, sys, s)
    ensures Evolves(s, Adopt(s, init, sys.clock))
    ensures SessionInv(T, sys.(clock := sys.clock + 1), Adopt(s, init, sys.clock))
  {
    SessionGrows(T, sys, sys.(clock := sys.clock + 1), s);
  }

  lemma {:induction false} EnlistFits(T: Setting, sys: Sys, s: Session, e: Enlist)
    requires SessionInv(T, sys, s) && Authentic(sys, SignedEnlist(e.id, e))
    ensures Evolves(s, TakeEnlist(T, s, e)) && SessionInv(T, sys, TakeEnlist(T, s, e))
  {
  }

  lemma {:induction false} AgreeFits(T: Setting, sys: Sys, s: Session, from: nat, rid: nat, key: nat)
    requires SessionInv(T, sys, s) && Authentic(sys, SignedAgree(from, rid, key))
    ensures Evolves(s, TakeAgree(T, s, from, rid, key)) && SessionInv(T, sys, TakeAgree(T, s, from, rid, key))
  {
  }

  lemma {:induction false} RegisterFits(T: Setting, sys: Sys, s: Session, r: Registration)
    requires SessionInv(T, sys, s)
    ensures Evolves(s, TakeRegister(s, r)) && SessionInv(T, sys, TakeRegister(s, r))
  {
    var s' := TakeRegister(s, r);
    assert s' == s.(registered := s'.registered);
    assert EnlistsFit(T, sys, s') && AgreedFit(T, sys, s') && VerifiedFit(T, sys, s');
  }

  lemma {:induction false} CloseFits(T: Setting, sys: Sys, s: Session)
    requires SessionInv(T, sys, s)
    ensures Evolves(s, CloseRegistration(s)) && SessionInv(T, sys, CloseRegistration(s))
  {
    var s' := CloseRegistration(s);
    assert s' == s.(stage := s'.stage);
    assert EnlistsFit(T, sys, s') && AgreedFit(T, sys, s') && VerifiedFit(T, sys, s');
  }

  lemma {:induction false} ListFits(T: Setting, sys: Sys, s: Session, from: nat, list: seq<Registration>)
    requires SessionInv(T, sys, s)
    ensures Evolves(s, TakeList(T, s, from, list)) && SessionInv(T, sys, TakeList(T, s, from, list))
  {
    if ForRound(list, s.rid) {
      MergedFits(s.registered, list, s.rid);
    }
  }

  lemma {:induction false} VerifyStage(T: Setting, s: Session, from: nat, hash: nat)
    requires StageFits(T, s)
    ensures Evolves(s, TakeVerify(T, s, from, hash)) && StageFits(T, TakeVerify(T, s, from, hash))
    ensures var s' := TakeVerify(T, s, from, hash); s' == s.(verified := s'.verified, stage := s'.stage)
  {
    var s' := TakeVerify(T, s, from, hash);
    if s' != s {
      assert Rank(s.stage) == 5 <= Rank(s'.stage);
      assert s' == s.(verified := s'.verified, stage := s'.stage);
      assert Rank(s'.stage) == 6 ==> |s'.verified| == T.servers;
    }
  }

  lemma {:induction false} VerifyAdds(T: Setting, sys: Sys, s: Session, from: nat, hash: nat)
    requires VerifiedFit(T, sys, s) && Authentic(sys, SignedList(from, hash))
    ensures VerifiedFit(T, sys, TakeVerify(T, s, from, hash))
  {
    var s' := TakeVerify(T, s, from, hash);
    forall id | id in s'.verified ensures id < T.servers && Authentic(sys, SignedList(id, T.listHash(s'.clients))) {
      assert id in s.verified || (id == from && hash == T.listHash(s.clients));
    }
  }

  lemma {:induction false} VerifyFits(T: Setting, sys: Sys, s: Session, from: nat, hash: nat)
    requires SessionInv(T, sys, s) && Authentic(sys, SignedList(from, hash))
    ensures Evolves(s, TakeVerify(T, s, from, hash)) && SessionInv(T, sys, TakeVerify(T, s, from, hash))
  {
    var s' := TakeVerify(T, s, from, hash);
    VerifyStage(T, s, from, hash);
    VerifyAdds(T, sys, s, from, hash);
    OthersFit(T, sys, s, s');
  }

  lemma {:induction false} OthersFit(T: Setting, sys: Sys, s: Session, s': Session)
    requires s' == s.(verified := s'.verified, stage := s'.stage)
    requires EnlistsFit(T, sys, s) && AgreedFit(T, sys, s) && ClientsFit(s)
    ensures EnlistsFit(T, sys, s') && AgreedFit(T, sys, s') && ClientsFit(s')
  {
  }

  function Ticked(sys: Sys, a: Action): Sys {
    if a.DoAdopt? then sys.(clock := sys.clock + 1) else sys
  }

  lemma {:induction false} MovedFits(T: Setting, sys: Sys, a: Action, s: Session)
    requires SessionInv(T, sys, s) && Enabled(sys, a)
    ensures Evolves(s, Moved(T, sys, a, s)) && SessionInv(T, Ticked(sys, a), Moved(T, sys, a, s))
  {
    match a
    case DoRestart(_) =>
    case DoAdopt(_, init) => AdoptFits(T, sys, s, init);
    case DoEnlist(_, e) => EnlistFits(T, sys, s, e);
    case DoAgree(_, from, rid, key) => AgreeFits(T, sys, s, from, rid, key);
    case DoRegister(_, r) => RegisterFits(T, sys, s, r);
    case DoClose(_) => CloseFits(T, sys, s);
    case DoList(_, from, list) => ListFits(T, sys, s, from, list);
    case DoVerify(_, from, hash) => VerifyFits(T, sys, s, from, hash);
  }

  lemma {:induction false} OriginEvolves(T: Setting, x: Signed, s: Session, s': Session)
    requires Origin(T, x, s) && Evolves(s, s')
    ensures Origin(T, x, s')
  {
  }

  lemma {:induction false} OriginSigned(T: Setting, i: nat, s: Session, s': Session, x: Signed)
    requires x in Signs(T, i, s, s')
    ensures x.id == i && Origin(T, x, s')
  {
  }

  lemma {:induction false} HistoryEvolves(T: Setting, sys: Sys, a: Action, i: nat, k: nat)
    requires SysInv(T, sys) && Enabled(sys, a) && i in sys.honest && k < |sys.honest[i]|
    ensures k < |Next(T, sys, a).honest[i]| && Evolves(sys.honest[i][k], Next(T, sys, a).honest[i][k])
  {
    if i == a.i && !a.DoRestart? && k == |sys.honest[i]| - 1 {
      assert SessionInv(T, sys, sys.honest[i][k]);
      MovedFits(T, sys, a, sys.honest[i][k]);
    } else {
      assert Next(T, sys, a).honest[i][k] == sys.honest[i][k];
    }
  }

  lemma {:induction false} OldOrigin(T: Setting, sys: Sys, a: Action, x: Signed)
    requires SysInv(T, sys) && Enabled(sys, a) && x.id in sys.honest && x in sys.signed
    ensures HasOrigin(T, Next(T, sys, a), x)
  {
    var h, h' := sys.honest[x.id], Next(T, sys, a).honest[x.id];
    assert HasOrigin(T, sys, x);
    var k :| 0 <= k < |h| && Origin(T, x, h[k]);
    HistoryEvolves(T, sys, a, x.id, k);
    OriginEvolves(T, x, h[k], h'[k]);
  }

  lemma {:induction false} HasOriginAfter(T: Setting, sys: Sys, a: Action, x: Signed)
    requires SysInv(T, sys) && Enabled(sys, a) && x in Next(T, sys, a).signed
    ensures HasOrigin(T, Next(T, sys, a), x)
  {
    if x.id in sys.honest {
      if x in sys.signed {
        OldOrigin(T, sys, a, x);
      } else {
        var s, h' := Current(sys, a.i), Next(T, sys, a).honest[a.i];
        OriginSigned(T, a.i, s, Moved(T, sys, a, s), x);
        assert Origin(T, x, h'[|h'| - 1]);
      }
    }
  }

  lemma {:induction false} SessionAfter(T: Setting, sys: Sys, a: Action, i: nat, k: nat)
    requires SysInv(T, sys) && Enabled(sys, a) && i in sys.honest && k < |Next(T, sys, a).honest[i]|
    ensures SessionInv(T, Next(T, sys, a), Next(T, sys, a).honest[i][k])
  {
    var sys' := Next(T, sys, a);
    if i == a.i && k == |sys'.honest[i]| - 1 {
      if !a.DoRestart? {
        MovedFits(T, sys, a, Current(sys, i));
        SessionGrows(T, Ticked(sys, a), sys', sys'.honest[i][k]);
      }
    } else {
      assert SessionInv(T, sys, sys.honest[i][k]);
      SessionGrows(T, sys, sys', sys.honest[i][k]);
    }
  }

  /** Every action keeps the invariant. */
  lemma {:induction false} NextKeepsInv(T: Setting, sys: Sys, a: Action)
    requires SysInv(T, sys) && Enabled(sys, a)
    ensures SysInv(T, Next(T, sys, a))
  {
    var sys' := Next(T, sys, a);
    forall i, k | i in sys'.honest && 0 <= k < |sys'.honest[i]| ensures SessionInv(T, sys', sys'.honest[i][k]) {
      SessionAfter(T, sys, a, i, k);
    }
    forall x | x in sys'.signed ensures HasOrigin(T, sys', x) {
      HasOriginAfter(T, sys, a, x);
    }
  }

  // ----- runs -----

  ghost predicate Initial(T: Setting, sys: Sys) {
    sys.clock == 0 && sys.signed == {} && forall i :: i in sys.honest ==> i < T.servers && sys.honest[i] == [FRESH]
  }

  ghost predicate Run(T: Setting, states: seq<Sys>, actions: seq<Action>) {
    && |states| == |actions| + 1
    && Initial(T, states[0])
    && forall t :: 0 <= t < |actions| ==> Steps(T, states[t], actions[t], states[t + 1])
  }

  ghost predicate Steps(T: Setting, sys: Sys, a: Action, sys': Sys) {
    Enabled(sys, a) && sys' == Next(T, sys, a)
  }

  lemma {:induction false} RunKeepsInv(T: Setting, states: seq<Sys>, actions: seq<Action>, t: nat)
    requires Run(T, states, actions) && t < |states|
    ensures SysInv(T, states[t])
  {
    if t > 0 {
      RunKeepsInv(T, states, actions, t - 1);
      assert Steps(T, states[t - 1], actions[t - 1], states[t]);
      NextKeepsInv(T, states[t - 1], actions[t - 1]);
    }
  }

  // ----- agreement -----

  predicate TookUp(s: Session, init: nat) {
    s.stage != Waiting && s.init == init
  }

  /** Server x took up the proposal at most once. */
  ghost predicate AdoptedOnce(sys: Sys, x: nat, init: nat)
    requires x in sys.honest
  {
    forall k, k' :: 0 <= k < k' < |sys.honest[x]| ==> !TookUp(sys.honest[x][k], init) || !TookUp(sys.honest[x][k'], init)
  }

  ghost predicate IsAttempt(sys: Sys, i: nat, k: nat) {
    i in sys.honest && k < |sys.honest[i]|
  }

  /** An attempt past AgreeState has, at every honest server x, a counterpart with the same
      enlist messages, and so for the same proposal. */
  lemma {:induction false} Counterpart(T: Setting, sys: Sys, i: nat, k: nat, x: nat) returns (c: nat)
    requires T.Ideal() && SysInv(T, sys) && IsAttempt(sys, i, k) && x in sys.honest
    requires Rank(sys.honest[i][k].stage) >= 3
    ensures c < |sys.honest[x]| && Rank(sys.honest[x][c].stage) >= 2
    ensures sys.honest[x][c].enlists == sys.honest[i][k].enlists && sys.honest[x][c].init == sys.honest[i][k].init
  {
    var s := sys.honest[i][k];
    assert SessionInv(T, sys, s);
    FullSet(s.agreed.Keys, T.servers);
    assert x in s.agreed;
    var sig := SignedAgree(x, s.rid, s.agreed[x]);
    assert HasOrigin(T, sys, sig);
    c :| 0 <= c < |sys.honest[x]| && Origin(T, sig, sys.honest[x][c]);
    var r := sys.honest[x][c];
    assert SessionInv(T, sys, r);
    assert r.enlists == s.enlists && x in r.enlists;
  }

  /** Round agreement: if some honest server took up the proposal at most once, all attempts of
      honest servers for it that get past AgreeState have the same round id and server list. */
  lemma {:induction false} SameRound(T: Setting, sys: Sys, i: nat, k: nat, j: nat, l: nat, x: nat)
    requires T.Ideal() && SysInv(T, sys) && IsAttempt(sys, i, k) && IsAttempt(sys, j, l) && x in sys.honest
    requires Rank(sys.honest[i][k].stage) >= 3 && Rank(sys.honest[j][l].stage) >= 3
    requires sys.honest[i][k].init == sys.honest[j][l].init && AdoptedOnce(sys, x, sys.honest[i][k].init)
    ensures sys.honest[i][k].rid == sys.honest[j][l].rid
    ensures sys.honest[i][k].enlists == sys.honest[j][l].enlists && sys.honest[i][k].agreed == sys.honest[j][l].agreed
  {
    var a, b := sys.honest[i][k], sys.honest[j][l];
    var c := Counterpart(T, sys, i, k, x);
    var d := Counterpart(T, sys, j, l, x);
    assert c == d;
    assert SessionInv(T, sys, a) && SessionInv(T, sys, b);
    SameServers(T, sys, a, b);
  }

  lemma {:induction false} SameServers(T: Setting, sys: Sys, a: Session, b: Session)
    requires AgreedFit(T, sys, a) && AgreedFit(T, sys, b) && |a.agreed| == |b.agreed| == T.servers && a.enlists == b.enlists
    ensures a.agreed == b.agreed
  {
    FullSet(a.agreed.Keys, T.servers);
    FullSet(b.agreed.Keys, T.servers);
    assert a.agreed.Keys == b.agreed.Keys;
  }

  lemma {:induction false} OnceAfter(T: Setting, sys: Sys, a: Action, init: nat)
    requires SysInv(T, sys) && Enabled(sys, a) && PROPOSER in sys.honest && AdoptedOnce(sys, PROPOSER, init)
    ensures AdoptedOnce(Next(T, sys, a), PROPOSER, init)
  {
    var h, h' := sys.honest[PROPOSER], Next(T, sys, a).honest[PROPOSER];
    if a.i == PROPOSER && !a.DoRestart? {
      var s := Current(sys, PROPOSER);
      var s' := Moved(T, sys, a, s);
      MovedFits(T, sys, a, s);
      assert TookUp(s', init) ==> TookUp(s, init) || NewProposal(h, init);
      assert h' == Replaced(h, s');
    } else {
      assert forall k :: 0 <= k < |h| ==> h'[k] == h[k];
    }
  }

  /** An honest proposer takes up each of its proposals once. */
  lemma {:induction false} ProposerAdoptsOnce(T: Setting, states: seq<Sys>, actions: seq<Action>, t: nat, init: nat)
    requires Run(T, states, actions) && t < |states| && PROPOSER in states[0].honest
    ensures PROPOSER in states[t].honest && AdoptedOnce(states[t], PROPOSER, init)
  {
    if t > 0 {
      ProposerAdoptsOnce(T, states, actions, t - 1, init);
      RunKeepsInv(T, states, actions, t - 1);
      assert Steps(T, states[t - 1], actions[t - 1], states[t]);
      OnceAfter(T, states[t - 1], actions[t - 1], init);
    }
  }

  lemma {:induction false} SameLists(T: Setting, r: Session, s: Session, c: nat)
    requires T.Ideal() && ClientsFit(r) && ClientsFit(s) && T.listHash(r.clients) == T.listHash(s.clients) && c in s.clients
    ensures r.clients == s.clients && r.rid == s.rid
  {
    assert r.clients[c].rid == r.rid && s.clients[c].rid == s.rid;
  }

  /** A non-empty client list that gets past VerifyListState is the list of the attempt of x with
      the same round id. */
  lemma {:induction false} ListCounterpart(T: Setting, sys: Sys, i: nat, k: nat, x: nat, c: nat) returns (b: nat)
    requires T.Ideal() && SysInv(T, sys) && IsAttempt(sys, i, k) && x in sys.honest
    requires sys.honest[i][k].stage == Communicating && c in sys.honest[i][k].clients
    ensures b < |sys.honest[x]| && Rank(sys.honest[x][b].stage) >= 5
    ensures sys.honest[x][b].clients == sys.honest[i][k].clients && sys.honest[x][b].rid == sys.honest[i][k].rid
  {
    var s := sys.honest[i][k];
    assert SessionInv(T, sys, s);
    FullSet(s.verified, T.servers);
    assert x in s.verified;
    var sig := SignedList(x, T.listHash(s.clients));
    assert HasOrigin(T, sys, sig);
    b :| 0 <= b < |sys.honest[x]| && Origin(T, sig, sys.honest[x][b]);
    var r := sys.honest[x][b];
    assert SessionInv(T, sys, r);
    SameLists(T, r, s, c);
  }

  lemma {:induction false} SameInit(T: Setting, sys: Sys, x: nat, b: nat, l: nat)
    requires T.Ideal() && SysInv(T, sys) && IsAttempt(sys, x, b) && IsAttempt(sys, x, l) && T.servers > 0
    requires Rank(sys.honest[x][b].stage) >= 2 && Rank(sys.honest[x][l].stage) >= 2
    requires sys.honest[x][b].rid == sys.honest[x][l].rid
    ensures sys.honest[x][b].init == sys.honest[x][l].init
  {
    var r, s := sys.honest[x][b], sys.honest[x][l];
    assert SessionInv(T, sys, r) && SessionInv(T, sys, s);
    FullSet(s.enlists.Keys, T.servers);
    assert 0 in s.enlists && r.enlists == s.enlists;
  }

  lemma {:induction false} ListFollows(T: Setting, sys: Sys, i: nat, k: nat, j: nat, l: nat)
    requires T.Ideal() && SysInv(T, sys) && IsAttempt(sys, i, k) && IsAttempt(sys, j, l)
    requires sys.honest[i][k].stage == Communicating && sys.honest[j][l].stage == Communicating
    requires sys.honest[i][k].rid == sys.honest[j][l].rid && AdoptedOnce(sys, j, sys.honest[j][l].init)
    requires sys.honest[i][k].clients != map[]
    ensures sys.honest[i][k].clients == sys.honest[j][l].clients
  {
    var c :| c in sys.honest[i][k].clients;
    var b := ListCounterpart(T, sys, i, k, j, c);
    SameInit(T, sys, j, b, l);
    assert TookUp(sys.honest[j][b], sys.honest[j][l].init) && TookUp(sys.honest[j][l], sys.honest[j][l].init);
    assert b == l;
  }

  /** The attempt of x that signed a non-empty client list for a proposal x took up once. */
  lemma {:induction false} ListAt(T: Setting, sys: Sys, i: nat, k: nat, x: nat) returns (b: nat)
    requires T.Ideal() && SysInv(T, sys) && IsAttempt(sys, i, k) && x in sys.honest
    requires sys.honest[i][k].stage == Communicating && sys.honest[i][k].clients != map[]
    ensures b < |sys.honest[x]| && TookUp(sys.honest[x][b], sys.honest[i][k].init)
    ensures sys.honest[x][b].clients == sys.honest[i][k].clients
  {
    var c :| c in sys.honest[i][k].clients;
    b := ListCounterpart(T, sys, i, k, x, c);
    var d := Counterpart(T, sys, i, k, x);
    assert SessionInv(T, sys, sys.honest[i][k]) && SessionInv(T, sys, sys.honest[x][d]);
    SameInit(T, sys, x, b, d);
  }

  lemma {:induction false} SameClients(T: Setting, sys: Sys, i: nat, k: nat, j: nat, l: nat, x: nat)
    requires T.Ideal() && SysInv(T, sys) && IsAttempt(sys, i, k) && IsAttempt(sys, j, l) && x in sys.honest
    requires sys.honest[i][k].stage == Communicating && sys.honest[j][l].stage == Communicating
    requires sys.honest[i][k].init == sys.honest[j][l].init && AdoptedOnce(sys, x, sys.honest[i][k].init)
    requires sys.honest[i][k].clients != map[] && sys.honest[j][l].clients != map[]
    ensures sys.honest[i][k].clients == sys.honest[j][l].clients
  {
    var b := ListAt(T, sys, i, k, x);
    var c := ListAt(T, sys, j, l, x);
    assert b == c;
  }

  /** Two attempts past AgreeState have the same round id and server list; once both are at
      Communicating with clients, they have the same client list as well. */
  ghost predicate SameSession(a: Session, b: Session) {
    && (Rank(a.stage) >= 3 && Rank(b.stage) >= 3 ==> a.rid == b.rid && a.agreed == b.agreed)
    && (a.stage == Communicating && b.stage == Communicating && a.clients != map[] && b.clients != map[] ==>
          a.clients == b.clients)
  }

  /** Session agreement: at any time of any run, if some honest server took up a proposal at most
      once, all attempts of honest servers at it agree, whatever was restarted or replayed. */
  lemma {:induction false} SessionsAgree(T: Setting, states: seq<Sys>, actions: seq<Action>, t: nat, i: nat, k: nat, j: nat, l: nat, x: nat)
    requires T.Ideal() && Run(T, states, actions) && t < |states|
    requires IsAttempt(states[t], i, k) && IsAttempt(states[t], j, l)
    requires states[t].honest[i][k].init == states[t].honest[j][l].init
    requires x in states[t].honest && AdoptedOnce(states[t], x, states[t].honest[i][k].init)
    ensures SameSession(states[t].honest[i][k], states[t].honest[j][l])
  {
    var sys := states[t];
    var a, b := sys.honest[i][k], sys.honest[j][l];
    RunKeepsInv(T, states, actions, t);
    if Rank(a.stage) >= 3 && Rank(b.stage) >= 3 {
      SameRound(T, sys, i, k, j, l, x);
    }
    if a.stage == Communicating && b.stage == Communicating && a.clients != map[] && b.clients != map[] {
      SameClients(T, sys, i, k, j, l, x);
    }
  }

  /** With an honest proposer all attempts at a proposal agree, in every run. */
  lemma {:induction false} HonestProposerAgrees(T: Setting, states: seq<Sys>, actions: seq<Action>, t: nat, i: nat, k: nat, j: nat, l: nat)
    requires T.Ideal() && Run(T, states, actions) && t < |states| && PROPOSER in states[0].honest
    requires IsAttempt(states[t], i, k) && IsAttempt(states[t], j, l)
    requires states[t].honest[i][k].init == states[t].honest[j][l].init
    ensures SameSession(states[t].honest[i][k], states[t].honest[j][l])
  {
    ProposerAdoptsOnce(T, states, actions, t, states[t].honest[i][k].init);
    SessionsAgree(T, states, actions, t, i, k, j, l, PROPOSER);
  }

  /** Empty lists as well: two servers that took up a proposal once each and reached Communicating
      for it have the same client list, also when one might be empty, although each merged the
      lists in its own order. */
  lemma {:induction false} ClientListsAgree(T: Setting, states: seq<Sys>, actions: seq<Action>, t: nat, i: nat, k: nat, j: nat, l: nat)
    requires T.Ideal() && Run(T, states, actions) && t < |states|
    requires IsAttempt(states[t], i, k) && IsAttempt(states[t], j, l)
    requires states[t].honest[i][k].stage == Communicating && states[t].honest[j][l].stage == Communicating
    requires states[t].honest[i][k].init == states[t].honest[j][l].init
    requires AdoptedOnce(states[t], i, states[t].honest[i][k].init) && AdoptedOnce(states[t], j, states[t].honest[i][k].init)
    ensures states[t].honest[i][k].clients == states[t].honest[j][l].clients
  {
    var sys := states[t];
    RunKeepsInv(T, states, actions, t);
    SameRound(T, sys, i, k, j, l, i);
    if sys.honest[i][k].clients != map[] {
      ListFollows(T, sys, i, k, j, l);
    } else if sys.honest[j][l].clients != map[] {
      ListFollows(T, sys, j, l, i, k);
    }
  }

  // ----- the server's own object -----

  /** The state objects of one attempt and the shared state they fill, in one place. */
  class ServerAttempt {
    const servers: nat
    var s: Session

    constructor (servers: nat)
      ensures this.servers == servers && s == FRESH
    {
      this.servers, s := servers, FRESH;
    }

    /** A proposal is taken up with the ephemeral key generated for it. */
    method TakeUp(init: nat, key: nat)
      modifies this
      ensures s == Adopt(old(s), init, key)
    {
      if s.stage == Waiting {
        s := s.(stage := Enlisting, init := init, key := key);
      }
    }

    method VerifyEnlist(T: Setting, e: Enlist) returns (ok: bool)
      requires T.servers == servers
      modifies this
      ensures s == TakeEnlist(T, old(s), e) && (ok <==> s != old(s))
    {
      if s.stage != Enlisting || e.id >= servers || e.init != s.init || e.id in s.enlists {
        return false;
      }
      s := s.(enlists := s.enlists[e.id := e]);
      if |s.enlists| == servers {
        s := s.(stage := Agreeing, rid := T.roundId(s.enlists));
      }
      ok := true;
      assert e.id in s.enlists;
    }

    method ProcessAgree(T: Setting, from: nat, rid: nat, key: nat) returns (ok: bool)
      requires T.servers == servers
      modifies this
      ensures s == TakeAgree(T, old(s), from, rid, key) && (ok <==> s != old(s))
    {
      if s.stage != Agreeing || from >= servers || from in s.agreed || rid != s.rid
         || from !in s.enlists || s.enlists[from].key != key {
        return false;
      }
      s := s.(agreed := s.agreed[from := key]);
      if |s.agreed| == servers {
        s := s.(stage := Registering);
      }
      ok := true;
      assert from in s.agreed;
    }

    method ProcessRegister(r: Registration) returns (ok: bool)
      modifies this
      ensures s == TakeRegister(old(s), r) && (ok <==> s != old(s))
    {
      if s.stage != Registering || r.client in s.registered || r.rid != s.rid {
        return false;
      }
      s := s.(registered := s.registered[r.client := r]);
      ok := true;
      assert r.client in s.registered;
    }

    /** The registration window closes. */
    method FinishClientRegister()
      modifies this
      ensures s == CloseRegistration(old(s))
    {
      if s.stage == Registering {
        s := s.(stage := Exchanging);
      }
    }

    /** A restart forgets everything, the proposal included. */
    method Reset()
      modifies this
      ensures s == FRESH
    {
      s := FRESH;
    }

    method ProcessVerify(T: Setting, from: nat, hash: nat) returns (ok: bool)
      requires T.servers == servers
      modifies this
      ensures s == TakeVerify(T, old(s), from, hash) && (ok <==> s != old(s))
    {
      if s.stage != Verifying || from >= servers || from in s.verified || hash != T.listHash(s.clients) {
        return false;
      }
      s := s.(verified := s.verified + {from});
      if |s.verified| == servers {
        s := s.(stage := Communicating);
      }
      ok := true;
      assert from in s.verified;
    }

    /** Two passes over the list: first every entry is checked, then all are merged in order. */
    method ProcessList(T: Setting, from: nat, list: seq<Registration>) returns (ok: bool)
      requires T.servers == servers
      modifies this
      ensures s == TakeList(T, old(s), from, list) && (ok <==> s != old(s))
    {
      if s.stage != Exchanging || from >= servers || from in s.received {
        return false;
      }
      for k := 0 to |list|
        invariant s == old(s) && forall m :: 0 <= m < k ==> list[m].rid == s.rid
      {
        if list[k].rid != s.rid {
          return false;
        }
      }
      var registered := s.registered;
      for k := 0 to |list|
        invariant s == old(s) && registered == Merged(s.registered, list[..k])
      {
        registered := registered[list[k].client := list[k]];
        assert list[..k + 1][..k] == list[..k];
      }
      assert list[..|list|] == list;
      s := s.(registered := registered, received := s.received + {from});
      if |s.received| == servers {
        s := s.(clients := registered, stage := Verifying);
      }
      ok := true;
      assert from in s.received;
    }
  }
}
