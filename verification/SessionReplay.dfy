/** Without an honest proposer: a proposal that is replayed after a restart leads the same servers
    into a second round. */
module SessionReplay {
  import opened Counting
  import opened ServerSession

  // ----- one complete session -----

  /** A session of all honest servers at proposal 7, in which the servers outside the honest ones
      sign what they are asked for: base is the first fresh key, past what the honest servers did
      before. */
  datatype Plan = Plan(T: Setting, H: set<nat>, base: nat, past: map<nat, seq<Session>>)
  {
    ghost predicate Valid() {
      && T.servers > 0
      && (forall i :: i in H ==> i < T.servers)
      && past.Keys == H
      && PROPOSER !in H
    }
  }

  /** The honest servers below i. */
  function Before(H: set<nat>, i: nat): nat {
    if i == 0 then 0 else Before(H, i - 1) + if i - 1 in H then 1 else 0
  }

  function Key(P: Plan, i: nat): nat {
    if i in P.H then P.base + Before(P.H, i) else 0
  }

  function EnlistOf(P: Plan, i: nat): Enlist {
    Enlist(i, 7, Key(P, i))
  }

  function EnlistsTo(P: Plan, n: nat): Enlists {
    if n == 0 then map[] else EnlistsTo(P, n - 1)[n - 1 := EnlistOf(P, n - 1)]
  }

  function AgreedTo(P: Plan, n: nat): map<nat, nat> {
    if n == 0 then map[] else AgreedTo(P, n - 1)[n - 1 := Key(P, n - 1)]
  }

  function Rid(P: Plan): nat {
    P.T.roundId(EnlistsTo(P, P.T.servers))
  }

  /** The one client. */
  function Reg(P: Plan): Registration {
    Registration(1, Rid(P), 0)
  }

  function TheClients(P: Plan): Clients {
    map[1 := Reg(P)]
  }

  function Hash(P: Plan): nat {
    P.T.listHash(TheClients(P))
  }

  function StageAt(p: nat): Stage {
    if p == 0 then Waiting else if p == 1 then Enlisting else if p == 2 then Agreeing else if p == 3 then Registering
    else if p == 4 then Exchanging else if p == 5 then Verifying else Communicating
  }

  /** Server i's attempt on entering stage p. */
  ghost function Target(P: Plan, p: nat, i: nat): Session {
    Session(StageAt(p),
            if p < 1 then 0 else 7,
            if p < 1 then 0 else Key(P, i),
            if p < 2 then map[] else EnlistsTo(P, P.T.servers),
            if p < 2 then 0 else Rid(P),
            if p < 3 then map[] else AgreedTo(P, P.T.servers),
            if p < 4 then map[] else TheClients(P),
            if p < 5 then {} else Below(P.T.servers),
            if p < 5 then map[] else TheClients(P),
            if p < 6 then {} else Below(P.T.servers))
  }

  /** The stages that wait for a message from every server. */
  predicate Gathers(p: nat) {
    p == 1 || p == 2 || p == 4 || p == 5
  }

  /** ... and the attempt after n of those messages. */
  ghost function Partial(P: Plan, p: nat, i: nat, n: nat): Session
    requires Gathers(p)
  {
    if n == P.T.servers then Target(P, p + 1, i)
    else if p == 1 then Target(P, 1, i).(enlists := EnlistsTo(P, n))
    else if p == 2 then Target(P, 2, i).(agreed := AgreedTo(P, n))
    else if p == 4 then Target(P, 4, i).(received := Below(n))
    else Target(P, 5, i).(verified := Below(n))
  }

  lemma {:induction false} EnlistsCount(P: Plan, n: nat)
    ensures |EnlistsTo(P, n)| == n && forall i :: i in EnlistsTo(P, n) ==> i < n
  {
    if n > 0 {
      EnlistsCount(P, n - 1);
    }
  }

  lemma {:induction false} AgreedCount(P: Plan, n: nat)
    ensures |AgreedTo(P, n)| == n && forall i :: i in AgreedTo(P, n) ==> i < n
  {
    if n > 0 {
      AgreedCount(P, n - 1);
    }
  }

  lemma {:induction false} EnlistsHas(P: Plan, n: nat, i: nat)
    requires i < n
    ensures i in EnlistsTo(P, n) && EnlistsTo(P, n)[i] == EnlistOf(P, i)
  {
    if i < n - 1 {
      EnlistsHas(P, n - 1, i);
    }
  }

  /** Action a of server i leads from s to s', in any state of the system. */
  ghost predicate Follows(T: Setting, i: nat, a: Action, s: Session, s': Session) {
    a.i == i && !a.DoRestart? && !a.DoAdopt? && s' == Moved(T, Sys(map[], 0, {}), a, s)
  }

  lemma {:induction false} TakesEnlist(P: Plan, i: nat, n: nat)
    requires n < P.T.servers
    ensures Follows(P.T, i, DoEnlist(i, EnlistOf(P, n)), Partial(P, 1, i, n), Partial(P, 1, i, n + 1))
  {
    EnlistsCount(P, n);
    EnlistsCount(P, n + 1);
    assert EnlistsTo(P, n + 1) == EnlistsTo(P, n)[n := EnlistOf(P, n)];
  }

  lemma {:induction false} TakesAgree(P: Plan, i: nat, n: nat)
    requires n < P.T.servers
    ensures Follows(P.T, i, DoAgree(i, n, Rid(P), Key(P, n)), Partial(P, 2, i, n), Partial(P, 2, i, n + 1))
  {
    AgreedCount(P, n);
    AgreedCount(P, n + 1);
    EnlistsHas(P, P.T.servers, n);
    assert AgreedTo(P, n + 1) == AgreedTo(P, n)[n := Key(P, n)];
  }

  lemma {:induction false} MergesSame(P: Plan)
    ensures Merged(TheClients(P), [Reg(P)]) == TheClients(P) && ForRound([Reg(P)], Rid(P))
  {
    assert [Reg(P)][..0] == [];
    assert Merged(TheClients(P), []) == TheClients(P);
  }

  lemma {:induction false} TakesList(P: Plan, i: nat, n: nat)
    requires n < P.T.servers
    ensures Follows(P.T, i, DoList(i, n, [Reg(P)]), Partial(P, 4, i, n), Partial(P, 4, i, n + 1))
  {
    var s, C := Partial(P, 4, i, n), TheClients(P);
    MergesSame(P);
    assert s.stage == Exchanging && s.registered == C && s.rid == Rid(P) && s.received == Below(n);
    TakesListFrom(P, s, n);
  }

  lemma {:induction false} TakesListFrom(P: Plan, s: Session, n: nat)
    requires n < P.T.servers && s.stage == Exchanging && s.registered == TheClients(P) && s.rid == Rid(P) && s.received == Below(n)
    ensures TakeList(P.T, s, n, [Reg(P)])
            == if n + 1 == P.T.servers then s.(received := Below(n + 1), clients := TheClients(P), stage := Verifying)
               else s.(received := Below(n + 1))
  {
    MergesSame(P);
    assert Below(n) + {n} == Below(n + 1);
    assert s == s.(registered := TheClients(P));
  }

  lemma {:induction false} TakesVerify(P: Plan, i: nat, n: nat)
    requires n < P.T.servers
    ensures Follows(P.T, i, DoVerify(i, n, Hash(P)), Partial(P, 5, i, n), Partial(P, 5, i, n + 1))
  {
    assert Below(n + 1) == Below(n) + {n};
  }

  lemma {:induction false} PartialStart(P: Plan, p: nat, i: nat)
    requires Gathers(p) && P.T.servers > 0
    ensures Partial(P, p, i, 0) == Target(P, p, i)
  {
    assert Below(0) == {};
  }

  // ----- building a run -----

  function Last(states: seq<Sys>): Sys
    requires |states| > 0
  {
    states[|states| - 1]
  }

  lemma {:induction false} Act(T: Setting, states: seq<Sys>, actions: seq<Action>, a: Action)
    returns (states': seq<Sys>, actions': seq<Action>)
    requires Run(T, states, actions) && Enabled(Last(states), a)
    ensures Run(T, states', actions') && states'[0] == states[0] && Last(states') == Next(T, Last(states), a)
  {
    states', actions' := states + [Next(T, Last(states), a)], actions + [a];
    forall t | 0 <= t < |actions'| ensures Steps(T, states'[t], actions'[t], states'[t + 1]) {
      if t < |actions| {
        assert Steps(T, states[t], actions[t], states[t + 1]);
      }
    }
  }

  /** Server i alone has moved on, to s; what was signed remains signed. */
  ghost predicate Moves(sys: Sys, sys': Sys, i: nat, s: Session) {
    && i in sys.honest && |sys.honest[i]| > 0
    && sys'.honest == sys.honest[i := Replaced(sys.honest[i], s)]
    && sys.signed <= sys'.signed
  }

  lemma {:induction false} MovesTwice(sys: Sys, mid: Sys, sys': Sys, i: nat, s: Session, s': Session)
    requires Moves(sys, mid, i, s) && Moves(mid, sys', i, s')
    ensures Moves(sys, sys', i, s')
  {
    assert Replaced(Replaced(sys.honest[i], s), s') == Replaced(sys.honest[i], s');
  }

  lemma {:induction false} ActMoves(T: Setting, states: seq<Sys>, actions: seq<Action>, a: Action, s: Session)
    returns (states': seq<Sys>, actions': seq<Action>)
    requires Run(T, states, actions) && Enabled(Last(states), a) && !a.DoRestart?
    requires s == Moved(T, Last(states), a, Current(Last(states), a.i))
    ensures Run(T, states', actions') && states'[0] == states[0] && Moves(Last(states), Last(states'), a.i, s)
    ensures Last(states').clock == Last(states).clock + if a.DoAdopt? then 1 else 0
    ensures Signs(T, a.i, Current(Last(states), a.i), s) <= Last(states').signed
  {
    states', actions' := Act(T, states, actions, a);
  }

  /** What server j signed on entering stage p, where the stage signs something. */
  function Sig(P: Plan, p: nat, j: nat): set<Signed> {
    if p == 1 then {SignedEnlist(j, EnlistOf(P, j))}
    else if p == 2 then {SignedAgree(j, Rid(P), Key(P, j))}
    else if p == 5 then {SignedList(j, Hash(P))}
    else {}
  }

  ghost predicate AllSigned(P: Plan, p: nat, sys: Sys) {
    forall j :: j in P.H ==> Sig(P, p, j) <= sys.signed
  }

  /** The signatures of honest servers that an action depends on. */
  predicate Allowed(H: set<nat>, signed: set<Signed>, a: Action) {
    match a
    case DoEnlist(_, e) => e.id in H ==> SignedEnlist(e.id, e) in signed
    case DoAgree(_, from, rid, key) => from in H ==> SignedAgree(from, rid, key) in signed
    case DoVerify(_, from, hash) => from in H ==> SignedList(from, hash) in signed
    case _ => true
  }

  /** Server i works through a list of actions. */
  lemma {:induction false} Script(P: Plan, states: seq<Sys>, actions: seq<Action>, i: nat, script: seq<Action>, sessions: seq<Session>)
    returns (states': seq<Sys>, actions': seq<Action>)
    requires Run(P.T, states, actions) && i in P.H && Last(states).honest.Keys == P.H && |Last(states).honest[i]| > 0
    requires |sessions| == |script| + 1 && Current(Last(states), i) == sessions[0]
    requires forall n :: 0 <= n < |script| ==> Follows(P.T, i, script[n], sessions[n], sessions[n + 1])
    requires forall n :: 0 <= n < |script| ==> Allowed(P.H, Last(states).signed, script[n])
    ensures Run(P.T, states', actions') && states'[0] == states[0] && Last(states').clock == Last(states).clock
    ensures Moves(Last(states), Last(states'), i, sessions[|script|])
    ensures |script| > 0 ==> Signs(P.T, i, sessions[|script| - 1], sessions[|script|]) <= Last(states').signed
    decreases |script|
  {
    states', actions' := states, actions;
    if script == [] {
      assert Replaced(Last(states).honest[i], sessions[0]) == Last(states).honest[i];
    } else {
      var n := |script| - 1;
      states', actions' := Script(P, states, actions, i, script[..n], sessions[..n + 1]);
      var mid := Last(states');
      assert Follows(P.T, i, script[n], sessions[n], sessions[n + 1]) && Allowed(P.H, Last(states).signed, script[n]);
      states', actions' := ActMoves(P.T, states', actions', script[n], sessions[n + 1]);
      MovesTwice(Last(states), mid, Last(states'), i, sessions[n], sessions[n + 1]);
    }
  }

  // ----- stage by stage -----

  /** Server i is about to work through stage p. */
  ghost predicate At(P: Plan, p: nat, i: nat, sys: Sys) {
    && i in P.H && sys.honest.Keys == P.H && |sys.honest[i]| > 0
    && Current(sys, i) == Target(P, p, i) && AllSigned(P, p, sys)
    && (p == 0 ==> sys.clock == Key(P, i))
  }

  /** ... and has done so. */
  ghost predicate Stepped(P: Plan, p: nat, i: nat, sys: Sys, sys': Sys) {
    && Moves(sys, sys', i, Target(P, p + 1, i))
    && Sig(P, p + 1, i) <= sys'.signed
    && sys'.clock == sys.clock + if p == 0 then 1 else 0
  }

  lemma {:induction false} Adopts(P: Plan, states: seq<Sys>, actions: seq<Action>, i: nat)
    returns (states': seq<Sys>, actions': seq<Action>)
    requires P.Valid() && Run(P.T, states, actions) && At(P, 0, i, Last(states))
    ensures Run(P.T, states', actions') && states'[0] == states[0] && Stepped(P, 0, i, Last(states), Last(states'))
  {
    states', actions' := ActMoves(P.T, states, actions, DoAdopt(i, 7), Target(P, 1, i));
  }

  lemma {:induction false} EntersSigning(P: Plan, p: nat, i: nat)
    requires Gathers(p) && P.T.servers > 0
    ensures Sig(P, p + 1, i) <= Signs(P.T, i, Partial(P, p, i, P.T.servers - 1), Target(P, p + 1, i))
  {
  }

  /** A gathering stage, given the message from every server. */
  lemma {:induction false} Gather(P: Plan, states: seq<Sys>, actions: seq<Action>, p: nat, i: nat, script: seq<Action>)
    returns (states': seq<Sys>, actions': seq<Action>)
    requires P.Valid() && Run(P.T, states, actions) && Gathers(p) && At(P, p, i, Last(states)) && |script| == P.T.servers
    requires forall n :: 0 <= n < |script| ==> Follows(P.T, i, script[n], Partial(P, p, i, n), Partial(P, p, i, n + 1))
    requires forall n :: 0 <= n < |script| ==> Allowed(P.H, Last(states).signed, script[n])
    ensures Run(P.T, states', actions') && states'[0] == states[0] && Stepped(P, p, i, Last(states), Last(states'))
  {
    var m := |script|;
    var sessions := seq(m + 1, n requires 0 <= n < m + 1 => Partial(P, p, i, n));
    PartialStart(P, p, i);
    EntersSigning(P, p, i);
    states', actions' := Script(P, states, actions, i, script, sessions);
  }

  lemma {:induction false} EnlistsAll(P: Plan, states: seq<Sys>, actions: seq<Action>, i: nat)
    returns (states': seq<Sys>, actions': seq<Action>)
    requires P.Valid() && Run(P.T, states, actions) && At(P, 1, i, Last(states))
    ensures Run(P.T, states', actions') && states'[0] == states[0] && Stepped(P, 1, i, Last(states), Last(states'))
  {
    var m := P.T.servers;
    var script := seq(m, n requires 0 <= n < m => DoEnlist(i, EnlistOf(P, n)));
    forall n | 0 <= n < m ensures Follows(P.T, i, script[n], Partial(P, 1, i, n), Partial(P, 1, i, n + 1)) {
      TakesEnlist(P, i, n);
    }
    forall n | 0 <= n < m ensures Allowed(P.H, Last(states).signed, script[n]) {
      if n in P.H {
        assert Sig(P, 1, n) <= Last(states).signed;
      }
    }
    states', actions' := Gather(P, states, actions, 1, i, script);
  }

  lemma {:induction false} AgreesAll(P: Plan, states: seq<Sys>, actions: seq<Action>, i: nat)
    returns (states': seq<Sys>, actions': seq<Action>)
    requires P.Valid() && Run(P.T, states, actions) && At(P, 2, i, Last(states))
    ensures Run(P.T, states', actions') && states'[0] == states[0] && Stepped(P, 2, i, Last(states), Last(states'))
  {
    var m := P.T.servers;
    var script := seq(m, n requires 0 <= n < m => DoAgree(i, n, Rid(P), Key(P, n)));
    forall n | 0 <= n < m ensures Follows(P.T, i, script[n], Partial(P, 2, i, n), Partial(P, 2, i, n + 1)) {
      TakesAgree(P, i, n);
    }
    forall n | 0 <= n < m ensures Allowed(P.H, Last(states).signed, script[n]) {
      if n in P.H {
        assert Sig(P, 2, n) <= Last(states).signed;
      }
    }
    states', actions' := Gather(P, states, actions, 2, i, script);
  }

  lemma {:induction false} Registers(P: Plan, states: seq<Sys>, actions: seq<Action>, i: nat)
    returns (states': seq<Sys>, actions': seq<Action>)
    requires P.Valid() && Run(P.T, states, actions) && At(P, 3, i, Last(states))
    ensures Run(P.T, states', actions') && states'[0] == states[0] && Stepped(P, 3, i, Last(states), Last(states'))
  {
    var mid := Target(P, 3, i).(registered := TheClients(P));
    var script, sessions := [DoRegister(i, Reg(P)), DoClose(i)], [Target(P, 3, i), mid, Target(P, 4, i)];
    assert Follows(P.T, i, script[0], sessions[0], sessions[1]) && Follows(P.T, i, script[1], sessions[1], sessions[2]);
    states', actions' := Script(P, states, actions, i, script, sessions);
  }

  lemma {:induction false} ListsAll(P: Plan, states: seq<Sys>, actions: seq<Action>, i: nat)
    returns (states': seq<Sys>, actions': seq<Action>)
    requires P.Valid() && Run(P.T, states, actions) && At(P, 4, i, Last(states))
    ensures Run(P.T, states', actions') && states'[0] == states[0] && Stepped(P, 4, i, Last(states), Last(states'))
  {
    var m := P.T.servers;
    var script := seq(m, n requires 0 <= n < m => DoList(i, n, [Reg(P)]));
    forall n | 0 <= n < m ensures Follows(P.T, i, script[n], Partial(P, 4, i, n), Partial(P, 4, i, n + 1)) {
      TakesList(P, i, n);
    }
    forall n | 0 <= n < m ensures Allowed(P.H, Last(states).signed, script[n]) {
      if n in P.H {
        assert Sig(P, 4, n) <= Last(states).signed;
      }
    }
    states', actions' := Gather(P, states, actions, 4, i, script);
  }

  lemma {:induction false} VerifiesAll(P: Plan, states: seq<Sys>, actions: seq<Action>, i: nat)
    returns (states': seq<Sys>, actions': seq<Action>)
    requires P.Valid() && Run(P.T, states, actions) && At(P, 5, i, Last(states))
    ensures Run(P.T, states', actions') && states'[0] == states[0] && Stepped(P, 5, i, Last(states), Last(states'))
  {
    var m := P.T.servers;
    var script := seq(m, n requires 0 <= n < m => DoVerify(i, n, Hash(P)));
    forall n | 0 <= n < m ensures Follows(P.T, i, script[n], Partial(P, 5, i, n), Partial(P, 5, i, n + 1)) {
      TakesVerify(P, i, n);
    }
    forall n | 0 <= n < m ensures Allowed(P.H, Last(states).signed, script[n]) {
      if n in P.H {
        assert Sig(P, 5, n) <= Last(states).signed;
      }
    }
    states', actions' := Gather(P, states, actions, 5, i, script);
  }

  lemma {:induction false} Advances(P: Plan, states: seq<Sys>, actions: seq<Action>, p: nat, i: nat)
    returns (states': seq<Sys>, actions': seq<Action>)
    requires P.Valid() && Run(P.T, states, actions) && p < 6 && At(P, p, i, Last(states))
    ensures Run(P.T, states', actions') && states'[0] == states[0] && Stepped(P, p, i, Last(states), Last(states'))
  {
    match p
    case 0 => states', actions' := Adopts(P, states, actions, i);
    case 1 => states', actions' := EnlistsAll(P, states, actions, i);
    case 2 => states', actions' := AgreesAll(P, states, actions, i);
    case 3 => states', actions' := Registers(P, states, actions, i);
    case 4 => states', actions' := ListsAll(P, states, actions, i);
    case 5 => states', actions' := VerifiesAll(P, states, actions, i);
  }

  // ----- all servers -----

  ghost function Targets(P: Plan, p: nat): map<nat, Session> {
    map i | i in P.H :: Target(P, p, i)
  }

  /** The histories while a stage is under way: the servers below m have got to their later
      attempt. */
  ghost function Histories(past: map<nat, seq<Session>>, earlier: map<nat, Session>, later: map<nat, Session>, m: nat): map<nat, seq<Session>>
    requires past.Keys == earlier.Keys == later.Keys
  {
    map i | i in past :: past[i] + [if i < m then later[i] else earlier[i]]
  }

  lemma {:induction false} HistoriesStep(past: map<nat, seq<Session>>, earlier: map<nat, Session>, later: map<nat, Session>, m: nat)
    requires past.Keys == earlier.Keys == later.Keys
    ensures Histories(past, earlier, later, m + 1)
            == if m in past then Histories(past, earlier, later, m)[m := past[m] + [later[m]]] else Histories(past, earlier, later, m)
  {
  }

  lemma {:induction false} HistoriesDone(past: map<nat, seq<Session>>, earlier: map<nat, Session>, later: map<nat, Session>, next: map<nat, Session>, m: nat)
    requires past.Keys == earlier.Keys == later.Keys == next.Keys && forall i :: i in past ==> i < m
    ensures Histories(past, earlier, later, m) == Histories(past, later, next, 0)
  {
  }

  /** What has been signed by the servers below m in stage p. */
  ghost predicate SignedTo(P: Plan, p: nat, m: nat, sys: Sys) {
    AllSigned(P, p, sys) && forall j :: j in P.H && j < m ==> Sig(P, p + 1, j) <= sys.signed
  }

  lemma {:induction false} SignedStep(P: Plan, p: nat, m: nat, sys: Sys, sys': Sys)
    requires SignedTo(P, p, m, sys) && sys.signed <= sys'.signed && (m in P.H ==> Sig(P, p + 1, m) <= sys'.signed)
    ensures SignedTo(P, p, m + 1, sys')
  {
    forall j | j in P.H ensures Sig(P, p, j) <= sys'.signed && (j < m + 1 ==> Sig(P, p + 1, j) <= sys'.signed) {
      assert Sig(P, p, j) <= sys.signed;
      if j < m {
        assert Sig(P, p + 1, j) <= sys.signed;
      }
    }
  }

  /** The system while stage p is under way. */
  ghost predicate Along(P: Plan, p: nat, m: nat, sys: Sys)
    requires P.past.Keys == P.H
  {
    && sys.honest == Histories(P.past, Targets(P, p), Targets(P, p + 1), m)
    && SignedTo(P, p, m, sys)
    && sys.clock == P.base + Before(P.H, if p == 0 then m else P.T.servers)
  }

  lemma {:induction false} AlongAt(P: Plan, p: nat, m: nat, sys: Sys)
    requires P.Valid() && Along(P, p, m, sys) && m in P.H
    ensures At(P, p, m, sys) && sys.honest[m] == P.past[m] + [Target(P, p, m)]
  {
    assert sys.honest[m] == P.past[m] + [Targets(P, p)[m]];
  }

  lemma {:induction false} AlongStep(P: Plan, p: nat, m: nat, sys: Sys, sys': Sys)
    requires P.Valid() && Along(P, p, m, sys) && m in P.H && Stepped(P, p, m, sys, sys')
    ensures Along(P, p, m + 1, sys')
  {
    AlongAt(P, p, m, sys);
    var s := Target(P, p + 1, m);
    assert Replaced(sys.honest[m], s) == P.past[m] + [s];
    HistoriesStep(P.past, Targets(P, p), Targets(P, p + 1), m);
    assert Targets(P, p + 1)[m] == s;
    SignedStep(P, p, m, sys, sys');
  }

  lemma {:induction false} AlongSkip(P: Plan, p: nat, m: nat, sys: Sys)
    requires P.Valid() && Along(P, p, m, sys) && m !in P.H
    ensures Along(P, p, m + 1, sys)
  {
    HistoriesStep(P.past, Targets(P, p), Targets(P, p + 1), m);
    SignedStep(P, p, m, sys, sys);
  }

  /** Stage p for the servers below m. */
  lemma {:induction false} AdvanceAll(P: Plan, states: seq<Sys>, actions: seq<Action>, p: nat, m: nat)
    returns (states': seq<Sys>, actions': seq<Action>)
    requires P.Valid() && Run(P.T, states, actions) && p < 6 && m <= P.T.servers && Along(P, p, 0, Last(states))
    ensures Run(P.T, states', actions') && states'[0] == states[0] && Along(P, p, m, Last(states'))
  {
    states', actions' := states, actions;
    for k := 0 to m
      invariant Run(P.T, states', actions') && states'[0] == states[0] && Along(P, p, k, Last(states'))
    {
      states', actions' := AdvanceNext(P, states', actions', p, k);
    }
  }

  lemma {:induction false} AdvanceNext(P: Plan, states: seq<Sys>, actions: seq<Action>, p: nat, m: nat)
    returns (states': seq<Sys>, actions': seq<Action>)
    requires P.Valid() && Run(P.T, states, actions) && p < 6 && Along(P, p, m, Last(states))
    ensures Run(P.T, states', actions') && states'[0] == states[0] && Along(P, p, m + 1, Last(states'))
  {
    if m in P.H {
      AlongAt(P, p, m, Last(states));
      states', actions' := Advances(P, states, actions, p, m);
      AlongStep(P, p, m, Last(states), Last(states'));
    } else {
      states', actions' := states, actions;
      AlongSkip(P, p, m, Last(states));
    }
  }

  lemma {:induction false} AlongNext(P: Plan, p: nat, sys: Sys)
    requires P.Valid() && Along(P, p, P.T.servers, sys)
    ensures Along(P, p + 1, 0, sys)
  {
    HistoriesDone(P.past, Targets(P, p), Targets(P, p + 1), Targets(P, p + 2), P.T.servers);
  }

  /** The session up to stage p. */
  lemma {:induction false} RunSession(P: Plan, states: seq<Sys>, actions: seq<Action>, p: nat)
    returns (states': seq<Sys>, actions': seq<Action>)
    requires P.Valid() && Run(P.T, states, actions) && p <= 6 && Along(P, 0, 0, Last(states))
    ensures Run(P.T, states', actions') && states'[0] == states[0] && Along(P, p, 0, Last(states'))
  {
    states', actions' := states, actions;
    for k := 0 to p
      invariant Run(P.T, states', actions') && states'[0] == states[0] && Along(P, k, 0, Last(states'))
    {
      states', actions' := AdvanceAll(P, states', actions', k, P.T.servers);
      AlongNext(P, k, Last(states'));
    }
  }

  // ----- two sessions -----

  ghost function Pasts(P: Plan): map<nat, seq<Session>>
    requires P.past.Keys == P.H
  {
    map i | i in P.H :: P.past[i] + [Target(P, 6, i)]
  }

  /** The plan of the session after this one. */
  ghost function Continued(P: Plan, clock: nat): Plan
    requires P.past.Keys == P.H
  {
    Plan(P.T, P.H, clock, Pasts(P))
  }

  lemma {:induction false} ContinuedValid(P: Plan, clock: nat)
    requires P.Valid()
    ensures Continued(P, clock).Valid()
    ensures forall i :: i in P.H ==> Continued(P, clock).past[i] == P.past[i] + [Target(P, 6, i)]
  {
  }

  /** All honest servers restart. */
  lemma {:induction false} Restarts(T: Setting, states: seq<Sys>, actions: seq<Action>)
    returns (states': seq<Sys>, actions': seq<Action>)
    requires Run(T, states, actions) && forall i :: i in Last(states).honest ==> |Last(states).honest[i]| > 0
    ensures Run(T, states', actions') && states'[0] == states[0] && Last(states').clock == Last(states).clock
    ensures Last(states').honest == Restarted(Last(states).honest, T.servers)
  {
    states', actions' := states, actions;
    var start := Last(states).honest;
    RestartedStep(start, 0);
    for m := 0 to T.servers
      invariant Run(T, states', actions') && states'[0] == states[0] && Last(states').clock == Last(states).clock
      invariant Last(states').honest == Restarted(start, m)
    {
      RestartedStep(start, m);
      if m in start {
        states', actions' := Act(T, states', actions', DoRestart(m));
      }
    }
  }

  lemma {:induction false} RestartAll(P: Plan, states: seq<Sys>, actions: seq<Action>)
    returns (states': seq<Sys>, actions': seq<Action>)
    requires P.Valid() && Run(P.T, states, actions) && Along(P, 6, 0, Last(states))
    ensures Run(P.T, states', actions') && states'[0] == states[0]
    ensures Along(Continued(P, Last(states).clock), 0, 0, Last(states'))
  {
    var Q := Continued(P, Last(states).clock);
    states', actions' := Restarts(P.T, states, actions);
    RestartedAll(P, Q, Last(states).honest);
    assert SignedTo(Q, 0, 0, Last(states'));
  }

  ghost function Restarted(h: map<nat, seq<Session>>, m: nat): map<nat, seq<Session>> {
    map i | i in h :: if i < m then h[i] + [FRESH] else h[i]
  }

  lemma {:induction false} RestartedStep(h: map<nat, seq<Session>>, m: nat)
    ensures Restarted(h, m + 1) == if m in h then Restarted(h, m)[m := h[m] + [FRESH]] else Restarted(h, m)
    ensures m in h ==> Restarted(h, m)[m] == h[m]
    ensures Restarted(h, 0) == h
  {
  }

  lemma {:induction false} RestartedAll(P: Plan, Q: Plan, h: map<nat, seq<Session>>)
    requires P.Valid() && Q.H == P.H && h == Histories(P.past, Targets(P, 6), Targets(P, 7), 0)
    requires Q.past == Pasts(P)
    ensures Restarted(h, P.T.servers) == Histories(Q.past, Targets(Q, 0), Targets(Q, 1), 0)
  {
    var r, q := Restarted(h, P.T.servers), Histories(Q.past, Targets(Q, 0), Targets(Q, 1), 0);
    forall i | i in P.H ensures r[i] == q[i] {
      assert h[i] == P.past[i] + [Targets(P, 6)[i]];
      assert Targets(Q, 0)[i] == FRESH;
    }
  }

  lemma {:induction false} BeforePositive(H: set<nat>, i: nat, n: nat)
    requires i in H && i < n
    ensures Before(H, n) > 0
  {
    if i < n - 1 {
      BeforePositive(H, i, n - 1);
    }
  }

  /** Two sessions with different first keys end in different rounds. */
  lemma {:induction false} RidsDiffer(P: Plan, Q: Plan, i: nat)
    requires P.T.Ideal() && Q.T == P.T && Q.H == P.H && P.base != Q.base && i in P.H && i < P.T.servers
    ensures Rid(P) != Rid(Q)
  {
    EnlistsHas(P, P.T.servers, i);
    EnlistsHas(Q, P.T.servers, i);
    assert Key(P, i) != Key(Q, i);
  }

  lemma {:induction false} StartAlong(P: Plan) returns (states: seq<Sys>, actions: seq<Action>)
    requires P.Valid() && P.base == 0 && P.past == map i | i in P.H :: []
    ensures Run(P.T, states, actions) && states[0].honest.Keys == P.H && Along(P, 0, 0, Last(states))
  {
    var start := Sys(Histories(P.past, Targets(P, 0), Targets(P, 1), 0), 0, {});
    forall i | i in P.H ensures start.honest[i] == [FRESH] {
      assert start.honest[i] == P.past[i] + [Targets(P, 0)[i]];
    }
    states, actions := [start], [];
  }

  lemma {:induction false} FirstSession(P: Plan) returns (states: seq<Sys>, actions: seq<Action>)
    requires P.Valid() && P.base == 0 && P.past == map i | i in P.H :: []
    ensures Run(P.T, states, actions) && states[0].honest.Keys == P.H && Along(P, 6, 0, Last(states))
  {
    states, actions := StartAlong(P);
    states, actions := RunSession(P, states, actions, 6);
  }

  lemma {:induction false} NextSession(P: Plan, states: seq<Sys>, actions: seq<Action>)
    returns (states': seq<Sys>, actions': seq<Action>)
    requires P.Valid() && Run(P.T, states, actions) && Along(P, 6, 0, Last(states))
    ensures Run(P.T, states', actions') && states'[0] == states[0]
    ensures Along(Continued(P, Last(states).clock), 6, 0, Last(states'))
  {
    ContinuedValid(P, Last(states).clock);
    states', actions' := RestartAll(P, states, actions);
    states', actions' := RunSession(Continued(P, Last(states).clock), states', actions', 6);
  }

  lemma {:induction false} EndsWith(P: Plan, clock: nat, sys: Sys, i: nat)
    requires P.Valid() && P.past == (map j | j in P.H :: []) && Along(Continued(P, clock), 6, 0, sys) && i in P.H
    ensures i in sys.honest && sys.honest[i] == [Target(P, 6, i), Target(Continued(P, clock), 6, i)]
  {
    var Q := Continued(P, clock);
    ContinuedValid(P, clock);
    assert sys.honest[i] == Q.past[i] + [Targets(Q, 6)[i]];
  }

  /** Servers i and j have come to different rounds for the same proposal: i in its first attempt
      and j in its second, both at Communicating and with clients. */
  ghost predicate Splits(sys: Sys, i: nat, j: nat) {
    && i in sys.honest && j in sys.honest && |sys.honest[i]| == |sys.honest[j]| == 2
    && var a, b := sys.honest[i][0], sys.honest[j][1];
       && a.stage == Communicating && b.stage == Communicating && a.clients != map[] && b.clients != map[]
       && a.init == b.init && a.rid != b.rid
  }

  /** Without an honest proposer, any honest servers can be led through two complete sessions for
      the same proposal that are different rounds. */
  lemma {:induction false} ReplaySplitsRound(T: Setting, H: set<nat>) returns (states: seq<Sys>, actions: seq<Action>)
    requires T.Ideal() && H != {} && (forall i :: i in H ==> i < T.servers) && PROPOSER !in H
    ensures Run(T, states, actions) && states[0].honest.Keys == H
    ensures forall i, j :: i in H && j in H ==> Splits(Last(states), i, j)
  {
    var P := Plan(T, H, 0, map i | i in H :: []);
    var x :| x in H;
    states, actions := FirstSession(P);
    var clock := Last(states).clock;
    BeforePositive(H, x, T.servers);
    states, actions := NextSession(P, states, actions);
    forall i, j | i in H && j in H ensures Splits(Last(states), i, j) {
      SplitsAt(P, clock, Last(states), i, j);
    }
  }

  lemma {:induction false} SplitsAt(P: Plan, clock: nat, sys: Sys, i: nat, j: nat)
    requires P.Valid() && P.T.Ideal() && P.past == (map j | j in P.H :: []) && clock != P.base
    requires Along(Continued(P, clock), 6, 0, sys) && i in P.H && j in P.H
    ensures Splits(sys, i, j)
  {
    var Q := Continued(P, clock);
    RidsDiffer(P, Q, i);
    EndsWith(P, clock, sys, i);
    EndsWith(P, clock, sys, j);
    EndIs(P, i, sys.honest[i][0]);
    EndIs(Q, j, sys.honest[j][1]);
  }

  lemma {:induction false} EndIs(P: Plan, i: nat, s: Session)
    requires s == Target(P, 6, i)
    ensures s.stage == Communicating && s.init == 7 && s.rid == Rid(P) && s.clients != map[]
  {
    assert 1 in s.clients;
  }

  // ----- exactly when sessions agree -----

  /** In every run of these honest servers, any two attempts at a proposal are the same session;
      across says that they are attempts of different servers. */
  ghost predicate AlwaysAgree(T: Setting, H: set<nat>, across: bool) {
    forall states: seq<Sys>, actions: seq<Action>, t: nat, i: nat, k: nat, j: nat, l: nat ::
      Run(T, states, actions) && states[0].honest.Keys == H && t < |states| && (across ==> i != j) ==>
        AgreeAt(states[t], i, k, j, l)
  }

  ghost predicate AgreeAt(sys: Sys, i: nat, k: nat, j: nat, l: nat) {
    IsAttempt(sys, i, k) && IsAttempt(sys, j, l) && sys.honest[i][k].init == sys.honest[j][l].init ==>
      SameSession(sys.honest[i][k], sys.honest[j][l])
  }

  lemma {:induction false} AgreeWithProposer(T: Setting, states: seq<Sys>, actions: seq<Action>, t: nat, i: nat, k: nat, j: nat, l: nat)
    requires T.Ideal() && Run(T, states, actions) && t < |states| && PROPOSER in states[0].honest
    ensures AgreeAt(states[t], i, k, j, l)
  {
    if IsAttempt(states[t], i, k) && IsAttempt(states[t], j, l) && states[t].honest[i][k].init == states[t].honest[j][l].init {
      HonestProposerAgrees(T, states, actions, t, i, k, j, l);
    }
  }

  /** Session agreement, exactly: for every number of servers and every set of honest ones, all
      attempts at a proposal agree in all runs if and only if the proposer is honest; and with two
      honest servers or more, so do attempts of different servers. */
  lemma {:induction false} AgreementIff(T: Setting, H: set<nat>)
    requires T.Ideal() && H != {} && forall i :: i in H ==> i < T.servers
    ensures AlwaysAgree(T, H, false) <==> PROPOSER in H
    ensures |H| >= 2 ==> (AlwaysAgree(T, H, true) <==> PROPOSER in H)
  {
    if PROPOSER in H {
      forall states: seq<Sys>, actions: seq<Action>, t: nat, i: nat, k: nat, j: nat, l: nat | Run(T, states, actions) && states[0].honest.Keys == H && t < |states|
        ensures AgreeAt(states[t], i, k, j, l)
      {
        AgreeWithProposer(T, states, actions, t, i, k, j, l);
      }
    } else {
      var states, actions := ReplaySplitsRound(T, H);
      var x :| x in H;
      assert Splits(Last(states), x, x);
      assert !AgreeAt(states[|states| - 1], x, 0, x, 1);
      if |H| >= 2 {
        var y := Another(H, x);
        assert Splits(Last(states), x, y);
        assert !AgreeAt(states[|states| - 1], x, 0, y, 1);
      }
    }
  }

  lemma {:induction false} Another(H: set<nat>, x: nat) returns (y: nat)
    requires |H| >= 2 && x in H
    ensures y in H && y != x
  {
    var rest := H - {x};
    assert |rest| == |H| - 1;
    y :| y in rest;
  }
}
