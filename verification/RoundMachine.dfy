/** The state machine that drives a round: messages for a later stage wait in a log, and each
    transition replays that log, possibly from within another replay. */
module RoundMachine {
  /** A received message as the machine sees it after decoding. */
  datatype Msg = Msg(from: nat, genuine: bool, mtype: int, nonce: nat, phase: int, body: nat)

  /** What a round's own code does next when the machine has called it: it returns, fails, completes
      the state, or forces another one. A round that is out of choices returns. */
  datatype Choice = Return | Fail | Complete | Jump(state: nat)

  /** A call of a message handler: the message, and the machine's phase and message type then. */
  datatype Sighting = Sighting(msg: Msg, phase: nat, mtype: int)

  datatype Option<T> = None | Some(value: T)

  datatype Config = Config(nonce: nat, cyclic: bool, cycleState: nat, types: map<nat, int>,
                           transitions: map<nat, nat>, known: set<int>)
  {
    function TypeOf(state: nat): int {
      if state in types then types[state] else -1
    }

    function After(state: nat): nat {
      if state in transitions then transitions[state] else state
    }

    predicate Cycles(state: nat) {
      cyclic && cycleState == state
    }

    /** Only the messages of a cyclic round carry a phase. */
    function PhaseOf(m: Msg): int {
      if cyclic then m.phase else 0
    }
  }

  /** What happens to a message on arrival. */
  datatype Verdict = Refuse | Buffer | Deliver

  function Judge(K: Config, state: nat, phase: nat, m: Msg): Verdict {
    if !m.genuine || m.nonce != K.nonce || K.PhaseOf(m) < phase || m.mtype !in K.known then Refuse
    else if m.mtype != K.TypeOf(state) || phase < K.PhaseOf(m) then Buffer
    else Deliver
  }

  // ----- the specification -----

  /** Where the messages went: handled, refused on arrival, left by a handler that failed, and
      lost with the log of a transition that did not go through. */
  datatype Books = Books(handled: multiset<Msg>, refused: multiset<Msg>, failed: multiset<Msg>, dropped: multiset<Msg>)
  {
    function Total(): multiset<Msg> {
      handled + refused + failed + dropped
    }

    /** The messages whose handler has come to an end. */
    function Worked(): multiset<Msg> {
      handled + failed
    }

    function Drop(log: seq<Msg>): Books {
      this.(dropped := dropped + multiset(log))
    }
  }

  const NO_BOOKS: Books := Books(multiset{}, multiset{}, multiset{}, multiset{})

  /** The machine, the choices that the round's code is still going to take, its answers at the
      ends of cycles (going on when it is out of answers), and the histories. */
  datatype View = View(state: nat, phase: nat, nextLog: seq<Msg>, script: seq<Choice>, answers: seq<bool>,
                       books: Books, seen: seq<Sighting>)
  {
    function Ledger(): multiset<Msg> {
      books.Total() + multiset(nextLog)
    }
  }

  /** How the first part of a transition ends. */
  datatype Entry = Entered | Stopped | Threw

  /** A handler or callback of the round, up to its end; the flag says that it failed. */
  function Body(K: Config, v: View): (r: (View, bool))
    ensures |r.0.script| <= |v.script|
    ensures v.script != [] ==> |r.0.script| < |v.script|
    decreases |v.script|, 0, 0
  {
    if v.script == [] then (v, false)
    else
      var w := v.(script := v.script[1..]);
      match v.script[0]
      case Return => (w, false)
      case Fail => (w, true)
      case Complete => AndThen(K, Transition(K, w, None), |v.script|)
      case Jump(target) => AndThen(K, Transition(K, w, Some(target)), |v.script|)
  }

  /** The rest of the body, unless the transition failed. */
  function AndThen(K: Config, x: (View, bool), bound: nat): (r: (View, bool))
    requires |x.0.script| < bound
    ensures |r.0.script| <= |x.0.script|
    decreases |x.0.script|, 6, 0
  {
    if x.1 then x else Body(K, x.0)
  }

  /** The state changes and the new state's callback runs. */
  function Arrive(K: Config, v: View, state: nat): (r: (View, Entry))
    ensures |r.0.script| <= |v.script|
    decreases |v.script|, 1, 0
  {
    var x := Body(K, v.(state := state));
    (x.0, if x.1 then Threw else Entered)
  }

  /** The part of a transition before the replay. */
  function Enter(K: Config, v: View, target: Option<nat>): (r: (View, Entry))
    ensures |r.0.script| <= |v.script|
    decreases |v.script|, 2, 0
  {
    match target
    case Some(state) => Arrive(K, v, state)
    case None =>
      if !K.Cycles(v.state) then Arrive(K, v, K.After(v.state))
      else
        var x := Body(K, v);
        if x.1 then (x.0, Threw) else EndCycle(K, x.0)
  }

  /** The round's answer at the end of a cycle: the next phase, or the end. */
  function EndCycle(K: Config, v: View): (r: (View, Entry))
    ensures |r.0.script| <= |v.script|
    decreases |v.script|, 1, 1
  {
    if v.answers == [] then Arrive(K, v.(phase := v.phase + 1), K.After(v.state))
    else
      var w := v.(answers := v.answers[1..]);
      if v.answers[0] then Arrive(K, w.(phase := w.phase + 1), K.After(w.state)) else (w, Stopped)
  }

  /** StateComplete and SetState: the log is set aside, the state changes, and the log is
      replayed, or lost if the transition does not go through. */
  function Transition(K: Config, v: View, target: Option<nat>): (r: (View, bool))
    ensures |r.0.script| <= |v.script|
    decreases |v.script|, 5, 0
  {
    var x := Enter(K, v.(nextLog := []), target);
    if x.1 == Entered then (Replay(K, x.0, v.nextLog), false)
    else (x.0.(books := x.0.books.Drop(v.nextLog)), x.1 == Threw)
  }

  function Replay(K: Config, v: View, log: seq<Msg>): (r: View)
    ensures |r.script| <= |v.script|
    decreases |v.script|, 4, |log|
  {
    if log == [] then v else Replay(K, Process(K, v, log[0]), log[1..])
  }

  /** A message arrives, from the network or from the log. A failing handler is caught here. */
  function Process(K: Config, v: View, m: Msg): (r: View)
    ensures |r.script| <= |v.script|
    decreases |v.script|, 3, 0
  {
    match Judge(K, v.state, v.phase, m)
    case Refuse => v.(books := v.books.(refused := v.books.refused + multiset{m}))
    case Buffer => v.(nextLog := v.nextLog + [m])
    case Deliver =>
      var x := Body(K, v.(seen := v.seen + [Sighting(m, v.phase, K.TypeOf(v.state))]));
      x.0.(books := Filed(x.0.books, m, x.1))
  }

  function Filed(b: Books, m: Msg, failed: bool): Books {
    if failed then b.(failed := b.failed + multiset{m}) else b.(handled := b.handled + multiset{m})
  }

  // ----- the machine -----

  class Machine {
    const K: Config
    var state: nat
    var phase: nat
    var nextLog: seq<Msg>
    var script: seq<Choice>
    var answers: seq<bool>
    ghost var books: Books
    ghost var seen: seq<Sighting>

    ghost function State(): View
      reads this
    {
      View(state, phase, nextLog, script, answers, books, seen)
    }

    constructor (K: Config, state: nat, script: seq<Choice>, answers: seq<bool>)
      ensures this.K == K && State() == View(state, 0, [], script, answers, NO_BOOKS, [])
    {
      this.K, this.state, this.script, this.answers := K, state, script, answers;
      phase, nextLog, books, seen := 0, [], NO_BOOKS, [];
    }

    method RunBody() returns (threw: bool)
      modifies this
      ensures (State(), threw) == Body(K, old(State()))
      decreases |script|, 0
    {
      while |script| > 0
        invariant |script| <= old(|script|)
        invariant Body(K, State()) == Body(K, old(State()))
        decreases |script|
      {
        var c := script[0];
        script := script[1..];
        match c {
          case Return => return false;
          case Fail => return true;
          case Complete =>
            threw := StateComplete(None);
            if threw { return; }
          case Jump(target) =>
            threw := StateComplete(Some(target));
            if threw { return; }
        }
      }
      return false;
    }

    /** The part of StateComplete before the replay. */
    method ChangeState(target: Option<nat>) returns (entry: Entry)
      modifies this
      ensures (State(), entry) == Enter(K, old(State()), target)
      decreases |script|, 1
    {
      if target.None? && K.Cycles(state) {
        var threw := RunBody();
        if threw {
          return Threw;
        }
        ghost var ended := State();
        if |answers| > 0 {
          var goes := answers[0];
          answers := answers[1..];
          if !goes {
            return Stopped;
          }
        }
        phase := phase + 1;
        ghost var next, to := State(), K.After(state);
        assert EndCycle(K, ended) == Arrive(K, next, to);
      }
      state := if target.Some? then target.value else K.After(state);
      var threw := RunBody();
      entry := if threw then Threw else Entered;
    }

    method StateComplete(target: Option<nat>) returns (threw: bool)
      modifies this
      ensures (State(), threw) == Transition(K, old(State()), target)
      decreases |script|, 4
    {
      var log := nextLog;
      nextLog := [];
      var entry := ChangeState(target);
      if entry != Entered {
        books := books.Drop(log);
        return entry == Threw;
      }
      ghost var entered := State();
      for idx := 0 to |log|
        invariant |script| <= old(|script|)
        invariant Replay(K, State(), log[idx..]) == Replay(K, entered, log)
      {
        assert log[idx..][0] == log[idx] && log[idx..][1..] == log[idx + 1..];
        ProcessData(log[idx]);
      }
      return false;
    }

    method ProcessData(m: Msg)
      modifies this
      ensures State() == Process(K, old(State()), m)
      decreases |script|, 3
    {
      match Judge(K, state, phase, m) {
        case Refuse => books := books.(refused := books.refused + multiset{m});
        case Buffer => nextLog := nextLog + [m];
        case Deliver =>
          seen := seen + [Sighting(m, phase, K.TypeOf(state))];
          var threw := RunBody();
          books := Filed(books, m, threw);
      }
    }
  }

  // ----- what every call keeps -----

  /** The choices that fail. */
  function Fails(script: seq<Choice>): nat {
    if script == [] then 0 else (if script[0] == Fail then 1 else 0) + Fails(script[1..])
  }

  /** The answers that end the round. */
  function Stops(answers: seq<bool>): nat {
    if answers == [] then 0 else (if answers[0] then 0 else 1) + Stops(answers[1..])
  }

  function Sighted(seen: seq<Sighting>): multiset<Msg> {
    if seen == [] then multiset{} else Sighted(seen[..|seen| - 1]) + multiset{seen[|seen| - 1].msg}
  }

  /** Handlers saw only messages of their own type and phase, and phases in order. */
  ghost predicate ProperSightings(K: Config, seen: seq<Sighting>, phase: nat) {
    && (forall k :: 0 <= k < |seen| ==>
         seen[k].mtype == seen[k].msg.mtype && seen[k].phase == K.PhaseOf(seen[k].msg) && seen[k].phase <= phase)
    && (forall k, l :: 0 <= k < l < |seen| ==> seen[k].phase <= seen[l].phase)
  }

  ghost predicate Begins(a: seq<Sighting>, b: seq<Sighting>) {
    |a| <= |b| && a == b[..|a|]
  }

  /** From v to w nothing is undone, and no message appears or disappears except that extra comes
      in; every handler call filed its message; without a failure nothing failed, and without a
      failure or a cycle that ended the round nothing was lost. */
  ghost predicate Leads(K: Config, v: View, w: View, extra: multiset<Msg>) {
    && SeesOn(K, v, w) && w.Ledger() == v.Ledger() + extra
    && Sighted(w.seen) + v.books.Worked() == Sighted(v.seen) + w.books.Worked()
    && LessLeft(v, w) && Explained(v, w)
  }

  ghost predicate SeesOn(K: Config, v: View, w: View) {
    && v.phase <= w.phase && Begins(v.seen, w.seen)
    && (ProperSightings(K, v.seen, v.phase) ==> ProperSightings(K, w.seen, w.phase))
  }

  ghost predicate LessLeft(v: View, w: View) {
    && v.books.handled <= w.books.handled && v.books.refused <= w.books.refused
    && v.books.failed <= w.books.failed && v.books.dropped <= w.books.dropped
    && Fails(w.script) <= Fails(v.script) && Stops(w.answers) <= Stops(v.answers)
  }

  ghost predicate Explained(v: View, w: View) {
    && (Fails(w.script) == Fails(v.script) ==> w.books.failed == v.books.failed)
    && (Fails(w.script) == Fails(v.script) && Stops(w.answers) == Stops(v.answers) ==> w.books.dropped == v.books.dropped)
  }

  lemma {:induction false} Balance(a: multiset<Msg>, b: multiset<Msg>, c: multiset<Msg>, p: multiset<Msg>, q: multiset<Msg>, r: multiset<Msg>)
    requires b + p == a + q && c + q == b + r
    ensures c + p == a + r
  {
    forall m ensures (c + p)[m] == (a + r)[m] {
      assert (b + p)[m] == (a + q)[m] && (c + q)[m] == (b + r)[m];
    }
  }

  lemma {:induction false} LeadsOn(K: Config, v: View, w: View, x: View, e: multiset<Msg>, f: multiset<Msg>)
    requires Leads(K, v, w, e) && Leads(K, w, x, f)
    ensures Leads(K, v, x, e + f)
  {
    assert x.seen[..|w.seen|][..|v.seen|] == x.seen[..|v.seen|];
    Balance(Sighted(v.seen), Sighted(w.seen), Sighted(x.seen), v.books.Worked(), w.books.Worked(), x.books.Worked());
    assert (v.Ledger() + e) + f == v.Ledger() + (e + f);
  }

  /** Only the state, the phase, the script and the answers change. */
  lemma {:induction false} LeadsAside(K: Config, v: View, w: View)
    requires w == v.(state := w.state, phase := w.phase, script := w.script, answers := w.answers) && v.phase <= w.phase
    requires Fails(w.script) <= Fails(v.script) && Stops(w.answers) <= Stops(v.answers)
    ensures Leads(K, v, w, multiset{})
  {
  }

  lemma {:induction false} BodyLeads(K: Config, v: View)
    ensures Leads(K, v, Body(K, v).0, multiset{})
    ensures Body(K, v).1 ==> Fails(Body(K, v).0.script) < Fails(v.script)
    decreases |v.script|, 0, 0
  {
    if v.script != [] {
      var w := v.(script := v.script[1..]);
      LeadsAside(K, v, w);
      match v.script[0]
      case Return =>
      case Fail =>
      case Complete => StepLeads(K, v, w, None);
      case Jump(target) => StepLeads(K, v, w, Some(target));
    }
  }

  lemma {:induction false} StepLeads(K: Config, v: View, w: View, target: Option<nat>)
    requires |w.script| < |v.script| && Leads(K, v, w, multiset{})
    ensures Leads(K, v, AndThen(K, Transition(K, w, target), |v.script|).0, multiset{})
    ensures AndThen(K, Transition(K, w, target), |v.script|).1 ==>
      Fails(AndThen(K, Transition(K, w, target), |v.script|).0.script) < Fails(v.script)
    decreases |w.script|, 6, 0
  {
    TransitionLeads(K, w, target);
    var x := Transition(K, w, target);
    LeadsOn(K, v, w, x.0, multiset{}, multiset{});
    if !x.1 {
      BodyLeads(K, x.0);
      LeadsOn(K, v, x.0, Body(K, x.0).0, multiset{}, multiset{});
    }
  }

  lemma {:induction false} ArriveLeads(K: Config, v: View, state: nat)
    ensures Leads(K, v, Arrive(K, v, state).0, multiset{})
    ensures Arrive(K, v, state).1 != Stopped
    ensures Arrive(K, v, state).1 == Threw ==> Fails(Arrive(K, v, state).0.script) < Fails(v.script)
    decreases |v.script|, 1, 0
  {
    var w := v.(state := state);
    LeadsAside(K, v, w);
    BodyLeads(K, w);
    LeadsOn(K, v, w, Body(K, w).0, multiset{}, multiset{});
  }

  /** A transition that does not go through was stopped or failed. */
  ghost predicate Halted(v: View, x: (View, Entry)) {
    && (x.1 == Threw ==> Fails(x.0.script) < Fails(v.script))
    && (x.1 == Stopped ==> Stops(x.0.answers) < Stops(v.answers))
  }

  lemma {:induction false} EnterLeads(K: Config, v: View, target: Option<nat>)
    ensures Leads(K, v, Enter(K, v, target).0, multiset{}) && Halted(v, Enter(K, v, target))
    decreases |v.script|, 2, 0
  {
    if target.Some? {
      ArriveLeads(K, v, target.value);
    } else if !K.Cycles(v.state) {
      ArriveLeads(K, v, K.After(v.state));
    } else {
      var x := Body(K, v);
      BodyLeads(K, v);
      if !x.1 {
        CycleLeads(K, v, x.0);
      }
    }
  }

  lemma {:induction false} CycleLeads(K: Config, v: View, x: View)
    requires |x.script| <= |v.script| && Leads(K, v, x, multiset{})
    ensures Leads(K, v, EndCycle(K, x).0, multiset{}) && Halted(v, EndCycle(K, x))
    decreases |x.script|, 1, 2
  {
    if x.answers == [] {
      PhaseLeads(K, v, x);
    } else {
      AnswerLeads(K, v, x);
      if x.answers[0] {
        PhaseLeads(K, v, x.(answers := x.answers[1..]));
      }
    }
    EndCycleIs(K, x);
  }

  lemma {:induction false} EndCycleIs(K: Config, x: View)
    ensures var w := if x.answers == [] then x else x.(answers := x.answers[1..]);
            EndCycle(K, x) == if x.answers == [] || x.answers[0] then Arrive(K, w.(phase := w.phase + 1), K.After(w.state)) else (w, Stopped)
  {
  }

  lemma {:induction false} AnswerLeads(K: Config, v: View, x: View)
    requires Leads(K, v, x, multiset{}) && x.answers != []
    ensures Leads(K, v, x.(answers := x.answers[1..]), multiset{})
    ensures !x.answers[0] ==> Stops(x.answers[1..]) < Stops(v.answers)
  {
    var w := x.(answers := x.answers[1..]);
    LeadsAside(K, x, w);
    LeadsOn(K, v, x, w, multiset{}, multiset{});
  }

  ghost predicate NextPhaseLeads(K: Config, v: View, x: View) {
    var r := Arrive(K, x.(phase := x.phase + 1), K.After(x.state));
    Leads(K, v, r.0, multiset{}) && Halted(v, r)
  }

  lemma {:induction false} PhaseLeads(K: Config, v: View, x: View)
    requires |x.script| <= |v.script| && Leads(K, v, x, multiset{})
    ensures NextPhaseLeads(K, v, x)
    decreases |x.script|, 1, 1
  {
    var y := x.(phase := x.phase + 1);
    LeadsAside(K, x, y);
    LeadsOn(K, v, x, y, multiset{}, multiset{});
    ArriveLeads(K, y, K.After(y.state));
    LeadsOn(K, v, y, Arrive(K, y, K.After(y.state)).0, multiset{}, multiset{});
  }

  lemma {:induction false} LedgerAside(v: View)
    ensures v.(nextLog := []).Ledger() + multiset(v.nextLog) == v.Ledger()
  {
    assert multiset(v.(nextLog := []).nextLog) == multiset{};
  }

  /** The log is set aside, and comes in again... */
  lemma {:induction false} LogBack(K: Config, v: View, w: View)
    requires Leads(K, v.(nextLog := []), w, multiset(v.nextLog))
    ensures Leads(K, v, w, multiset{})
  {
    LedgerAside(v);
  }

  /** ... or is lost. */
  lemma {:induction false} LogLost(K: Config, v: View, w: View)
    requires Leads(K, v.(nextLog := []), w, multiset{})
    requires Fails(w.script) < Fails(v.script) || Stops(w.answers) < Stops(v.answers)
    ensures Leads(K, v, w.(books := w.books.Drop(v.nextLog)), multiset{})
  {
    var y := w.(books := w.books.Drop(v.nextLog));
    assert y.Ledger() == v.Ledger() + multiset{} by {
      LedgerAside(v);
      LedgerDrop(w, v.nextLog);
    }
    assert y.books.Worked() == w.books.Worked();
  }

  lemma {:induction false} LedgerDrop(w: View, log: seq<Msg>)
    ensures w.(books := w.books.Drop(log)).Ledger() == w.Ledger() + multiset(log)
  {
    DropTotal(w.books, log);
  }

  lemma {:induction false} DropTotal(b: Books, log: seq<Msg>)
    ensures b.Drop(log).Total() == b.Total() + multiset(log)
  {
  }

  lemma {:induction false} FiledTotal(b: Books, m: Msg, failed: bool)
    ensures Filed(b, m, failed).Total() == b.Total() + multiset{m} && Filed(b, m, failed).Worked() == b.Worked() + multiset{m}
  {
  }

  lemma {:induction false} TransitionLeads(K: Config, v: View, target: Option<nat>)
    ensures Leads(K, v, Transition(K, v, target).0, multiset{})
    ensures Transition(K, v, target).1 ==> Fails(Transition(K, v, target).0.script) < Fails(v.script)
    decreases |v.script|, 5, 0
  {
    var w := v.(nextLog := []);
    var x := Enter(K, w, target);
    EnterLeads(K, w, target);
    if x.1 == Entered {
      ReplayLeads(K, x.0, v.nextLog);
      LeadsOn(K, w, x.0, Replay(K, x.0, v.nextLog), multiset{}, multiset(v.nextLog));
      LogBack(K, v, Replay(K, x.0, v.nextLog));
    } else {
      LogLost(K, v, x.0);
    }
  }

  lemma {:induction false} ReplayLeads(K: Config, v: View, log: seq<Msg>)
    ensures Leads(K, v, Replay(K, v, log), multiset(log))
    decreases |v.script|, 4, |log|
  {
    if log == [] {
      LeadsAside(K, v, v);
    } else {
      ProcessLeads(K, v, log[0]);
      var w := Process(K, v, log[0]);
      ReplayLeads(K, w, log[1..]);
      assert log == [log[0]] + log[1..];
      LeadsOn(K, v, w, Replay(K, w, log[1..]), multiset{log[0]}, multiset(log[1..]));
    }
  }

  lemma {:induction false} ProcessLeads(K: Config, v: View, m: Msg)
    ensures Leads(K, v, Process(K, v, m), multiset{m})
    decreases |v.script|, 3, 0
  {
    match Judge(K, v.state, v.phase, m)
    case Refuse =>
    case Buffer =>
    case Deliver =>
      var s := Sighting(m, v.phase, K.TypeOf(v.state));
      var w := v.(seen := v.seen + [s]);
      BodyLeads(K, w);
      var x := Body(K, w);
      HandlerLeads(K, v, s, x.0, x.1);
  }

  /** A handler's body led from the sighting to x; its message is filed. */
  lemma {:induction false} HandlerLeads(K: Config, v: View, s: Sighting, x: View, failed: bool)
    requires Judge(K, v.state, v.phase, s.msg).Deliver? && s.phase == v.phase && s.mtype == K.TypeOf(v.state)
    requires Leads(K, v.(seen := v.seen + [s]), x, multiset{}) && (failed ==> Fails(x.script) < Fails(v.script))
    ensures Leads(K, v, x.(books := Filed(x.books, s.msg, failed)), multiset{s.msg})
  {
    var w, y := v.(seen := v.seen + [s]), x.(books := Filed(x.books, s.msg, failed));
    FiledTotal(x.books, s.msg, failed);
    SightLeads(K, v, s, x);
    assert y.Ledger() == x.Ledger() + multiset{s.msg};
    assert x.Ledger() == w.Ledger() + multiset{} == v.Ledger() + multiset{};
    assert Sighted(w.seen) == Sighted(v.seen) + multiset{s.msg} by {
      assert w.seen[..|v.seen|] == v.seen;
    }
    assert y.seen == x.seen && y.phase == x.phase;
    FiledGrows(w, x, s.msg, failed);
  }

  lemma {:induction false} FiledGrows(w: View, x: View, m: Msg, failed: bool)
    requires LessLeft(w, x) && Explained(w, x) && (failed ==> Fails(x.script) < Fails(w.script))
    ensures var y := x.(books := Filed(x.books, m, failed)); LessLeft(w, y) && Explained(w, y)
  {
  }

  lemma {:induction false} SightLeads(K: Config, v: View, s: Sighting, x: View)
    requires Judge(K, v.state, v.phase, s.msg).Deliver? && s.phase == v.phase && s.mtype == K.TypeOf(v.state)
    requires SeesOn(K, v.(seen := v.seen + [s]), x)
    ensures SeesOn(K, v, x)
  {
    var seen := v.seen + [s];
    assert seen[..|v.seen|] == v.seen && x.seen[..|seen|][..|v.seen|] == x.seen[..|v.seen|];
    assert ProperSightings(K, v.seen, v.phase) ==> ProperSightings(K, seen, v.phase);
  }

  // ----- single calls -----

  /** What becomes of one message: refused or buffered by the rules alone; a message that is
      delivered was shown to the handler of this state and phase, and is filed as handled, or as
      failed when something failed. */
  lemma {:induction false} ProcessOutcome(K: Config, v: View, m: Msg)
    ensures var w := Process(K, v, m);
            match Judge(K, v.state, v.phase, m)
            case Refuse => w == v.(books := v.books.(refused := v.books.refused + multiset{m}))
            case Buffer => w == v.(nextLog := v.nextLog + [m])
            case Deliver =>
              && Begins(v.seen + [Sighting(m, v.phase, m.mtype)], w.seen)
              && (v.books.handled + multiset{m} <= w.books.handled
                  || (v.books.failed + multiset{m} <= w.books.failed && Fails(w.script) < Fails(v.script)))
  {
    if Judge(K, v.state, v.phase, m).Deliver? {
      BodyLeads(K, v.(seen := v.seen + [Sighting(m, v.phase, K.TypeOf(v.state))]));
    }
  }

  /** The messages among these that have to wait, and those that are delivered. */
  function Waiting(K: Config, state: nat, phase: nat, log: seq<Msg>): seq<Msg> {
    if log == [] then []
    else (if Judge(K, state, phase, log[0]).Buffer? then [log[0]] else []) + Waiting(K, state, phase, log[1..])
  }

  function Due(K: Config, state: nat, phase: nat, log: seq<Msg>): multiset<Msg> {
    if log == [] then multiset{}
    else (if Judge(K, state, phase, log[0]).Deliver? then multiset{log[0]} else multiset{}) + Due(K, state, phase, log[1..])
  }

  lemma {:induction false} QuietBody(K: Config, v: View)
    requires v.script == []
    ensures Body(K, v) == (v, false)
  {
  }

  /** What becomes of a message while the round does nothing. */
  lemma {:induction false} QuietProcess(K: Config, v: View, m: Msg)
    requires v.script == []
    ensures var w, j := Process(K, v, m), Judge(K, v.state, v.phase, m);
            && w.state == v.state && w.phase == v.phase && w.script == [] && w.answers == v.answers
            && w.nextLog == v.nextLog + (if j.Buffer? then [m] else [])
            && w.books.handled == v.books.handled + (if j.Deliver? then multiset{m} else multiset{}) && w.books.failed == v.books.failed
  {
    QuietBody(K, v.(seen := v.seen + [Sighting(m, v.phase, K.TypeOf(v.state))]));
  }

  lemma {:induction false} QuietReplay(K: Config, v: View, log: seq<Msg>)
    requires v.script == []
    ensures var w := Replay(K, v, log);
            && w.state == v.state && w.phase == v.phase && w.script == [] && w.answers == v.answers
            && w.nextLog == v.nextLog + Waiting(K, v.state, v.phase, log)
            && w.books.handled == v.books.handled + Due(K, v.state, v.phase, log) && w.books.failed == v.books.failed
    decreases |log|
  {
    if log != [] {
      QuietProcess(K, v, log[0]);
      var w := Process(K, v, log[0]);
      QuietReplay(K, w, log[1..]);
      var now, rest := if Judge(K, v.state, v.phase, log[0]).Buffer? then [log[0]] else [], Waiting(K, v.state, v.phase, log[1..]);
      assert (v.nextLog + now) + rest == v.nextLog + (now + rest);
    }
  }

  lemma {:induction false} QuietEnter(K: Config, v: View, target: Option<nat>)
    requires v.script == [] && v.answers == []
    ensures Enter(K, v, target) == (v.(state := if target.Some? then target.value else K.After(v.state),
                                       phase := if target.None? && K.Cycles(v.state) then v.phase + 1 else v.phase), Entered)
  {
    QuietBody(K, v);
    var next := if target.None? && K.Cycles(v.state) then v.(phase := v.phase + 1) else v;
    var to := if target.Some? then target.value else K.After(v.state);
    QuietBody(K, next.(state := to));
    assert Arrive(K, next, to) == (next.(state := to), Entered);
    if target.None? && K.Cycles(v.state) {
      assert EndCycle(K, v) == Arrive(K, next, to);
    }
  }

  /** A transition during which the round does nothing: the new state gets the messages that are
      due, the others that still have to wait keep their order, and nothing is lost. */
  lemma {:induction false} QuietTransition(K: Config, v: View, target: Option<nat>)
    requires v.script == [] && v.answers == []
    ensures var x := Transition(K, v, target);
            var w, cycle := x.0, target.None? && K.Cycles(v.state);
            && !x.1 && w.state == (if target.Some? then target.value else K.After(v.state))
            && w.phase == v.phase + (if cycle then 1 else 0)
            && w.nextLog == Waiting(K, w.state, w.phase, v.nextLog)
            && w.books.handled == v.books.handled + Due(K, w.state, w.phase, v.nextLog)
            && w.books.failed == v.books.failed && w.books.dropped == v.books.dropped
  {
    var x := Enter(K, v.(nextLog := []), target);
    QuietEnter(K, v.(nextLog := []), target);
    QuietReplay(K, x.0, v.nextLog);
    TransitionLeads(K, v, target);
  }

  // ----- runs -----

  /** What happens to the machine from outside. */
  datatype Call = Arrives(msg: Msg) | Completes | Sets(state: nat)

  function Called(K: Config, v: View, c: Call): View {
    match c
    case Arrives(m) => Process(K, v, m)
    case Completes => Transition(K, v, None).0
    case Sets(state) => Transition(K, v, Some(state)).0
  }

  function Run(K: Config, v: View, calls: seq<Call>): View
    decreases |calls|
  {
    if calls == [] then v else Run(K, Called(K, v, calls[0]), calls[1..])
  }

  function Start(state: nat, script: seq<Choice>, answers: seq<bool>): View {
    View(state, 0, [], script, answers, NO_BOOKS, [])
  }

  function Arrived(calls: seq<Call>): multiset<Msg> {
    if calls == [] then multiset{}
    else (if calls[0].Arrives? then multiset{calls[0].msg} else multiset{}) + Arrived(calls[1..])
  }

  method Drive(machine: Machine, calls: seq<Call>)
    modifies machine
    ensures machine.State() == Run(machine.K, old(machine.State()), calls)
  {
    for k := 0 to |calls|
      invariant Run(machine.K, machine.State(), calls[k..]) == Run(machine.K, old(machine.State()), calls)
    {
      assert calls[k..][0] == calls[k] && calls[k..][1..] == calls[k + 1..];
      match calls[k] {
        case Arrives(m) => machine.ProcessData(m);
        case Completes => var _ := machine.StateComplete(None);
        case Sets(state) => var _ := machine.StateComplete(Some(state));
      }
    }
  }

  lemma {:induction false} RunLeads(K: Config, v: View, calls: seq<Call>)
    ensures Leads(K, v, Run(K, v, calls), Arrived(calls))
    decreases |calls|
  {
    if calls == [] {
      LeadsAside(K, v, v);
    } else {
      var w := Called(K, v, calls[0]);
      match calls[0] {
        case Arrives(m) => ProcessLeads(K, v, m);
        case Completes => TransitionLeads(K, v, None);
        case Sets(state) => TransitionLeads(K, v, Some(state));
      }
      RunLeads(K, w, calls[1..]);
      LeadsOn(K, v, w, Run(K, w, calls[1..]), if calls[0].Arrives? then multiset{calls[0].msg} else multiset{}, Arrived(calls[1..]));
    }
  }

  lemma {:induction false} NoFails(script: seq<Choice>)
    ensures Fails(script) == 0 <==> Fail !in script
  {
    if script != [] {
      NoFails(script[1..]);
      assert script == [script[0]] + script[1..];
    }
  }

  lemma {:induction false} NoStops(answers: seq<bool>)
    ensures Stops(answers) == 0 <==> false !in answers
  {
    if answers != [] {
      NoStops(answers[1..]);
      assert answers == [answers[0]] + answers[1..];
    }
  }

  /** Every run, whatever the round's code does: each message that arrived is handled, refused,
      failed, buffered or lost, exactly once; the handlers that ran are those of the handled and
      failed messages, each with the right type and phase; nothing fails unless the round's code
      fails, and nothing is lost unless it fails or ends a cycle. */
  lemma {:induction false} RunConserves(K: Config, state: nat, script: seq<Choice>, answers: seq<bool>, calls: seq<Call>)
    ensures var w := Run(K, Start(state, script, answers), calls);
            && w.books.handled + w.books.refused + w.books.failed + w.books.dropped + multiset(w.nextLog) == Arrived(calls)
            && Sighted(w.seen) == w.books.handled + w.books.failed && ProperSightings(K, w.seen, w.phase)
            && (Fail !in script ==> w.books.failed == multiset{})
            && (Fail !in script && false !in answers ==> w.books.dropped == multiset{})
  {
    var v := Start(state, script, answers);
    RunLeads(K, v, calls);
    NoFails(script);
    NoStops(answers);
    var w := Run(K, v, calls);
    assert v.Ledger() == multiset{};
    FromNothing(v, w);
  }

  lemma {:induction false} FromNothing(v: View, w: View)
    requires v.books == NO_BOOKS && v.seen == [] && Sighted(w.seen) + v.books.Worked() == Sighted(v.seen) + w.books.Worked()
    ensures Sighted(w.seen) == w.books.handled + w.books.failed
  {
    var none, s, h := v.books.Worked(), Sighted(w.seen), w.books.Worked();
    assert none == multiset{} == Sighted(v.seen);
    assert s + none == s && none + h == h;
  }

  // ----- when messages can be lost -----

  ghost predicate CanLose(script: seq<Choice>, answers: seq<bool>) {
    exists K, state, calls :: LosesIn(K, state, script, answers, calls)
  }

  predicate LosesIn(K: Config, state: nat, script: seq<Choice>, answers: seq<bool>, calls: seq<Call>) {
    Run(K, Start(state, script, answers), calls).books.dropped != multiset{}
  }

  /** A state that no choice jumps to. */
  function Beyond(script: seq<Choice>): (far: nat)
    ensures far > 0 && forall i :: 0 <= i < |script| && script[i].Jump? ==> script[i].state < far
  {
    if script == [] then 1
    else
      var far := Beyond(script[1..]);
      if script[0].Jump? && script[0].state >= far then script[0].state + 1 else far
  }

  ghost predicate JumpsBelow(script: seq<Choice>, far: nat) {
    forall i :: 0 <= i < |script| && script[i].Jump? ==> script[i].state < far
  }

  /** A machine in which the message waits in every state but far, and the cycle is one state. */
  function WaitingRoom(far: nat): Config {
    Config(0, true, far + 1, map[far := 1], map[], {1})
  }

  function Waiter(phase: int): Msg {
    Msg(0, true, 1, 0, phase, 0)
  }

  /** A callback of that machine while nothing is in the log: nothing happens to the messages. */
  lemma {:induction false} IdleBody(far: nat, v: View)
    requires v.nextLog == [] && v.state < far && JumpsBelow(v.script, far)
    ensures var x := Body(WaitingRoom(far), v);
            && x.0.nextLog == [] && x.0.state < far && JumpsBelow(x.0.script, far)
            && x.0.books == v.books && x.0.answers == v.answers && x.0.phase == v.phase
            && (!x.1 ==> Fails(x.0.script) == Fails(v.script))
    decreases |v.script|, 0
  {
    if v.script != [] {
      var w := v.(script := v.script[1..]);
      assert forall i :: 0 <= i < |w.script| ==> w.script[i] == v.script[i + 1];
      match v.script[0]
      case Return =>
      case Fail =>
      case Complete =>
        IdleTransition(far, w, None);
        if !Transition(WaitingRoom(far), w, None).1 {
          IdleBody(far, Transition(WaitingRoom(far), w, None).0);
        }
      case Jump(target) =>
        IdleTransition(far, w, Some(target));
        if !Transition(WaitingRoom(far), w, Some(target)).1 {
          IdleBody(far, Transition(WaitingRoom(far), w, Some(target)).0);
        }
    }
  }

  lemma {:induction false} IdleTransition(far: nat, v: View, target: Option<nat>)
    requires v.nextLog == [] && v.state < far && JumpsBelow(v.script, far) && (target.Some? ==> target.value < far)
    ensures var x := Transition(WaitingRoom(far), v, target);
            && x.0.nextLog == [] && x.0.state < far && JumpsBelow(x.0.script, far)
            && x.0.books == v.books && x.0.answers == v.answers && x.0.phase == v.phase
            && (!x.1 ==> Fails(x.0.script) == Fails(v.script))
    decreases |v.script|, 1
  {
    var K, to := WaitingRoom(far), if target.Some? then target.value else v.state;
    assert v.(nextLog := []) == v;
    IdleBody(far, v.(state := to));
    assert Enter(K, v, target) == Arrive(K, v, to);
  }

  /** The message waits in the log, and its phase has not passed. */
  ghost predicate InRoom(v: View, m: Msg) {
    m == Waiter(m.phase) && v.nextLog == [m] && v.phase <= m.phase
  }

  lemma {:induction false} WaitsOn(far: nat, v: View, m: Msg)
    requires m == Waiter(m.phase) && v.phase <= m.phase && v.state != far && v.nextLog == []
    ensures Replay(WaitingRoom(far), v, [m]) == v.(nextLog := [m])
  {
    assert [m][1..] == [];
    assert Process(WaitingRoom(far), v, m) == v.(nextLog := [m]);
  }

  /** One more transition of the waiting room: the message is lost if a choice failed. */
  lemma {:induction false} RoomTransition(far: nat, v: View, m: Msg)
    requires InRoom(v, m) && v.state < far && JumpsBelow(v.script, far)
    ensures var x := Transition(WaitingRoom(far), v, None);
            if x.1 then x.0.books.dropped == v.books.dropped + multiset{m}
            else InRoom(x.0, m) && x.0.state < far && JumpsBelow(x.0.script, far)
                 && x.0.books == v.books && x.0.answers == v.answers && x.0.phase == v.phase && Fails(x.0.script) == Fails(v.script)
    ensures v.script != [] ==> |Transition(WaitingRoom(far), v, None).0.script| < |v.script|
  {
    var K, w := WaitingRoom(far), v.(nextLog := []);
    IdleBody(far, w.(state := v.state));
    assert Enter(K, w, None) == Arrive(K, w, v.state);
    var x := Arrive(K, w, v.state);
    if x.1 == Entered {
      WaitsOn(far, x.0, m);
    } else {
      assert multiset([m]) == multiset{m};
    }
  }

  /** The waiting room runs through the whole script, or loses the message on the way. */
  lemma {:induction false} RoomRuns(far: nat, v: View, m: Msg) returns (calls: seq<Call>)
    requires InRoom(v, m) && v.state < far && JumpsBelow(v.script, far)
    ensures var w := Run(WaitingRoom(far), v, calls);
            if Fails(v.script) > 0 then m in w.books.dropped
            else InRoom(w, m) && w.script == [] && w.answers == v.answers && w.phase == v.phase && w.state < far
    decreases |v.script|
  {
    if v.script == [] {
      calls := [];
    } else {
      var x := Transition(WaitingRoom(far), v, None);
      RoomTransition(far, v, m);
      var rest := [];
      if x.1 {
        TransitionLeads(WaitingRoom(far), v, None);
      } else {
        rest := RoomRuns(far, x.0, m);
      }
      calls := [Completes] + rest;
      assert calls[1..] == rest;
    }
  }

  /** At the end of each cycle the message waits on, until an answer ends the round. */
  lemma {:induction false} CycleRuns(far: nat, v: View, m: Msg) returns (calls: seq<Call>)
    requires InRoom(v, m) && v.state == far + 1 && v.script == [] && Stops(v.answers) > 0
    requires v.phase + |v.answers| <= m.phase
    ensures m in Run(WaitingRoom(far), v, calls).books.dropped
    decreases |v.answers|
  {
    var K, w := WaitingRoom(far), v.(nextLog := []);
    var x := Transition(K, v, None);
    QuietBody(K, w);
    assert Enter(K, w, None) == EndCycle(K, w);
    var rest := [];
    if v.answers[0] {
      var next := w.(answers := v.answers[1..], phase := v.phase + 1);
      QuietBody(K, next);
      assert next.(state := far + 1) == next;
      assert EndCycle(K, w) == Arrive(K, next, far + 1) == (next, Entered);
      WaitsOn(far, next, m);
      rest := CycleRuns(far, x.0, m);
    } else {
      assert EndCycle(K, w).1 == Stopped;
      assert multiset([m]) == multiset{m};
    }
    calls := [Completes] + rest;
    assert calls[1..] == rest;
  }

  lemma {:induction false} RunAppend(K: Config, v: View, a: seq<Call>, b: seq<Call>)
    ensures Run(K, v, a + b) == Run(K, Run(K, v, a), b)
    decreases |a|
  {
    if a == [] {
      assert a + b == b;
    } else {
      RunAppend(K, Called(K, v, a[0]), a[1..], b);
      assert (a + b)[0] == a[0] && (a + b)[1..] == a[1..] + b;
    }
  }

  /** The message enters, and the room runs through the script. */
  lemma {:induction false} LosesByFailing(script: seq<Choice>, answers: seq<bool>)
    requires Fails(script) > 0
    ensures CanLose(script, answers)
  {
    var far, m := Beyond(script), Waiter(0);
    var K, v := WaitingRoom(far), Start(0, script, answers);
    var w := Called(K, v, Arrives(m));
    assert InRoom(w, m);
    var rest := RoomRuns(far, w, m);
    var calls := [Arrives(m)] + rest;
    assert calls[1..] == rest;
    assert LosesIn(K, 0, script, answers, calls);
  }

  lemma {:induction false} LosesByStopping(script: seq<Choice>, answers: seq<bool>)
    requires Fails(script) == 0 && Stops(answers) > 0
    ensures CanLose(script, answers)
  {
    var far, m := Beyond(script), Waiter(|answers|);
    var K, v := WaitingRoom(far), Start(0, script, answers);
    var w := Called(K, v, Arrives(m));
    assert InRoom(w, m);
    var first := RoomRuns(far, w, m);
    var x := Run(K, w, first);
    var y := Called(K, x, Sets(far + 1));
    EntersCycle(far, x, m);
    var last := CycleRuns(far, y, m);
    RunAppend(K, w, first, [Sets(far + 1)] + last);
    assert ([Sets(far + 1)] + last)[1..] == last;
    var calls := [Arrives(m)] + (first + ([Sets(far + 1)] + last));
    assert calls[1..] == first + ([Sets(far + 1)] + last);
    assert LosesIn(K, 0, script, answers, calls);
  }

  lemma {:induction false} EntersCycle(far: nat, v: View, m: Msg)
    requires InRoom(v, m) && v.script == []
    ensures Called(WaitingRoom(far), v, Sets(far + 1)) == v.(state := far + 1)
  {
    var K, w := WaitingRoom(far), v.(nextLog := []);
    QuietBody(K, w.(state := far + 1));
    assert Enter(K, w, Some(far + 1)) == (w.(state := far + 1), Entered);
    WaitsOn(far, w.(state := far + 1), m);
  }

  /** Message loss, exactly: what a round's code does can lose a message, in some configuration and
      some order of events, if and only if it fails somewhere or ends a cycle. */
  lemma {:induction false} LossPossibleIff(script: seq<Choice>, answers: seq<bool>)
    ensures CanLose(script, answers) <==> Fail in script || false in answers
  {
    NoFails(script);
    NoStops(answers);
    if Fails(script) > 0 {
      LosesByFailing(script, answers);
    } else if Stops(answers) > 0 {
      LosesByStopping(script, answers);
    } else {
      forall K, state, calls ensures !LosesIn(K, state, script, answers, calls) {
        RunConserves(K, state, script, answers, calls);
      }
    }
  }

  /** The smallest failure inside a handler: a message waits, another one is handled, its handler
      completes the state, and the callback of the next state fails. The first message is lost and
      the second one has failed. */
  lemma {:induction false} CallbackFailureLoses(waiting: Msg, now: Msg)
    requires waiting == Msg(0, true, 2, 0, 0, 0) && now == Msg(0, true, 1, 0, 0, 0)
    ensures var K := Config(0, false, 0, map[0 := 1, 1 := 2], map[0 := 1], {1, 2});
            var w := Run(K, Start(0, [Complete, Fail], []), [Arrives(waiting), Arrives(now)]);
            w.books == Books(multiset{}, multiset{}, multiset{now}, multiset{waiting}) && w.nextLog == []
  {
    var K := Config(0, false, 0, map[0 := 1, 1 := 2], map[0 := 1], {1, 2});
    var script := [Complete, Fail];
    var v := Start(0, script, []);
    var w := v.(nextLog := [waiting]);
    assert Process(K, v, waiting) == w;
    var s := w.(seen := [Sighting(now, 0, 1)]);
    var t := s.(script := [Fail]);
    assert script[1..] == [Fail] && [Fail][1..] == [];
    var u := t.(nextLog := [], state := 1, script := []);
    assert Body(K, u.(script := [Fail])) == (u, true);
    assert Enter(K, t.(nextLog := []), None) == (u, Threw);
    assert Transition(K, t, None) == (u.(books := u.books.Drop([waiting])), true);
    assert Body(K, s) == Transition(K, t, None);
    assert [] + [Sighting(now, 0, 1)] == [Sighting(now, 0, 1)];
    var e := u.(seen := [Sighting(now, 0, 1)], books := Books(multiset{}, multiset{}, multiset{now}, multiset{waiting}));
    assert multiset([waiting]) == multiset{waiting};
    assert Process(K, w, now) == e;
    var calls := [Arrives(waiting), Arrives(now)];
    assert calls[1..] == [Arrives(now)] && [Arrives(now)][1..] == [];
    assert Run(K, e, []) == e;
  }
}
