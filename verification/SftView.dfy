/** Views of the SFT protocol: which servers take part, and how a vote moves to another view. */
module SftView {
  import opened Counting

  // ----- membership -----

  /** Two thirds of the servers, rounded up. */
  function Quorum(n: nat): nat {
    (2 * n + 2) / 3
  }

  lemma {:induction false} QuorumBounds(n: nat)
    ensures 3 * Quorum(n) >= 2 * n && Quorum(n) <= n
    ensures forall k: nat :: 3 * k >= 2 * n <==> k >= Quorum(n)
  {
  }

  /** The server indices drawn at random for each view number. */
  type Draws = nat -> seq<nat>

  /** The members after k draws: each new index joins until the quorum is full. */
  function Members(n: nat, draws: seq<nat>, k: nat): set<nat>
    requires k <= |draws|
  {
    if k == 0 then {}
    else
      var before := Members(n, draws, k - 1);
      if |before| < Quorum(n) then before + {draws[k - 1]} else before
  }

  /** The draws are enough to fill the view. */
  ghost predicate Fills(n: nat, draws: seq<nat>) {
    |Members(n, draws, |draws|)| == Quorum(n) && forall k :: 0 <= k < |draws| ==> draws[k] < n
  }

  ghost predicate Generates(n: nat, draws: Draws) {
    n > 0 && forall v :: Fills(n, draws(v))
  }

  function View(n: nat, draws: Draws, v: nat): set<nat> {
    Members(n, draws(v), |draws(v)|)
  }

  lemma {:induction false} MembersBelow(n: nat, draws: seq<nat>, k: nat)
    requires k <= |draws| && forall j :: 0 <= j < |draws| ==> draws[j] < n
    ensures forall x :: x in Members(n, draws, k) ==> x < n
  {
    if k > 0 {
      MembersBelow(n, draws, k - 1);
    }
  }

  lemma {:induction false} MembersGrow(n: nat, draws: seq<nat>, k: nat, m: nat)
    requires k <= m <= |draws|
    ensures Members(n, draws, k) <= Members(n, draws, m)
    ensures |Members(n, draws, k)| >= Quorum(n) ==> Members(n, draws, m) == Members(n, draws, k)
    ensures |Members(n, draws, k)| <= Quorum(n)
  {
    if k < m {
      MembersGrow(n, draws, k, m - 1);
    } else if k > 0 {
      MembersGrow(n, draws, k - 1, k - 1);
    }
  }

  /** The flags of a member set. */
  ghost predicate Flags(flags: seq<bool>, n: nat, members: set<nat>) {
    |flags| == n && forall i :: 0 <= i < n ==> flags[i] == (i in members)
  }

  /** calcServerMembership: draw until two thirds of the flags are set. */
  method CalcServerMembership(n: nat, draws: seq<nat>) returns (flags: seq<bool>)
    requires Fills(n, draws)
    ensures Flags(flags, n, Members(n, draws, |draws|))
  {
    flags := seq(n, i => false);
    var memberCount, k := 0, 0;
    while memberCount < Quorum(n)
      invariant k <= |draws| && Flags(flags, n, Members(n, draws, k))
      invariant memberCount == |Members(n, draws, k)|
      decreases |draws| - k
    {
      DrawNext(n, draws, k, flags);
      if !flags[draws[k]] {
        flags := flags[draws[k] := true];
        memberCount := memberCount + 1;
      }
      k := k + 1;
    }
    DrawDone(n, draws, k);
  }

  lemma {:induction false} DrawDone(n: nat, draws: seq<nat>, k: nat)
    requires k <= |draws| && |Members(n, draws, k)| >= Quorum(n)
    ensures Members(n, draws, |draws|) == Members(n, draws, k)
  {
    MembersGrow(n, draws, k, |draws|);
  }

  lemma {:induction false} DrawNext(n: nat, draws: seq<nat>, k: nat, flags: seq<bool>)
    requires Fills(n, draws) && k <= |draws|
    requires Flags(flags, n, Members(n, draws, k)) && |Members(n, draws, k)| < Quorum(n)
    ensures k < |draws| && draws[k] < n
    ensures flags[draws[k]] ==> Members(n, draws, k + 1) == Members(n, draws, k)
    ensures !flags[draws[k]] ==>
      |Members(n, draws, k + 1)| == |Members(n, draws, k)| + 1 && Flags(flags[draws[k] := true], n, Members(n, draws, k + 1))
  {
    MembersGrow(n, draws, k, |draws|);
    DrawStep(n, draws, k, flags);
  }

  lemma {:induction false} DrawStep(n: nat, draws: seq<nat>, k: nat, flags: seq<bool>)
    requires k < |draws| && draws[k] < n && Flags(flags, n, Members(n, draws, k)) && |Members(n, draws, k)| < Quorum(n)
    ensures flags[draws[k]] ==> Members(n, draws, k + 1) == Members(n, draws, k)
    ensures !flags[draws[k]] ==>
      |Members(n, draws, k + 1)| == |Members(n, draws, k)| + 1 && Flags(flags[draws[k] := true], n, Members(n, draws, k + 1))
  {
    var before := Members(n, draws, k);
    assert Members(n, draws, k + 1) == before + {draws[k]};
    if flags[draws[k]] {
      assert before + {draws[k]} == before;
    }
  }

  // ----- views without failed servers -----

  ghost predicate Without(view: set<nat>, down: seq<nat>) {
    forall i :: 0 <= i < |down| ==> down[i] !in view
  }

  ghost predicate Avoids(n: nat, draws: Draws, v: nat, down: seq<nat>) {
    Without(View(n, draws, v), down)
  }

  method NoneIn(flags: seq<bool>, down: seq<nat>, n: nat, ghost view: set<nat>) returns (good: bool)
    requires Flags(flags, n, view) && forall i :: 0 <= i < |down| ==> down[i] < n
    ensures good == Without(view, down)
  {
    good := true;
    for i := 0 to |down|
      invariant good == forall j :: 0 <= j < i ==> down[j] !in view
    {
      if flags[down[i]] {
        good := false;
      }
    }
  }

  method IsGood(n: nat, draws: seq<nat>, down: seq<nat>) returns (good: bool)
    requires Fills(n, draws) && forall i :: 0 <= i < |down| ==> down[i] < n
    ensures good == Without(Members(n, draws, |draws|), down)
  {
    var flags := CalcServerMembership(n, draws);
    good := NoneIn(flags, down, n, Members(n, draws, |draws|));
  }

  /** Every view after current and before v contains a failed server. */
  ghost predicate AllBad(n: nat, draws: Draws, down: seq<nat>, current: nat, v: nat) {
    forall w :: current < w < v ==> !Avoids(n, draws, w, down)
  }

  lemma {:induction false} AllBadStep(n: nat, draws: Draws, down: seq<nat>, current: nat, v: nat)
    requires AllBad(n, draws, down, current, v) && !Avoids(n, draws, v, down)
    ensures AllBad(n, draws, down, current, v + 1)
  {
  }

  method CheckView(n: nat, draws: Draws, down: seq<nat>, v: nat) returns (good: bool)
    requires Generates(n, draws) && forall i :: 0 <= i < |down| ==> down[i] < n
    ensures good == Avoids(n, draws, v, down)
  {
    assert Fills(n, draws(v));
    good := IsGood(n, draws(v), down);
  }

  /** nextGoodView: the least later view without failed servers, if there is one. */
  method NextGoodView(n: nat, draws: Draws, down: seq<nat>, current: nat, ghost good: nat) returns (v: nat)
    requires Generates(n, draws) && forall i :: 0 <= i < |down| ==> down[i] < n
    requires good > current && Avoids(n, draws, good, down)
    ensures v > current && Avoids(n, draws, v, down)
    ensures AllBad(n, draws, down, current, v)
  {
    v := current + 1;
    var viewGood := CheckView(n, draws, down, v);
    while !viewGood
      invariant current < v <= good && viewGood == Avoids(n, draws, v, down)
      invariant AllBad(n, draws, down, current, v)
      decreases good - v
    {
      AllBadStep(n, draws, down, current, v);
      v := v + 1;
      viewGood := CheckView(n, draws, down, v);
    }
  }

  /** tooFewServers. */
  predicate TooFewServers(n: nat, failed: nat) {
    3 * (n as int - failed as int) < 2 * n
  }

  /** Once too few servers are left, no view avoids the failed ones. */
  lemma {:induction false} TooFewMeansNoView(n: nat, draws: Draws, down: seq<nat>, failed: set<nat>, v: nat)
    requires Generates(n, draws) && TooFewServers(n, |failed|)
    requires forall x :: x in failed <==> x in down
    requires forall x :: x in failed ==> x < n
    ensures !Avoids(n, draws, v, down)
  {
    var view := View(n, draws, v);
    assert Fills(n, draws(v));
    MembersBelow(n, draws(v), |draws(v)|);
    Overlap(view, failed, n);
    QuorumBounds(n);
    var x :| x in view * failed;
    assert x in down;
  }

  // ----- votes -----

  /** The votes for one proposed view. The code reads the count back as the number of
      rejections. */
  datatype Tally = Tally(count: nat, rejections: nat, voters: seq<nat>)

  datatype State = State(view: nat, proposals: map<nat, Tally>)

  datatype Outcome = Unchanged | Changed(view: nat) | Abandoned

  function Counted(st: State, v: nat, yes: bool, voter: nat): Tally {
    var prior := if v in st.proposals then st.proposals[v] else Tally(0, 0, []);
    Tally(if yes then prior.count + 1 else prior.count, if yes then prior.count else prior.count + 1, prior.voters + [voter])
  }

  predicate Repeated(st: State, v: nat, voter: nat) {
    v in st.proposals && voter in st.proposals[v].voters
  }

  function Voted(n: nat, st: State, v: nat, yes: bool, voter: nat): (State, Outcome) {
    if Repeated(st, v, voter) then (st, Unchanged)
    else
      var t := Counted(st, v, yes, voter);
      if 3 * t.count >= 2 * n && v > st.view then (State(v, map[]), Changed(v))
      else if t.rejections >= n then (st.(proposals := map[]), Abandoned)
      else (st.(proposals := st.proposals[v := t]), Unchanged)
  }

  /** The votes cast since the proposals were last cleared, and the changes of view so far, each
      with those who voted for it. */
  datatype History = History(st: State, yes: map<nat, set<nat>>, changes: seq<(nat, set<nat>)>)

  function Supporters(h: History, v: nat): set<nat> {
    if v in h.yes then h.yes[v] else {}
  }

  function After(n: nat, h: History, v: nat, yes: bool, voter: nat): History {
    var (st, outcome) := Voted(n, h.st, v, yes, voter);
    if Repeated(h.st, v, voter) then h
    else
      var supporters := if yes then Supporters(h, v) + {voter} else Supporters(h, v);
      match outcome
      case Unchanged => History(st, h.yes[v := supporters], h.changes)
      case Changed(_) => History(st, map[], h.changes + [(v, supporters)])
      case Abandoned => History(st, map[], h.changes)
  }

  ghost predicate TallyFits(t: Tally, supporters: set<nat>) {
    && t.count == |supporters|
    && forall x :: x in supporters ==> x in t.voters
  }

  ghost predicate Inv(n: nat, h: History) {
    && h.yes.Keys == h.st.proposals.Keys
    && (forall v :: v in h.st.proposals ==> TallyFits(h.st.proposals[v], h.yes[v]))
    && (forall k :: 0 <= k < |h.changes| ==> 3 * |h.changes[k].1| >= 2 * n)
    && (forall k, l :: 0 <= k < l < |h.changes| ==> h.changes[k].0 < h.changes[l].0)
    && (forall k :: 0 <= k < |h.changes| ==> h.changes[k].0 <= h.st.view)
    && (|h.changes| > 0 ==> h.changes[|h.changes| - 1].0 == h.st.view)
  }

  /** Every vote, for or against, repeated or not, keeps the invariant: the view number grows at
      each change, and every change has the support of two thirds of distinct voters. */
  lemma {:induction false} VoteKeepsInv(n: nat, h: History, v: nat, yes: bool, voter: nat)
    requires Inv(n, h)
    ensures Inv(n, After(n, h, v, yes, voter))
    ensures h.st.view <= After(n, h, v, yes, voter).st.view
    ensures Voted(n, h.st, v, yes, voter).1.Changed? <==> h.st.view < After(n, h, v, yes, voter).st.view
  {
    if !Repeated(h.st, v, voter) {
      CountedFits(n, h, v, yes, voter);
    }
  }

  lemma {:induction false} CountedFits(n: nat, h: History, v: nat, yes: bool, voter: nat)
    requires Inv(n, h) && !Repeated(h.st, v, voter)
    ensures TallyFits(Counted(h.st, v, yes, voter), if yes then Supporters(h, v) + {voter} else Supporters(h, v))
  {
    if v in h.st.proposals {
      assert TallyFits(h.st.proposals[v], h.yes[v]);
    }
    assert voter !in Supporters(h, v);
  }

  /** Any two majorities of two thirds share a third of the servers. */
  lemma {:induction false} MajoritiesMeet(n: nat, a: set<nat>, b: set<nat>)
    requires forall x :: x in a + b ==> x < n
    requires 3 * |a| >= 2 * n && 3 * |b| >= 2 * n
    ensures 3 * |a * b| >= n
  {
    Overlap(a, b, n);
  }

  // ----- runs -----

  datatype Vote = Vote(view: nat, yes: bool, voter: nat)

  function Run(n: nat, votes: seq<Vote>): History {
    if votes == [] then History(State(0, map[]), map[], [])
    else
      var last := votes[|votes| - 1];
      After(n, Run(n, votes[..|votes| - 1]), last.view, last.yes, last.voter)
  }

  ghost predicate VotersAre(n: nat, votes: seq<Vote>) {
    forall k :: 0 <= k < |votes| ==> votes[k].voter < n
  }

  ghost predicate SupportersAre(n: nat, h: History) {
    && (forall v, x :: v in h.yes && x in h.yes[v] ==> x < n)
    && (forall k, x :: 0 <= k < |h.changes| && x in h.changes[k].1 ==> x < n)
  }

  lemma {:induction false} RunKeepsInv(n: nat, votes: seq<Vote>)
    requires VotersAre(n, votes)
    ensures Inv(n, Run(n, votes)) && SupportersAre(n, Run(n, votes))
  {
    if votes != [] {
      var front, last := votes[..|votes| - 1], votes[|votes| - 1];
      RunKeepsInv(n, front);
      VoteKeepsInv(n, Run(n, front), last.view, last.yes, last.voter);
      SupportersStay(n, Run(n, front), last.view, last.yes, last.voter);
    }
  }

  lemma {:induction false} SupportersStay(n: nat, h: History, v: nat, yes: bool, voter: nat)
    requires SupportersAre(n, h) && voter < n
    ensures SupportersAre(n, After(n, h, v, yes, voter))
  {
    var supporters := if yes then Supporters(h, v) + {voter} else Supporters(h, v);
    assert forall x :: x in supporters ==> x < n;
  }

  /** View safety: whatever votes two servers receive, any change of view at one and any change at
      the other were supported by at least a third of all servers in common; and at each server
      the views only grow. */
  lemma {:induction false} ChangesShareVoters(n: nat, votes: seq<Vote>, votes': seq<Vote>, k: nat, l: nat)
    requires VotersAre(n, votes) && VotersAre(n, votes')
    requires k < |Run(n, votes).changes| && l < |Run(n, votes').changes|
    ensures 3 * |Run(n, votes).changes[k].1 * Run(n, votes').changes[l].1| >= n
    ensures forall i, j :: 0 <= i < j < |Run(n, votes).changes| ==> Run(n, votes).changes[i].0 < Run(n, votes).changes[j].0
  {
    RunKeepsInv(n, votes);
    RunKeepsInv(n, votes');
    MajoritiesMeet(n, Run(n, votes).changes[k].1, Run(n, votes').changes[l].1);
  }

  // ----- the view manager -----

  function Code(outcome: Outcome): int {
    match outcome
    case Unchanged => -1
    case Changed(v) => v
    case Abandoned => -2
  }

  /** The counting in addViewChangeVote. */
  method CountVote(n: nat, st: State, v: nat, yes: bool, voter: nat) returns (st': State, outcome: Outcome)
    ensures (st', outcome) == Voted(n, st, v, yes, voter)
    ensures outcome.Changed? ==> st' == State(v, map[])
    ensures !outcome.Changed? ==> st'.view == st.view
  {
    var tally := if v in st.proposals then st.proposals[v] else Tally(0, 0, []);
    var count, rejections := tally.count, tally.count;
    if voter in tally.voters {
      return st, Unchanged;
    }
    if yes {
      count := count + 1;
    } else {
      rejections := rejections + 1;
    }
    if 3 * count >= 2 * n && v > st.view {
      return State(v, map[]), Changed(v);
    } else if rejections >= n {
      return st.(proposals := map[]), Abandoned;
    }
    return st.(proposals := st.proposals[v := Tally(count, rejections, tally.voters + [voter])]), Unchanged;
  }

  class ViewManager {
    const n: nat
    var viewNum: nat
    var proposedViewNum: nat
    var currentView: seq<bool>
    var downServers: seq<nat>
    var proposals: map<nat, Tally>

    /** The cached view is that of the current number. */
    ghost predicate Valid(draws: Draws)
      reads this
    {
      && Generates(n, draws)
      && Flags(currentView, n, View(n, draws, viewNum))
      && (forall i :: 0 <= i < |downServers| ==> downServers[i] < n)
    }

    constructor (n: nat, draws: Draws)
      requires Generates(n, draws)
      ensures Valid(draws) && this.n == n && viewNum == 0 && proposals == map[] && downServers == []
    {
      var flags := CalcServerMembership(n, draws(0));
      this.n, viewNum, proposedViewNum, currentView, downServers, proposals := n, 0, 0, flags, [], map[];
    }

    method SetNewView(draws: Draws, v: nat)
      requires Generates(n, draws) && forall i :: 0 <= i < |downServers| ==> downServers[i] < n
      modifies this`viewNum, this`currentView, this`proposals
      ensures Valid(draws) && viewNum == v && proposals == map[]
    {
      viewNum := v;
      currentView := CalcServerMembership(n, draws(v));
      proposals := map[];
    }

    method AddViewChangeVote(draws: Draws, v: nat, yes: bool, voter: nat) returns (code: int)
      requires Valid(draws)
      modifies this`viewNum, this`currentView, this`proposals, this`proposedViewNum
      ensures Valid(draws)
      ensures State(viewNum, proposals) == Voted(n, old(State(viewNum, proposals)), v, yes, voter).0
      ensures code == Code(Voted(n, old(State(viewNum, proposals)), v, yes, voter).1)
    {
      var st, outcome := CountVote(n, State(viewNum, proposals), v, yes, voter);
      proposals := st.proposals;
      if outcome.Changed? {
        SetNewView(draws, v);
      } else if outcome.Abandoned? {
        proposedViewNum := viewNum;
      }
      return Code(outcome);
    }

    /** Whether the failure concerns the current view. */
    method AddFailedServer(draws: Draws, server: nat) returns (needed: bool)
      requires Valid(draws) && server < n
      modifies this`downServers
      ensures Valid(draws) && server in downServers
      ensures old(server in downServers) ==> !needed && downServers == old(downServers)
      ensures old(server !in downServers) ==> downServers == old(downServers) + [server] && needed == (server in View(n, draws, viewNum))
    {
      if server in downServers {
        return false;
      }
      downServers := downServers + [server];
      return currentView[server];
    }
  }
}
