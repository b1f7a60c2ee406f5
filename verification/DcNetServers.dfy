/** The servers of the DC-net round within one phase: client lists, commits, ciphertexts and
    validations, each step waiting for a message from every server. */
module DcNetServers {
  import opened Xor
  import opened Counting

  type Bits = seq<bool>
  type Digest = nat

  /** Public parameters: the number of servers, the hash, the encoding of a bit list, and the
      message length that a history of cleartexts leads to. */
  datatype Setting = Setting(servers: nat, hash: Buf -> Digest, encode: Bits -> Buf, lengthAfter: seq<Buf> -> nat)
  {
    /** No two inputs collide. */
    ghost predicate Ideal() {
      && (forall a, b :: hash(a) == hash(b) ==> a == b)
      && (forall a, b :: encode(a) == encode(b) ==> a == b)
    }
  }

  /** What a server pushes to the clients: the cleartext and who was online. */
  datatype Result = Result(cleartext: Buf, online: Bits)

  function SignedHash(T: Setting, r: Result): Digest {
    T.hash(r.cleartext + T.encode(r.online))
  }

  /** An ideal signature can only be made by its signer. */
  datatype Signature = Signature(signer: nat, digest: Digest)

  predicate Verifies(s: nat, digest: Digest, signature: Signature) {
    signature == Signature(s, digest)
  }

  datatype Payload =
    | ClientList(clients: Bits)
    | Commit(digest: Digest)
    | Ciphertext(text: Buf)
    | Validation(signature: Signature)

  datatype Stage = Clients | Lists | Commits | Ciphertexts | Validations

  /** What a server did, in order. */
  datatype Record =
    | RecordedCommit(phase: nat, server: nat, digest: Digest)
    | SentCiphertext(phase: nat, text: Buf)
    | Folded(phase: nat, server: nat, text: Buf)

  datatype Server = Server(
    stage: Stage,
    handledServers: set<nat>,
    handledClients: Bits,
    mine: Buf,
    commits: map<nat, Digest>,
    ciphertexts: map<nat, Buf>,
    proposed: seq<Result>,
    pushed: seq<Result>,
    log: seq<Record>)
  {
    function Phase(): nat {
      |pushed|
    }
  }

  function Cleartexts(results: seq<Result>): seq<Buf> {
    seq(|results|, i requires 0 <= i < |results| => results[i].cleartext)
  }

  function Length(T: Setting, v: Server): nat {
    T.lengthAfter(Cleartexts(v.pushed))
  }

  function Or(a: Bits, b: Bits): Bits {
    seq(if |a| < |b| then |b| else |a|, i requires 0 <= i => (i < |a| && a[i]) || (i < |b| && b[i]))
  }

  function CipherByte(ciphertexts: map<nat, Buf>, k: nat): nat -> Byte {
    (s: nat) => CipherByteAt(ciphertexts, k, s)
  }

  function CipherByteAt(ciphertexts: map<nat, Buf>, k: nat, s: nat): Byte {
    if s in ciphertexts && k < |ciphertexts[s]| then ciphertexts[s][k] else 0
  }

  function Combined(ciphertexts: map<nat, Buf>, servers: nat, length: nat): (r: Buf)
    ensures |r| == length
  {
    seq(length, k requires 0 <= k < length => Fold(CipherByte(ciphertexts, k), servers))
  }

  // ----- the handlers -----

  /** Whether the current handler takes the message: at most one per server and stage; a
      ciphertext must have the phase's length and match its commit; a signature must verify. */
  predicate Accepts(T: Setting, v: Server, from: nat, payload: Payload) {
    && from < T.servers
    && from !in v.handledServers
    && match payload
       case ClientList(_) => v.stage == Lists
       case Commit(_) => v.stage == Commits
       case Ciphertext(text) =>
         v.stage == Ciphertexts && |text| == Length(T, v) && from in v.commits && T.hash(text) == v.commits[from]
       case Validation(signature) =>
         && v.stage == Validations && |v.proposed| > 0
         && Verifies(from, SignedHash(T, v.proposed[|v.proposed| - 1]), signature)
  }

  /** The handler's own update, before any transition. */
  function Noted(T: Setting, v: Server, from: nat, payload: Payload): Server {
    var w := v.(handledServers := v.handledServers + {from});
    match payload
    case ClientList(clients) => w.(handledClients := Or(v.handledClients, clients))
    case Commit(digest) => w.(commits := v.commits[from := digest], log := v.log + [RecordedCommit(v.Phase(), from, digest)])
    case Ciphertext(text) => w.(ciphertexts := v.ciphertexts[from := text], log := v.log + [Folded(v.Phase(), from, text)])
    case Validation(_) => w
  }

  /** The transition out of a complete stage, with the message that the next stage broadcasts.
      mine is the ciphertext generated for the commit. */
  function Advance(T: Setting, v: Server, mine: Buf): Server {
    var w := v.(handledServers := {});
    match v.stage
    case Clients => w.(stage := Lists)
    case Lists => w.(stage := Commits, mine := mine)
    case Commits => w.(stage := Ciphertexts, log := v.log + [SentCiphertext(v.Phase(), v.mine)])
    case Ciphertexts => w.(stage := Validations, proposed := v.proposed + [Outcome(T, v)])
    case Validations =>
      if |v.proposed| == 0 then w
      else w.(stage := Clients, pushed := v.pushed + [v.proposed[|v.proposed| - 1]], handledClients := [], ciphertexts := map[])
  }

  function Outcome(T: Setting, v: Server): Result {
    Result(Combined(v.ciphertexts, T.servers, Length(T, v)), v.handledClients)
  }

  /** What a server broadcasts on entering its stage. */
  function Broadcasts(T: Setting, id: nat, v: Server): Payload {
    match v.stage
    case Commits => Commit(T.hash(v.mine))
    case Ciphertexts => Ciphertext(v.mine)
    case Validations =>
      Validation(Signature(id, if |v.proposed| == 0 then 0 else SignedHash(T, v.proposed[|v.proposed| - 1])))
    case _ => ClientList(v.handledClients)
  }

  /** The stage is complete once every server has been heard. */
  function Handled(T: Setting, id: nat, v: Server, from: nat, payload: Payload, mine: Buf): Server {
    if !Accepts(T, v, from, payload) then v
    else
      var w := Noted(T, v, from, payload);
      if |w.handledServers| == T.servers then Advance(T, w, mine) else w
  }

  // ----- what a server keeps -----

  /** Entry e occurs among the first b. */
  ghost predicate Earlier(log: seq<Record>, b: nat, e: Record) {
    exists a :: 0 <= a < b && a < |log| && log[a] == e
  }

  ghost predicate Committed(log: seq<Record>, b: nat, phase: nat, s: nat) {
    exists a :: 0 <= a < b && a < |log| && log[a].RecordedCommit? && log[a].phase == phase && log[a].server == s
  }

  /** A ciphertext is sent only once every server's commit is recorded. */
  ghost predicate SentAfterCommits(T: Setting, log: seq<Record>) {
    forall b, s: nat :: 0 <= b < |log| && log[b].SentCiphertext? && s < T.servers ==> Committed(log, b, log[b].phase, s)
  }

  /** A ciphertext is folded in only if it matches a commit from before the local one was sent. */
  ghost predicate FoldedAfterSent(T: Setting, log: seq<Record>) {
    forall c :: 0 <= c < |log| && log[c].Folded? ==> FoldedAt(T, log, c)
  }

  ghost predicate FoldedAt(T: Setting, log: seq<Record>, c: nat)
    requires c < |log| && log[c].Folded?
  {
    exists b :: 0 <= b < c && log[b].SentCiphertext? && log[b].phase == log[c].phase
                && Earlier(log, b, RecordedCommit(log[c].phase, log[c].server, T.hash(log[c].text)))
  }

  /** Nobody's commit is recorded twice in a phase. */
  ghost predicate CommitsOnce(log: seq<Record>) {
    forall a, b :: 0 <= a < b < |log| && log[a].RecordedCommit? && log[b].RecordedCommit?
      ==> log[a].phase != log[b].phase || log[a].server != log[b].server
  }

  /** What the log holds about the current phase, stage by stage. */
  ghost predicate LogFitsStage(T: Setting, v: Server) {
    && (forall a :: 0 <= a < |v.log| ==> v.log[a].phase <= v.Phase())
    && (v.stage.Clients? || v.stage.Lists? ==> forall a :: 0 <= a < |v.log| ==> v.log[a].phase < v.Phase())
    && (v.stage.Commits? ==> forall a :: 0 <= a < |v.log| && v.log[a].phase == v.Phase() ==>
          v.log[a].RecordedCommit? && v.log[a].server in v.handledServers)
    && (v.stage.Commits? ==> forall s :: s in v.handledServers ==>
          s in v.commits && Earlier(v.log, |v.log|, RecordedCommit(v.Phase(), s, v.commits[s])))
    && (v.stage.Ciphertexts? ==> SentWithCommits(T, v))
  }

  ghost predicate SentWithCommits(T: Setting, v: Server) {
    exists b :: 0 <= b < |v.log| && v.log[b].SentCiphertext? && v.log[b].phase == v.Phase()
                && forall s: nat :: s < T.servers ==> s in v.commits && Earlier(v.log, b, RecordedCommit(v.Phase(), s, v.commits[s]))
  }

  ghost predicate ResultsFit(T: Setting, v: Server) {
    && |v.proposed| == |v.pushed| + (if v.stage.Validations? then 1 else 0)
    && v.pushed == v.proposed[..|v.pushed|]
    && (forall p :: 0 <= p < |v.proposed| ==> |v.proposed[p].cleartext| == T.lengthAfter(Cleartexts(v.proposed[..p])))
  }

  ghost predicate Inv(T: Setting, v: Server) {
    && (forall s :: s in v.handledServers ==> s < T.servers)
    && ResultsFit(T, v)
    && SentAfterCommits(T, v.log) && FoldedAfterSent(T, v.log) && CommitsOnce(v.log)
    && LogFitsStage(T, v)
  }

  // ----- extending the log -----

  lemma {:induction false} EarlierGrows(log: seq<Record>, b: nat, e: Record, x: Record)
    requires b <= |log| && Earlier(log, b, e)
    ensures Earlier(log + [x], b, e)
  {
    var a :| 0 <= a < b && log[a] == e;
    assert (log + [x])[a] == e;
  }

  lemma {:induction false} CommittedGrows(log: seq<Record>, b: nat, phase: nat, s: nat, x: Record)
    requires b <= |log| && Committed(log, b, phase, s)
    ensures Committed(log + [x], b, phase, s)
  {
    var a :| 0 <= a < b && log[a].RecordedCommit? && log[a].phase == phase && log[a].server == s;
    assert (log + [x])[a] == log[a];
  }

  lemma {:induction false} SentGrows(T: Setting, log: seq<Record>, x: Record)
    requires SentAfterCommits(T, log)
    requires x.SentCiphertext? ==> forall s: nat :: s < T.servers ==> Committed(log, |log|, x.phase, s)
    ensures SentAfterCommits(T, log + [x])
  {
    var log' := log + [x];
    forall b, s: nat | 0 <= b < |log'| && log'[b].SentCiphertext? && s < T.servers
      ensures Committed(log', b, log'[b].phase, s)
    {
      CommittedGrows(log, b, log'[b].phase, s, x);
    }
  }

  lemma {:induction false} FoldedGrows(T: Setting, log: seq<Record>, x: Record, sent: nat)
    requires FoldedAfterSent(T, log)
    requires x.Folded? ==> sent < |log| && log[sent].SentCiphertext? && log[sent].phase == x.phase
                           && Earlier(log, sent, RecordedCommit(x.phase, x.server, T.hash(x.text)))
    ensures FoldedAfterSent(T, log + [x])
  {
    var log' := log + [x];
    forall c | 0 <= c < |log'| && log'[c].Folded? ensures FoldedAt(T, log', c) {
      var e := log'[c];
      var b := sent;
      if c < |log| {
        assert FoldedAt(T, log, c);
        b :| 0 <= b < c && log[b].SentCiphertext? && log[b].phase == e.phase
             && Earlier(log, b, RecordedCommit(e.phase, e.server, T.hash(e.text)));
      }
      EarlierGrows(log, b, RecordedCommit(e.phase, e.server, T.hash(e.text)), x);
      assert log'[b] == log[b];
    }
  }

  lemma {:induction false} OnceGrows(log: seq<Record>, x: Record)
    requires CommitsOnce(log)
    requires x.RecordedCommit? ==> forall a :: 0 <= a < |log| && log[a].RecordedCommit? ==> log[a].phase != x.phase || log[a].server != x.server
    ensures CommitsOnce(log + [x])
  {
  }

  // ----- every handler keeps the invariant -----

  lemma {:induction false} NotedCommit(T: Setting, v: Server, from: nat, digest: Digest)
    requires Inv(T, v) && Accepts(T, v, from, Commit(digest))
    ensures Inv(T, Noted(T, v, from, Commit(digest)))
  {
    var w, x := Noted(T, v, from, Commit(digest)), RecordedCommit(v.Phase(), from, digest);
    SentGrows(T, v.log, x);
    FoldedGrows(T, v.log, x, 0);
    OnceGrows(v.log, x);
    forall s | s in w.handledServers
      ensures s in w.commits && Earlier(w.log, |w.log|, RecordedCommit(w.Phase(), s, w.commits[s]))
    {
      if s == from {
        assert w.log[|v.log|] == x;
      } else {
        EarlierGrows(v.log, |v.log|, RecordedCommit(v.Phase(), s, v.commits[s]), x);
      }
    }
  }

  lemma {:induction false} NotedCiphertext(T: Setting, v: Server, from: nat, text: Buf)
    requires Inv(T, v) && Accepts(T, v, from, Ciphertext(text))
    ensures Inv(T, Noted(T, v, from, Ciphertext(text)))
  {
    var w, x := Noted(T, v, from, Ciphertext(text)), Folded(v.Phase(), from, text);
    assert SentWithCommits(T, v);
    var b :| 0 <= b < |v.log| && v.log[b].SentCiphertext? && v.log[b].phase == v.Phase()
             && forall s: nat :: s < T.servers ==> s in v.commits && Earlier(v.log, b, RecordedCommit(v.Phase(), s, v.commits[s]));
    SentGrows(T, v.log, x);
    FoldedGrows(T, v.log, x, b);
    OnceGrows(v.log, x);
    forall s: nat | s < T.servers ensures Earlier(w.log, b, RecordedCommit(w.Phase(), s, w.commits[s])) {
      EarlierGrows(v.log, b, RecordedCommit(v.Phase(), s, v.commits[s]), x);
    }
    assert w.log[b] == v.log[b];
    assert SentWithCommits(T, w);
  }

  lemma {:induction false} NotedKeepsInv(T: Setting, v: Server, from: nat, payload: Payload)
    requires Inv(T, v) && Accepts(T, v, from, payload)
    ensures Inv(T, Noted(T, v, from, payload))
  {
    match payload
    case ClientList(_) =>
    case Commit(digest) => NotedCommit(T, v, from, digest);
    case Ciphertext(text) => NotedCiphertext(T, v, from, text);
    case Validation(_) =>
  }

  lemma {:induction false} AdvanceFromCommits(T: Setting, v: Server, mine: Buf)
    requires Inv(T, v) && v.stage.Commits? && |v.handledServers| == T.servers
    ensures Inv(T, Advance(T, v, mine))
  {
    var w, x := Advance(T, v, mine), SentCiphertext(v.Phase(), v.mine);
    FullSet(v.handledServers, T.servers);
    forall s: nat | s < T.servers
      ensures s in v.commits && Committed(v.log, |v.log|, x.phase, s)
      ensures Earlier(w.log, |v.log|, RecordedCommit(w.Phase(), s, w.commits[s]))
    {
      assert Earlier(v.log, |v.log|, RecordedCommit(v.Phase(), s, v.commits[s]));
      EarlierGrows(v.log, |v.log|, RecordedCommit(v.Phase(), s, v.commits[s]), x);
    }
    SentGrows(T, v.log, x);
    FoldedGrows(T, v.log, x, 0);
    OnceGrows(v.log, x);
    assert w.log[|v.log|] == x;
    assert SentWithCommits(T, w);
  }

  lemma {:induction false} AdvanceFromCiphertexts(T: Setting, v: Server, mine: Buf)
    requires Inv(T, v) && v.stage.Ciphertexts?
    ensures Inv(T, Advance(T, v, mine))
  {
    var w := Advance(T, v, mine);
    assert v.proposed == v.pushed;
    forall p | 0 <= p < |w.proposed|
      ensures |w.proposed[p].cleartext| == T.lengthAfter(Cleartexts(w.proposed[..p]))
    {
      if p < |v.proposed| {
        assert w.proposed[..p] == v.proposed[..p];
      } else {
        assert w.proposed[..p] == v.pushed;
      }
    }
    assert w.pushed == w.proposed[..|w.pushed|];
  }

  lemma {:induction false} AdvanceKeepsInv(T: Setting, v: Server, mine: Buf)
    requires Inv(T, v) && (v.stage.Commits? ==> |v.handledServers| == T.servers)
    ensures Inv(T, Advance(T, v, mine))
  {
    match v.stage
    case Clients =>
    case Lists =>
    case Commits => AdvanceFromCommits(T, v, mine);
    case Ciphertexts => AdvanceFromCiphertexts(T, v, mine);
    case Validations =>
      var w := Advance(T, v, mine);
      assert w.pushed == v.proposed;
  }

  /** Commit before reveal: every message, accepted or not, keeps the invariant, which says that
      a server sends its ciphertext only after recording one commit from every server, and folds
      in only ciphertexts that match those commits. */
  lemma {:induction false} HandledKeepsInv(T: Setting, id: nat, v: Server, from: nat, payload: Payload, mine: Buf)
    requires Inv(T, v)
    ensures Inv(T, Handled(T, id, v, from, payload, mine))
  {
    if Accepts(T, v, from, payload) {
      NotedKeepsInv(T, v, from, payload);
      var w := Noted(T, v, from, payload);
      if |w.handledServers| == T.servers {
        AdvanceKeepsInv(T, w, mine);
      }
    }
  }

  // ----- the server object -----

  /** A server's mutable state, with the results it proposed and what it did as history. */
  class DcServer {
    const servers: nat
    const id: nat
    var stage: Stage
    var handledServers: set<nat>
    var handledClients: Bits
    var mine: Buf
    var commits: map<nat, Digest>
    var ciphertexts: map<nat, Buf>
    var proposed: seq<Result>
    var pushed: seq<Result>
    ghost var log: seq<Record>

    ghost function State(): Server
      reads this
    {
      Server(stage, handledServers, handledClients, mine, commits, ciphertexts, proposed, pushed, log)
    }

    constructor (servers: nat, id: nat)
      ensures this.servers == servers && this.id == id
      ensures State() == Server(Clients, {}, [], [], map[], map[], [], [], [])
    {
      this.servers, this.id := servers, id;
      stage, handledServers, handledClients, mine := Clients, {}, [], [];
      commits, ciphertexts, proposed, pushed, log := map[], map[], [], [], [];
    }

    /** StateComplete: BeforeStateTransition, then the next state's callback. */
    method StateComplete(T: Setting, generated: Buf)
      requires T.servers == servers
      modifies this
      ensures State() == Advance(T, old(State()), generated)
    {
      handledServers := {};
      match stage {
        case Clients => stage := Lists;
        case Lists =>
          stage := Commits;
          mine := generated;
        case Commits =>
          stage := Ciphertexts;
          log := log + [SentCiphertext(|pushed|, mine)];
        case Ciphertexts =>
          stage := Validations;
          var cleartext := Combined(ciphertexts, servers, T.lengthAfter(Cleartexts(pushed)));
          proposed := proposed + [Result(cleartext, handledClients)];
        case Validations =>
          if |proposed| > 0 {
            stage := Clients;
            pushed := pushed + [proposed[|proposed| - 1]];
            handledClients := [];
            ciphertexts := map[];
          }
      }
    }

    method HandleServerCommit(T: Setting, from: nat, digest: Digest, generated: Buf) returns (ok: bool)
      requires T.servers == servers
      modifies this
      ensures ok == Accepts(T, old(State()), from, Commit(digest))
      ensures State() == Handled(T, id, old(State()), from, Commit(digest), generated)
    {
      ok := from < servers && from !in handledServers && stage == Commits;
      if ok {
        handledServers := handledServers + {from};
        commits := commits[from := digest];
        log := log + [RecordedCommit(|pushed|, from, digest)];
        assert State() == Noted(T, old(State()), from, Commit(digest));
        if |handledServers| == servers {
          StateComplete(T, generated);
        }
      }
    }

    method HandleServerCiphertext(T: Setting, from: nat, text: Buf, generated: Buf) returns (ok: bool)
      requires T.servers == servers
      modifies this
      ensures ok == Accepts(T, old(State()), from, Ciphertext(text))
      ensures State() == Handled(T, id, old(State()), from, Ciphertext(text), generated)
    {
      ok := from < servers && from !in handledServers && stage == Ciphertexts
            && |text| == T.lengthAfter(Cleartexts(pushed)) && from in commits && T.hash(text) == commits[from];
      if ok {
        handledServers := handledServers + {from};
        ciphertexts := ciphertexts[from := text];
        log := log + [Folded(|pushed|, from, text)];
        assert State() == Noted(T, old(State()), from, Ciphertext(text));
        if |handledServers| == servers {
          StateComplete(T, generated);
        }
      }
    }

    method HandleServerValidation(T: Setting, from: nat, signature: Signature) returns (ok: bool)
      requires T.servers == servers
      modifies this
      ensures ok == Accepts(T, old(State()), from, Validation(signature))
      ensures State() == Handled(T, id, old(State()), from, Validation(signature), [])
    {
      ok := from < servers && from !in handledServers && stage == Validations && |proposed| > 0
            && Verifies(from, SignedHash(T, proposed[|proposed| - 1]), signature);
      if ok {
        handledServers := handledServers + {from};
        assert State() == Noted(T, old(State()), from, Validation(signature));
        if |handledServers| == servers {
          StateComplete(T, []);
        }
      }
    }

    method HandleServerClientList(T: Setting, from: nat, clients: Bits, generated: Buf) returns (ok: bool)
      requires T.servers == servers
      modifies this
      ensures ok == Accepts(T, old(State()), from, ClientList(clients))
      ensures State() == Handled(T, id, old(State()), from, ClientList(clients), generated)
    {
      ok := from < servers && from !in handledServers && stage == Lists;
      if ok {
        handledClients := Or(handledClients, clients);
        handledServers := handledServers + {from};
        assert State() == Noted(T, old(State()), from, ClientList(clients));
        if |handledServers| == servers {
          StateComplete(T, generated);
        }
      }
    }
  }
}
