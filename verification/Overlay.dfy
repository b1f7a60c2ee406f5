/** Broadcast in the client/server overlay: servers are fully meshed, every client hangs off one
    server, and every node has a loopback connection. */
module Overlay {
  import opened Counting

  /** Nodes below servers are servers, the others clients; tables[a] is a's connection table. */
  datatype Topology = Topology(servers: nat, home: seq<nat>, tables: seq<seq<nat>>)
  {
    function Nodes(): nat {
      servers + |home|
    }

    predicate IsServer(a: nat) {
      a < servers
    }

    predicate AttachedTo(a: nat, s: nat) {
      servers <= a < Nodes() && home[a - servers] == s
    }

    predicate Connected(a: nat, b: nat) {
      a < Nodes() && b < Nodes() && (a == b || (IsServer(a) && IsServer(b)) || AttachedTo(a, b) || AttachedTo(b, a))
    }

    ghost predicate Valid() {
      && (forall c :: 0 <= c < |home| ==> home[c] < servers)
      && |tables| == Nodes()
      && (forall a :: 0 <= a < Nodes() ==> NoRepeats(tables[a]))
      && (forall a: nat, b: nat :: a < Nodes() ==> (b in tables[a] <==> Connected(a, b)))
    }
  }

  ghost predicate NoRepeats(s: seq<nat>) {
    forall i, j :: 0 <= i < j < |s| ==> s[i] != s[j]
  }

  datatype Packet = Packet(from: nat, to: nat)

  // ----- the code -----

  /** Whether local passes a packet on to b, having got it from the given neighbour. */
  predicate Passes(T: Topology, source: nat, from: nat, local: nat, b: nat) {
    if local == source || !T.IsServer(local) then false
    else if T.IsServer(from) then !T.IsServer(b) && b != local
    else b != source && b != from && b != local
  }

  /** The packets that the connections in the table get, in order. */
  function Sent(T: Topology, source: nat, from: nat, local: nat, table: seq<nat>): seq<Packet> {
    if table == [] then []
    else
      var last := table[|table| - 1];
      Sent(T, source, from, local, table[..|table| - 1]) + if Passes(T, source, from, local, last) then [Packet(local, last)] else []
  }

  /** BroadcastHelper, after local delivery. */
  method BroadcastHelper(T: Topology, source: nat, from: nat, local: nat) returns (sent: seq<Packet>)
    requires local < |T.tables|
    ensures sent == Sent(T, source, from, local, T.tables[local])
  {
    var table := T.tables[local];
    sent := [];
    if local == source || !T.IsServer(local) {
      NothingSent(T, source, from, local, table);
      return;
    }
    for k := 0 to |table|
      invariant sent == Sent(T, source, from, local, table[..k])
    {
      var id := table[k];
      assert table[..k + 1][..k] == table[..k];
      if T.IsServer(from) {
        if !T.IsServer(id) && local != id {
          sent := sent + [Packet(local, id)];
        }
      } else if source != id && from != id && local != id {
        sent := sent + [Packet(local, id)];
      }
    }
    assert table[..|table|] == table;
  }

  lemma {:induction false} NothingSent(T: Topology, source: nat, from: nat, local: nat, table: seq<nat>)
    requires local == source || !T.IsServer(local)
    ensures Sent(T, source, from, local, table) == []
  {
    if table != [] {
      NothingSent(T, source, from, local, table[..|table| - 1]);
    }
  }

  /** Broadcast: one packet for every connection. */
  function Broadcast(T: Topology, source: nat, table: seq<nat>): (r: seq<Packet>)
    ensures |r| == |table| && forall i :: 0 <= i < |table| ==> r[i] == Packet(source, table[i])
  {
    seq(|table|, i requires 0 <= i < |table| => Packet(source, table[i]))
  }

  // ----- the network -----

  /** Packets under way, in any order, and the nodes that have handed the message up. */
  datatype Net = Net(flight: seq<Packet>, delivered: seq<nat>)

  function Start(T: Topology, source: nat): Net
    requires source < |T.tables|
  {
    Net(Broadcast(T, source, T.tables[source]), [])
  }

  /** Packet k arrives next. */
  function Next(T: Topology, source: nat, net: Net, k: nat): Net
    requires k < |net.flight| && net.flight[k].to < |T.tables|
  {
    var p := net.flight[k];
    Net(net.flight[..k] + net.flight[k + 1..] + Sent(T, source, p.from, p.to, T.tables[p.to]), net.delivered + [p.to])
  }

  // ----- whom a packet will reach -----

  /** Everything that follows from a packet: its target, and what lies behind that. */
  predicate Reaches(T: Topology, source: nat, p: Packet, x: nat) {
    x == p.to || (p.to != source && T.IsServer(p.to) &&
      if T.IsServer(p.from) then T.AttachedTo(x, p.to) else x < T.Nodes() && x != p.from && x != source)
  }

  /** Only the source itself sends a packet towards a server from outside the servers. */
  predicate Proper(T: Topology, source: nat, p: Packet) {
    && T.Connected(p.from, p.to)
    && (!T.IsServer(p.from) ==> p.from == source)
    && (T.IsServer(p.from) && T.IsServer(p.to) ==> !T.AttachedTo(source, p.to))
  }

  lemma {:induction false} SentHas(T: Topology, source: nat, from: nat, local: nat, table: seq<nat>, k: nat)
    requires k < |Sent(T, source, from, local, table)|
    ensures var q := Sent(T, source, from, local, table)[k]; q.from == local && q.to in table && Passes(T, source, from, local, q.to)
  {
    var front := Sent(T, source, from, local, table[..|table| - 1]);
    if k < |front| {
      SentHas(T, source, from, local, table[..|table| - 1], k);
    }
  }

  lemma {:induction false} SentOnce(T: Topology, source: nat, from: nat, local: nat, table: seq<nat>, k: nat, l: nat)
    requires k < l < |Sent(T, source, from, local, table)| && NoRepeats(table)
    ensures Sent(T, source, from, local, table)[k].to != Sent(T, source, from, local, table)[l].to
  {
    var short := table[..|table| - 1];
    var front := Sent(T, source, from, local, short);
    if l < |front| {
      SentOnce(T, source, from, local, short, k, l);
    } else {
      SentHas(T, source, from, local, short, k);
    }
  }

  lemma {:induction false} SentAll(T: Topology, source: nat, from: nat, local: nat, table: seq<nat>, b: nat) returns (k: nat)
    requires b in table && Passes(T, source, from, local, b)
    ensures k < |Sent(T, source, from, local, table)| && Sent(T, source, from, local, table)[k] == Packet(local, b)
  {
    if table[|table| - 1] == b {
      k := |Sent(T, source, from, local, table)| - 1;
    } else {
      k := SentAll(T, source, from, local, table[..|table| - 1], b);
    }
  }

  /** A node behind a packet's target is reached by one of the packets sent on; by SentApart it is
      reached by no other. */
  lemma {:induction false} ReachesSplit(T: Topology, source: nat, p: Packet, x: nat) returns (b: nat)
    requires T.Valid() && source < T.Nodes() && Proper(T, source, p) && Reaches(T, source, p, x) && x != p.to
    ensures T.Connected(p.to, b) && Passes(T, source, p.from, p.to, b) && Reaches(T, source, Packet(p.to, b), x)
  {
    b := if T.IsServer(p.from) || T.IsServer(x) || T.AttachedTo(x, p.to) then x else T.home[x - T.servers];
  }

  lemma {:induction false} SentProper(T: Topology, source: nat, p: Packet, b: nat)
    requires T.Valid() && source < T.Nodes() && Proper(T, source, p)
    requires T.Connected(p.to, b) && Passes(T, source, p.from, p.to, b)
    ensures Proper(T, source, Packet(p.to, b))
    ensures forall x :: Reaches(T, source, Packet(p.to, b), x) ==> Reaches(T, source, p, x) && x != p.to
  {
  }

  lemma {:induction false} SentApart(T: Topology, source: nat, p: Packet, b: nat, c: nat, x: nat)
    requires T.Valid() && source < T.Nodes() && Proper(T, source, p) && b != c
    requires T.Connected(p.to, b) && Passes(T, source, p.from, p.to, b)
    requires T.Connected(p.to, c) && Passes(T, source, p.from, p.to, c)
    ensures !(Reaches(T, source, Packet(p.to, b), x) && Reaches(T, source, Packet(p.to, c), x))
  {
  }

  // ----- the invariant -----

  /** Packets under way have nothing in common, with each other or with the past, and together
      they still reach everybody who has not been reached. */
  ghost predicate Inv(T: Topology, source: nat, net: Net) {
    && (forall k :: 0 <= k < |net.flight| ==> Proper(T, source, net.flight[k]))
    && (forall k, l, x :: 0 <= k < l < |net.flight| && Reaches(T, source, net.flight[k], x) ==> !Reaches(T, source, net.flight[l], x))
    && NoRepeats(net.delivered)
    && (forall x :: x in net.delivered ==> x < T.Nodes())
    && (forall k, x :: 0 <= k < |net.flight| && Reaches(T, source, net.flight[k], x) ==> x !in net.delivered)
    && (forall x: nat :: x < T.Nodes() ==> x in net.delivered || Awaited(T, source, net.flight, x))
  }

  ghost predicate Awaited(T: Topology, source: nat, flight: seq<Packet>, x: nat) {
    exists k :: 0 <= k < |flight| && Reaches(T, source, flight[k], x)
  }

  lemma {:induction false} StartInv(T: Topology, source: nat)
    requires T.Valid() && source < T.Nodes()
    ensures Inv(T, source, Start(T, source))
  {
    var net := Start(T, source);
    forall x: nat | x < T.Nodes() ensures Awaited(T, source, net.flight, x) {
      var b := if T.Connected(source, x) then x
               else if T.IsServer(source) then T.home[x - T.servers] else T.home[source - T.servers];
      assert b in T.tables[source];
      var k :| 0 <= k < |T.tables[source]| && T.tables[source][k] == b;
      assert Reaches(T, source, net.flight[k], x);
    }
    forall k, l, x | 0 <= k < l < |net.flight| && Reaches(T, source, net.flight[k], x)
      ensures !Reaches(T, source, net.flight[l], x)
    {
      assert T.tables[source][k] != T.tables[source][l];
      assert T.tables[source][k] in T.tables[source] && T.tables[source][l] in T.tables[source];
    }
    forall k | 0 <= k < |net.flight| ensures Proper(T, source, net.flight[k]) {
      assert T.tables[source][k] in T.tables[source];
    }
  }

  /** Where a packet of the next state comes from. */
  lemma {:induction false} NextFlight(T: Topology, source: nat, net: Net, k: nat, l: nat)
    requires T.Valid() && source < T.Nodes() && Inv(T, source, net) && k < |net.flight|
    requires l < |Next(T, source, net, k).flight|
    ensures var q, p := Next(T, source, net, k).flight[l], net.flight[k];
            if l < |net.flight| - 1 then q == net.flight[if l < k then l else l + 1]
            else T.Connected(p.to, q.to) && q == Packet(p.to, q.to) && Passes(T, source, p.from, p.to, q.to)
  {
    var p := net.flight[k];
    if l >= |net.flight| - 1 {
      SentHas(T, source, p.from, p.to, T.tables[p.to], l - (|net.flight| - 1));
    }
  }

  lemma {:induction false} NextProper(T: Topology, source: nat, net: Net, k: nat, l: nat)
    requires T.Valid() && source < T.Nodes() && Inv(T, source, net) && k < |net.flight|
    requires l < |Next(T, source, net, k).flight|
    ensures Proper(T, source, Next(T, source, net, k).flight[l])
    ensures forall x :: Reaches(T, source, Next(T, source, net, k).flight[l], x) ==> x !in net.delivered && x != net.flight[k].to
  {
    NextFlight(T, source, net, k, l);
    var p, q := net.flight[k], Next(T, source, net, k).flight[l];
    if l < |net.flight| - 1 {
      var j := if l < k then l else l + 1;
      assert Reaches(T, source, p, p.to);
      assert !Reaches(T, source, net.flight[j], p.to);
    } else {
      SentProper(T, source, p, q.to);
    }
  }

  lemma {:induction false} NextApart(T: Topology, source: nat, net: Net, k: nat, l: nat, m: nat, x: nat)
    requires T.Valid() && source < T.Nodes() && Inv(T, source, net) && k < |net.flight|
    requires l < m < |Next(T, source, net, k).flight|
    requires Reaches(T, source, Next(T, source, net, k).flight[l], x)
    ensures !Reaches(T, source, Next(T, source, net, k).flight[m], x)
  {
    var p, q, r := net.flight[k], Next(T, source, net, k).flight[l], Next(T, source, net, k).flight[m];
    NextFlight(T, source, net, k, l);
    NextFlight(T, source, net, k, m);
    var n := |net.flight| - 1;
    if l >= n {
      SentOnce(T, source, p.from, p.to, T.tables[p.to], l - n, m - n);
      SentApart(T, source, p, q.to, r.to, x);
    } else if m >= n {
      var j := if l < k then l else l + 1;
      SentProper(T, source, p, r.to);
      assert q == net.flight[j] && Reaches(T, source, net.flight[j], x);
      assert !Reaches(T, source, p, x);
    } else {
      var i, j := if l < k then l else l + 1, if m < k then m else m + 1;
      assert Reaches(T, source, net.flight[i], x) ==> !Reaches(T, source, net.flight[j], x);
    }
  }

  lemma {:induction false} NextAwaited(T: Topology, source: nat, net: Net, k: nat, x: nat)
    requires T.Valid() && source < T.Nodes() && Inv(T, source, net) && k < |net.flight|
    requires x < T.Nodes() && x !in net.delivered && x != net.flight[k].to
    ensures Awaited(T, source, Next(T, source, net, k).flight, x)
  {
    var p, flight := net.flight[k], Next(T, source, net, k).flight;
    assert Awaited(T, source, net.flight, x);
    var j :| 0 <= j < |net.flight| && Reaches(T, source, net.flight[j], x);
    if j == k {
      var b := ReachesSplit(T, source, p, x);
      var l := SentAll(T, source, p.from, p.to, T.tables[p.to], b);
      assert flight[|net.flight| - 1 + l] == Packet(p.to, b);
    } else {
      assert flight[if j < k then j else j - 1] == net.flight[j];
    }
  }

  /** Whichever packet arrives next, the invariant is kept. */
  lemma {:induction false} NextKeepsInv(T: Topology, source: nat, net: Net, k: nat)
    requires T.Valid() && source < T.Nodes() && Inv(T, source, net) && k < |net.flight|
    ensures net.flight[k].to !in net.delivered && Inv(T, source, Next(T, source, net, k))
  {
    var next, p := Next(T, source, net, k), net.flight[k];
    assert Reaches(T, source, p, p.to);
    forall l | 0 <= l < |next.flight|
      ensures Proper(T, source, next.flight[l])
      ensures forall x :: Reaches(T, source, next.flight[l], x) ==> x !in next.delivered
    {
      NextProper(T, source, net, k, l);
    }
    forall l, m, x | 0 <= l < m < |next.flight| && Reaches(T, source, next.flight[l], x)
      ensures !Reaches(T, source, next.flight[m], x)
    {
      NextApart(T, source, net, k, l, m, x);
    }
    forall x: nat | x < T.Nodes() && x !in next.delivered ensures Awaited(T, source, next.flight, x) {
      NextAwaited(T, source, net, k, x);
    }
  }

  // ----- runs -----

  /** A run: at each step some packet under way arrives. */
  ghost predicate Run(T: Topology, source: nat, nets: seq<Net>, picks: seq<nat>)
    requires T.Valid() && source < T.Nodes()
  {
    && |nets| == |picks| + 1
    && nets[0] == Start(T, source)
    && forall t :: 0 <= t < |picks| ==> Steps(T, source, nets[t], picks[t], nets[t + 1])
  }

  ghost predicate Steps(T: Topology, source: nat, net: Net, k: nat, next: Net) {
    k < |net.flight| && net.flight[k].to < |T.tables| && next == Next(T, source, net, k)
  }

  lemma {:induction false} RunKeepsInv(T: Topology, source: nat, nets: seq<Net>, picks: seq<nat>, t: nat)
    requires T.Valid() && source < T.Nodes() && Run(T, source, nets, picks) && t < |nets|
    ensures Inv(T, source, nets[t]) && |nets[t].delivered| == t
  {
    if t == 0 {
      StartInv(T, source);
    } else {
      RunKeepsInv(T, source, nets, picks, t - 1);
      assert Steps(T, source, nets[t - 1], picks[t - 1], nets[t]);
      NextKeepsInv(T, source, nets[t - 1], picks[t - 1]);
    }
  }

  ghost function Members(s: seq<nat>): (r: set<nat>)
    ensures forall x :: x in r <==> x in s
  {
    set x | x in s
  }

  lemma {:induction false} MembersSize(s: seq<nat>)
    requires NoRepeats(s)
    ensures |Members(s)| == |s|
  {
    if s != [] {
      var front, last := s[..|s| - 1], s[|s| - 1];
      MembersSize(front);
      assert Members(s) == Members(front) + {last};
    }
  }

  /** Exactly-once broadcast, whatever the order of arrival: nobody hears the message twice; the
      broadcast is over after exactly as many arrivals as there are nodes, not before and not
      later; and then everybody has heard it. */
  lemma {:induction false} ExactlyOnce(T: Topology, source: nat, nets: seq<Net>, picks: seq<nat>)
    requires T.Valid() && source < T.Nodes() && Run(T, source, nets, picks)
    ensures NoRepeats(nets[|picks|].delivered)
    ensures |picks| <= T.Nodes()
    ensures nets[|picks|].flight == [] <==> |picks| == T.Nodes()
    ensures nets[|picks|].flight == [] ==> forall x: nat :: x < T.Nodes() ==> x in nets[|picks|].delivered
  {
    var net := nets[|picks|];
    RunKeepsInv(T, source, nets, picks, |picks|);
    MembersSize(net.delivered);
    FullSet(Members(net.delivered), T.Nodes());
    if net.flight != [] {
      assert Reaches(T, source, net.flight[0], net.flight[0].to);
      assert net.flight[0].to !in Members(net.delivered);
    } else {
      assert forall x: nat :: x < T.Nodes() ==> !Awaited(T, source, net.flight, x);
    }
  }
}
