/** Any number of Raft nodes and the messages they send, which the network may lose, repeat and reorder. */
module RaftNetwork {
  import opened RaftNode
  import opened RaftSafety

  type System = map<nat, Node>

  /** How a node is configured, with the peers `Node::init` connects it to. */
  datatype Boot = Boot(heartbeatTimeout: nat, electionTimeout: nat, timeout: nat, offset: nat, firstIndex: nat,
                       peers: seq<nat>, env: Env)

  function ConnectAll(s: Node, peers: seq<nat>): Node
    decreases |peers|
  {
    if peers == [] then s
    else
      var p := peers[|peers| - 1];
      SendAddNode(AddNode(ConnectAll(s, peers[..|peers| - 1]), p), p)
  }

  /** A node constructed from its storage, as a follower of term one. */
  function Started(id: nat, b: Boot): Node {
    StepDown(Initial(id, b.heartbeatTimeout, b.electionTimeout, b.timeout, b.offset, b.firstIndex), 1, 0, b.env)
  }

  /** And connected to its peers, as `Node::init` leaves it. */
  function Booted(id: nat, b: Boot): Node {
    ConnectAll(Started(id, b), b.peers)
  }

  ghost function PeerSet(peers: seq<nat>): set<nat> {
    set p | p in peers
  }

  ghost function Peers(b: Boot): set<nat> {
    PeerSet(b.peers)
  }

  /** Only peers and messages about them are new. */
  ghost predicate OnlyConnects(s: Node, t: Node) {
    && t == s.(prs := t.prs, sent := t.sent)
    && |s.sent| <= |t.sent| && t.sent[..|s.sent|] == s.sent
    && forall k :: |s.sent| <= k < |t.sent| ==> t.sent[k].typ == MsgNode
  }

  lemma ConnectsOne(s: Node, t: Node, p: nat)
    requires OnlyConnects(s, t)
    ensures var u := SendAddNode(AddNode(t, p), p);
      OnlyConnects(s, u) && u.prs.Keys == t.prs.Keys + {p}
  {
  }

  /** Connecting tracks the peers, tells each of them, and does nothing else. */
  lemma {:induction false} ConnectsAll(s: Node, peers: seq<nat>)
    ensures var t := ConnectAll(s, peers);
      OnlyConnects(s, t) && t.prs.Keys == s.prs.Keys + PeerSet(peers)
    decreases |peers|
  {
    if peers == [] {
      assert PeerSet(peers) == {};
    } else {
      hide OnlyConnects, SendAddNode, AddNode;
      var front, last := peers[..|peers| - 1], peers[|peers| - 1];
      ConnectsAll(s, front);
      ConnectsOne(s, ConnectAll(s, front), last);
      assert PeerSet(peers) == PeerSet(front) + {last};
    }
  }

  /** What a booted node is. */
  lemma BootedIs(id: nat, b: Boot)
    ensures var n := Booted(id, b);
      && n.id == id && n.role == Follower && n.step == StepFollower && n.tick == TickElection
      && n.currentTerm == 1 && n.members == 0 && n.votes == map[] && n.log.entries == []
      && n.commitIndex == n.lastApplied == (if b.firstIndex > 0 then b.firstIndex - 1 else 0)
      && n.prs.Keys == Peers(b)
      && n.heartbeatTimeout == b.heartbeatTimeout && n.electionTimeout == b.electionTimeout && !n.checkQuorum
      && n.heartbeatElapsed == n.electionElapsed == 0 && n.randomizedTimeout == b.env.timeout
      && forall k :: 0 <= k < |n.sent| ==> n.sent[k].typ == MsgNode
  {
    ConnectsAll(Started(id, b), b.peers);
  }

  ghost predicate NetInit(sys: System, boots: map<nat, Boot>) {
    sys.Keys == boots.Keys && forall id :: id in sys ==> sys[id] == Booted(id, boots[id])
  }

  /** A message some node has sent; it may arrive at any node, any number of times or never. */
  ghost predicate InFlight(sys: System, m: Message) {
    exists id :: id in sys && m in sys[id].sent
  }

  datatype NetEvent = NetEvent(at: nat, event: Event, env: Env)

  ghost predicate NetStep(sys: System, e: NetEvent, sys': System) {
    && e.at in sys && IsOrder(e.env.order, sys[e.at].prs) && Walks(e.env.order, sys[e.at].prs)
    && (e.event.Receive? ==> InFlight(sys, e.event.m))
    && sys' == sys[e.at := Next(sys[e.at], e.event, e.env)]
  }

  /** Every heartbeat ever sent carries a term. */
  ghost predicate SentOk(n: Node) {
    n.currentTerm >= 1 && forall k :: 0 <= k < |n.sent| && n.sent[k].typ == MsgHeartbeat ==> n.sent[k].term >= 1
  }

  /** And the map the quorum counts stays empty. */
  ghost predicate NetOk(sys: System) {
    forall id :: id in sys ==> StateOk(sys[id]) && SentOk(sys[id]) && sys[id].members == 0
  }

  lemma BootedOk(id: nat, b: Boot)
    ensures StateOk(Booted(id, b)) && SentOk(Booted(id, b)) && Booted(id, b).members == 0
  {
    hide Booted;
    BootedIs(id, b);
  }

  lemma NetInitOk(sys: System, boots: map<nat, Boot>)
    requires NetInit(sys, boots)
    ensures NetOk(sys)
  {
    hide Booted, StateOk, SentOk;
    forall id | id in sys ensures StateOk(sys[id]) && SentOk(sys[id]) && sys[id].members == 0 {
      BootedOk(id, boots[id]);
    }
  }

  lemma InFlightTerm(sys: System, m: Message)
    requires NetOk(sys) && InFlight(sys, m) && m.typ == MsgHeartbeat
    ensures m.term >= 1
  {
    var id :| id in sys && m in sys[id].sent;
    var k :| 0 <= k < |sys[id].sent| && sys[id].sent[k] == m;
  }

  /** No node goes back: neither its term nor its commit and applied indices nor what it holds committed. */
  ghost predicate Forward(s: Node, t: Node) {
    && s.currentTerm <= t.currentTerm && s.commitIndex <= t.commitIndex && s.lastApplied <= t.lastApplied
    && CommittedKept(s, t) && MatchesKept(s, t)
  }

  lemma SentKept(s: Node, t: Node)
    requires SentOk(s) && SendsFrom(s, t) && s.currentTerm <= t.currentTerm
    ensures SentOk(t)
  {
    forall k | 0 <= k < |t.sent| && t.sent[k].typ == MsgHeartbeat ensures t.sent[k].term >= 1 {
      if k < |s.sent| { assert t.sent[k] == t.sent[..|s.sent|][k]; }
    }
  }

  lemma NetStepOk(sys: System, e: NetEvent, sys': System)
    requires NetOk(sys) && NetStep(sys, e, sys')
    ensures NetOk(sys') && Forward(sys[e.at], sys'[e.at])
  {
    hide Next, SentOk, StateOk, CommittedKept, MatchesKept, SendsFrom;
    if e.event.Receive? && e.event.m.typ == MsgHeartbeat { InFlightTerm(sys, e.event.m); }
    NextSafe(sys[e.at], e.event, e.env);
    SentKept(sys[e.at], sys'[e.at]);
  }

  lemma ForwardSame(s: Node)
    ensures Forward(s, s)
  {
  }

  lemma ForwardTransitive(s: Node, t: Node, u: Node)
    requires Forward(s, t) && Forward(t, u)
    ensures Forward(s, u)
  {
    CommittedKeptTransitive(s, t, u);
    MatchesKeptTransitive(s, t, u);
  }

  ghost predicate NetRun(run: seq<System>, log: seq<NetEvent>, boots: map<nat, Boot>) {
    && |run| == |log| + 1 && NetInit(run[0], boots)
    && forall k :: 0 <= k < |log| ==> NetStep(run[k], log[k], run[k + 1])
  }

  /** Over every run of the network no node ever goes back, and every node stays coherent. */
  lemma {:induction false} NetSafe(run: seq<System>, log: seq<NetEvent>, boots: map<nat, Boot>, a: nat, b: nat, id: nat)
    requires NetRun(run, log, boots) && a <= b < |run| && id in boots
    ensures run[a].Keys == run[b].Keys == boots.Keys
    ensures Forward(run[a][id], run[b][id])
    ensures NetOk(run[b]) && run[b][id].members == 0
    decreases b
  {
    hide NetInit, NetStep, Forward, NetOk;
    if b == 0 {
      NetInitOk(run[0], boots);
      KeysAtStart(run[0], boots);
      ForwardSame(run[0][id]);
    } else {
      var a' := if a == b then b - 1 else a;
      NetSafe(run, log, boots, a', b - 1, id);
      NetStepOk(run[b - 1], log[b - 1], run[b]);
      KeysKept(run[b - 1], log[b - 1], run[b], id);
      ForwardSame(run[b][id]);
      if a < b { ForwardTransitive(run[a][id], run[b - 1][id], run[b][id]); }
    }
    NoneCounted(run[b], id);
  }

  lemma NoneCounted(sys: System, id: nat)
    requires NetOk(sys) && id in sys
    ensures StateOk(sys[id]) && sys[id].members == 0
  {
  }

  lemma KeysAtStart(sys: System, boots: map<nat, Boot>)
    requires NetInit(sys, boots)
    ensures sys.Keys == boots.Keys
  {
  }

  lemma {:induction false} RunKeys(run: seq<System>, log: seq<NetEvent>, boots: map<nat, Boot>, k: nat)
    requires NetRun(run, log, boots) && k < |run|
    ensures run[k].Keys == boots.Keys
  {
    hide NetInit, NetStep;
    if k == 0 {
      KeysAtStart(run[0], boots);
    } else {
      RunKeys(run, log, boots, k - 1);
      StepKeys(run[k - 1], log[k - 1], run[k]);
    }
  }

  lemma StepKeys(sys: System, e: NetEvent, sys': System)
    requires NetStep(sys, e, sys')
    ensures sys'.Keys == sys.Keys
  {
    hide Next;
  }

  lemma KeysKept(sys: System, e: NetEvent, sys': System, id: nat)
    requires NetStep(sys, e, sys') && NetOk(sys) && id in sys
    ensures e.at in sys && sys'.Keys == sys.Keys && Forward(sys[id], sys'[id])
  {
    hide NetOk, Forward, Next;
    NetStepOk(sys, e, sys');
    ForwardSame(sys[id]);
    assert sys'.Keys == sys.Keys;
  }

  lemma RunOk(run: seq<System>, log: seq<NetEvent>, boots: map<nat, Boot>, k: nat)
    requires NetRun(run, log, boots) && k < |run|
    ensures NetOk(run[k])
  {
    hide NetInit, NetStep;
    RunKeys(run, log, boots, k);
    if run[k] != map[] {
      var id :| id in run[k];
      NetSafe(run, log, boots, k, k, id);
    }
  }
}
