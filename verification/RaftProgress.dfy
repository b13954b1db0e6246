/** The network can do its work: commands are replicated to all of a leader's peers, committed and applied. */
module RaftProgress {
  import opened UnstableLog
  import opened RaftNode
  import opened RaftSafety
  import opened RaftNetwork
  import opened RaftElection
  import opened RaftCommit
  import opened RaftQuorum
  import opened RaftHandling
  import opened RaftLeading

  // ---------- reaching one state of the network from another ----------

  ghost predicate Reaches(sys: System, next: System) {
    exists run: seq<System>, log: seq<NetEvent> :: NetSteps(run, log) && run[0] == sys && run[|log|] == next
  }

  lemma ReachesItself(sys: System)
    ensures Reaches(sys, sys)
  {
    assert NetSteps([sys], []) && [sys][0] == sys;
  }

  lemma ReachesOn(sys: System, mid: System, next: System)
    requires Reaches(sys, mid) && Reaches(mid, next)
    ensures Reaches(sys, next)
  {
    hide NetStep;
    var run, log :| NetSteps(run, log) && run[0] == sys && run[|log|] == mid;
    var run', log' :| NetSteps(run', log') && run'[0] == mid && run'[|log'|] == next;
    Joined(run, log, run', log');
  }

  /** One event at one node. */
  lemma Happens(sys: System, at: nat, e: Event, env: Env) returns (next: System)
    requires at in sys && IsOrder(env.order, sys[at].prs) && (e.Receive? ==> InFlight(sys, e.m))
    ensures Walks(env.order, sys[at].prs)
    ensures next == sys[at := Next(sys[at], e, env)] && Reaches(sys, next)
  {
    hide Next, IsOrder, InFlight;
    OrderWalks(env.order, sys[at].prs);
    next := sys[at := Next(sys[at], e, env)];
    var run, log := [sys, next], [NetEvent(at, e, env)];
    assert NetStep(run[0], log[0], run[1]);
    assert NetSteps(run, log);
  }

  // ---------- the states on the way ----------

  /** The log of the second term's leader after the commands `ops`, nothing having been stored before. */
  ghost function Stored(ops: seq<string>): (r: seq<Entry>)
    ensures |r| == |ops|
  {
    seq(|ops|, i requires 0 <= i < |ops| => Entry(2, i + 1, ops[i]))
  }

  ghost predicate LeaderAt(n: Node, a: nat, peers: set<nat>, ops: seq<string>, commit: nat, applied: nat) {
    && n.id == a && n.role == Leader && RoleOk(n) && n.currentTerm == 2 && n.members == 0
    && n.log.offset == 1 && n.log.entries == Stored(ops) && n.prs.Keys == peers
    && n.commitIndex == commit && n.lastApplied == applied
  }

  /** What is to be sent next to a peer lies at most behind the log, and no snapshot is on its way. */
  ghost predicate Paced(p: Progress, matched: nat, size: nat) {
    p.matched == matched && p.next <= size + 1 && p.state != Snapshot
  }

  /** A follower with the log, that may not know yet how much is committed, or who leads. */
  ghost predicate Behind(n: Node, id: nat, ops: seq<string>) {
    && n.id == id && n.role == Follower && RoleOk(n) && n.log.entries == Stored(ops)
    && n.lastApplied <= n.commitIndex <= |ops| && n.currentTerm <= 2
  }

  ghost predicate InStep(n: Node, id: nat, a: nat, ops: seq<string>) {
    && n.id == id && n.role == Follower && RoleOk(n) && n.log.entries == Stored(ops)
    && n.commitIndex == n.lastApplied == |ops| && n.currentTerm == 2 && n.leader == a
  }

  ghost predicate Members(sys: System, a: nat, peers: set<nat>) {
    a in sys && a !in peers && 0 !in peers && peers != {} && forall p :: p in peers ==> p in sys
  }

  /** The leader has committed and applied `ops`, all its peers have, and everyone knows. */
  ghost predicate Settled(sys: System, a: nat, peers: set<nat>, ops: seq<string>) {
    && Members(sys, a, peers) && LeaderAt(sys[a], a, peers, ops, |ops|, |ops|)
    && forall p :: p in peers ==>
         InStep(sys[p], p, a, ops) && Paced(sys[a].prs[p], |ops|, |ops|) && sys[a].prs[p].next == |ops| + 1
  }

  // ---------- heartbeats reach everyone ----------

  ghost predicate BeatsWith(s: Node, t: Node) {
    && t == s.(heartbeatElapsed := t.heartbeatElapsed, electionElapsed := t.electionElapsed, sent := t.sent)
    && |s.sent| <= |t.sent| && t.sent[..|s.sent|] == s.sent
  }

  /** One tick of a leader: it counts on, or beats. */
  lemma LeaderTicks(s: Node, env: Env)
    requires IsOrder(env.order, s.prs) && RoleOk(s) && s.role == Leader
    ensures Walks(env.order, s.prs)
    ensures var t := Next(s, Timer, env);
      && BeatsWith(s, t)
      && (if s.heartbeatElapsed + 1 < s.heartbeatTimeout then t.heartbeatElapsed == s.heartbeatElapsed + 1
          else forall p :: p in PeersOf(s, false) ==> HeartbeatFor(s, p) in t.sent)
  {
    hide IsOrder, GeneralStep, SentToEach, PeersOf, HeartbeatFor;
    OrderWalks(env.order, s.prs);
    HeartbeatTimer(s, env);
    var over := s.electionElapsed + 1 >= s.electionTimeout;
    var counted := s.(heartbeatElapsed := 0, electionElapsed := if over then 0 else s.electionElapsed + 1);
    BeatSends(counted, env);
    SamePeers(s, counted);
    if s.heartbeatElapsed + 1 >= s.heartbeatTimeout { EachBeaten(s, counted, Next(s, Timer, env)); }
  }

  lemma EachBeaten(s: Node, c: Node, t: Node)
    requires SentToEach(c.sent, t.sent, PeersOf(c, false), Heartbeats(c)) && PeersOf(c, false) == PeersOf(s, false)
    requires c == s.(heartbeatElapsed := c.heartbeatElapsed, electionElapsed := c.electionElapsed)
    ensures |s.sent| <= |t.sent| && t.sent[..|s.sent|] == s.sent
    ensures forall p :: p in PeersOf(s, false) ==> HeartbeatFor(s, p) in t.sent
  {
    hide PeersOf;
    forall p | p in PeersOf(s, false) ensures HeartbeatFor(s, p) in t.sent {
      var k :| |c.sent| <= k < |t.sent| && t.sent[k] == Heartbeats(c)(p);
      assert HeartbeatFor(c, p) == HeartbeatFor(s, p);
    }
  }

  /** A leader left to its timer beats. */
  lemma {:induction false} BeatsOut(sys: System, a: nat) returns (next: System)
    requires a in sys && RoleOk(sys[a]) && sys[a].role == Leader
    ensures Reaches(sys, next) && a in next && next == sys[a := next[a]] && BeatsWith(sys[a], next[a])
    ensures forall p :: p in PeersOf(sys[a], false) ==> HeartbeatFor(sys[a], p) in next[a].sent
    decreases sys[a].heartbeatTimeout - sys[a].heartbeatElapsed
  {
    hide Reaches, IsOrder, Next, PeersOf, HeartbeatFor, RoleOk;
    var s := sys[a];
    var env := SomeEnv(s, 0, 0);
    LeaderTicks(s, env);
    var ticked := Happens(sys, a, Timer, env);
    if s.heartbeatElapsed + 1 >= s.heartbeatTimeout {
      next := ticked;
    } else {
      StillLeads(s, ticked[a]);
      next := BeatsOut(ticked, a);
      ReachesOn(sys, ticked, next);
      SameHeartbeats(s, ticked[a]);
      BeatsTwice(s, ticked[a], next[a]);
    }
  }

  lemma StillLeads(s: Node, t: Node)
    requires BeatsWith(s, t)
    ensures RoleOk(t) == RoleOk(s) && t.role == s.role && t.heartbeatTimeout == s.heartbeatTimeout
  {
  }

  lemma SameHeartbeats(s: Node, t: Node)
    requires BeatsWith(s, t)
    ensures PeersOf(t, false) == PeersOf(s, false) && forall p: nat :: HeartbeatFor(t, p) == HeartbeatFor(s, p)
  {
  }

  lemma BeatsTwice(s: Node, t: Node, u: Node)
    requires BeatsWith(s, t) && BeatsWith(t, u)
    ensures BeatsWith(s, u)
  {
    assert u.sent[..|s.sent|] == u.sent[..|t.sent|][..|s.sent|];
  }

  /** A follower that gets the leader's heartbeat and persists is in step. */
  lemma Catches(sys: System, a: nat, peers: set<nat>, ops: seq<string>, p: nat) returns (next: System)
    requires Members(sys, a, peers) && p in peers && LeaderAt(sys[a], a, peers, ops, |ops|, |ops|)
    requires Behind(sys[p], p, ops) && Paced(sys[a].prs[p], |ops|, |ops|)
    requires HeartbeatFor(sys[a], p) in sys[a].sent
    ensures Reaches(sys, next) && p in next && next == sys[p := next[p]] && InStep(next[p], p, a, ops)
  {
    hide Reaches, IsOrder, Next, RoleOk, Walks, Stored;
    var m := HeartbeatFor(sys[a], p);
    assert InFlight(sys, m);
    var env := SomeEnv(sys[p], 0, 0);
    var told := Happens(sys, p, Receive(m), env);
    Told(sys[p], p, a, ops, m, env);
    var env' := SomeEnv(told[p], 0, 0);
    next := Happens(told, p, Persist, env');
    ReachesOn(sys, told, next);
    Persisted(told[p], env');
  }

  lemma Told(n: Node, p: nat, a: nat, ops: seq<string>, m: Message, env: Env)
    requires Behind(n, p, ops) && Walks(env.order, n.prs)
    requires m.typ == MsgHeartbeat && m.from == a && m.term == 2 && m.commit == |ops|
    ensures var t := Next(n, Receive(m), env);
      && t.id == p && t.role == Follower && RoleOk(t) && t.log.entries == Stored(ops)
      && t.lastApplied <= t.commitIndex == |ops| && t.currentTerm == 2 && t.leader == a
  {
    hide GeneralStep;
    HeartbeatTaken(n, m, env);
  }

  lemma Persisted(n: Node, env: Env)
    requires Walks(env.order, n.prs)
    ensures var t := Next(n, Persist, env);
      && t == n.(lastApplied := t.lastApplied) && (n.commitIndex > 0 ==> t.lastApplied == n.commitIndex)
      && (n.commitIndex == 0 ==> t.lastApplied == n.lastApplied) && (RoleOk(n) ==> RoleOk(t))
  {
  }

  /** And so are all of its peers, one after the other. */
  lemma {:induction false} AllCatch(sys: System, a: nat, peers: set<nat>, ops: seq<string>, todo: set<nat>)
    returns (next: System)
    requires Members(sys, a, peers) && todo <= peers && LeaderAt(sys[a], a, peers, ops, |ops|, |ops|)
    requires forall p :: p in peers ==> Paced(sys[a].prs[p], |ops|, |ops|) && HeartbeatFor(sys[a], p) in sys[a].sent
    requires forall p :: p in todo ==> Behind(sys[p], p, ops)
    requires forall p :: p in peers && p !in todo ==> InStep(sys[p], p, a, ops)
    ensures Reaches(sys, next) && Members(next, a, peers) && next[a] == sys[a]
    ensures forall p :: p in peers ==> InStep(next[p], p, a, ops)
    decreases |todo|
  {
    hide Reaches, LeaderAt, Behind, InStep, Paced, HeartbeatFor;
    if todo == {} {
      ReachesItself(sys);
      next := sys;
    } else {
      var p :| p in todo;
      var mid := Catches(sys, a, peers, ops, p);
      next := AllCatch(mid, a, peers, ops, todo - {p});
      ReachesOn(sys, mid, next);
    }
  }

  /** A leader that has committed and applied everything brings all its peers in step. */
  lemma Settles(sys: System, a: nat, peers: set<nat>, ops: seq<string>) returns (next: System)
    requires Members(sys, a, peers) && LeaderAt(sys[a], a, peers, ops, |ops|, |ops|)
    requires forall p :: p in peers ==>
               Behind(sys[p], p, ops) && Paced(sys[a].prs[p], |ops|, |ops|) && sys[a].prs[p].next == |ops| + 1
    ensures Reaches(sys, next) && Settled(next, a, peers, ops)
  {
    hide Reaches, Behind, InStep, HeartbeatFor, RoleOk, Stored;
    var beaten := BeatsOut(sys, a);
    SameHeartbeats(sys[a], beaten[a]);
    StillLeads(sys[a], beaten[a]);
    forall p | p in peers ensures HeartbeatFor(beaten[a], p) in beaten[a].sent {
      assert p in PeersOf(sys[a], false);
      assert HeartbeatFor(beaten[a], p) == HeartbeatFor(sys[a], p);
    }
    next := AllCatch(beaten, a, peers, ops, peers);
    ReachesOn(sys, beaten, next);
  }

  // ---------- a command reaches everyone ----------

  /** What a leader's sending can change about a peer: where it goes on, to behind the log. */
  ghost predicate Resent(x: Progress, y: Progress, size: nat) {
    y.matched == x.matched && y.state == x.state && (y.next == x.next || y.next == size + 1)
  }

  ghost predicate AllResent(s: Node, t: Node) {
    && t.prs.Keys == s.prs.Keys && t.log == s.log && t.id == s.id
    && forall id :: id in s.prs ==> Resent(s.prs[id], t.prs[id], |s.log.entries|)
  }

  ghost predicate Positioned(s: Node) {
    s.log.entries != [] ==> s.log.entries[|s.log.entries| - 1].index == |s.log.entries|
  }

  lemma ResentTwice(s: Node, t: Node, u: Node)
    requires AllResent(s, t) && AllResent(t, u)
    ensures AllResent(s, u)
  {
  }

  lemma SendResends(s: Node, to: nat, env: Env)
    requires to in s.prs && Positioned(s)
    ensures AllResent(s, SendAppend(s, to, env))
  {
    hide Term;
  }

  lemma {:induction false} BcastResends(s: Node, env: Env, k: nat)
    requires k <= |env.order| && Walks(env.order, s.prs) && Positioned(s)
    ensures AllResent(s, BcastAppend(s, env, k))
  {
    hide SendAppend;
    if k > 0 {
      BcastResends(s, env, k - 1);
      var t, id := BcastAppend(s, env, k - 1), env.order[k - 1];
      if id != s.id && id != 0 {
        SendResends(t, id, env);
        ResentTwice(s, t, SendAppend(t, id, env));
      }
    }
  }

  lemma AnswerResends(s: Node, m: Message, env: Env)
    requires Walks(env.order, s.prs) && s.step == StepLeader && Answers(s, m) && Positioned(s)
    ensures AllResent(Grown(s, m), GeneralStep(s, m, env))
  {
    hide Advanced, CommitCandidate, BcastAppend, AllResent, OnHeartbeatResp, GeneralStep;
    AnswerLayers(s, m, env);
    var g := Grown(s, m);
    var c := MaybeCommit(g, env).0;
    var r := OnAppResp(s, m, env);
    NothingResent(g, c);
    NothingResent(g, g);
    BcastResends(c, env, |env.order|);
    ResentTwice(g, c, BcastAppend(c, env, |env.order|));
    assert AllResent(g, r);
    SameLog(g, r);
    HeardResends(r, m, env);
    ResentTwice(g, r, OnHeartbeatResp(r, m, env));
  }

  lemma SameLog(g: Node, r: Node)
    requires AllResent(g, r)
    ensures r.log == g.log && r.prs.Keys == g.prs.Keys
  {
  }

  lemma NothingResent(s: Node, t: Node)
    requires t.prs == s.prs && t.log == s.log && t.id == s.id
    ensures AllResent(s, t)
  {
  }

  lemma HeardResends(s: Node, m: Message, env: Env)
    requires m.from in s.prs && Positioned(s)
    ensures AllResent(s, OnHeartbeatResp(s, m, env))
  {
    hide SendAppend;
    var t := s.(prs := s.prs[m.from := s.prs[m.from].(recentActive := true)]);
    SendResends(t, m.from, env);
  }

  /** The append that carries the last command to a peer that has all the others. */
  ghost function Command(a: nat, p: nat, ops: seq<string>): Message
    requires ops != []
  {
    var n := |ops| - 1;
    Message(MsgApp, from := a, to := p, index := n, logTerm := 2, commit := n, entries := [Entry(2, n + 1, ops[n])])
  }

  /** The last of `ops` is stored by the leader, and acknowledged by all peers but those of `todo`. */
  ghost predicate Acking(sys: System, a: nat, peers: set<nat>, ops: seq<string>, todo: set<nat>) {
    && ops != [] && Members(sys, a, peers) && todo <= peers
    && LeaderAt(sys[a], a, peers, ops, if todo == {} then |ops| else |ops| - 1, |ops| - 1)
    && (forall p :: p in todo ==>
          && InStep(sys[p], p, a, ops[..|ops| - 1]) && Paced(sys[a].prs[p], |ops| - 1, |ops|)
          && Command(a, p, ops) in sys[a].sent)
    && (forall p :: p in peers && p !in todo ==>
          Behind(sys[p], p, ops) && Paced(sys[a].prs[p], |ops|, |ops|) && sys[a].prs[p].next == |ops| + 1)
  }

  lemma StoredMore(ops: seq<string>)
    requires ops != []
    ensures Stored(ops) == Stored(ops[..|ops| - 1]) + [Entry(2, |ops|, ops[|ops| - 1])]
    ensures Stored(ops)[|ops| - 1] == Entry(2, |ops|, ops[|ops| - 1])
  {
  }

  /** A proposal at a leader whose peers have everything before it. */
  lemma ProposedAt(n: Node, a: nat, peers: set<nat>, ops: seq<string>, env: Env)
    requires ops != [] && ops[|ops| - 1] != "" && peers != {}
    requires LeaderAt(n, a, peers, ops[..|ops| - 1], |ops| - 1, |ops| - 1) && IsOrder(env.order, n.prs)
    requires forall p :: p in peers ==> Paced(n.prs[p], |ops| - 1, |ops| - 1) && n.prs[p].next == |ops|
    ensures Walks(env.order, n.prs)
    ensures var t := Next(n, Propose(ops[|ops| - 1]), env);
      && LeaderAt(t, a, peers, ops, |ops| - 1, |ops| - 1)
      && (forall p :: p in peers ==> Paced(t.prs[p], |ops| - 1, |ops|))
      && forall p :: p in peers && p != a && p != 0 ==> Command(a, p, ops) in t.sent
  {
    hide IsOrder, GeneralStep, SendsAppends, RoleOk, Stored;
    var m := ProposalOf(ops[|ops| - 1]);
    LeadsOn(n);
    ProposalTaken(n, m, env, |ops|);
    var t := GeneralStep(n, m, env);
    StoredNext(n, ops, t);
    StoredMore(ops);
    ProposalResends(n, m, env);
    LeaderStaysQuiet(n, m, env);
    forall p | p in peers && p != a && p != 0 ensures Command(a, p, ops) in t.sent {
      CommandSent(n, a, peers, ops, env, t, p);
    }
  }

  lemma LeadsOn(n: Node)
    requires RoleOk(n) && n.role == Leader
    ensures n.step == StepLeader
  {
  }

  lemma StoredNext(n: Node, ops: seq<string>, t: Node)
    requires ops != [] && n.log.entries == Stored(ops[..|ops| - 1]) && n.currentTerm == 2 && n.lastApplied == |ops| - 1
    requires Numbered(n, [Entry(0, 0, ops[|ops| - 1])], t.log.entries)
    ensures t.log.entries == Stored(ops)
  {
    StoredMore(ops);
    var before, ents := n.log.entries, [Entry(0, 0, ops[|ops| - 1])];
    assert t.log.entries[|before| + 0].data == ents[0].data;
    assert t.log.entries == before + [t.log.entries[|before|]];
  }

  lemma ProposalResends(n: Node, m: Message, env: Env)
    requires Walks(env.order, n.prs) && n.step == StepLeader && m.typ == MsgProp && m.term == 0
    requires Positioned(GeneralStep(n, m, env))
    ensures var t := GeneralStep(n, m, env);
      t.prs.Keys == n.prs.Keys && forall id :: id in n.prs ==> Resent(n.prs[id], t.prs[id], |t.log.entries|)
  {
    hide BcastAppend, MaybeCommit, Stamped;
    var l := AppendEntry(n, m.entries, env);
    BcastKeeps(l, env);
    BcastResends(l, env, |env.order|);
  }

  lemma LeaderStaysQuiet(s: Node, m: Message, env: Env)
    requires Walks(env.order, s.prs) && RoleOk(s) && s.role == Leader && m.term == 0
    requires m.typ == MsgProp || m.typ == MsgAppResp
    ensures var t := GeneralStep(s, m, env);
      && t.id == s.id && t.role == Leader && RoleOk(t) && t.currentTerm == s.currentTerm && t.members == s.members
      && t.lastApplied == s.lastApplied && |s.sent| <= |t.sent| && t.sent[..|s.sent|] == s.sent
  {
    hide LeaderStep;
    LeaderStepQuiet(s, m, env);
  }

  lemma CommandSent(n: Node, a: nat, peers: set<nat>, ops: seq<string>, env: Env, t: Node, p: nat)
    requires ops != [] && n.id == a && n.prs.Keys == peers && p in peers && p != a && p != 0
    requires n.prs[p].next == |ops| && n.currentTerm == 2 && n.log.offset == 1
    requires t.log == n.log.(entries := Stored(ops)) && t.commitIndex == |ops| - 1
    requires SendsAppends(n.(log := t.log, commitIndex := t.commitIndex), n.sent, t.sent, env)
    ensures Command(a, p, ops) in t.sent
  {
    var c := n.(log := t.log, commitIndex := t.commitIndex);
    assert p in PeersOf(c, true);
    var k :| |n.sent| <= k < |t.sent| && t.sent[k] == Appends(c, env)(p);
    assert t.sent[k] == AppendFor(c, p, env);
    StoredMore(ops);
    if |ops| > 1 { assert MaybeTerm(c.log, |ops| - 1) == 2; }
    assert c.log.entries[|ops| - 1..] == [Entry(2, |ops|, ops[|ops| - 1])];
  }

  /** A peer in step takes the command and says how far its log goes now. */
  lemma StoredAt(n: Node, p: nat, a: nat, ops: seq<string>, env: Env)
    requires ops != [] && InStep(n, p, a, ops[..|ops| - 1]) && Walks(env.order, n.prs)
    ensures var t := Next(n, Receive(Command(a, p, ops)), env);
      Behind(t, p, ops) && Message(MsgAppResp, from := p, to := a, index := |ops|) in t.sent
  {
    hide GeneralStep, Stored;
    var m := Command(a, p, ops);
    AppendTaken(n, m, env);
    StoredMore(ops);
    var t := GeneralStep(n, m, env);
    assert t.log.entries == Stored(ops[..|ops| - 1])[..|ops| - 1] + m.entries;
    assert t.sent[|n.sent|] == Message(MsgAppResp, from := p, to := a, index := |ops|);
  }

  /** Where the peers stand once the leader has taken the answer of `p`. */
  lemma AckedPeers(n: Node, t: Node, m: Message, peers: set<nat>, size: nat, todo: set<nat>)
    requires size > 0 && m.from in todo && todo <= peers && n.prs.Keys == peers && m.index == size
    requires forall q :: q in todo ==> Paced(n.prs[q], size - 1, size)
    requires forall q :: q in peers && q !in todo ==> Paced(n.prs[q], size, size) && n.prs[q].next == size + 1
    requires AllResent(Grown(n, m), t) && |n.log.entries| == size
    ensures forall q :: q in todo - {m.from} ==> Paced(t.prs[q], size - 1, size)
    ensures forall q :: q in peers && q !in todo - {m.from} ==> Paced(t.prs[q], size, size) && t.prs[q].next == size + 1
  {
    hide Advanced;
    AdvancedTo(n.prs[m.from], size);
    forall q | q in peers ensures Resent(Grown(n, m).prs[q], t.prs[q], size) { }
  }

  /** The answer to the command at the leader: the last one commits it. */
  lemma AckedAt(n: Node, a: nat, peers: set<nat>, ops: seq<string>, todo: set<nat>, p: nat, env: Env)
    requires ops != [] && p in todo && todo <= peers && LeaderAt(n, a, peers, ops, |ops| - 1, |ops| - 1)
    requires IsOrder(env.order, n.prs)
    requires forall q :: q in todo ==> Paced(n.prs[q], |ops| - 1, |ops|)
    requires forall q :: q in peers && q !in todo ==> Paced(n.prs[q], |ops|, |ops|) && n.prs[q].next == |ops| + 1
    ensures Walks(env.order, n.prs)
    ensures var t := Next(n, Receive(Message(MsgAppResp, from := p, to := a, index := |ops|)), env);
      && LeaderAt(t, a, peers, ops, if todo == {p} then |ops| else |ops| - 1, |ops| - 1)
      && (forall q :: q in todo - {p} ==> Paced(t.prs[q], |ops| - 1, |ops|))
      && (forall q :: q in peers && q !in todo - {p} ==> Paced(t.prs[q], |ops|, |ops|) && t.prs[q].next == |ops| + 1)
      && |n.sent| <= |t.sent| && t.sent[..|n.sent|] == n.sent
  {
    hide IsOrder, GeneralStep, RoleOk, Stored, AllResent, Walks, MatchAfter, MatchesAfter, HoldingAfter, Grown;
    var m := Message(MsgAppResp, from := p, to := a, index := |ops|);
    OrderWalks(env.order, n.prs);
    LeadsOn(n);
    assert Answers(n, m);
    AnsweredExactly(n, m, env, |ops|);
    AnsweredExactly(n, m, env, |ops| + 1);
    AppendAnswered(n, m, env, 0);
    StoredMore(ops);
    AnswerResends(n, m, env);
    LeaderStaysQuiet(n, m, env);
    var t := GeneralStep(n, m, env);
    AllMatched(n, peers, ops, todo, p);
    AckedPeers(n, t, m, peers, |ops|, todo);
    SameLog(Grown(n, m), t);
    GrownFrom(n, m);
  }

  lemma GrownFrom(n: Node, m: Message)
    requires m.from in n.prs
    ensures Grown(n, m).log == n.log && Grown(n, m).prs.Keys == n.prs.Keys
  {
  }

  lemma AdvancedTo(x: Progress, size: nat)
    requires size > 0 && Paced(x, size - 1, size)
    ensures var y := Advanced(x, size); Paced(y, size, size) && y.next == size + 1
  {
  }

  lemma AllMatched(n: Node, peers: set<nat>, ops: seq<string>, todo: set<nat>, p: nat)
    requires ops != [] && p in todo && todo <= peers && n.prs.Keys == peers
    requires forall q :: q in todo ==> n.prs[q].matched == |ops| - 1
    requires forall q :: q in peers && q !in todo ==> n.prs[q].matched == |ops|
    ensures todo == {p} <==> forall q :: q in n.prs ==> MatchAfter(n, p, |ops|, q) >= |ops|
    ensures forall q :: q in n.prs ==> MatchAfter(n, p, |ops|, q) <= |ops|
  {
    if todo != {p} {
      var q :| q in todo && q != p;
      assert MatchAfter(n, p, |ops|, q) == |ops| - 1;
    }
  }

  /** One peer stores and acknowledges the command. */
  lemma AcksOne(sys: System, a: nat, peers: set<nat>, ops: seq<string>, todo: set<nat>, p: nat) returns (next: System)
    requires Acking(sys, a, peers, ops, todo) && p in todo
    ensures Reaches(sys, next) && Acking(next, a, peers, ops, todo - {p})
  {
    hide Reaches, IsOrder, Next, RoleOk, Walks, Stored, LeaderAt, InStep, Behind, Paced, Command, InFlight;
    var stored := StoresOne(sys, a, peers, ops, p);
    var reply := Message(MsgAppResp, from := p, to := a, index := |ops|);
    var env := SomeEnv(stored[a], 0, 0);
    next := Happens(stored, a, Receive(reply), env);
    ReachesOn(sys, stored, next);
    LeaderPeers(sys[a], a, peers, ops, |ops| - 1, |ops| - 1);
    AckedAt(sys[a], a, peers, ops, todo, p, env);
    LeaderPeers(next[a], a, peers, ops, if todo == {p} then |ops| else |ops| - 1, |ops| - 1);
    AckingOn(sys, next, a, peers, ops, todo, p);
  }

  lemma StoresOne(sys: System, a: nat, peers: set<nat>, ops: seq<string>, p: nat) returns (stored: System)
    requires ops != [] && Members(sys, a, peers) && p in peers && InStep(sys[p], p, a, ops[..|ops| - 1])
    requires Command(a, p, ops) in sys[a].sent
    ensures Reaches(sys, stored) && p in stored && stored == sys[p := stored[p]] && Behind(stored[p], p, ops)
    ensures InFlight(stored, Message(MsgAppResp, from := p, to := a, index := |ops|))
  {
    hide Reaches, IsOrder, Next, Walks, InStep, Behind, Command;
    assert InFlight(sys, Command(a, p, ops));
    var env := SomeEnv(sys[p], 0, 0);
    stored := Happens(sys, p, Receive(Command(a, p, ops)), env);
    StoredAt(sys[p], p, a, ops, env);
    assert Message(MsgAppResp, from := p, to := a, index := |ops|) in stored[p].sent;
  }

  lemma AckingOn(sys: System, next: System, a: nat, peers: set<nat>, ops: seq<string>, todo: set<nat>, p: nat)
    requires Acking(sys, a, peers, ops, todo) && p in todo && p in next && a in next
    requires next == sys[p := next[p]][a := next[a]] && Behind(next[p], p, ops)
    requires LeaderAt(next[a], a, peers, ops, if todo == {p} then |ops| else |ops| - 1, |ops| - 1)
    requires forall q :: q in todo - {p} ==> q in next[a].prs && Paced(next[a].prs[q], |ops| - 1, |ops|)
    requires forall q :: q in peers && q !in todo - {p} ==>
               q in next[a].prs && Paced(next[a].prs[q], |ops|, |ops|) && next[a].prs[q].next == |ops| + 1
    requires |sys[a].sent| <= |next[a].sent| && next[a].sent[..|sys[a].sent|] == sys[a].sent
    ensures Acking(next, a, peers, ops, todo - {p})
  {
    hide InStep, Behind, Paced, Command, LeaderAt;
    forall q | q in todo - {p} ensures Command(a, q, ops) in next[a].sent {
      InPrefix(sys[a].sent, next[a].sent, Command(a, q, ops));
    }
    assert todo - {p} == {} <==> todo == {p};
  }

  lemma LeaderPeers(n: Node, a: nat, peers: set<nat>, ops: seq<string>, commit: nat, applied: nat)
    requires LeaderAt(n, a, peers, ops, commit, applied)
    ensures n.prs.Keys == peers && n.id == a
  {
  }

  lemma InPrefix(was: seq<Message>, now: seq<Message>, m: Message)
    requires |was| <= |now| && now[..|was|] == was && m in was
    ensures m in now
  {
    var k :| 0 <= k < |was| && was[k] == m;
    assert now[k] == now[..|was|][k];
  }

  lemma {:induction false} AllAck(sys: System, a: nat, peers: set<nat>, ops: seq<string>, todo: set<nat>)
    returns (next: System)
    requires Acking(sys, a, peers, ops, todo)
    ensures Reaches(sys, next) && Acking(next, a, peers, ops, {})
    decreases |todo|
  {
    hide Reaches, Acking;
    if todo == {} {
      ReachesItself(sys);
      next := sys;
    } else {
      var p :| p in todo;
      var mid := AcksOne(sys, a, peers, ops, todo, p);
      next := AllAck(mid, a, peers, ops, todo - {p});
      ReachesOn(sys, mid, next);
    }
  }

  /** One more command, from one settled state to the next. */
  lemma CommandSettles(sys: System, a: nat, peers: set<nat>, ops: seq<string>) returns (next: System)
    requires ops != [] && ops[|ops| - 1] != "" && Settled(sys, a, peers, ops[..|ops| - 1])
    ensures Reaches(sys, next) && Settled(next, a, peers, ops)
  {
    hide Reaches, IsOrder, Next, Walks, Stored, LeaderAt, InStep, Behind, Paced, Command, RoleOk;
    var env := SomeEnv(sys[a], 0, 0);
    LeaderPeers(sys[a], a, peers, ops[..|ops| - 1], |ops| - 1, |ops| - 1);
    ProposedAt(sys[a], a, peers, ops, env);
    var proposed := Happens(sys, a, Propose(ops[|ops| - 1]), env);
    assert Acking(proposed, a, peers, ops, peers);
    var acked := AllAck(proposed, a, peers, ops, peers);
    ReachesOn(sys, proposed, acked);
    var env' := SomeEnv(acked[a], 0, 0);
    var applied := Happens(acked, a, Persist, env');
    ReachesOn(sys, acked, applied);
    AppliedAt(acked[a], a, peers, ops, env');
    next := Settles(applied, a, peers, ops);
    ReachesOn(sys, applied, next);
  }

  lemma AppliedAt(n: Node, a: nat, peers: set<nat>, ops: seq<string>, env: Env)
    requires ops != [] && LeaderAt(n, a, peers, ops, |ops|, |ops| - 1) && Walks(env.order, n.prs)
    ensures LeaderAt(Next(n, Persist, env), a, peers, ops, |ops|, |ops|) && Next(n, Persist, env).prs == n.prs
  {
  }

  // ---------- the whole way ----------

  lemma {:induction false} ConnectedFresh(s: Node, peers: seq<nat>)
    requires s.prs == map[]
    ensures var t := ConnectAll(s, peers);
      && t == s.(prs := t.prs, sent := t.sent)
      && forall p :: p in t.prs ==> t.prs[p] == Progress(s.lastApplied + 1, 0, Probe, 0, true)
    decreases |peers|
  {
    if peers != [] { ConnectedFresh(s, peers[..|peers| - 1]); }
  }

  lemma BootedFresh(id: nat, b: Boot)
    requires b.firstIndex <= 1
    ensures var n := Booted(id, b);
      && n.id == id && n.log.offset == b.offset && n.log.entries == [] && n.commitIndex == n.lastApplied == 0
      && Behind(n, id, []) && n.prs.Keys == Peers(b)
      && forall p :: p in n.prs ==> Paced(n.prs[p], 0, 0) && n.prs[p].next == 1
  {
    hide Booted;
    BootedIs(id, b);
    BootedOk(id, b);
    assert Booted(id, b) == ConnectAll(Started(id, b), b.peers) by { BootedConnects(id, b); }
    ConnectedFresh(Started(id, b), b.peers);
    assert Stored([]) == [];
  }

  lemma BootedConnects(id: nat, b: Boot)
    ensures Booted(id, b) == ConnectAll(Started(id, b), b.peers)
  {
  }

  lemma {:induction false} AllSettle(sys: System, a: nat, peers: set<nat>, ops: seq<string>) returns (next: System)
    requires Settled(sys, a, peers, []) && forall k :: 0 <= k < |ops| ==> ops[k] != ""
    ensures Reaches(sys, next) && Settled(next, a, peers, ops)
    decreases |ops|
  {
    hide Reaches, Settled;
    if ops == [] {
      ReachesItself(sys);
      next := sys;
    } else {
      var mid := AllSettle(sys, a, peers, ops[..|ops| - 1]);
      next := CommandSettles(mid, a, peers, ops);
      ReachesOn(sys, mid, next);
    }
  }

  /** A node that starts with nothing stored, and is connected to others that have nothing stored. */
  ghost predicate StartsFresh(boots: map<nat, Boot>, a: nat) {
    && a in boots && boots[a].offset == 1 && boots[a].firstIndex <= 1
    && Peers(boots[a]) != {} && a !in Peers(boots[a]) && 0 !in Peers(boots[a])
    && forall p :: p in Peers(boots[a]) ==> p in boots && boots[p].firstIndex <= 1
  }

  lemma LeadsSettled(boots: map<nat, Boot>, a: nat) returns (sys: System, next: System)
    requires StartsFresh(boots, a)
    ensures NetInit(sys, boots) && Reaches(sys, next) && Settled(next, a, Peers(boots[a]), [])
  {
    hide NetInit, NetStep, Booted, IsOrder, Waiting, LeadsTermTwo, Behind, Paced, RoleOk, Reaches, LeaderAt;
    sys := Starts(boots);
    var peers := Peers(boots[a]);
    BootedFresh(a, boots[a]);
    forall p | p in peers ensures Behind(sys[p], p, []) { BootedFresh(p, boots[p]); }
    var env := SomeEnv(sys[a], 0, 0);
    var run, log := TimesOut(sys, a, env);
    var led := run[|log|];
    assert Reaches(sys, led) by { ReachedBy(run, log); }
    RunOk(run, log, boots, |log|);
    LeadsFresh(led, a, peers, sys[a]);
    var settled := Settles(led, a, peers, []);
    ReachesOn(sys, led, settled);
    next := settled;
  }

  lemma ReachedBy(run: seq<System>, log: seq<NetEvent>)
    requires NetSteps(run, log)
    ensures Reaches(run[0], run[|log|])
  {
  }

  lemma LeadsFresh(sys: System, a: nat, peers: set<nat>, n: Node)
    requires NetOk(sys) && a in sys && LeadsTermTwo(sys[a]) && SameBelongings(n, sys[a]) && n.id == a
    requires n.log.offset == 1 && n.log.entries == [] && n.commitIndex == n.lastApplied == 0 && n.prs.Keys == peers
    ensures LeaderAt(sys[a], a, peers, [], 0, 0)
  {
    assert Stored([]) == [];
  }

  /**
    The protocol works: in every network, a node with nothing stored and connected to peers with nothing
    stored can lead, and any sequence of commands can be proposed to it one after the other so that in
    the end all of them, in order, are stored, committed and applied by it and by every one of its peers.
  */
  lemma CommandsReplicated(boots: map<nat, Boot>, a: nat, ops: seq<string>)
    returns (run: seq<System>, log: seq<NetEvent>)
    requires StartsFresh(boots, a) && forall k :: 0 <= k < |ops| ==> ops[k] != ""
    ensures NetRun(run, log, boots) && Settled(run[|log|], a, Peers(boots[a]), ops)
  {
    hide Settled, NetStep, NetInit;
    var sys, led := LeadsSettled(boots, a);
    var next := AllSettle(led, a, Peers(boots[a]), ops);
    ReachesOn(sys, led, next);
    run, log :| NetSteps(run, log) && run[0] == sys && run[|log|] == next;
  }
}
