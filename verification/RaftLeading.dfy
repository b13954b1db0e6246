/** What a leader makes of answers and proposals: whom it counts, what it commits and what it sends. */
module RaftLeading {
  import opened UnstableLog
  import opened RaftNode
  import opened RaftSafety
  import opened RaftCommit
  import opened RaftQuorum
  import opened RaftHandling

  /** The match of a peer once the sender of an answer is known to have `index`. */
  ghost function MatchAfter(s: Node, from: nat, index: nat, id: nat): nat
    requires id in s.prs
  {
    if id == from && s.prs[id].matched < index then index else s.prs[id].matched
  }

  ghost function HoldingAfter(s: Node, from: nat, index: nat, v: nat): set<nat> {
    set id | id in s.prs && MatchAfter(s, from, index, id) >= v
  }

  ghost predicate MatchesAfter(s: Node, t: Node, from: nat, index: nat) {
    t.prs.Keys == s.prs.Keys && forall id :: id in s.prs ==> t.prs[id].matched == MatchAfter(s, from, index, id)
  }

  /** The leader once the match of the sender has grown, before it looks what to commit. */
  ghost function Grown(s: Node, m: Message): Node
    requires m.from in s.prs
  {
    s.(prs := s.prs[m.from := Advanced(s.prs[m.from], m.index)])
  }

  lemma GrownMatches(s: Node, m: Message)
    requires m.from in s.prs
    ensures MatchesAfter(s, Grown(s, m), m.from, m.index)
  {
  }

  lemma MatchesCarried(s: Node, t: Node, u: Node, from: nat, index: nat)
    requires MatchesAfter(s, t, from, index) && SameMatches(t, u)
    ensures MatchesAfter(s, u, from, index)
  {
  }

  /**
    A peer after a successful answer. It counts as active and what is to be sent next lies past the index
    named; if its match grew, a peer being probed is sent entries as they come from right behind the match, and
    one that waited for a snapshot is probed from behind its match and the snapshot.
  */
  lemma AnsweredPeer(p: Progress, index: nat)
    ensures var q := Advanced(p, index);
      && q.recentActive && q.next > index && q.matched == (if p.matched < index then index else p.matched)
      && (p.matched >= index || p.state == Replicate ==>
            && q.state == p.state && q.pendingSnapshot == p.pendingSnapshot
            && q.next == if p.next < index + 1 then index + 1 else p.next)
      && (p.matched < index && p.state == Probe ==>
            q.state == Replicate && q.pendingSnapshot == 0 && q.next == index + 1)
      && (p.matched < index && p.state == Snapshot ==>
            && q.state == Probe && q.pendingSnapshot == 0
            && q.next == 1 + if p.pendingSnapshot > index then p.pendingSnapshot else index)
  {
  }

  /** Only a peer that is sent entries as they come is taken to have what it is sent. */
  lemma SendingAhead(s: Node, to: nat, env: Env)
    requires to in s.prs
    ensures var t, p := SendAppend(s, to, env), s.prs[to];
      && t.sent == s.sent + [AppendFor(s, to, env)] && t == s.(sent := t.sent, prs := t.prs)
      && t.prs == if p.state == Replicate && p.next <= |s.log.entries|
                  then s.prs[to := p.(next := s.log.entries[|s.log.entries| - 1].index + 1)] else s.prs
  {
    hide MaybeTerm;
  }

  /** An answer that raises a match is looked at for a commit, and a commit is told to everyone. */
  lemma AnswerCounted(s: Node, m: Message, env: Env)
    requires IsOrder(env.order, s.prs) && m.from in s.prs && !m.reject && s.prs[m.from].matched < m.index
    ensures Walks(env.order, s.prs)
    ensures var r, c := OnAppResp(s, m, env), MaybeCommit(Grown(s, m), env).0;
      && r.commitIndex == c.commitIndex && MatchesAfter(s, r, m.from, m.index)
      && c == Grown(s, m).(commitIndex := c.commitIndex) && c.commitIndex >= s.commitIndex
      && (c.commitIndex > s.commitIndex ==> SendsAppends(c, s.sent, r.sent, env))
      && (c.commitIndex == s.commitIndex ==> r == Grown(s, m))
  {
    hide Advanced, IsOrder, BcastAppend, SendsAppends, MatchesAfter, SameMatches, CommitCandidate;
    OrderWalks(env.order, s.prs);
    GrownMatches(s, m);
    var c := MaybeCommit(Grown(s, m), env).0;
    OrderKept(env.order, s.prs, c.prs);
    AllAppendsSent(c, env);
    BcastAppendMatches(c, env, |env.order|);
    BcastKeeps(c, env);
    MatchesOf(s, Grown(s, m), c, m.from, m.index);
    MatchesCarried(s, c, BcastAppend(c, env, |env.order|), m.from, m.index);
  }

  lemma MatchesOf(s: Node, t: Node, u: Node, from: nat, index: nat)
    requires MatchesAfter(s, t, from, index) && u.prs == t.prs
    ensures MatchesAfter(s, u, from, index)
  {
  }

  /** After any answer the leader looks whether the peer lags behind what is applied here, and sends it more. */
  ghost predicate SendsMore(r: Node, t: Node, id: nat, env: Env)
    requires id in r.prs
  {
    t.sent == r.sent + if r.prs[id].matched < r.lastApplied then [AppendFor(r, id, env)] else []
  }

  lemma HeardFrom(s: Node, m: Message, env: Env)
    requires m.from in s.prs
    ensures var t := OnHeartbeatResp(s, m, env);
      && SendsMore(s, t, m.from, env) && SameMatches(s, t) && t == s.(prs := t.prs, sent := t.sent)
      && t.prs[m.from].recentActive
      && forall id :: id in s.prs && id != m.from ==> t.prs[id] == s.prs[id]
  {
    hide MaybeTerm;
  }

  /** A heartbeat answered: the peer counts as active, and gets an append if it lags behind. */
  lemma HeartbeatAnswered(s: Node, m: Message, env: Env)
    requires Walks(env.order, s.prs) && s.step == StepLeader
    requires m.typ == MsgHeartbeatResp && (m.term == 0 || m.term == s.currentTerm)
    ensures var t := GeneralStep(s, m, env);
      && t == s.(prs := t.prs, sent := t.sent)
      && (m.from !in s.prs ==> t == s)
      && (m.from in s.prs ==>
            && t.prs.Keys == s.prs.Keys && t.prs[m.from].recentActive && SameMatches(s, t)
            && SendsMore(s, t, m.from, env))
  {
    hide OnHeartbeatResp, SameMatches, SendsMore;
    if m.from in s.prs { HeardFrom(s, m, env); }
  }

  /** A refusal moves no match and commits nothing. */
  lemma AppendRefused(s: Node, m: Message, env: Env)
    requires Walks(env.order, s.prs) && s.step == StepLeader && m.from in s.prs
    requires m.typ == MsgAppResp && (m.term == 0 || m.term == s.currentTerm) && m.reject
    ensures var t := GeneralStep(s, m, env);
      t == s.(prs := t.prs, sent := t.sent) && SameMatches(s, t) && SendsMore(s, t, m.from, env)
  {
    hide OnHeartbeatResp, AppendFor;
    var r := s.(prs := s.prs[m.from := s.prs[m.from].(recentActive := true)]);
    assert OnAppResp(s, m, env) == r;
    HeardFrom(r, m, env);
    SameAppendFor(s, r, m.from, env);
  }

  lemma SameAppendFor(s: Node, r: Node, id: nat, env: Env)
    requires id in s.prs && id in r.prs && r.prs[id].next == s.prs[id].next
    requires r.log == s.log && r.commitIndex == s.commitIndex && r.currentTerm == s.currentTerm && r.id == s.id
    ensures AppendFor(r, id, env) == AppendFor(s, id, env)
  {
  }

  ghost predicate Answers(s: Node, m: Message) {
    && m.typ == MsgAppResp && (m.term == 0 || m.term == s.currentTerm)
    && m.from in s.prs && !m.reject && s.prs[m.from].matched < m.index
  }

  lemma AnswerLayers(s: Node, m: Message, env: Env)
    requires Walks(env.order, s.prs) && s.step == StepLeader && Answers(s, m)
    ensures GeneralStep(s, m, env) == OnHeartbeatResp(OnAppResp(s, m, env), m, env)
  {
    hide OnAppResp, OnHeartbeatResp;
  }

  /**
    An append answered: the match of the sender becomes the index named, if that is larger, and the
    others' stay; and if enough peers then hold `v`, it is committed.
  */
  lemma AppendAnswered(s: Node, m: Message, env: Env, v: nat)
    requires IsOrder(env.order, s.prs) && s.step == StepLeader && Answers(s, m)
    ensures Walks(env.order, s.prs)
    ensures var t := GeneralStep(s, m, env);
      && MatchesAfter(s, t, m.from, m.index) && t.commitIndex >= s.commitIndex
      && (Quorum(s) <= |s.prs| && |HoldingAfter(s, m.from, m.index, v)| >= |s.prs| - Quorum(s) + 1 ==>
            t.commitIndex >= v)
  {
    hide Advanced, IsOrder, MatchesAfter, SameMatches, MaybeCommit, OnAppResp, OnHeartbeatResp, GeneralStep;
    hide SendsAppends, HoldingAfter, Quorum, Holding, SendsMore;
    AnswerCounted(s, m, env);
    AnswerLayers(s, m, env);
    var r := OnAppResp(s, m, env);
    HeardFrom(r, m, env);
    MatchesCarried(s, r, OnHeartbeatResp(r, m, env), m.from, m.index);
    if Quorum(s) <= |s.prs| && |HoldingAfter(s, m.from, m.index, v)| >= |s.prs| - Quorum(s) + 1 {
      GrownHolding(s, m, v);
      OrderKept(env.order, s.prs, Grown(s, m).prs);
      SameSize(s.prs, Grown(s, m).prs);
      SameQuorum(s, Grown(s, m));
      CommitComplete(Grown(s, m), env, v);
    }
  }

  lemma SameQuorum(s: Node, t: Node)
    requires t.members == s.members
    ensures Quorum(t) == Quorum(s)
  {
  }

  /** With the counted map empty, as in every network: committed is exactly what every tracked peer holds. */
  lemma AnsweredExactly(s: Node, m: Message, env: Env, v: nat)
    requires IsOrder(env.order, s.prs) && s.step == StepLeader && Answers(s, m) && s.members == 0
    ensures Walks(env.order, s.prs)
    ensures GeneralStep(s, m, env).commitIndex >= v <==>
      s.commitIndex >= v || forall id :: id in s.prs ==> MatchAfter(s, m.from, m.index, id) >= v
  {
    hide IsOrder, GeneralStep;
    AppendAnswered(s, m, env, v);
    assert Quorum(s) == 1 && s.prs != map[];
    var all := HoldingAfter(s, m.from, m.index, v);
    if forall id :: id in s.prs ==> MatchAfter(s, m.from, m.index, id) >= v {
      assert all == s.prs.Keys;
    } else if s.commitIndex < v <= GeneralStep(s, m, env).commitIndex {
      LaggardHolds(s, m, env, v);
    }
  }

  lemma LaggardHolds(s: Node, m: Message, env: Env, v: nat)
    requires IsOrder(env.order, s.prs) && Walks(env.order, s.prs) && s.step == StepLeader && Answers(s, m)
    requires s.members == 0 && s.commitIndex < v <= GeneralStep(s, m, env).commitIndex
    ensures forall id :: id in s.prs ==> MatchAfter(s, m.from, m.index, id) >= v
  {
    hide IsOrder, OnAppResp, OnHeartbeatResp, MatchesAfter, SendsMore, SendsAppends;
    AnswerLayers(s, m, env);
    AnswerCounted(s, m, env);
    AppendAnswered(s, m, env, v);
    var r := OnAppResp(s, m, env);
    HeardFrom(r, m, env);
    hide GeneralStep, MaybeCommit, Advanced;
    assert OnHeartbeatResp(r, m, env).commitIndex == r.commitIndex;
    assert r.commitIndex > s.commitIndex;
    OnAppRespCommits(s, m, env);
    assert Commits(s, r);
    HeldAfter(s, r, m.from, m.index);
  }

  lemma HeldAfter(s: Node, r: Node, from: nat, index: nat)
    requires MatchesAfter(s, r, from, index) && AllHold(r)
    ensures forall id :: id in s.prs ==> MatchAfter(s, from, index, id) >= r.commitIndex
  {
  }

  /** An answer that tells nothing new moves no match and commits nothing. */
  lemma AnswerRepeated(s: Node, m: Message, env: Env)
    requires Walks(env.order, s.prs) && s.step == StepLeader && m.from in s.prs
    requires m.typ == MsgAppResp && (m.term == 0 || m.term == s.currentTerm)
    requires !m.reject && m.index <= s.prs[m.from].matched
    ensures var t := GeneralStep(s, m, env);
      && t == s.(prs := t.prs, sent := t.sent) && SameMatches(s, t)
      && SendsMore(Grown(s, m), t, m.from, env)
  {
    hide OnHeartbeatResp, AppendFor, Advanced;
    AnsweredPeer(s.prs[m.from], m.index);
    assert OnAppResp(s, m, env) == Grown(s, m);
    HeardFrom(Grown(s, m), m, env);
  }

  /** Whenever an answer makes the commit index grow, every peer is sent an append that says so. */
  lemma CommitTold(s: Node, m: Message, env: Env)
    requires IsOrder(env.order, s.prs) && s.step == StepLeader && Answers(s, m)
    ensures Walks(env.order, s.prs)
    ensures var t := GeneralStep(s, m, env);
      var told := |s.sent| + |PeersOf(s, true)|;
      t.commitIndex > s.commitIndex ==>
        && told <= |t.sent|
        && SendsAppends(Grown(s, m).(commitIndex := t.commitIndex), s.sent, t.sent[..told], env)
  {
    hide Advanced, IsOrder, MatchesAfter, MaybeCommit, OnAppResp, OnHeartbeatResp, GeneralStep, PeersOf, SendsAppends;
    AnswerCounted(s, m, env);
    AnswerLayers(s, m, env);
    var r := OnAppResp(s, m, env);
    HeardFrom(r, m, env);
    SamePeers(s, Grown(s, m).(commitIndex := r.commitIndex));
    if r.commitIndex > s.commitIndex {
      ManySent(Grown(s, m).(commitIndex := r.commitIndex), s.sent, r.sent, env);
      assert OnHeartbeatResp(r, m, env).sent[..|r.sent|] == r.sent;
    }
  }

  lemma ManySent(c: Node, was: seq<Message>, now: seq<Message>, env: Env)
    requires SendsAppends(c, was, now, env)
    ensures |now| == |was| + |PeersOf(c, true)|
  {
    hide PeersOf;
  }

  lemma GrownHolding(s: Node, m: Message, v: nat)
    requires m.from in s.prs
    ensures Holding(Grown(s, m).prs, v) == HoldingAfter(s, m.from, m.index, v)
  {
    GrownMatches(s, m);
  }

  lemma SameSize(p: map<nat, Progress>, q: map<nat, Progress>)
    requires p.Keys == q.Keys
    ensures |p| == |q|
  {
    assert |p| == |p.Keys| && |q| == |q.Keys|;
  }

  // ---------- proposals ----------

  /** What is new in the log: the proposals in order, in the leader's term, numbered on from the applied index. */
  ghost predicate Numbered(s: Node, ents: seq<Entry>, entries: seq<Entry>) {
    && |entries| == |s.log.entries| + |ents| && s.log.entries <= entries
    && forall i :: 0 <= i < |ents| ==>
         var e := entries[|s.log.entries| + i];
         e.data == ents[i].data && e.term == s.currentTerm && e.index == s.lastApplied + 1 + i
  }

  /**
    A proposal to a leader is stored behind its log, numbered from the applied index, marked for
    persisting, and the log sent to every peer; with the counted map empty its commit index reaches
    `v` exactly if it was there or all peers already had `v`.
  */
  lemma ProposalTaken(s: Node, m: Message, env: Env, v: nat)
    requires IsOrder(env.order, s.prs) && s.step == StepLeader
    requires m.typ == MsgProp && (m.term == 0 || m.term == s.currentTerm)
    ensures Walks(env.order, s.prs)
    ensures var t := GeneralStep(s, m, env);
      && t.ready && t.log == s.log.(entries := t.log.entries) && Numbered(s, m.entries, t.log.entries)
      && t.currentTerm == s.currentTerm && t.lastApplied == s.lastApplied && t.role == s.role && SameTracking(s, t)
      && t.commitIndex >= s.commitIndex
      && (s.members == 0 && s.prs != map[] ==>
            (t.commitIndex >= v <==> s.commitIndex >= v || forall id :: id in s.prs ==> s.prs[id].matched >= v))
      && SendsAppends(s.(log := t.log, commitIndex := t.commitIndex), s.sent, t.sent, env)
  {
    hide IsOrder, BcastAppend, SendsAppends, MaybeCommit, Stamped, SameMatches;
    OrderWalks(env.order, s.prs);
    var l := AppendEntry(s, m.entries, env);
    var stored := s.(log := s.log.(entries := s.log.entries + Stamped(m.entries, s.currentTerm, s.lastApplied)));
    CommitOnly(stored, env);
    AllAppendsSent(l, env);
    BcastKeeps(l, env);
    BcastAppendMatches(l, env, |env.order|);
    SameTracked(l, BcastAppend(l, env, |env.order|));
    var c := s.(log := l.log, commitIndex := l.commitIndex);
    SameAppends(c, l, s.sent, BcastAppend(l, env, |env.order|).sent, env);
    StampedAre(s, m.entries);
    assert BcastAppend(l, env, |env.order|) == GeneralStep(s, m, env) by { hide AppendEntry; }
    if s.members == 0 && s.prs != map[] { CommitExactly(stored, env, v); }
  }

  /** The same peers, with the same matches. */
  ghost predicate SameTracking(s: Node, t: Node) {
    t.prs.Keys == s.prs.Keys && forall id :: id in s.prs ==> t.prs[id].matched == s.prs[id].matched
  }

  lemma SameTracked(s: Node, t: Node)
    requires SameMatches(s, t)
    ensures SameTracking(s, t)
  {
  }

  lemma CommitOnly(s: Node, env: Env)
    requires Walks(env.order, s.prs)
    ensures var c := MaybeCommit(s, env).0; c == s.(commitIndex := c.commitIndex) && c.commitIndex >= s.commitIndex
  {
    hide CommitCandidate;
  }

  lemma CommitExactly(s: Node, env: Env, v: nat)
    requires IsOrder(env.order, s.prs) && Walks(env.order, s.prs) && s.members == 0 && s.prs != map[]
    ensures MaybeCommit(s, env).0.commitIndex >= v <==>
      s.commitIndex >= v || forall id :: id in s.prs ==> s.prs[id].matched >= v
  {
    hide IsOrder, Walks;
    CommitOnly(s, env);
    var c := MaybeCommit(s, env).0;
    if forall id :: id in s.prs ==> s.prs[id].matched >= v {
      assert Holding(s.prs, v) == s.prs.Keys;
      assert |s.prs| == |s.prs.Keys| && |s.prs| > 0;
      CommitComplete(s, env, v);
    }
    if c.commitIndex > s.commitIndex {
      assert MaybeCommit(s, env).1;
      hide MaybeCommit;
      CommitNeedsAll(s, env);
    }
  }

  lemma StampedAre(s: Node, ents: seq<Entry>)
    ensures Numbered(s, ents, s.log.entries + Stamped(ents, s.currentTerm, s.lastApplied))
  {
  }

  // ---------- one round, from the append to the commit at the follower ----------

  /**
    A whole round. The follower agrees with the leader up to the entry the append follows on. It takes over the
    leader's log; if all other peers have `v` already, its answer makes the leader commit `v`; and the
    leader's next heartbeat makes the follower commit it too.
  */
  lemma ReplicatedAndCommitted(leader: Node, follower: Node, env: Env, other: Env, v: nat)
    requires IsOrder(env.order, leader.prs) && leader.step == StepLeader && RoleOk(leader) && leader.members == 0
    requires Walks(other.order, follower.prs) && RoleOk(follower) && follower.role != Leader
    requires follower.id in leader.prs && leader.currentTerm == follower.currentTerm > 0
    requires var m := AppendFor(leader, follower.id, env);
      && Fits(follower, m) && m.index <= |leader.log.entries|
      && follower.log.entries[..m.index] == leader.log.entries[..m.index]
    requires leader.prs[follower.id].matched < |leader.log.entries| && v <= |leader.log.entries|
    requires forall id :: id in leader.prs && id != follower.id ==> leader.prs[id].matched >= v
    ensures var m := AppendFor(leader, follower.id, env);
      var f := GeneralStep(follower, m, other);
      && f.log.entries == leader.log.entries && |f.sent| == |follower.sent| + 1
      && Walks(env.order, leader.prs)
      && var l := GeneralStep(leader, f.sent[|follower.sent|], env);
         && l.commitIndex >= v && l.currentTerm == leader.currentTerm
         && Walks(other.order, f.prs)
         && GeneralStep(f, HeartbeatFor(l, f.id), other).commitIndex >= v
  {
    hide IsOrder, GeneralStep, RoleOk;
    var m := AppendFor(leader, follower.id, env);
    AppendTaken(follower, m, other);
    var f := GeneralStep(follower, m, other);
    assert leader.log.entries == leader.log.entries[..m.index] + m.entries;
    var reply := f.sent[|follower.sent|];
    assert reply == Message(MsgAppResp, from := follower.id, to := leader.id, index := |leader.log.entries|);
    AnsweredExactly(leader, reply, env, v);
    AppendAnswered(leader, reply, env, v);
    var l := GeneralStep(leader, reply, env);
    LeaderSteps(leader, reply, env);
    assert RoleOk(f) by { FollowsNow(f); }
    HeartbeatTaken(f, HeartbeatFor(l, f.id), other);
  }

  lemma LeaderSteps(s: Node, m: Message, env: Env)
    requires Walks(env.order, s.prs) && RoleOk(s) && s.step == StepLeader && m.typ == MsgAppResp && m.term == 0
    ensures var t := GeneralStep(s, m, env);
      t.currentTerm == s.currentTerm && t.id == s.id && t.role == Leader && t.step == StepLeader
  {
    hide LeaderStep;
    LeaderStepQuiet(s, m, env);
  }

  lemma FollowsNow(f: Node)
    requires f.role == Follower && f.step == StepFollower && f.tick == TickElection
    ensures RoleOk(f)
  {
  }
}
