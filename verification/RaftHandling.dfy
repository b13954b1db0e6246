/** What each message and each tick makes a node do and send, through all the layers of its handlers. */
module RaftHandling {
  import opened UnstableLog
  import opened RaftNode
  import opened RaftSafety
  import opened RaftCommit
  import opened RaftQuorum

  // ---------- messages sent to every peer ----------

  /** One message for each of `ids` is new, the one `m` gives. */
  ghost predicate SentToEach(was: seq<Message>, now: seq<Message>, ids: set<nat>, m: nat -> Message) {
    && |now| == |was| + |ids| && now[..|was|] == was
    && forall id :: id in ids ==> exists k :: |was| <= k < |now| && now[k] == m(id)
  }

  lemma SentNone(was: seq<Message>, ids: set<nat>, m: nat -> Message)
    requires ids == {}
    ensures SentToEach(was, was, ids, m)
  {
  }

  lemma SentOneMore(was: seq<Message>, now: seq<Message>, ids: set<nat>, m: nat -> Message, id: nat)
    requires SentToEach(was, now, ids, m) && id !in ids
    ensures SentToEach(was, now + [m(id)], ids + {id}, m)
  {
    var more := now + [m(id)];
    assert more[|now|] == m(id);
    forall x | x in ids ensures exists k :: |was| <= k < |more| && more[k] == m(x) {
      var k :| |was| <= k < |now| && now[k] == m(x);
      assert more[k] == m(x);
    }
  }

  /** The first `k` peers in order without the node itself, and without peer 0 if `nonzero`. */
  ghost function Others(order: seq<nat>, k: nat, self: nat, nonzero: bool): set<nat>
    requires k <= |order|
  {
    set id | id in order[..k] && id != self && (nonzero ==> id != 0)
  }

  lemma OthersNone(order: seq<nat>, self: nat, nonzero: bool)
    ensures Others(order, 0, self, nonzero) == {}
  {
  }

  lemma OthersGrow(order: seq<nat>, k: nat, self: nat, nonzero: bool, prs: map<nat, Progress>)
    requires k < |order| && IsOrder(order, prs)
    ensures var skipped := order[k] == self || (nonzero && order[k] == 0);
      Others(order, k + 1, self, nonzero) == Others(order, k, self, nonzero) + if skipped then {} else {order[k]}
    ensures order[k] !in Others(order, k, self, nonzero) && order[k] in prs
  {
    assert order[..k + 1] == order[..k] + [order[k]];
  }

  /** The next peer in order: skipped, or sent its message. */
  lemma SentNext(was: seq<Message>, now: seq<Message>, order: seq<nat>, k: nat, self: nat, nonzero: bool,
                 prs: map<nat, Progress>, m: nat -> Message)
    requires k < |order| && IsOrder(order, prs) && SentToEach(was, now, Others(order, k, self, nonzero), m)
    ensures var skipped := order[k] == self || (nonzero && order[k] == 0);
      SentToEach(was, if skipped then now else now + [m(order[k])], Others(order, k + 1, self, nonzero), m)
  {
    hide SentToEach, IsOrder, Others;
    OthersGrow(order, k, self, nonzero, prs);
    SentOneMore(was, now, Others(order, k, self, nonzero), m, order[k]);
  }

  /** Whom a node broadcasts to: its tracked peers but itself, without peer 0 if `nonzero`. */
  ghost function PeersOf(s: Node, nonzero: bool): set<nat> {
    set id | id in s.prs && id != s.id && (nonzero ==> id != 0)
  }

  lemma OthersAll(order: seq<nat>, s: Node, nonzero: bool)
    requires IsOrder(order, s.prs)
    ensures Others(order, |order|, s.id, nonzero) == PeersOf(s, nonzero)
  {
    assert order[..|order|] == order;
  }

  // ---------- a leader's heartbeats ----------

  /** Heartbeats carry the term, and commit what both the peer and the leader have. */
  ghost function HeartbeatFor(s: Node, id: nat): Message {
    Message(MsgHeartbeat, from := s.id, to := id, term := s.currentTerm,
            commit := if id !in s.prs || s.commitIndex <= s.prs[id].matched then s.commitIndex else s.prs[id].matched)
  }

  ghost function Heartbeats(s: Node): nat -> Message {
    (id: nat) => HeartbeatFor(s, id)
  }

  lemma IsHeartbeatFor(s: Node, t: Node, id: nat)
    requires t == s.(sent := t.sent) && id in s.prs
    ensures HeartbeatMessage(t, id) == HeartbeatFor(s, id)
  {
  }

  lemma HeartbeatNext(s: Node, env: Env, k: nat)
    requires k < |env.order| && Walks(env.order, s.prs)
    ensures var t, id := BcastHeartbeat(s, env, k), env.order[k];
      BcastHeartbeat(s, env, k + 1).sent == if id == s.id then t.sent else t.sent + [Heartbeats(s)(id)]
  {
    hide BcastHeartbeat, HeartbeatFor, HeartbeatMessage;
    var t, id := BcastHeartbeat(s, env, k), env.order[k];
    assert BcastHeartbeat(s, env, k + 1) == if id == s.id then t else Send(t, HeartbeatMessage(t, id)) by {
      BeatUnfolds(s, env, k);
    }
    IsHeartbeatFor(s, t, id);
  }

  lemma BeatUnfolds(s: Node, env: Env, k: nat)
    requires k < |env.order| && Walks(env.order, s.prs)
    ensures var t, id := BcastHeartbeat(s, env, k), env.order[k];
      BcastHeartbeat(s, env, k + 1) == if id == s.id then t else Send(t, HeartbeatMessage(t, id))
  {
  }

  lemma {:induction false} HeartbeatsSent(s: Node, env: Env, k: nat)
    requires k <= |env.order| && IsOrder(env.order, s.prs) && Walks(env.order, s.prs)
    ensures SentToEach(s.sent, BcastHeartbeat(s, env, k).sent, Others(env.order, k, s.id, false), Heartbeats(s))
  {
    hide SentToEach, IsOrder, Walks, Others, BcastHeartbeat, Heartbeats;
    if k == 0 {
      OthersNone(env.order, s.id, false);
      assert BcastHeartbeat(s, env, 0) == s by { NoHeartbeats(s, env); }
      SentNone(s.sent, Others(env.order, 0, s.id, false), Heartbeats(s));
    } else {
      HeartbeatsSent(s, env, k - 1);
      HeartbeatNext(s, env, k - 1);
      SentNext(s.sent, BcastHeartbeat(s, env, k - 1).sent, env.order, k - 1, s.id, false, s.prs, Heartbeats(s));
    }
  }

  lemma NoHeartbeats(s: Node, env: Env)
    requires Walks(env.order, s.prs)
    ensures BcastHeartbeat(s, env, 0) == s
  {
  }

  /** A leader told to beat sends each tracked peer but itself one heartbeat, and does nothing else. */
  lemma BeatSends(s: Node, env: Env)
    requires IsOrder(env.order, s.prs) && s.step == StepLeader
    ensures Walks(env.order, s.prs)
    ensures var t := GeneralStep(s, Message(MsgBeat, from := s.id), env);
      && t == s.(sent := t.sent)
      && SentToEach(s.sent, t.sent, PeersOf(s, false), Heartbeats(s))
  {
    hide SentToEach, BcastHeartbeat;
    OrderWalks(env.order, s.prs);
    HeartbeatsSent(s, env, |env.order|);
    OthersAll(env.order, s, false);
  }

  // ---------- appends ----------

  /** What a leader sends a peer: its log from the next entry on, and the term of the entry before. */
  ghost function AppendFor(s: Node, id: nat, env: Env): Message {
    var prev: nat := if id in s.prs then s.prs[id].next - 1 else 0;
    Message(MsgApp, from := s.id, to := id, index := prev, commit := s.commitIndex,
            logTerm := if prev == 0 then s.currentTerm
                       else if MaybeTerm(s.log, prev) > 0 then MaybeTerm(s.log, prev) else env.storageTerm(prev),
            entries := if prev <= |s.log.entries| then s.log.entries[prev..] else [])
  }

  ghost function Appends(s: Node, env: Env): nat -> Message {
    (id: nat) => AppendFor(s, id, env)
  }

  /** Sending to others changes nothing about what a peer is to be sent. */
  ghost predicate Unsent(s: Node, t: Node, ids: set<nat>) {
    && t.id == s.id && t.currentTerm == s.currentTerm && t.commitIndex == s.commitIndex && t.log == s.log
    && t.prs.Keys == s.prs.Keys && forall id :: id in s.prs && id !in ids ==> t.prs[id] == s.prs[id]
  }

  lemma AppendNext(s: Node, env: Env, k: nat)
    requires k < |env.order| && IsOrder(env.order, s.prs) && Walks(env.order, s.prs)
    requires Unsent(s, BcastAppend(s, env, k), Others(env.order, k, s.id, true))
    ensures var t, u, id := BcastAppend(s, env, k), BcastAppend(s, env, k + 1), env.order[k];
      && u.sent == (if id == s.id || id == 0 then t.sent else t.sent + [Appends(s, env)(id)])
      && Unsent(s, u, Others(env.order, k + 1, s.id, true))
  {
    hide IsOrder, Others, SendAppend, AppendFor, BcastAppend, Unsent, Walks;
    var t, ids, id := BcastAppend(s, env, k), Others(env.order, k, s.id, true), env.order[k];
    OthersGrow(env.order, k, s.id, true, s.prs);
    AppendUnfolds(s, env, k);
    SameSender(s, t, ids);
    if id != s.id && id != 0 { SendsAppend(s, t, ids, id, env); } else { assert ids + {} == ids; }
  }

  lemma AppendUnfolds(s: Node, env: Env, k: nat)
    requires k < |env.order| && Walks(env.order, s.prs)
    ensures var t, id := BcastAppend(s, env, k), env.order[k];
      BcastAppend(s, env, k + 1) == if id == s.id || id == 0 then t else SendAppend(t, id, env)
  {
  }

  lemma {:induction false} AppendsSent(s: Node, env: Env, k: nat)
    requires k <= |env.order| && IsOrder(env.order, s.prs) && Walks(env.order, s.prs)
    ensures var ids, t := Others(env.order, k, s.id, true), BcastAppend(s, env, k);
      SentToEach(s.sent, t.sent, ids, Appends(s, env)) && Unsent(s, t, ids)
  {
    hide SentToEach, IsOrder, Walks, Others, BcastAppend, Unsent, Appends;
    if k == 0 {
      OthersNone(env.order, s.id, true);
      NoneSent(s);
      NothingSent(s, env);
      SentNone(s.sent, Others(env.order, 0, s.id, true), Appends(s, env));
    } else {
      AppendsSent(s, env, k - 1);
      AppendNext(s, env, k - 1);
      SentNext(s.sent, BcastAppend(s, env, k - 1).sent, env.order, k - 1, s.id, true, s.prs, Appends(s, env));
    }
  }

  lemma NothingSent(s: Node, env: Env)
    requires Walks(env.order, s.prs)
    ensures BcastAppend(s, env, 0) == s
  {
  }

  lemma NoneSent(s: Node)
    ensures Unsent(s, s, {})
  {
  }

  lemma SameSender(s: Node, t: Node, ids: set<nat>)
    requires Unsent(s, t, ids)
    ensures t.id == s.id
  {
  }

  lemma SendsAppend(s: Node, t: Node, ids: set<nat>, id: nat, env: Env)
    requires Unsent(s, t, ids) && id in s.prs && id !in ids
    ensures var u := SendAppend(t, id, env);
      u.sent == t.sent + [AppendFor(s, id, env)] && Unsent(s, u, ids + {id})
  {
    hide MaybeTerm;
  }

  /** Appends to each tracked peer but the node itself and peer 0. */
  ghost predicate SendsAppends(s: Node, was: seq<Message>, now: seq<Message>, env: Env) {
    SentToEach(was, now, PeersOf(s, true), Appends(s, env))
  }

  lemma AllAppendsSent(s: Node, env: Env)
    requires IsOrder(env.order, s.prs) && Walks(env.order, s.prs)
    ensures SendsAppends(s, s.sent, BcastAppend(s, env, |env.order|).sent, env)
  {
    hide SentToEach, BcastAppend;
    AppendsSent(s, env, |env.order|);
    OthersAll(env.order, s, true);
  }

  // ---------- terms ----------

  /**
    A message of a higher term is taken in that term, unless it is a vote request ignored while a leader is
    heard of; only a node told to stand for election ends in the term after.
  */
  lemma TermAdopted(s: Node, m: Message, env: Env)
    requires Walks(env.order, s.prs) && m.term > s.currentTerm
    ensures var t := GeneralStep(s, m, env);
      if m.typ == MsgVote && s.checkQuorum && s.leader != 0 && s.electionElapsed < s.electionTimeout then t == s
      else t.currentTerm == if m.typ == MsgHup then m.term + 1 else m.term
  {
    hide FollowerStep, OnHup, BcastVote;
    var f := StepDown(s, m.term, m.from, env);
    FollowerStepSteps(f, m, env);
    HupTerm(f, env);
  }

  lemma HupTerm(s: Node, env: Env)
    requires Walks(env.order, s.prs) && s.role != Leader
    ensures OnHup(s, env).currentTerm == s.currentTerm + 1
  {
    hide BcastVote, GrantedIn;
  }

  /** A message of an older term changes nothing; only with quorum checking its sender is answered. */
  lemma StaleDropped(s: Node, m: Message, env: Env)
    requires Walks(env.order, s.prs) && 0 < m.term < s.currentTerm
    ensures GeneralStep(s, m, env)
         == s.(sent := if s.checkQuorum && (m.typ == MsgHeartbeat || m.typ == MsgApp)
                       then s.sent + [Message(MsgAppResp, to := m.from)] else s.sent)
  {
  }

  // ---------- what followers and candidates do ----------

  ghost function Answered(s: Node, m: Message): seq<Message> {
    s.sent + [Message(MsgHeartbeatResp, from := s.id, to := m.from, context := m.context)]
  }

  /**
    A heartbeat of the present or a higher term makes its sender the leader and the node a follower of that
    term, restarts its election timer, commits what the sender says and is answered once.
  */
  lemma HeartbeatTaken(s: Node, m: Message, env: Env)
    requires Walks(env.order, s.prs) && RoleOk(s) && m.typ == MsgHeartbeat && m.term > 0
    requires m.term > s.currentTerm || (m.term == s.currentTerm && s.role != Leader)
    ensures var t := GeneralStep(s, m, env);
      && t.currentTerm == m.term && t.leader == m.from && t.electionElapsed == 0
      && t.role == Follower && t.step == StepFollower && t.tick == TickElection
      && t.commitIndex == (if s.commitIndex < m.commit then m.commit else s.commitIndex)
      && t.sent == Answered(s, m)
      && t.id == s.id && t.log == s.log && t.prs == s.prs && t.lastApplied == s.lastApplied && t.members == s.members
      && t.vote == (if m.term > s.currentTerm then 0 else s.vote)
      && (m.term > s.currentTerm || s.role == Candidate ==>
            t.heartbeatElapsed == 0 && t.randomizedTimeout == env.timeout)
  {
  }

  /** Another leader's heartbeat of the same term is ignored by a leader. */
  lemma LeaderIgnoresHeartbeat(s: Node, m: Message, env: Env)
    requires Walks(env.order, s.prs) && RoleOk(s) && s.role == Leader
    requires m.typ == MsgHeartbeat && (m.term == 0 || m.term == s.currentTerm)
    ensures GeneralStep(s, m, env) == s
  {
  }

  /** Where an append fits: behind what is committed, no further than the log, in the node's own term. */
  ghost predicate Fits(s: Node, m: Message) {
    s.commitIndex <= m.index <= |s.log.entries| && s.currentTerm == m.logTerm
  }

  ghost function AppendAnswer(s: Node, m: Message): Message {
    var end := m.index + |m.entries|;
    if m.index < s.commitIndex then Message(MsgAppResp, from := s.id, to := m.from, index := s.commitIndex)
    else if Fits(s, m) && end > 0 then Message(MsgAppResp, from := s.id, to := m.from, index := end)
    else Message(MsgAppResp, from := s.id, to := m.from, reject := true, index := m.index)
  }

  lemma AppendHandled(s: Node, m: Message)
    ensures HandleAppend(s, m) == s.(
      log := if Fits(s, m) then s.log.(entries := s.log.entries[..m.index] + m.entries) else s.log,
      ready := s.ready || (Fits(s, m) && m.index + |m.entries| > 0),
      sent := s.sent + [AppendAnswer(s, m)])
  {
  }

  /**
    An append taken by a follower or a candidate: its sender is the leader; it cuts and extends the log if
    and only if it fits, and the answer says how far the log agrees, what is committed, or refuses.
  */
  lemma AppendTaken(s: Node, m: Message, env: Env)
    requires Walks(env.order, s.prs) && RoleOk(s) && s.role != Leader
    requires m.typ == MsgApp && (m.term == 0 || m.term == s.currentTerm)
    ensures var t, end := GeneralStep(s, m, env), m.index + |m.entries|;
      && t.currentTerm == s.currentTerm && t.leader == m.from && t.electionElapsed == 0
      && t.role == Follower && t.step == StepFollower && t.tick == TickElection
      && t.commitIndex == s.commitIndex && t.lastApplied == s.lastApplied && t.prs == s.prs && t.id == s.id
      && t.log == (if Fits(s, m) then s.log.(entries := s.log.entries[..m.index] + m.entries) else s.log)
      && t.ready == (s.ready || (Fits(s, m) && end > 0))
      && t.sent == s.sent + [AppendAnswer(s, m)]
  {
    hide HandleAppend;
    AppendHandled(StepDown(s, s.currentTerm, m.from, env), m);
    AppendHandled(s.(electionElapsed := 0, leader := m.from), m);
  }

  /**
    A vote request of a higher term that is not ignored: the node follows in that term, restarts its timer,
    forgets what it voted before, and grants if and only if the candidate is as far as itself.
  */
  lemma VoteRequested(s: Node, m: Message, env: Env)
    requires Walks(env.order, s.prs) && m.typ == MsgVote && m.term > s.currentTerm
    requires !(s.checkQuorum && s.leader != 0 && s.electionElapsed < s.electionTimeout)
    ensures var t := GeneralStep(s, m, env);
      var far := m.logTerm > s.commitIndex || (m.logTerm == s.commitIndex && m.index >= s.lastApplied);
      && t.currentTerm == m.term && t.role == Follower && t.leader == t.vote == m.from && t.electionElapsed == 0
      && t.log == s.log && t.prs == s.prs && t.commitIndex == s.commitIndex
      && t.sent == s.sent + [Message(MsgVoteResp, to := m.from, term := m.term, reject := !far)]
  {
  }

  /**
    A vote request of the present term, whoever gets it: granted to a candidate as far as the node, unless a
    vote is remembered and the request names nobody. The answer restarts the timer either way.
  */
  lemma VoteAsked(s: Node, m: Message, env: Env)
    requires Walks(env.order, s.prs) && m.typ == MsgVote && (m.term == 0 || m.term == s.currentTerm)
    ensures var far := m.logTerm > s.commitIndex || (m.logTerm == s.commitIndex && m.index >= s.lastApplied);
      var refused := (s.vote != 0 && m.from == 0) || !far;
      GeneralStep(s, m, env) == s.(electionElapsed := 0, vote := m.from,
          sent := s.sent + [Message(MsgVoteResp, to := m.from, term := m.term, reject := refused)])
  {
  }

  /** A follower passes a request to transfer leadership on to the leader it knows. */
  lemma TransferForwarded(s: Node, m: Message, env: Env)
    requires Walks(env.order, s.prs) && RoleOk(s) && s.role == Follower
    requires m.typ == MsgTransferLeader && (m.term == 0 || m.term == s.currentTerm)
    ensures GeneralStep(s, m, env) == s.(sent := s.sent + if s.leader != 0 then [m.(to := s.leader)] else [])
  {
  }

  // ---------- elections ----------

  /** Vote requests name no sender, and compare by the applied and the committed index. */
  ghost function RequestFor(s: Node): nat -> Message {
    (id: nat) => Message(MsgVote, to := id, term := s.currentTerm, index := s.lastApplied, logTerm := s.commitIndex)
  }

  lemma VoteUnfolds(s: Node, env: Env, k: nat)
    requires k < |env.order|
    ensures var t, id := BcastVote(s, env, k), env.order[k];
      BcastVote(s, env, k + 1).sent == if id == s.id then t.sent else t.sent + [RequestFor(s)(id)]
    ensures BcastVote(s, env, 0) == s
  {
    VoteFirst(s, env);
  }

  lemma VoteFirst(s: Node, env: Env)
    ensures BcastVote(s, env, 0) == s
  {
  }

  lemma {:induction false} RequestsSent(s: Node, env: Env, k: nat)
    requires k <= |env.order| && IsOrder(env.order, s.prs)
    ensures SentToEach(s.sent, BcastVote(s, env, k).sent, Others(env.order, k, s.id, false), RequestFor(s))
  {
    hide SentToEach, IsOrder, Others, BcastVote, RequestFor;
    if k == 0 {
      OthersNone(env.order, s.id, false);
      VoteFirst(s, env);
      SentNone(s.sent, Others(env.order, 0, s.id, false), RequestFor(s));
    } else {
      RequestsSent(s, env, k - 1);
      VoteUnfolds(s, env, k - 1);
      SentNext(s.sent, BcastVote(s, env, k - 1).sent, env.order, k - 1, s.id, false, s.prs, RequestFor(s));
    }
  }

  /**
    A node told to stand that does not win at once is a candidate of the next term, has voted for itself
    and asks every tracked peer for its vote.
  */
  lemma StandsForElection(s: Node, env: Env)
    requires IsOrder(env.order, s.prs) && s.role != Leader
    ensures Walks(env.order, s.prs)
    ensures var t := GeneralStep(s, Message(MsgHup, from := s.id), env);
      && t.currentTerm == s.currentTerm + 1 && t.log == s.log && t.prs == s.prs && t.commitIndex == s.commitIndex
      && s.id in t.votes && (s.id !in s.votes ==> t.votes == s.votes[s.id := true])
      && (t.role == Leader <==> GrantedIn(t.votes) == Quorum(s))
      && (t.role == Leader ==> t.sent == s.sent && t.leader == s.id)
      && (t.role != Leader ==>
            && t.role == Candidate && t.vote == s.id && t.leader == 0
            && t.electionElapsed == t.heartbeatElapsed == 0 && t.randomizedTimeout == env.timeout
            && SentToEach(s.sent, t.sent, PeersOf(s, false), RequestFor(t)))
  {
    hide SentToEach, BcastVote, GrantedIn, RequestFor, IsOrder, PeersOf;
    OrderWalks(env.order, s.prs);
    var c := GrantMe(BecomeCandidate(s, env), s.id, true).0;
    RequestsSent(c, env, |env.order|);
    OthersAll(env.order, c, false);
    SamePeers(s, c);
    SameRequests(c, BcastVote(c, env, |env.order|));
  }

  /** A leader does not stand for election, and a follower cannot start to lead. */
  lemma RolesGuarded(s: Node, env: Env)
    ensures s.role == Leader ==> BecomeCandidate(s, env) == s
    ensures s.role == Follower ==> BecomeLeader(s, env) == s
    ensures s.role == Leader && Walks(env.order, s.prs) && RoleOk(s) ==>
      GeneralStep(s, Message(MsgHup, from := s.id), env) == s
  {
  }

  lemma SamePeers(s: Node, c: Node)
    requires c.id == s.id && c.prs.Keys == s.prs.Keys
    ensures PeersOf(c, false) == PeersOf(s, false) && PeersOf(c, true) == PeersOf(s, true)
  {
  }

  lemma SameRequests(c: Node, t: Node)
    requires t == c.(sent := t.sent)
    ensures RequestFor(t) == RequestFor(c)
  {
  }

  /**
    A candidate's answer counted, the first of each peer only: with a quorum of grants it leads and sends
    its log to all; with a quorum of refusals it steps down; otherwise it goes on waiting.
  */
  lemma VoteAnswered(s: Node, m: Message, env: Env)
    requires IsOrder(env.order, s.prs) && RoleOk(s) && s.role == Candidate
    requires m.typ == MsgVoteResp && (m.term == 0 || m.term == s.currentTerm)
    ensures Walks(env.order, s.prs)
    ensures var t := GeneralStep(s, m, env);
      var votes := if m.from in s.votes then s.votes else s.votes[m.from := !m.reject];
      && t.votes == votes && t.currentTerm == s.currentTerm && t.log == s.log && t.commitIndex == s.commitIndex
      && (if GrantedIn(votes) == Quorum(s) then
            && t.role == Leader && t.leader == s.id && t.step == StepLeader
            && SendsAppends(s, s.sent, t.sent, env)
          else if |votes| - GrantedIn(votes) == Quorum(s) then t.role == Follower && t.leader == 0 && t.sent == s.sent
          else t == s.(votes := votes))
  {
    hide SendsAppends, BcastAppend, GrantedIn, IsOrder;
    OrderWalks(env.order, s.prs);
    var c := GrantMe(s, m.from, !m.reject).0;
    var l := BecomeLeader(c, env);
    AllAppendsSent(l, env);
    BcastKeeps(l, env);
    SameAppends(s, l, s.sent, BcastAppend(l, env, |env.order|).sent, env);
  }

  lemma SameAppends(s: Node, l: Node, was: seq<Message>, now: seq<Message>, env: Env)
    requires l.prs == s.prs && l.log == s.log && l.commitIndex == s.commitIndex && l.id == s.id
    requires l.currentTerm == s.currentTerm && SendsAppends(l, was, now, env)
    ensures SendsAppends(s, was, now, env)
  {
    assert PeersOf(l, true) == PeersOf(s, true);
    hide PeersOf;
    forall id | id in PeersOf(s, true) ensures exists k :: |was| <= k < |now| && now[k] == AppendFor(s, id, env) {
      var k :| |was| <= k < |now| && now[k] == Appends(l, env)(id);
      assert now[k] == AppendFor(s, id, env);
    }
  }

  lemma BcastKeeps(s: Node, env: Env)
    requires Walks(env.order, s.prs)
    ensures var t := BcastAppend(s, env, |env.order|);
      && t.log == s.log && t.votes == s.votes && t.currentTerm == s.currentTerm && t.commitIndex == s.commitIndex
      && t.role == s.role && t.leader == s.leader && t.step == s.step && t.lastApplied == s.lastApplied
      && t.ready == s.ready && t.id == s.id
  {
    BcastKeepsUpTo(s, env, |env.order|);
  }

  lemma {:induction false} BcastKeepsUpTo(s: Node, env: Env, k: nat)
    requires Walks(env.order, s.prs) && k <= |env.order|
    ensures var t := BcastAppend(s, env, k); t == s.(prs := t.prs, sent := t.sent)
  {
    hide SendAppend;
    if k > 0 {
      BcastKeepsUpTo(s, env, k - 1);
      var t, id := BcastAppend(s, env, k - 1), env.order[k - 1];
      if id != s.id && id != 0 { SendKeeps(t, id, env); }
    }
  }

  lemma SendKeeps(s: Node, to: nat, env: Env)
    requires to in s.prs
    ensures var t := SendAppend(s, to, env); t == s.(prs := t.prs, sent := t.sent)
  {
    hide AppendMessage;
  }

  // ---------- peers ----------

  ghost function Tracked(s: Node, id: nat): map<nat, Progress> {
    if id in s.prs then s.prs else s.prs[id := Progress(s.lastApplied + 1, 0, Probe, 0, true)]
  }

  /** A node connected to is tracked from the entry after the applied one on, or as it was; and it is told. */
  lemma PeerConnected(s: Node, id: nat, env: Env)
    requires Walks(env.order, s.prs)
    ensures Next(s, Connect(id), env) ==
      s.(prs := Tracked(s, id), sent := s.sent + [Message(MsgNode, from := s.id, to := id)])
  {
  }

  /** A node that makes itself known is tracked likewise, remembered for binding and answered. */
  lemma PeerMet(s: Node, m: Message, env: Env)
    requires Walks(env.order, s.prs) && m.typ == MsgNode && (m.term == 0 || m.term == s.currentTerm)
    ensures GeneralStep(s, m, env) ==
      s.(prs := Tracked(s, m.from), unknownIds := s.unknownIds + [m.from],
         sent := s.sent + [Message(MsgNodeResp, to := m.from, term := m.term)])
  {
  }

  // ---------- ticks ----------

  /** Before its timer expires a node only counts; when it expires it stands for election, the timer restarted. */
  lemma ElectionTimer(s: Node, env: Env)
    requires Walks(env.order, s.prs) && RoleOk(s) && s.role != Leader
    ensures Next(s, Timer, env) ==
      if s.electionElapsed + 1 < s.randomizedTimeout then s.(electionElapsed := s.electionElapsed + 1)
      else GeneralStep(s.(electionElapsed := 0), Message(MsgHup, from := s.id), env)
  {
    hide GeneralStep;
  }

  /** A leader beats once its heartbeat timer is full, and restarts it; otherwise it only counts. */
  lemma HeartbeatTimer(s: Node, env: Env)
    requires Walks(env.order, s.prs) && RoleOk(s) && s.role == Leader
    ensures var over := s.electionElapsed + 1 >= s.electionTimeout;
      var counted := s.(heartbeatElapsed := s.heartbeatElapsed + 1,
                        electionElapsed := if over then 0 else s.electionElapsed + 1);
      Next(s, Timer, env) ==
        if s.heartbeatElapsed + 1 < s.heartbeatTimeout then counted
        else GeneralStep(counted.(heartbeatElapsed := 0), Message(MsgBeat, from := s.id), env)
  {
    hide GeneralStep, BcastHeartbeat;
    var t := s.(heartbeatElapsed := s.heartbeatElapsed + 1, electionElapsed := s.electionElapsed + 1);
    OwnMessages(t.(electionElapsed := 0), Message(MsgCheckQuorum, from := s.id), env);
  }
}
