/** What a Raft node keeps over every run, whatever messages it is given. */
module RaftSafety {
  import opened UnstableLog
  import opened RaftNode

  /** The entries known committed that the node holds: they stay where they are. */
  ghost predicate CommittedKept(s: Node, t: Node) {
    var n := if s.commitIndex < |s.log.entries| then s.commitIndex else |s.log.entries|;
    n <= |t.log.entries| && t.log.entries[..n] == s.log.entries[..n]
  }

  /** Tracked peers stay tracked, and their matches never decrease. */
  ghost predicate MatchesKept(s: Node, t: Node) {
    forall id :: id in s.prs ==> id in t.prs && s.prs[id].matched <= t.prs[id].matched
  }

  /** New messages are appended, and a heartbeat among them carries the term its sender has. */
  ghost predicate SendsFrom(s: Node, t: Node) {
    && |s.sent| <= |t.sent| && t.sent[..|s.sent|] == s.sent
    && forall k :: |s.sent| <= k < |t.sent| && t.sent[k].typ == MsgHeartbeat ==> t.sent[k].term == t.currentTerm
  }

  /** Everything a step keeps apart from the term. */
  ghost predicate Grows(s: Node, t: Node) {
    && t.id == s.id && t.members == s.members
    && s.commitIndex <= t.commitIndex && CommittedKept(s, t)
    && MatchesKept(s, t)
    && SendsFrom(s, t)
  }

  /** The role, its two function pointers and the leader agree; nothing is applied before it is committed. */
  ghost predicate RoleOk(s: Node) {
    && (s.role == Leader <==> s.step == StepLeader) && (s.role == Candidate <==> s.step == StepCandidate)
    && (s.role == Leader <==> s.tick == TickHeartbeat)
    && (s.role == Leader ==> s.leader == s.id)
  }

  ghost predicate StateOk(s: Node) {
    RoleOk(s) && s.lastApplied <= s.commitIndex
  }

  lemma CommittedKeptTransitive(s: Node, t: Node, u: Node)
    requires CommittedKept(s, t) && CommittedKept(t, u) && s.commitIndex <= t.commitIndex
    ensures CommittedKept(s, u)
  {
    var n := if s.commitIndex < |s.log.entries| then s.commitIndex else |s.log.entries|;
    var n' := if t.commitIndex < |t.log.entries| then t.commitIndex else |t.log.entries|;
    assert u.log.entries[..n] == u.log.entries[..n'][..n];
    assert t.log.entries[..n] == t.log.entries[..n'][..n];
  }

  lemma SendsTransitive(s: Node, t: Node, u: Node)
    requires SendsFrom(s, t) && SendsFrom(t, u) && u.currentTerm == t.currentTerm
    ensures SendsFrom(s, u)
  {
    assert u.sent[..|s.sent|] == u.sent[..|t.sent|][..|s.sent|];
    forall k | |s.sent| <= k < |u.sent| && u.sent[k].typ == MsgHeartbeat ensures u.sent[k].term == u.currentTerm {
      if k < |t.sent| { assert u.sent[k] == u.sent[..|t.sent|][k]; }
    }
  }

  lemma GrowsTransitive(s: Node, t: Node, u: Node)
    requires Grows(s, t) && Grows(t, u) && u.currentTerm == t.currentTerm
    ensures Grows(s, u)
  {
    CommittedKeptTransitive(s, t, u);
    SendsTransitive(s, t, u);
    hide CommittedKept, SendsFrom;
  }

  /** A step that leaves the term alone. */
  ghost predicate Quiet(s: Node, t: Node) {
    && Grows(s, t) && t.currentTerm == s.currentTerm
    && t.role == s.role && t.step == s.step && t.tick == s.tick && t.leader == s.leader
    && t.lastApplied == s.lastApplied && t.vote == s.vote && t.votes == s.votes
  }

  lemma QuietTransitive(s: Node, t: Node, u: Node)
    requires Quiet(s, t) && Quiet(t, u)
    ensures Quiet(s, u)
  {
    hide Grows;
    GrowsTransitive(s, t, u);
  }

  lemma SendQuiet(s: Node, m: Message)
    requires m.typ == MsgHeartbeat ==> m.term == s.currentTerm
    ensures Quiet(s, Send(s, m))
  {
  }

  lemma SendAppendQuiet(s: Node, to: nat, env: Env)
    requires to in s.prs
    ensures Quiet(s, SendAppend(s, to, env))
  {
    hide Term;
  }

  lemma {:induction false} BcastAppendQuiet(s: Node, env: Env, k: nat)
    requires k <= |env.order| && Walks(env.order, s.prs)
    ensures Quiet(s, BcastAppend(s, env, k))
  {
    hide Quiet, SendAppend;
    if k == 0 {
      QuietRefl(s);
    } else {
      BcastAppendQuiet(s, env, k - 1);
      var t := BcastAppend(s, env, k - 1);
      var id := env.order[k - 1];
      if id != s.id && id != 0 {
        SendAppendQuiet(t, id, env);
        QuietTransitive(s, t, SendAppend(t, id, env));
      }
      QuietSame(s, t);
    }
  }

  lemma QuietRefl(s: Node)
    ensures Quiet(s, s)
  {
  }

  lemma QuietSame(s: Node, t: Node)
    requires Quiet(s, t)
    ensures t.id == s.id && t.currentTerm == s.currentTerm && Grows(s, t) && (StateOk(s) ==> StateOk(t))
  {
  }

  lemma {:induction false} BcastHeartbeatQuiet(s: Node, env: Env, k: nat)
    requires k <= |env.order| && Walks(env.order, s.prs)
    ensures Quiet(s, BcastHeartbeat(s, env, k))
  {
    hide Quiet;
    if k == 0 {
      QuietRefl(s);
    } else {
      BcastHeartbeatQuiet(s, env, k - 1);
      var t := BcastHeartbeat(s, env, k - 1);
      var id := env.order[k - 1];
      if id != s.id {
        SendQuiet(t, HeartbeatMessage(t, id));
        QuietTransitive(s, t, Send(t, HeartbeatMessage(t, id)));
      }
    }
  }

  lemma {:induction false} BcastVoteQuiet(s: Node, env: Env, k: nat)
    requires k <= |env.order|
    ensures Quiet(s, BcastVote(s, env, k))
  {
    hide Quiet;
    if k == 0 {
      QuietRefl(s);
    } else {
      BcastVoteQuiet(s, env, k - 1);
      var t := BcastVote(s, env, k - 1);
      var id := env.order[k - 1];
      if id != s.id {
        SendQuiet(t, VoteMessage(t, id));
        QuietTransitive(s, t, Send(t, VoteMessage(t, id)));
      }
    }
  }

  lemma MaybeCommitQuiet(s: Node, env: Env)
    requires Walks(env.order, s.prs)
    ensures Quiet(s, MaybeCommit(s, env).0)
  {
    hide CommitCandidate;
  }

  lemma OnAppRespQuiet(s: Node, m: Message, env: Env)
    requires Walks(env.order, s.prs) && m.from in s.prs
    ensures Quiet(s, OnAppResp(s, m, env))
  {
    hide Quiet, MaybeCommit;
    var u := s.(prs := s.prs[m.from := s.prs[m.from].(recentActive := true)]);
    ProgressQuiet(s, m.from, s.prs[m.from].(recentActive := true));
    ProgressQuiet(s, m.from, Advanced(s.prs[m.from], m.index));
    var t := s.(prs := s.prs[m.from := Advanced(s.prs[m.from], m.index)]);
    MaybeCommitQuiet(t, env);
    var c := MaybeCommit(t, env).0;
    BcastAppendQuiet(c, env, |env.order|);
    QuietTransitive(s, t, c);
    QuietTransitive(s, c, BcastAppend(c, env, |env.order|));
  }

  lemma ProgressQuiet(s: Node, id: nat, p: Progress)
    requires id in s.prs && p.matched >= s.prs[id].matched
    ensures Quiet(s, s.(prs := s.prs[id := p]))
  {
  }

  /** A response never lowers the match, and raises it to the index it names. */
  lemma AdvancedMatch(p: Progress, index: nat)
    ensures Advanced(p, index).matched == if p.matched < index then index else p.matched
  {
  }

  lemma OnHeartbeatRespQuiet(s: Node, m: Message, env: Env)
    requires m.from in s.prs
    ensures Quiet(s, OnHeartbeatResp(s, m, env))
  {
    hide Quiet, SendAppend;
    var t := s.(prs := s.prs[m.from := s.prs[m.from].(recentActive := true)]);
    ProgressQuiet(s, m.from, s.prs[m.from].(recentActive := true));
    SendAppendQuiet(t, m.from, env);
    QuietTransitive(s, t, SendAppend(t, m.from, env));
  }

  lemma AppendEntryQuiet(s: Node, ents: seq<Entry>, env: Env)
    requires Walks(env.order, s.prs)
    ensures Quiet(s, AppendEntry(s, ents, env))
  {
    hide MaybeCommit, Stamped;
    var t := s.(log := s.log.(entries := s.log.entries + Stamped(ents, s.currentTerm, s.lastApplied)));
    assert Quiet(s, t);
    MaybeCommitQuiet(t, env);
    var c := MaybeCommit(t, env).0;
    QuietTransitive(s, t, c);
    assert Quiet(c, c.(ready := true));
    hide Quiet;
    QuietTransitive(s, c, c.(ready := true));
  }

  lemma LeaderStepQuiet(s: Node, m: Message, env: Env)
    requires Walks(env.order, s.prs)
    ensures Quiet(s, LeaderStep(s, m, env))
  {
    hide Quiet, OnAppResp, OnHeartbeatResp, AppendEntry, BcastAppend, BcastHeartbeat;
    QuietRefl(s);
    match m.typ {
      case MsgBeat => BcastHeartbeatQuiet(s, env, |env.order|);
      case MsgProp =>
        AppendEntryQuiet(s, m.entries, env);
        var t := AppendEntry(s, m.entries, env);
        BcastAppendQuiet(t, env, |env.order|);
        QuietTransitive(s, t, BcastAppend(t, env, |env.order|));
      case MsgAppResp =>
        if m.from in s.prs {
          OnAppRespQuiet(s, m, env);
          var t := OnAppResp(s, m, env);
          OnHeartbeatRespQuiet(t, m, env);
          QuietTransitive(s, t, OnHeartbeatResp(t, m, env));
        }
      case MsgHeartbeatResp => if m.from in s.prs { OnHeartbeatRespQuiet(s, m, env); }
      case _ =>
    }
  }

  // ---------- steps of followers and candidates ----------

  lemma MaybeAppendQuiet(s: Node, index: nat, logTerm: nat, ents: seq<Entry>)
    requires index >= s.commitIndex
    ensures Quiet(s, MaybeAppend(s, index, logTerm, ents).0)
  {
    var t := MaybeAppend(s, index, logTerm, ents).0;
    assert CommittedKept(s, t);
    hide CommittedKept;
  }

  lemma ReadyQuiet(s: Node)
    ensures Quiet(s, s.(ready := true))
  {
  }

  /** Appending keeps the committed entries: a message below the commit index is refused. */
  lemma HandleAppendQuiet(s: Node, m: Message)
    ensures Quiet(s, HandleAppend(s, m))
  {
    hide Quiet, MaybeAppend;
    if m.index < s.commitIndex {
      SendQuiet(s, Message(MsgAppResp, from := s.id, to := m.from, index := s.commitIndex));
    } else {
      MaybeAppendQuiet(s, m.index, m.logTerm, m.entries);
      var (t, last) := MaybeAppend(s, m.index, m.logTerm, m.entries);
      var accept := Message(MsgAppResp, from := s.id, to := m.from, index := last);
      var refuse := Message(MsgAppResp, from := s.id, to := m.from, reject := true, index := m.index);
      SendQuiet(t, accept);
      SendQuiet(t, refuse);
      ReadyQuiet(Send(t, accept));
      QuietTransitive(s, t, Send(t, refuse));
      QuietTransitive(s, t, Send(t, accept));
      QuietTransitive(s, Send(t, accept), Send(t, accept).(ready := true));
    }
  }

  lemma HandleHeartbeatQuiet(s: Node, m: Message)
    ensures Quiet(s, HandleHeartbeat(s, m))
  {
  }

  /** A change of term or role that touches neither the log nor the peers. */
  ghost predicate Turns(s: Node, t: Node) {
    && t.id == s.id && t.members == s.members && t.commitIndex == s.commitIndex && t.lastApplied == s.lastApplied
    && t.log == s.log && t.prs == s.prs && t.sent == s.sent
    && (RoleOk(s) ==> RoleOk(t))
  }

  /** What every step gives, on top of the term. */
  ghost predicate Steps(s: Node, t: Node) {
    Grows(s, t) && (StateOk(s) ==> StateOk(t) && s.lastApplied <= t.lastApplied)
  }

  lemma QuietSteps(s: Node, t: Node)
    requires Quiet(s, t)
    ensures Steps(s, t) && t.currentTerm == s.currentTerm
  {
  }

  lemma TurnThenQuiet(s: Node, t: Node, u: Node)
    requires Turns(s, t) && Quiet(t, u)
    ensures Steps(s, u) && u.currentTerm == t.currentTerm
  {
    TurnSteps(s, t);
    hide Grows;
    GrowsTransitive(s, t, u);
  }

  lemma TurnSteps(s: Node, t: Node)
    requires Turns(s, t)
    ensures Steps(s, t)
  {
  }

  lemma RolesTurn(s: Node, term: nat, leader: nat, env: Env)
    ensures Turns(s, StepDown(s, term, leader, env))
    ensures Turns(s, BecomeCandidate(s, env)) && Turns(s, BecomeLeader(s, env))
  {
  }

  /** The one message that lowers the term: a termless heartbeat from someone not known as the leader. */
  ghost predicate LowersTerm(s: Node, m: Message) {
    m.typ == MsgHeartbeat && m.term == 0 && s.step == StepFollower && s.leader != m.from && s.currentTerm > 0
  }

  lemma TurnTwice(s: Node, t: Node, u: Node)
    requires Turns(s, t) && Turns(t, u)
    ensures Turns(s, u)
  {
  }

  lemma VotesTurn(s: Node, id: nat, v: bool)
    ensures Turns(s, GrantMe(s, id, v).0) && GrantMe(s, id, v).0.currentTerm == s.currentTerm
  {
  }

  lemma CandidateStepSteps(s: Node, m: Message, env: Env)
    requires Walks(env.order, s.prs)
    ensures Steps(s, CandidateStep(s, m, env)) && CandidateStep(s, m, env).currentTerm == s.currentTerm
  {
    hide Quiet, Steps, Turns, HandleAppend, HandleHeartbeat, BcastAppend, GrantMe;
    QuietRefl(s);
    QuietSteps(s, s);
    var f := StepDown(s, s.currentTerm, m.from, env);
    RolesTurn(s, s.currentTerm, m.from, env);
    match m.typ {
      case MsgHeartbeat =>
        HandleHeartbeatQuiet(f, m);
        TurnThenQuiet(s, f, HandleHeartbeat(f, m));
      case MsgApp =>
        HandleAppendQuiet(f, m);
        TurnThenQuiet(s, f, HandleAppend(f, m));
      case MsgVoteResp => VoteCounted(s, m, env);
      case _ =>
    }
  }

  lemma VoteCounted(s: Node, m: Message, env: Env)
    requires Walks(env.order, s.prs) && m.typ == MsgVoteResp
    ensures Steps(s, CandidateStep(s, m, env)) && CandidateStep(s, m, env).currentTerm == s.currentTerm
  {
    hide Quiet, Steps, Turns, BcastAppend;
    var t := GrantMe(s, m.from, !m.reject).0;
    VotesTurn(s, m.from, !m.reject);
    RolesTurn(t, t.currentTerm, 0, env);
    var l := BecomeLeader(t, env);
    TurnTwice(s, t, l);
    BcastAppendQuiet(l, env, |env.order|);
    TurnThenQuiet(s, l, BcastAppend(l, env, |env.order|));
    TurnTwice(s, t, StepDown(t, t.currentTerm, 0, env));
    TurnSteps(s, StepDown(t, t.currentTerm, 0, env));
    TurnSteps(s, t);
  }

  lemma FollowerStepSteps(s: Node, m: Message, env: Env)
    requires s.step == StepFollower && (m.term == 0 || m.term == s.currentTerm)
    ensures RoleOk(s) ==> Steps(s, FollowerStep(s, m))
    ensures FollowerStep(s, m).currentTerm == if LowersTerm(s, m) then 0 else s.currentTerm
  {
    hide Quiet, Steps, HandleAppend, HandleHeartbeat;
    QuietRefl(s);
    QuietSteps(s, s);
    match m.typ {
      case MsgHeartbeat =>
        var t := s.(electionElapsed := 0);
        var f := if s.leader != m.from then t.(leader := m.from, currentTerm := m.term) else t;
        HandleHeartbeatQuiet(f, m);
        QuietSteps(f, HandleHeartbeat(f, m));
        if RoleOk(s) { TurnThenQuiet(s, f, HandleHeartbeat(f, m)); }
      case MsgApp =>
        var f := s.(electionElapsed := 0, leader := m.from);
        HandleAppendQuiet(f, m);
        QuietSteps(f, HandleAppend(f, m));
        if RoleOk(s) { TurnThenQuiet(s, f, HandleAppend(f, m)); }
      case MsgTransferLeader =>
        SendQuiet(s, m.(to := s.leader));
        QuietSteps(s, Send(s, m.(to := s.leader)));
      case _ =>
    }
  }

  lemma OnHupSteps(s: Node, env: Env)
    requires Walks(env.order, s.prs)
    ensures Steps(s, OnHup(s, env)) && OnHup(s, env).currentTerm >= s.currentTerm
  {
    hide Quiet, Steps, Turns, BcastVote, GrantMe;
    QuietRefl(s);
    QuietSteps(s, s);
    RolesTurn(s, 0, 0, env);
    var c := BecomeCandidate(s, env);
    VotesTurn(c, c.id, true);
    var t := GrantMe(c, c.id, true).0;
    TurnTwice(s, c, t);
    RolesTurn(t, 0, 0, env);
    TurnTwice(s, t, BecomeLeader(t, env));
    TurnSteps(s, BecomeLeader(t, env));
    BcastVoteQuiet(t, env, |env.order|);
    TurnThenQuiet(s, t, BcastVote(t, env, |env.order|));
  }

  lemma OnVoteSteps(s: Node, m: Message)
    ensures Steps(s, OnVote(s, m)) && OnVote(s, m).currentTerm == s.currentTerm
  {
    var free := s.vote == 0 || m.from != 0;
    var reply := Message(MsgVoteResp, to := m.from, term := m.term, reject := !(free && UpToDate(s, m)));
    SendQuiet(s, reply);
    QuietSteps(s, Send(s, reply));
  }

  lemma OnNodeSteps(s: Node, m: Message)
    ensures Steps(s, OnNode(s, m)) && OnNode(s, m).currentTerm == s.currentTerm
  {
  }

  lemma ActSteps(s: Node, m: Message, env: Env)
    requires Walks(env.order, s.prs) && (m.term == 0 || m.term == s.currentTerm)
    ensures RoleOk(s) ==> Steps(s, Act(s, m, env))
    ensures if LowersTerm(s, m) then Act(s, m, env).currentTerm == 0 else s.currentTerm <= Act(s, m, env).currentTerm
  {
    hide Steps, OnHup, OnVote, OnNode, LeaderStep, CandidateStep, FollowerStep, RoleOk;
    OnHupSteps(s, env);
    OnVoteSteps(s, m);
    OnNodeSteps(s, m);
    match s.step {
      case StepLeader =>
        LeaderStepQuiet(s, m, env);
        QuietSteps(s, LeaderStep(s, m, env));
      case StepCandidate => CandidateStepSteps(s, m, env);
      case StepFollower => FollowerStepSteps(s, m, env);
    }
  }

  /**
    Whatever message arrives, committed entries stay, the commit and applied indices and the matches
    do not go back, roles stay coherent; and the term goes back for exactly one kind of message.
  */
  lemma GeneralStepSafe(s: Node, m: Message, env: Env)
    requires Walks(env.order, s.prs) && StateOk(s)
    ensures var t := GeneralStep(s, m, env);
      && Grows(s, t) && StateOk(t) && s.lastApplied <= t.lastApplied
      && (t.currentTerm < s.currentTerm <==> LowersTerm(s, m))
  {
    hide Grows, Act, Turns, Quiet;
    if m.term == 0 || m.term == s.currentTerm {
      ActSteps(s, m, env);
    } else if m.term > s.currentTerm {
      QuietRefl(s);
      QuietSteps(s, s);
      if !IgnoresVote(s, m) {
        var f := StepDown(s, m.term, m.from, env);
        RolesTurn(s, m.term, m.from, env);
        TurnSteps(s, f);
        ActSteps(f, m, env);
        StepAfterTurn(s, f, Act(f, m, env));
      }
    } else {
      QuietRefl(s);
      QuietSteps(s, s);
      SendQuiet(s, Message(MsgAppResp, to := m.from));
      QuietSteps(s, Send(s, Message(MsgAppResp, to := m.from)));
    }
  }

  /** The first entries of a step that turned before are those of the whole step. */
  lemma StepAfterTurn(s: Node, t: Node, u: Node)
    requires Turns(s, t) && Grows(t, u)
    ensures Grows(s, u)
  {
  }

  /** What a step other than receiving a message gives. */
  ghost predicate Advances(s: Node, t: Node) {
    Grows(s, t) && StateOk(t) && s.lastApplied <= t.lastApplied && s.currentTerm <= t.currentTerm
  }

  lemma AfterTimers(s: Node, t: Node, m: Message, env: Env)
    requires Walks(env.order, s.prs) && StateOk(s) && Turns(s, t) && t.currentTerm == s.currentTerm
    requires m.typ != MsgHeartbeat
    ensures Advances(s, GeneralStep(t, m, env)) && Advances(s, t)
  {
    TurnSteps(s, t);
    GeneralStepSafe(t, m, env);
    StepAfterTurn(s, t, GeneralStep(t, m, env));
    hide Grows, Turns, GeneralStep, RoleOk;
  }

  lemma ElectionTickSafe(s: Node, env: Env)
    requires Walks(env.order, s.prs) && StateOk(s)
    ensures Advances(s, ElectionTick(s, env))
  {
    var t := s.(electionElapsed := s.electionElapsed + 1);
    hide Advances, GeneralStep, Walks;
    AfterTimers(s, t, Message(MsgHup, from := s.id), env);
    AfterTimers(s, t.(electionElapsed := 0), Message(MsgHup, from := s.id), env);
  }

  lemma AdvancesTwice(s: Node, t: Node, u: Node)
    requires Advances(s, t) && Advances(t, u) && u.currentTerm == t.currentTerm
    ensures Advances(s, u)
  {
    hide Grows;
    GrowsTransitive(s, t, u);
  }

  /** A leader's own messages do not change its term. */
  lemma LeaderKeepsTerm(s: Node, m: Message, env: Env)
    requires Walks(env.order, s.prs) && StateOk(s) && s.role == Leader && m.term == 0
    requires m.typ != MsgHup && m.typ != MsgVote && m.typ != MsgNode
    ensures GeneralStep(s, m, env).currentTerm == s.currentTerm
  {
    hide LeaderStep;
    LeaderStepQuiet(s, m, env);
  }

  lemma OwnMessages(s: Node, m: Message, env: Env)
    requires Walks(env.order, s.prs) && RoleOk(s) && s.role == Leader && m.term == 0
    requires m.typ == MsgCheckQuorum || m.typ == MsgBeat
    ensures GeneralStep(s, m, env) == if m.typ == MsgBeat then BcastHeartbeat(s, env, |env.order|) else s
  {
  }

  lemma QuorumTickSafe(s: Node, t: Node, env: Env)
    requires Walks(env.order, s.prs) && StateOk(s) && Turns(s, t) && t.currentTerm == s.currentTerm
    ensures Advances(s, QuorumTick(t, env))
  {
    hide Advances, GeneralStep;
    AfterTimers(s, t, Message(MsgCheckQuorum, from := t.id), env);
  }

  lemma WalksMore(order: seq<nat>, p: map<nat, Progress>, q: map<nat, Progress>)
    requires Walks(order, p) && p.Keys <= q.Keys
    ensures Walks(order, q)
  {
  }

  lemma TimersTurn(s: Node)
    ensures var t := s.(heartbeatElapsed := s.heartbeatElapsed + 1, electionElapsed := s.electionElapsed + 1);
      Turns(s, t) && Turns(s, t.(electionElapsed := 0))
  {
  }

  lemma HeartbeatTickSafe(s: Node, env: Env)
    requires Walks(env.order, s.prs) && StateOk(s)
    ensures Advances(s, HeartbeatTick(s, env))
  {
    hide Advances, GeneralStep, QuorumTick, Turns, StateOk, Walks;
    TimersTurn(s);
    var t := s.(heartbeatElapsed := s.heartbeatElapsed + 1, electionElapsed := s.electionElapsed + 1);
    AfterTimers(s, t, Message(MsgHup), env);
    QuorumTickSafe(s, t.(electionElapsed := 0), env);
    var u := if t.electionElapsed >= t.electionTimeout then QuorumTick(t.(electionElapsed := 0), env) else t;
    WalksMore(env.order, s.prs, u.prs);
    BeatSafe(s, u, env);
  }

  lemma BeatSafe(s: Node, u: Node, env: Env)
    requires Advances(s, u) && Walks(env.order, u.prs)
    ensures u.role == Leader ==>
      Advances(s, GeneralStep(u.(heartbeatElapsed := 0), Message(MsgBeat, from := s.id), env))
  {
    if u.role == Leader {
      var v := u.(heartbeatElapsed := 0);
      var m := Message(MsgBeat, from := s.id);
      assert Turns(u, v) && StateOk(v);
      LeaderKeepsTerm(v, m, env);
      hide Advances, GeneralStep;
      assert StateOk(u) by { AdvancesOk(s, u); }
      AfterTimers(u, v, m, env);
      AdvancesTwice(s, u, GeneralStep(v, m, env));
    }
  }

  lemma AdvancesOk(s: Node, u: Node)
    requires Advances(s, u)
    ensures StateOk(u)
  {
  }

  lemma TickSafe(s: Node, env: Env)
    requires Walks(env.order, s.prs) && StateOk(s)
    ensures Advances(s, Tick(s, env))
  {
    hide Advances, ElectionTick, HeartbeatTick;
    ElectionTickSafe(s, env);
    HeartbeatTickSafe(s, env);
  }

  lemma PersistSafe(s: Node)
    requires StateOk(s)
    ensures Advances(s, StorageLog(s))
  {
  }

  lemma ConnectSafe(s: Node, peer: nat)
    requires StateOk(s)
    ensures Advances(s, SendAddNode(AddNode(s, peer), peer))
  {
  }

  /** One event at a node, any message of any type included. */
  lemma NextSafe(s: Node, e: Event, env: Env)
    requires Walks(env.order, s.prs) && StateOk(s)
    ensures var t := Next(s, e, env);
      && Grows(s, t) && StateOk(t) && s.lastApplied <= t.lastApplied
      && (t.currentTerm < s.currentTerm <==> e.Receive? && LowersTerm(s, e.m))
  {
    hide Grows, GeneralStep, Tick, StorageLog, SendAddNode, AddNode, StateOk;
    match e {
      case Receive(m) => GeneralStepSafe(s, m, env);
      case Timer => TickSafe(s, env);
      case Propose(op) =>
        if op == "" { QuietRefl(s); } else { GeneralStepSafe(s, ProposalOf(op), env); }
      case Persist => PersistSafe(s);
      case Connect(peer) => ConnectSafe(s, peer);
    }
  }

  // ---------- runs of one node ----------

  datatype Occurrence = Occurrence(event: Event, env: Env)

  ghost predicate NodeRun(states: seq<Node>, log: seq<Occurrence>) {
    && |states| == |log| + 1 && StateOk(states[0])
    && forall k :: 0 <= k < |log| ==>
         && Walks(log[k].env.order, states[k].prs)
         && states[k + 1] == Next(states[k], log[k].event, log[k].env)
  }

  /**
    Over every run, of whatever events, the entries a node holds and knows committed never change, its
    commit and applied indices and the matches it tracks never go back, and nothing is applied uncommitted.
  */
  lemma {:induction false} RunSafe(states: seq<Node>, log: seq<Occurrence>, a: nat, b: nat)
    requires NodeRun(states, log) && a <= b < |states|
    ensures CommittedKept(states[a], states[b]) && MatchesKept(states[a], states[b])
    ensures states[a].commitIndex <= states[b].commitIndex && states[a].lastApplied <= states[b].lastApplied
    ensures StateOk(states[b])
    decreases b
  {
    hide Next, CommittedKept, MatchesKept, StateOk;
    if b == 0 {
      SameKept(states[0]);
    } else if a == b {
      RunSafe(states, log, 0, b - 1);
      NextSafe(states[b - 1], log[b - 1].event, log[b - 1].env);
      SameKept(states[b]);
    } else {
      RunSafe(states, log, a, b - 1);
      NextSafe(states[b - 1], log[b - 1].event, log[b - 1].env);
      CommittedKeptTransitive(states[a], states[b - 1], states[b]);
      MatchesKeptTransitive(states[a], states[b - 1], states[b]);
    }
  }

  lemma SameKept(s: Node)
    ensures CommittedKept(s, s) && MatchesKept(s, s)
  {
  }

  lemma MatchesKeptTransitive(s: Node, t: Node, u: Node)
    requires MatchesKept(s, t) && MatchesKept(t, u)
    ensures MatchesKept(s, u)
  {
  }
}
