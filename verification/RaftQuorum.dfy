/** The commit of a leader, over runs of the network: everything it commits, every peer it tracks has. */
module RaftQuorum {
  import opened UnstableLog
  import opened RaftNode
  import opened RaftSafety
  import opened RaftNetwork
  import opened RaftCommit

  ghost predicate AllHold(s: Node) {
    forall id :: id in s.prs ==> s.prs[id].matched >= s.commitIndex
  }

  /** Sending changes what is to be sent next, never a match or a commit index. */
  ghost predicate SameMatches(s: Node, t: Node) {
    && t.id == s.id && t.commitIndex == s.commitIndex && t.role == s.role && t.members == s.members
    && t.prs.Keys == s.prs.Keys
    && forall id :: id in s.prs ==> t.prs[id].matched == s.prs[id].matched
  }

  lemma SendAppendMatches(s: Node, to: nat, env: Env)
    requires to in s.prs
    ensures SameMatches(s, SendAppend(s, to, env))
  {
    hide Term;
  }

  lemma {:induction false} BcastAppendMatches(s: Node, env: Env, k: nat)
    requires k <= |env.order| && Walks(env.order, s.prs)
    ensures SameMatches(s, BcastAppend(s, env, k))
  {
    hide SendAppend;
    if k > 0 {
      BcastAppendMatches(s, env, k - 1);
      var t := BcastAppend(s, env, k - 1);
      var id := env.order[k - 1];
      if id != s.id && id != 0 { SendAppendMatches(t, id, env); }
    }
  }

  /** The commit index stays, or every tracked peer has what it was raised to. */
  ghost predicate Commits(s: Node, t: Node) {
    t.commitIndex == s.commitIndex || AllHold(t)
  }

  lemma CommitsThenSends(s: Node, t: Node, u: Node)
    requires Commits(s, t) && SameMatches(t, u)
    ensures Commits(s, u)
  {
  }

  lemma OrderKept(order: seq<nat>, p: map<nat, Progress>, q: map<nat, Progress>)
    requires IsOrder(order, p) && p.Keys == q.Keys
    ensures IsOrder(order, q)
  {
  }

  lemma MaybeCommitCommits(s: Node, env: Env)
    requires IsOrder(env.order, s.prs) && s.members == 0
    ensures Commits(s, MaybeCommit(s, env).0)
  {
    hide CommitCandidate;
    if s.prs != map[] && MaybeCommit(s, env).1 { CommitNeedsAll(s, env); }
  }

  lemma OnAppRespCommits(s: Node, m: Message, env: Env)
    requires IsOrder(env.order, s.prs) && s.members == 0 && m.from in s.prs
    ensures Commits(s, OnAppResp(s, m, env))
  {
    hide MaybeCommit, BcastAppend, Advanced, IsOrder;
    var t := s.(prs := s.prs[m.from := Advanced(s.prs[m.from], m.index)]);
    OrderKept(env.order, s.prs, t.prs);
    MaybeCommitCommits(t, env);
    OrderWalks(env.order, t.prs);
    var c := MaybeCommit(t, env).0;
    BcastAppendMatches(c, env, |env.order|);
    CommitsThenSends(s, c, BcastAppend(c, env, |env.order|));
  }

  lemma OnHeartbeatRespMatches(s: Node, m: Message, env: Env)
    requires m.from in s.prs
    ensures SameMatches(s, OnHeartbeatResp(s, m, env))
  {
    hide SendAppend;
    var t := s.(prs := s.prs[m.from := s.prs[m.from].(recentActive := true)]);
    SendAppendMatches(t, m.from, env);
  }

  lemma ProposalCommits(s: Node, ents: seq<Entry>, env: Env)
    requires IsOrder(env.order, s.prs) && s.members == 0
    ensures Commits(s, BcastAppend(AppendEntry(s, ents, env), env, |env.order|))
  {
    hide MaybeCommit, BcastAppend, Stamped;
    var t := s.(log := s.log.(entries := s.log.entries + Stamped(ents, s.currentTerm, s.lastApplied)));
    MaybeCommitCommits(t, env);
    var c := AppendEntry(s, ents, env);
    BcastAppendMatches(c, env, |env.order|);
    CommitsThenSends(s, c, BcastAppend(c, env, |env.order|));
  }

  lemma LeaderStepCommits(s: Node, m: Message, env: Env)
    requires IsOrder(env.order, s.prs) && s.members == 0
    ensures Commits(s, LeaderStep(s, m, env))
  {
    hide OnAppResp, OnHeartbeatResp, AppendEntry, BcastAppend, BcastHeartbeat, Commits, SameMatches, IsOrder;
    OrderWalks(env.order, s.prs);
    SameCommits(s);
    match m.typ {
      case MsgBeat => SentCommits(s, BcastHeartbeat(s, env, |env.order|));
      case MsgProp => ProposalCommits(s, m.entries, env);
      case MsgAppResp =>
        if m.from in s.prs {
          OnAppRespCommits(s, m, env);
          var t := OnAppResp(s, m, env);
          OnHeartbeatRespMatches(t, m, env);
          CommitsThenSends(s, t, OnHeartbeatResp(t, m, env));
        }
      case MsgHeartbeatResp =>
        if m.from in s.prs {
          OnHeartbeatRespMatches(s, m, env);
          CommitsThenSends(s, s, OnHeartbeatResp(s, m, env));
        }
      case _ =>
    }
  }

  lemma SameCommits(s: Node)
    ensures Commits(s, s)
  {
  }

  lemma SentCommits(s: Node, t: Node)
    requires t == s.(sent := t.sent)
    ensures Commits(s, t)
  {
  }

  /** Only a leader's own handler raises the commit index of a node that leads afterwards. */
  lemma ActCommits(s: Node, m: Message, env: Env)
    requires IsOrder(env.order, s.prs) && s.members == 0 && RoleOk(s)
    ensures Act(s, m, env).role == Leader ==> Commits(s, Act(s, m, env))
  {
    hide LeaderStep, IsOrder;
    OrderWalks(env.order, s.prs);
    match m.typ {
      case MsgHup => HupKeepsCommit(s, env);
      case MsgVote =>
      case MsgNode =>
      case _ =>
        match s.step {
          case StepLeader => LeaderStepCommits(s, m, env);
          case StepCandidate => CandidateKeepsCommit(s, m, env);
          case StepFollower => FollowerStays(s, m);
        }
    }
  }

  lemma HupKeepsCommit(s: Node, env: Env)
    requires Walks(env.order, s.prs)
    ensures OnHup(s, env).commitIndex == s.commitIndex
  {
    hide BcastVote, GrantedIn;
  }

  lemma CandidateKeepsCommit(s: Node, m: Message, env: Env)
    requires Walks(env.order, s.prs)
    ensures CandidateStep(s, m, env).role == Leader ==> CandidateStep(s, m, env).commitIndex == s.commitIndex
  {
    hide BcastAppend, GrantedIn, HandleAppend, HandleHeartbeat;
    HandlersKeepRole(StepDown(s, s.currentTerm, m.from, env), m);
    var t := GrantMe(s, m.from, !m.reject).0;
    BcastAppendMatches(BecomeLeader(t, env), env, |env.order|);
  }

  lemma HandlersKeepRole(s: Node, m: Message)
    ensures HandleAppend(s, m).role == s.role && HandleHeartbeat(s, m).role == s.role
  {
  }

  lemma FollowerStays(s: Node, m: Message)
    requires RoleOk(s) && s.step == StepFollower
    ensures FollowerStep(s, m).role == Follower
  {
    hide HandleAppend, HandleHeartbeat;
    var t := s.(electionElapsed := 0);
    HandlersKeepRole(t, m);
    HandlersKeepRole(t.(leader := m.from, currentTerm := m.term), m);
    HandlersKeepRole(t.(leader := m.from), m);
  }

  lemma GeneralStepCommits(s: Node, m: Message, env: Env)
    requires IsOrder(env.order, s.prs) && s.members == 0 && RoleOk(s)
    ensures var t := GeneralStep(s, m, env); t.role == Leader ==> Commits(s, t)
  {
    hide Act, IsOrder, Walks;
    OrderWalks(env.order, s.prs);
    SameCommits(s);
    if m.term == 0 || m.term == s.currentTerm {
      ActCommits(s, m, env);
    } else if m.term > s.currentTerm {
      ActCommits(StepDown(s, m.term, m.from, env), m, env);
    }
  }

  lemma TickCommits(s: Node, env: Env)
    requires IsOrder(env.order, s.prs) && s.members == 0 && StateOk(s)
    ensures var t := Tick(s, env); t.role == Leader ==> Commits(s, t)
  {
    hide GeneralStep, IsOrder, Walks;
    OrderWalks(env.order, s.prs);
    match s.tick {
      case TickElection =>
        GeneralStepCommits(s.(electionElapsed := 0), Message(MsgHup, from := s.id), env);
      case TickHeartbeat => HeartbeatTickKeepsCommit(s, env);
    }
  }

  lemma HeartbeatTickKeepsCommit(s: Node, env: Env)
    requires Walks(env.order, s.prs) && RoleOk(s) && s.tick == TickHeartbeat
    ensures HeartbeatTick(s, env).commitIndex == s.commitIndex
  {
    var t := s.(heartbeatElapsed := s.heartbeatElapsed + 1, electionElapsed := s.electionElapsed + 1);
    var quiet := t.(electionElapsed := 0);
    OwnMessages(quiet, Message(MsgCheckQuorum, from := s.id), env);
    OwnMessages(quiet.(heartbeatElapsed := 0), Message(MsgBeat, from := s.id), env);
    OwnMessages(t.(heartbeatElapsed := 0), Message(MsgBeat, from := s.id), env);
    hide GeneralStep, BcastHeartbeat;
  }

  lemma NextCommits(s: Node, e: Event, env: Env)
    requires IsOrder(env.order, s.prs) && s.members == 0 && StateOk(s)
    ensures Walks(env.order, s.prs)
    ensures var t := Next(s, e, env); t.role == Leader ==> Commits(s, t)
  {
    hide GeneralStep, Tick, IsOrder, Walks;
    OrderWalks(env.order, s.prs);
    SameCommits(s);
    match e {
      case Receive(m) => GeneralStepCommits(s, m, env);
      case Timer => TickCommits(s, env);
      case Propose(op) => GeneralStepCommits(s, ProposalOf(op), env);
      case Persist =>
      case Connect(peer) =>
    }
  }

  /**
    In every run of a network, an event that raises the commit index of a node and leaves it the leader
    leaves every peer it tracks with a match of that index, the quorum being always one.
  */
  lemma LeadersCommitWhatAllHave(run: seq<System>, log: seq<NetEvent>, boots: map<nat, Boot>, k: nat)
    requires NetRun(run, log, boots) && k < |log|
    ensures var id := log[k].at;
      && id in run[k] && id in run[k + 1] && Quorum(run[k][id]) == 1
      && (run[k + 1][id].role == Leader && run[k + 1][id].commitIndex > run[k][id].commitIndex ==>
            AllHold(run[k + 1][id]))
  {
    hide NetInit, Next, IsOrder, Walks, StateOk;
    var id := log[k].at;
    assert NetStep(run[k], log[k], run[k + 1]);
    RunOk(run, log, boots, k);
    NoneCounted(run[k], id);
    NextCommits(run[k][id], log[k].event, log[k].env);
  }
}
