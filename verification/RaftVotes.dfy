/** Elections as they take place in runs of the network: nobody ever asks for a vote. */
module RaftVotes {
  import opened UnstableLog
  import opened RaftNode
  import opened RaftSafety
  import opened RaftNetwork
  import opened RaftElection

  ghost predicate IsVote(m: Message) {
    m.typ == MsgVote || m.typ == MsgVoteResp
  }

  /** A node that was never a candidate between two events, voted for by nobody else, and asking for no vote. */
  ghost predicate Uncontested(n: Node) {
    && n.role != Candidate && n.step != StepCandidate
    && (forall id :: id in n.votes ==> id == n.id && n.votes[id])
    && (forall k :: 0 <= k < |n.sent| ==> !IsVote(n.sent[k]))
  }

  /** The role and the votes stay, and what is sent is no vote. */
  ghost predicate AsksNothing(s: Node, t: Node) {
    && t.id == s.id && t.role == s.role && t.step == s.step && t.votes == s.votes
    && |s.sent| <= |t.sent| && t.sent[..|s.sent|] == s.sent
    && forall k :: |s.sent| <= k < |t.sent| ==> !IsVote(t.sent[k])
  }

  lemma StaysUncontested(s: Node, t: Node)
    requires Uncontested(s) && AsksNothing(s, t)
    ensures Uncontested(t)
  {
    forall k | 0 <= k < |t.sent| ensures !IsVote(t.sent[k]) {
      if k < |s.sent| { assert t.sent[k] == t.sent[..|s.sent|][k]; }
    }
  }

  lemma AsksNothingTwice(s: Node, t: Node, u: Node)
    requires AsksNothing(s, t) && AsksNothing(t, u)
    ensures AsksNothing(s, u)
  {
    assert u.sent[..|s.sent|] == u.sent[..|t.sent|][..|s.sent|];
    forall k | |s.sent| <= k < |u.sent| ensures !IsVote(u.sent[k]) {
      if k < |t.sent| { assert u.sent[k] == u.sent[..|t.sent|][k]; }
    }
  }

  lemma AsksNothingSame(s: Node)
    ensures AsksNothing(s, s)
  {
  }

  lemma SendAsksNothing(s: Node, m: Message)
    requires !IsVote(m)
    ensures AsksNothing(s, Send(s, m))
  {
  }

  lemma SendAppendAsksNothing(s: Node, to: nat, env: Env)
    requires to in s.prs
    ensures AsksNothing(s, SendAppend(s, to, env))
  {
    hide Term;
  }

  lemma {:induction false} BcastAppendAsksNothing(s: Node, env: Env, k: nat)
    requires k <= |env.order| && Walks(env.order, s.prs)
    ensures AsksNothing(s, BcastAppend(s, env, k))
  {
    hide SendAppend, AsksNothing;
    AsksNothingSame(s);
    if k > 0 {
      BcastAppendAsksNothing(s, env, k - 1);
      var t := BcastAppend(s, env, k - 1);
      var id := env.order[k - 1];
      if id != s.id && id != 0 {
        SendAppendAsksNothing(t, id, env);
        AsksNothingTwice(s, t, SendAppend(t, id, env));
      }
      SameId(s, t);
    }
  }

  lemma SameId(s: Node, t: Node)
    requires AsksNothing(s, t)
    ensures t.id == s.id && t.role == s.role && t.step == s.step && t.votes == s.votes
  {
  }

  lemma {:induction false} BcastHeartbeatAsksNothing(s: Node, env: Env, k: nat)
    requires k <= |env.order| && Walks(env.order, s.prs)
    ensures AsksNothing(s, BcastHeartbeat(s, env, k))
  {
    hide AsksNothing;
    AsksNothingSame(s);
    if k > 0 {
      BcastHeartbeatAsksNothing(s, env, k - 1);
      var t := BcastHeartbeat(s, env, k - 1);
      var id := env.order[k - 1];
      if id != s.id {
        SendAsksNothing(t, HeartbeatMessage(t, id));
        AsksNothingTwice(s, t, Send(t, HeartbeatMessage(t, id)));
      }
    }
  }

  lemma MaybeCommitAsksNothing(s: Node, env: Env)
    requires Walks(env.order, s.prs)
    ensures AsksNothing(s, MaybeCommit(s, env).0)
  {
    hide CommitCandidate;
  }

  lemma OnAppRespAsksNothing(s: Node, m: Message, env: Env)
    requires Walks(env.order, s.prs) && m.from in s.prs
    ensures AsksNothing(s, OnAppResp(s, m, env))
  {
    hide MaybeCommit, BcastAppend, Advanced;
    var t := s.(prs := s.prs[m.from := Advanced(s.prs[m.from], m.index)]);
    MaybeCommitAsksNothing(t, env);
    var c := MaybeCommit(t, env).0;
    BcastAppendAsksNothing(c, env, |env.order|);
    AsksNothingTwice(t, c, BcastAppend(c, env, |env.order|));
  }

  lemma OnHeartbeatRespAsksNothing(s: Node, m: Message, env: Env)
    requires m.from in s.prs
    ensures AsksNothing(s, OnHeartbeatResp(s, m, env))
  {
    hide SendAppend;
    var t := s.(prs := s.prs[m.from := s.prs[m.from].(recentActive := true)]);
    SendAppendAsksNothing(t, m.from, env);
  }

  lemma ProposalAsksNothing(s: Node, ents: seq<Entry>, env: Env)
    requires Walks(env.order, s.prs)
    ensures AsksNothing(s, BcastAppend(AppendEntry(s, ents, env), env, |env.order|))
  {
    hide MaybeCommit, BcastAppend, Stamped;
    var t := s.(log := s.log.(entries := s.log.entries + Stamped(ents, s.currentTerm, s.lastApplied)));
    MaybeCommitAsksNothing(t, env);
    var c := AppendEntry(s, ents, env);
    BcastAppendAsksNothing(c, env, |env.order|);
    AsksNothingTwice(s, c, BcastAppend(c, env, |env.order|));
  }

  lemma LeaderAsksNothing(s: Node, m: Message, env: Env)
    requires Walks(env.order, s.prs)
    ensures AsksNothing(s, LeaderStep(s, m, env))
  {
    hide OnAppResp, OnHeartbeatResp, AppendEntry, BcastAppend, BcastHeartbeat, AsksNothing;
    AsksNothingSame(s);
    match m.typ {
      case MsgBeat => BcastHeartbeatAsksNothing(s, env, |env.order|);
      case MsgProp => ProposalAsksNothing(s, m.entries, env);
      case MsgAppResp =>
        if m.from in s.prs {
          OnAppRespAsksNothing(s, m, env);
          var t := OnAppResp(s, m, env);
          OnHeartbeatRespAsksNothing(t, m, env);
          AsksNothingTwice(s, t, OnHeartbeatResp(t, m, env));
        }
      case MsgHeartbeatResp => if m.from in s.prs { OnHeartbeatRespAsksNothing(s, m, env); }
      case _ =>
    }
  }

  lemma AnswerAsksNothing(s: Node, t: Node, answer: Message)
    requires AsksNothing(s, t) && t.sent == s.sent && !IsVote(answer)
    ensures AsksNothing(s, Send(t, answer)) && AsksNothing(s, Send(t, answer).(ready := true))
  {
  }

  lemma HandleAppendAsksNothing(s: Node, m: Message)
    ensures AsksNothing(s, HandleAppend(s, m))
  {
    var (t, last) := MaybeAppend(s, m.index, m.logTerm, m.entries);
    assert AsksNothing(s, t) && t.id == s.id && t.sent == s.sent;
    hide AsksNothing, MaybeAppend;
    AsksNothingSame(s);
    AnswerAsksNothing(s, s, Message(MsgAppResp, from := s.id, to := m.from, index := s.commitIndex));
    AnswerAsksNothing(s, t, Message(MsgAppResp, from := s.id, to := m.from, index := last));
    AnswerAsksNothing(s, t, Message(MsgAppResp, from := s.id, to := m.from, reject := true, index := m.index));
  }

  lemma HandleHeartbeatAsksNothing(s: Node, m: Message)
    ensures AsksNothing(s, HandleHeartbeat(s, m))
  {
  }

  lemma FollowerAsksNothing(s: Node, m: Message)
    ensures AsksNothing(s, FollowerStep(s, m))
  {
    hide HandleAppend, HandleHeartbeat;
    var t := s.(electionElapsed := 0);
    HandleHeartbeatAsksNothing(t, m);
    HandleHeartbeatAsksNothing(t.(leader := m.from, currentTerm := m.term), m);
    HandleAppendAsksNothing(t.(leader := m.from), m);
  }

  /** A node that stands for election leads at once: it never gets to ask for votes. */
  lemma HupUncontested(s: Node, env: Env)
    requires Walks(env.order, s.prs) && Uncontested(s) && s.members == 0
    ensures Uncontested(OnHup(s, env)) && OnHup(s, env).role == Leader
    ensures OnHup(s, env).currentTerm == (if s.role == Leader then s.currentTerm else s.currentTerm + 1)
    ensures OnHup(s, env).sent == s.sent
  {
    hide GrantedIn, BcastVote, SameBelongings;
    if s.role != Leader {
      LeadsAlone(s, env);
      OnHupLeading(s, env);
      SameSent(s, OnHup(s, env));
    }
  }

  lemma SameSent(s: Node, t: Node)
    requires SameBelongings(s, t)
    ensures t.sent == s.sent && t.id == s.id
  {
  }

  lemma NodeUncontested(s: Node, m: Message)
    requires Uncontested(s)
    ensures Uncontested(OnNode(s, m))
  {
  }

  lemma ActUncontested(s: Node, m: Message, env: Env)
    requires Walks(env.order, s.prs) && Uncontested(s) && s.members == 0 && !IsVote(m)
    ensures Uncontested(Act(s, m, env))
  {
    hide Uncontested, OnHup, OnNode, OnVote, Dispatch, Walks;
    match m.typ {
      case MsgHup => HupUncontested(s, env);
      case MsgNode => NodeUncontested(s, m);
      case _ => DispatchUncontested(s, m, env);
    }
  }

  lemma DispatchUncontested(s: Node, m: Message, env: Env)
    requires Walks(env.order, s.prs) && Uncontested(s)
    ensures Uncontested(Dispatch(s, m, env))
  {
    hide Uncontested, AsksNothing, LeaderStep, CandidateStep, FollowerStep;
    NeverCandidate(s);
    LeaderAsksNothing(s, m, env);
    FollowerAsksNothing(s, m);
    StaysUncontested(s, if s.step == StepLeader then LeaderStep(s, m, env) else FollowerStep(s, m));
  }

  lemma NeverCandidate(s: Node)
    requires Uncontested(s)
    ensures s.step != StepCandidate && s.role != Candidate
  {
  }

  lemma DownUncontested(s: Node, term: nat, leader: nat, env: Env)
    requires Uncontested(s)
    ensures Uncontested(StepDown(s, term, leader, env)) && StepDown(s, term, leader, env).members == s.members
  {
  }

  lemma GeneralStepUncontested(s: Node, m: Message, env: Env)
    requires Walks(env.order, s.prs) && Uncontested(s) && s.members == 0 && !IsVote(m)
    ensures Uncontested(GeneralStep(s, m, env))
  {
    hide Uncontested, AsksNothing, Act, Walks;
    if m.term == 0 || m.term == s.currentTerm {
      ActUncontested(s, m, env);
    } else if m.term > s.currentTerm {
      DownUncontested(s, m.term, m.from, env);
      ActUncontested(StepDown(s, m.term, m.from, env), m, env);
    } else {
      SendAsksNothing(s, Message(MsgAppResp, to := m.from));
      StaysUncontested(s, Send(s, Message(MsgAppResp, to := m.from)));
    }
  }

  lemma TimersUncontested(s: Node, heartbeat: nat, election: nat)
    requires Uncontested(s)
    ensures Uncontested(s.(heartbeatElapsed := heartbeat, electionElapsed := election))
  {
  }

  lemma TickUncontested(s: Node, env: Env)
    requires Walks(env.order, s.prs) && Uncontested(s) && s.members == 0 && RoleOk(s)
    ensures Uncontested(Tick(s, env))
  {
    hide Uncontested, GeneralStep, Walks;
    var h, el := s.heartbeatElapsed + 1, s.electionElapsed + 1;
    TimersUncontested(s, s.heartbeatElapsed, el);
    TimersUncontested(s, s.heartbeatElapsed, 0);
    GeneralStepUncontested(s.(electionElapsed := 0), Message(MsgHup, from := s.id), env);
    if s.tick == TickHeartbeat { HeartbeatTickUncontested(s, env); }
  }

  lemma HeartbeatTickUncontested(s: Node, env: Env)
    requires Walks(env.order, s.prs) && Uncontested(s) && s.members == 0 && RoleOk(s) && s.tick == TickHeartbeat
    ensures Uncontested(HeartbeatTick(s, env))
  {
    hide Uncontested, GeneralStep, Walks, RoleOk;
    var t := s.(heartbeatElapsed := s.heartbeatElapsed + 1, electionElapsed := s.electionElapsed + 1);
    var quiet := t.(electionElapsed := 0);
    var check, beat := Message(MsgCheckQuorum, from := s.id), Message(MsgBeat, from := s.id);
    TimersUncontested(s, t.heartbeatElapsed, t.electionElapsed);
    TimersUncontested(s, t.heartbeatElapsed, 0);
    TimersUncontested(s, 0, t.electionElapsed);
    TimersUncontested(s, 0, 0);
    QuietCheck(s, quiet, check, env);
    GeneralStepUncontested(t.(heartbeatElapsed := 0), beat, env);
    GeneralStepUncontested(quiet.(heartbeatElapsed := 0), beat, env);
  }

  lemma QuietCheck(s: Node, t: Node, m: Message, env: Env)
    requires Walks(env.order, s.prs) && RoleOk(s) && s.tick == TickHeartbeat && m.typ == MsgCheckQuorum && m.term == 0
    requires t == s.(heartbeatElapsed := t.heartbeatElapsed, electionElapsed := t.electionElapsed)
    ensures GeneralStep(t, m, env) == t
  {
    OwnMessages(t, m, env);
  }

  /** An event keeps a node uncontested, unless a vote arrives. */
  lemma NextUncontested(s: Node, e: Event, env: Env)
    requires Walks(env.order, s.prs) && Uncontested(s) && s.members == 0 && RoleOk(s)
    requires e.Receive? ==> !IsVote(e.m)
    ensures Uncontested(Next(s, e, env))
  {
    match e {
      case Receive(m) =>
        hide Uncontested, GeneralStep, Walks;
        GeneralStepUncontested(s, m, env);
      case Timer =>
        hide Uncontested, Tick, Walks;
        TickUncontested(s, env);
      case Propose(op) =>
        hide Uncontested, GeneralStep, Walks;
        GeneralStepUncontested(s, ProposalOf(op), env);
      case Persist =>
      case Connect(peer) =>
    }
  }

  // ---------- whole runs ----------

  ghost predicate AllUncontested(sys: System) {
    forall id :: id in sys ==> Uncontested(sys[id])
  }

  lemma NoVoteInFlight(sys: System, m: Message)
    requires AllUncontested(sys) && InFlight(sys, m)
    ensures !IsVote(m)
  {
    var id :| id in sys && m in sys[id].sent;
    var k :| 0 <= k < |sys[id].sent| && sys[id].sent[k] == m;
  }

  lemma StartUncontested(sys: System, boots: map<nat, Boot>)
    requires NetInit(sys, boots)
    ensures AllUncontested(sys)
  {
    hide Booted, Uncontested;
    forall id | id in sys ensures Uncontested(sys[id]) { BootedUncontested(id, boots[id]); }
  }

  lemma BootedUncontested(id: nat, b: Boot)
    ensures Uncontested(Booted(id, b))
  {
    hide Booted;
    BootedIs(id, b);
  }

  lemma StepUncontested(sys: System, e: NetEvent, sys': System)
    requires NetStep(sys, e, sys') && NetOk(sys) && AllUncontested(sys)
    ensures AllUncontested(sys')
  {
    hide Next, Uncontested, IsOrder;
    if e.event.Receive? { NoVoteInFlight(sys, e.event.m); }
    NextUncontested(sys[e.at], e.event, e.env);
  }

  /**
    In every run of a network, whichever peers the nodes know: between events no node is a candidate, no
    vote but a node's own is on record, and no message about votes is ever sent; so none ever arrives.
  */
  lemma {:induction false} NobodyAsks(run: seq<System>, log: seq<NetEvent>, boots: map<nat, Boot>, k: nat)
    requires NetRun(run, log, boots) && k < |run|
    ensures AllUncontested(run[k])
    ensures forall m :: InFlight(run[k], m) ==> !IsVote(m)
  {
    hide NetInit, NetStep, NetOk, AllUncontested, IsVote, InFlight;
    if k == 0 {
      StartUncontested(run[0], boots);
    } else {
      NobodyAsks(run, log, boots, k - 1);
      RunOk(run, log, boots, k - 1);
      StepUncontested(run[k - 1], log[k - 1], run[k]);
    }
    forall m | InFlight(run[k], m) ensures !IsVote(m) { NoVoteInFlight(run[k], m); }
  }

  /**
    When a node wins: at every moment of every run, a node that does not lead and whose election timer
    expires leads the next term at once, without a message sent.
  */
  lemma ExpiredLeads(run: seq<System>, log: seq<NetEvent>, boots: map<nat, Boot>, k: nat)
    requires NetRun(run, log, boots) && k < |log| && log[k].event == Timer
    requires log[k].at in run[k]
    requires var n := run[k][log[k].at];
      n.role != Leader && n.electionElapsed + 1 >= n.randomizedTimeout
    ensures log[k].at in run[k + 1]
    ensures var n, n' := run[k][log[k].at], run[k + 1][log[k].at];
      n'.role == Leader && n'.currentTerm == n.currentTerm + 1 && n'.sent == n.sent
  {
    hide NetInit, NetOk, AllUncontested, IsOrder;
    var n, env := run[k][log[k].at], log[k].env;
    assert NetStep(run[k], log[k], run[k + 1]);
    NobodyAsks(run, log, boots, k);
    RunOk(run, log, boots, k);
    OneOf(run[k], log[k].at);
    ExpiryLeads(n, env);
  }

  lemma OneOf(sys: System, id: nat)
    requires AllUncontested(sys) && NetOk(sys) && id in sys
    ensures Uncontested(sys[id]) && StateOk(sys[id]) && sys[id].members == 0
  {
  }

  lemma ExpiryLeads(n: Node, env: Env)
    requires Walks(env.order, n.prs) && Uncontested(n) && n.members == 0 && RoleOk(n)
    requires n.role != Leader && n.electionElapsed + 1 >= n.randomizedTimeout
    ensures var t := Next(n, Timer, env); t.role == Leader && t.currentTerm == n.currentTerm + 1 && t.sent == n.sent
  {
    hide OnHup;
    var s := n.(electionElapsed := 0);
    HupUncontested(s, env);
    assert GeneralStep(s, Message(MsgHup, from := n.id), env) == OnHup(s, env);
  }
}
