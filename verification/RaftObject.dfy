/** The node as the object whose methods update it, each method tied to the step machine. */
module RaftObject {
  import opened Options
  import opened UnstableLog
  import opened RaftNode
  import opened RaftSafety
  import opened RaftHandling
  import opened RaftLeading

  // ---------- a peer's progress, changed in place ----------

  class ProgressRecord {
    var next: Position
    var matched: nat
    var state: ProgressState
    var pendingSnapshot: nat
    var recentActive: bool

    constructor (p: Progress)
      ensures Value() == p
    {
      next, matched, state := p.next, p.matched, p.state;
      pendingSnapshot, recentActive := p.pendingSnapshot, p.recentActive;
    }

    function Value(): Progress
      reads this
    {
      Progress(next, matched, state, pendingSnapshot, recentActive)
    }

    method ResetState(s: ProgressState)
      modifies this
      ensures Value() == old(Value()).Reset(s)
    {
      pendingSnapshot := 0;
      state := s;
    }

    /** Sending starts over right after the match, or after a snapshot the peer is about to have. */
    method BecomeProbe()
      modifies this
      ensures Value() == old(Value()).BecomeProbe()
      ensures matched == old(matched) && next > matched && (old(state) == Snapshot ==> next > old(pendingSnapshot))
    {
      if state == Snapshot {
        var tmpPendingSnapshot := pendingSnapshot;
        ResetState(Probe);
        next := if matched + 1 >= tmpPendingSnapshot + 1 then matched + 1 else tmpPendingSnapshot + 1;
      } else {
        ResetState(Probe);
        next := matched + 1;
      }
    }

    method BecomeReplicate()
      modifies this
      ensures Value() == old(Value()).BecomeReplicate()
    {
      ResetState(Replicate);
      next := matched + 1;
    }

    method BecomeSnapshot(index: nat)
      modifies this
      ensures Value() == old(Value()).BecomeSnapshot(index)
    {
      ResetState(Snapshot);
      pendingSnapshot := index;
    }

    method SetRecentActive()
      modifies this
      ensures Value() == old(Value()).(recentActive := true)
    {
      recentActive := true;
    }

    method OptimisticUpdate(n: nat)
      modifies this
      ensures Value() == old(Value()).OptimisticUpdate(n)
    {
      next := n + 1;
    }

    /** The next entry to send stays past the match. */
    method MaybeUpdate(n: nat) returns (grew: bool)
      modifies this
      ensures (Value(), grew) == old(Value()).MaybeUpdate(n)
      ensures n <= matched && old(matched) <= matched && (grew <==> old(matched) < matched)
      ensures old(next) > old(matched) ==> next > matched
    {
      if next < n + 1 { next := n + 1; }
      if matched < n {
        matched := n;
        return true;
      }
      return false;
    }
  }

  // ---------- the node ----------

  class Raft {
    const id: nat
    const heartbeatTimeout: nat
    const electionTimeout: nat
    const checkQuorum: bool
    var currentTerm: nat
    var vote: nat
    var leader: nat
    var role: Role
    var step: Handler
    var tick: Ticker
    var members: nat
    var prs: map<nat, Progress>
    var votes: map<nat, bool>
    var commitIndex: nat
    var lastApplied: nat
    var entries: seq<Entry>
    var snap: Option<SnapshotMetadata>
    var offset: nat
    var heartbeatElapsed: nat
    var electionElapsed: nat
    var randomizedTimeout: nat
    var ready: bool
    var sendmsgs: seq<Message>
    var unknownIds: seq<nat>

    function Log(): Unstable
      reads this
    {
      Unstable(offset, entries, snap)
    }

    function State(): (s: Node)
      reads this
      ensures s.id == id && s.role == role && s.currentTerm == currentTerm && s.leader == leader
    {
      Node(id, currentTerm, vote, leader, role, step, tick, members, prs, votes, commitIndex, lastApplied, Log(),
           heartbeatElapsed, electionElapsed, heartbeatTimeout, electionTimeout, randomizedTimeout,
           checkQuorum, ready, sendmsgs, unknownIds)
    }

    /** The role, its function pointers and the leader agree, and nothing is applied uncommitted. */
    ghost predicate Valid()
      reads this
    {
      StateOk(State())
    }

    /** `lastIndex` and `firstIndex` are what storage answers. */
    constructor (id: nat, heartbeatTimeout: nat, electionTimeout: nat, timeout: nat, lastIndex: nat, firstIndex: nat)
      ensures State() == Initial(id, heartbeatTimeout, electionTimeout, timeout, lastIndex + 1, firstIndex)
      ensures Valid() && randomizedTimeout == timeout
    {
      this.id, this.heartbeatTimeout, this.electionTimeout, checkQuorum := id, heartbeatTimeout, electionTimeout, false;
      currentTerm, vote, leader, role, step, tick := 0, 0, 0, Follower, StepFollower, TickElection;
      members, prs, votes := 0, map[], map[];
      commitIndex, lastApplied := 0, 0;
      entries, snap := [], None;
      heartbeatElapsed, electionElapsed, randomizedTimeout := 0, 0, timeout;
      ready, sendmsgs, unknownIds := false, [], [];
      offset := if lastIndex > 0 then lastIndex + 1 else 1;
      if firstIndex > 0 {
        commitIndex := firstIndex - 1;
        lastApplied := firstIndex - 1;
      }
    }

    // ---------- roles ----------

    method ResetTo(term: nat, env: Env)
      modifies this
      ensures State() == Reset(old(State()), term, env)
    {
      if currentTerm != term {
        currentTerm := term;
        vote := 0;
      }
      leader := 0;
      ClearElapsed(env);
    }

    method ClearElapsed(env: Env)
      modifies this
      ensures State() == old(State()).(electionElapsed := 0, heartbeatElapsed := 0, randomizedTimeout := env.timeout)
    {
      electionElapsed := 0;
      heartbeatElapsed := 0;
      randomizedTimeout := env.timeout;
    }

    method TakeRole(r: Role, handler: Handler, ticker: Ticker, newLeader: nat)
      modifies this
      ensures State() == old(State()).(role := r, step := handler, tick := ticker, leader := newLeader)
    {
      step := handler;
      tick := ticker;
      leader := newLeader;
      role := r;
    }

    method VoteFor(candidate: nat)
      modifies this
      ensures State() == old(State()).(vote := candidate)
    {
      vote := candidate;
    }

    method StepDownTo(term: nat, newLeader: nat, env: Env)
      modifies this
      ensures State() == StepDown(old(State()), term, newLeader, env)
    {
      hide State;
      ResetTo(term, env);
      TakeRole(Follower, StepFollower, TickElection, newLeader);
    }

    method StandForElection(env: Env)
      modifies this
      ensures State() == BecomeCandidate(old(State()), env)
    {
      hide State;
      if role == Leader { return; }
      ResetTo(currentTerm + 1, env);
      TakeRole(Candidate, StepCandidate, TickElection, leader);
      VoteFor(id);
    }

    method Lead(env: Env)
      modifies this
      ensures State() == BecomeLeader(old(State()), env)
    {
      hide State;
      if role == Follower { return; }
      ResetTo(currentTerm, env);
      TakeRole(Leader, StepLeader, TickHeartbeat, id);
    }

    method CountVote(voter: nat, v: bool) returns (granted: nat)
      modifies this
      ensures (State(), granted) == GrantMe(old(State()), voter, v)
    {
      if voter !in votes { votes := votes[voter := v]; }
      granted := CountGranted(votes);
    }

    // ---------- commit and log ----------

    method CommitUpTo(commit: nat)
      modifies this
      ensures State() == CommitTo(old(State()), commit)
    {
      if commitIndex < commit { commitIndex := commit; }
    }

    method TryCommit(env: Env) returns (raised: bool)
      requires Walks(env.order, prs)
      modifies this
      ensures (State(), raised) == MaybeCommit(old(State()), env)
    {
      var mis: seq<nat> := [];
      var i := 0;
      while i < |env.order|
        invariant i <= |env.order| && Walks(env.order, prs)
        invariant mis == Matches(prs, env.order)[..i]
        modifies {}
      {
        mis := mis + [prs[env.order[i]].matched];
        i := i + 1;
      }
      assert mis == Matches(prs, env.order);
      mis := Sorted(mis);
      var quorum := members / 2 + 1;
      var mci := if quorum - 1 < |mis| then mis[quorum - 1] else env.stray;
      if mci > commitIndex {
        CommitUpTo(mci);
        return true;
      }
      return false;
    }

    method TryAppend(index: nat, logTerm: nat, ents: seq<Entry>) returns (newIndex: nat)
      modifies this
      ensures (State(), newIndex) == MaybeAppend(old(State()), index, logTerm, ents)
    {
      if |entries| >= index && currentTerm == logTerm {
        while |entries| > index
          invariant index <= |entries| <= |old(entries)| && entries == old(entries)[..|entries|]
          invariant State() == old(State()).(log := old(Log()).(entries := entries))
        {
          entries := entries[..|entries| - 1];
        }
        entries := entries + ents;
        return index + |ents|;
      }
      return 0;
    }

    method AppendEntries(ents: seq<Entry>, env: Env)
      requires Walks(env.order, prs)
      modifies this
      ensures State() == AppendEntry(old(State()), ents, env)
    {
      var stamped := ents;
      var i := 0;
      while i < |ents|
        invariant i <= |ents| == |stamped|
        invariant stamped[..i] == Stamped(ents, currentTerm, lastApplied)[..i] && stamped[i..] == ents[i..]
        modifies {}
      {
        assert stamped[i] == stamped[i..][0] == ents[i..][0];
        stamped := stamped[i := stamped[i].(term := currentTerm, index := lastApplied + 1 + i)];
        i := i + 1;
      }
      assert stamped == Stamped(ents, currentTerm, lastApplied);
      entries := entries + stamped;
      var raised := TryCommit(env);
      ready := true;
    }

    method Truncate(ents: seq<Entry>)
      requires ents != [] && GapFree(Log(), ents)
      modifies this
      ensures Log() == TruncateAndAppend(old(Log()), ents)
      ensures State() == old(State()).(log := Log())
      ensures old(WellFormed(Log())) && Contiguous(ents, ents[0].index) ==>
        ByIndex(entries) == Below(old(ByIndex(entries)), ents[0].index) + ByIndex(ents)
    {
      hide ByIndex, Below, Contiguous;
      if WellFormed(Log()) && Contiguous(ents, ents[0].index) { TruncateAndAppendIs(Log(), ents); }
      if ents[0].index == offset + |entries| {
        entries := entries + ents;
      } else if ents[0].index <= offset {
        offset := ents[0].index;
        entries := ents;
      } else {
        entries := entries[..ents[0].index - offset];
        entries := entries + ents;
      }
    }

    method Stabilise(index: nat, term: nat)
      modifies this
      ensures Log() == StableTo(old(Log()), index, term)
      ensures State() == old(State()).(log := Log())
      ensures old(WellFormed(Log())) ==>
        var m := old(ByIndex(entries));
        && WellFormed(Log())
        && ByIndex(entries) ==
             (if term != 0 && index == old(offset) && index in m && m[index].term == term then m - {index} else m)
    {
      hide ByIndex, Contiguous;
      if WellFormed(Log()) { StableToIs(Log(), index, term); }
      var gterm := MaybeTerm(Log(), index);
      if gterm == 0 { return; }
      if gterm == term && index == offset {
        entries := entries[index + 1 - offset..];
        offset := index + 1;
      }
    }

    method StabiliseSnap(index: nat)
      modifies this
      ensures Log() == StableSnapTo(old(Log()), index)
      ensures State() == old(State()).(log := Log())
      ensures entries == old(entries) && offset == old(offset)
      ensures old(WellFormed(Log())) ==> MaybeTerm(Log(), index) == 0 || index in old(ByIndex(entries))
    {
      if WellFormed(Log()) {
        StableSnapToIs(Log(), index, index);
        MaybeTermIs(Log(), index);
      }
      hide ByIndex;
      if snap.Some? && snap.value.index == index { snap := None; }
    }

    method RestoreFrom(s: SnapshotMetadata)
      modifies this
      ensures Log() == Restore(old(Log()), s)
      ensures State() == old(State()).(log := Log())
      ensures WellFormed(Log()) && ByIndex(entries) == map[]
      ensures MaybeLastIndex(Log()) == s.index && MaybeTerm(Log(), s.index) == s.term
    {
      RestoreIs(Log(), s);
      offset := s.index + 1;
      entries := [];
      snap := Some(s);
    }

    // ---------- sending ----------

    method Push(m: Message)
      modifies this
      ensures State() == Send(old(State()), m)
    {
      sendmsgs := sendmsgs + [m];
    }

    method SendAppendTo(to: nat, env: Env)
      requires to in prs
      modifies this
      ensures State() == SendAppend(old(State()), to, env)
    {
      hide Term;
      var p := new ProgressRecord(prs[to]);
      var prev := p.next - 1;
      var index, logTerm := 0, currentTerm;
      if prev != 0 {
        index := prev;
        logTerm := Term(State(), prev, env);
      }
      var ents: seq<Entry> := [];
      var i := prev;
      while i < |entries|
        invariant prev <= i && (i <= |entries| || i == prev)
        invariant ents == if prev < |entries| then entries[prev..i] else []
        modifies {}
      {
        ents := ents + [Entry(entries[i].term, entries[i].index, entries[i].data)];
        i := i + 1;
      }
      var m := Message(MsgApp, from := id, to := to, index := index, logTerm := logTerm, commit := commitIndex,
          entries := ents);
      assert m == AppendMessage(State(), to, env);
      if |ents| > 0 && p.state == Replicate {
        p.OptimisticUpdate(ents[|ents| - 1].index);
        prs := prs[to := p.Value()];
      }
      Push(m);
    }

    method BroadcastAppend(env: Env)
      requires Walks(env.order, prs)
      modifies this
      ensures State() == BcastAppend(old(State()), env, |env.order|)
    {
      hide SendAppend;
      var i := 0;
      while i < |env.order|
        invariant i <= |env.order| && State() == BcastAppend(old(State()), env, i)
      {
        var peer := env.order[i];
        if peer != id && peer != 0 { SendAppendTo(peer, env); }
        i := i + 1;
      }
    }

    method SendHeartbeat(to: nat)
      requires to in prs
      modifies this
      ensures State() == Send(old(State()), HeartbeatMessage(old(State()), to))
    {
      var commit := if prs[to].matched < commitIndex then prs[to].matched else commitIndex;
      Push(Message(MsgHeartbeat, from := id, to := to, term := currentTerm, commit := commit));
    }

    method BroadcastHeartbeat(env: Env)
      requires Walks(env.order, prs)
      modifies this
      ensures State() == BcastHeartbeat(old(State()), env, |env.order|)
    {
      var i := 0;
      while i < |env.order|
        invariant i <= |env.order| && State() == BcastHeartbeat(old(State()), env, i)
      {
        var peer := env.order[i];
        if peer != id { SendHeartbeat(peer); }
        i := i + 1;
      }
    }

    method BroadcastVote(env: Env)
      modifies this
      ensures State() == BcastVote(old(State()), env, |env.order|)
    {
      var i := 0;
      while i < |env.order|
        invariant i <= |env.order| && State() == BcastVote(old(State()), env, i)
      {
        var peer := env.order[i];
        if peer != id { Push(VoteMessage(State(), peer)); }
        i := i + 1;
      }
    }

    // ---------- handlers ----------

    method OnSuccess(from: nat, index: nat) returns (grew: bool)
      requires from in prs
      modifies this
      ensures grew == old(prs[from].MaybeUpdate(index).1)
      ensures State() == old(State().(prs := prs[from := Advanced(prs[from], index)]))
    {
      var p := new ProgressRecord(prs[from]);
      p.SetRecentActive();
      grew := p.MaybeUpdate(index);
      if grew {
        if p.state == Probe {
          p.BecomeReplicate();
        } else if p.state == Snapshot {
          p.BecomeProbe();
        }
      }
      prs := prs[from := p.Value()];
    }

    method TakeAppResp(m: Message, env: Env)
      requires Walks(env.order, prs) && m.from in prs
      modifies this
      ensures State() == OnAppResp(old(State()), m, env)
    {
      hide MaybeCommit, BcastAppend, Advanced;
      if m.reject {
        var p := new ProgressRecord(prs[m.from]);
        p.SetRecentActive();
        prs := prs[m.from := p.Value()];
      } else {
        var grew := OnSuccess(m.from, m.index);
        if grew {
          ghost var t := State();
          var raised := TryCommit(env);
          if raised {
            BroadcastAppend(env);
          } else {
            NoCommit(t, env);
          }
        }
      }
    }

    method TakeHeartbeatResp(m: Message, env: Env)
      requires m.from in prs
      modifies this
      ensures State() == OnHeartbeatResp(old(State()), m, env)
    {
      hide SendAppend;
      var p := new ProgressRecord(prs[m.from]);
      p.SetRecentActive();
      prs := prs[m.from := p.Value()];
      if prs[m.from].matched < lastApplied { SendAppendTo(m.from, env); }
    }

    method StepAsLeader(m: Message, env: Env)
      requires Walks(env.order, prs)
      modifies this
      ensures State() == LeaderStep(old(State()), m, env)
    {
      hide OnAppResp, OnHeartbeatResp, AppendEntry, BcastAppend, BcastHeartbeat;
      match m.typ {
        case MsgBeat => BroadcastHeartbeat(env); return;
        case MsgProp =>
          AppendEntries(m.entries, env);
          BroadcastAppend(env);
          return;
        case MsgCheckQuorum => return;
        case _ =>
      }
      if m.from !in prs { return; }
      if m.typ == MsgAppResp { TakeAppResp(m, env); }
      if m.typ == MsgAppResp || m.typ == MsgHeartbeatResp { TakeHeartbeatResp(m, env); }
    }

    method TakeAppend(m: Message)
      modifies this
      ensures State() == HandleAppend(old(State()), m)
    {
      if m.index < commitIndex {
        Push(Message(MsgAppResp, from := id, to := m.from, index := commitIndex));
        return;
      }
      var ents: seq<Entry> := [];
      var i := 0;
      while i < |m.entries|
        invariant i <= |m.entries| && ents == m.entries[..i]
        modifies {}
      {
        ents := ents + [Entry(m.entries[i].term, m.entries[i].index, m.entries[i].data)];
        i := i + 1;
      }
      assert ents == m.entries;
      hide MaybeAppend;
      var last := TryAppend(m.index, m.logTerm, ents);
      if last > 0 {
        Push(Message(MsgAppResp, from := id, to := m.from, index := last));
        ready := true;
      } else {
        Push(Message(MsgAppResp, from := id, to := m.from, reject := true, index := m.index));
      }
    }

    method TakeHeartbeat(m: Message)
      modifies this
      ensures State() == HandleHeartbeat(old(State()), m)
    {
      CommitUpTo(m.commit);
      Push(Message(MsgHeartbeatResp, from := id, to := m.from, context := m.context));
    }

    method StepAsCandidate(m: Message, env: Env)
      requires Walks(env.order, prs)
      modifies this
      ensures State() == CandidateStep(old(State()), m, env)
    {
      hide HandleAppend, HandleHeartbeat, BcastAppend;
      match m.typ {
        case MsgHeartbeat =>
          StepDownTo(currentTerm, m.from, env);
          TakeHeartbeat(m);
        case MsgApp =>
          StepDownTo(currentTerm, m.from, env);
          TakeAppend(m);
        case MsgVoteResp =>
          var grant := CountVote(m.from, !m.reject);
          var quorum := members / 2 + 1;
          if quorum == grant {
            Lead(env);
            BroadcastAppend(env);
          } else if quorum == |votes| - grant {
            StepDownTo(currentTerm, 0, env);
          }
        case _ =>
      }
    }

    method StepAsFollower(m: Message)
      modifies this
      ensures State() == FollowerStep(old(State()), m)
    {
      hide HandleAppend, HandleHeartbeat;
      match m.typ {
        case MsgHeartbeat =>
          ClearElection();
          if leader != m.from {
            leader := m.from;
            currentTerm := m.term;
          }
          TakeHeartbeat(m);
        case MsgApp =>
          ClearElection();
          leader := m.from;
          TakeAppend(m);
        case MsgTransferLeader =>
          if leader == 0 { return; }
          Push(m.(to := leader));
        case _ =>
      }
    }

    method Hup(env: Env)
      requires Walks(env.order, prs)
      modifies this
      ensures State() == OnHup(old(State()), env)
    {
      hide BcastVote;
      if role != Leader {
        StandForElection(env);
        var grant := CountVote(id, true);
        if members / 2 + 1 == grant {
          Lead(env);
          return;
        }
        BroadcastVote(env);
      }
    }

    /** The middle of the condition assigns, as the code does. */
    method TakeVote(m: Message)
      modifies this
      ensures State() == OnVote(old(State()), m)
    {
      var free := vote == 0;
      if !free {
        vote := m.from;
        free := vote != 0;
      }
      if free && (m.logTerm > commitIndex || (m.logTerm == commitIndex && m.index >= lastApplied)) {
        Push(Message(MsgVoteResp, to := m.from, term := m.term));
      } else {
        Push(Message(MsgVoteResp, to := m.from, term := m.term, reject := true));
      }
      electionElapsed := 0;
      vote := m.from;
    }

    method Track(peer: nat)
      modifies this
      ensures State() == AddNode(old(State()), peer)
    {
      if peer !in prs {
        prs := prs[peer := Progress(lastApplied + 1, 0, Probe, 0, true)];
      }
    }

    /** `_step` is called through its pointer. */
    method StepByPointer(m: Message, env: Env)
      requires Walks(env.order, prs)
      modifies this
      ensures State() == Dispatch(old(State()), m, env)
    {
      hide LeaderStep, CandidateStep, FollowerStep;
      match step {
        case StepLeader => StepAsLeader(m, env);
        case StepCandidate => StepAsCandidate(m, env);
        case StepFollower => StepAsFollower(m);
      }
    }

    method TakeNode(m: Message)
      modifies this
      ensures State() == OnNode(old(State()), m)
    {
      Track(m.from);
      unknownIds := unknownIds + [m.from];
      Push(Message(MsgNodeResp, to := m.from, term := m.term));
    }

    method HandleOwn(m: Message, env: Env)
      requires Walks(env.order, prs)
      modifies this
      ensures State() == Act(old(State()), m, env)
    {
      hide OnHup, OnVote, OnNode, Dispatch;
      match m.typ {
        case MsgHup => Hup(env);
        case MsgVote => TakeVote(m);
        case MsgNode => TakeNode(m);
        case _ => StepByPointer(m, env);
      }
    }

    method TakeMessage(m: Message, env: Env)
      requires Walks(env.order, prs)
      modifies this
      ensures State() == GeneralStep(old(State()), m, env)
      ensures old(Valid()) ==>
        && Valid() && Grows(old(State()), State()) && old(lastApplied) <= lastApplied
        && (currentTerm < old(currentTerm) <==> LowersTerm(old(State()), m))
      ensures TakenAsMeant(old(State()), m, env, State())
    {
      hide Act, Grows, RoleOk, TakenAsMeant, LowersTerm;
      if Valid() { GeneralStepSafe(State(), m, env); }
      TakenMeans(State(), m, env);
      if m.term == 0 {
      } else if m.term > currentTerm {
        if m.typ == MsgVote && checkQuorum && leader != 0 && electionElapsed < electionTimeout { return; }
        StepDownTo(m.term, m.from, env);
      } else if m.term < currentTerm {
        if checkQuorum && (m.typ == MsgHeartbeat || m.typ == MsgApp) {
          Push(Message(MsgAppResp, to := m.from));
        }
        return;
      }
      HandleOwn(m, env);
    }

    // ---------- ticks and persistence ----------

    method TickForElection(env: Env)
      requires Walks(env.order, prs)
      modifies this
      ensures State() == ElectionTick(old(State()), env)
    {
      hide GeneralStep;
      electionElapsed := electionElapsed + 1;
      if electionElapsed >= randomizedTimeout {
        electionElapsed := 0;
        TakeMessage(Message(MsgHup, from := id), env);
      }
    }

    method CountTick()
      modifies this
      ensures State() == old(State()).(heartbeatElapsed := heartbeatElapsed, electionElapsed := electionElapsed)
      ensures heartbeatElapsed == old(heartbeatElapsed) + 1 && electionElapsed == old(electionElapsed) + 1
    {
      heartbeatElapsed := heartbeatElapsed + 1;
      electionElapsed := electionElapsed + 1;
    }

    method ClearElection()
      modifies this
      ensures State() == old(State()).(electionElapsed := 0)
    {
      electionElapsed := 0;
    }

    method TickForHeartbeat(env: Env)
      requires Walks(env.order, prs)
      modifies this
      ensures State() == HeartbeatTick(old(State()), env)
    {
      hide GeneralStep;
      CountTick();
      if electionElapsed >= electionTimeout {
        ClearElection();
        if checkQuorum {
          TakeMessage(Message(MsgCheckQuorum, from := id), env);
        }
      }
      if role != Leader { return; }
      if heartbeatElapsed >= heartbeatTimeout {
        heartbeatElapsed := 0;
        TakeMessage(Message(MsgBeat, from := id), env);
      }
    }

    method TickNode(env: Env)
      requires Walks(env.order, prs)
      modifies this
      ensures State() == Tick(old(State()), env)
      ensures old(Valid()) ==> Valid() && Advances(old(State()), State())
    {
      hide ElectionTick, HeartbeatTick, Grows, RoleOk;
      if Valid() { TickSafe(State(), env); }
      match tick {
        case TickElection => TickForElection(env);
        case TickHeartbeat => TickForHeartbeat(env);
      }
    }

    method PersistLog()
      modifies this
      ensures State() == StorageLog(old(State()))
      ensures old(Valid()) ==> Valid() && Advances(old(State()), State())
      ensures old(Valid()) ==> lastApplied == commitIndex
    {
      hide Grows, RoleOk;
      if Valid() { PersistSafe(State()); }
      if commitIndex != 0 { lastApplied := commitIndex; }
    }
  }

  /** The answer at a leader, with no counted member, after which every tracked peer has the index it names. */
  ghost predicate CompletesReplication(s: Node, m: Message, env: Env) {
    && s.step == StepLeader && s.members == 0 && Answers(s, m) && IsOrder(env.order, s.prs)
    && forall p :: p in s.prs ==> MatchAfter(s, m.from, m.index, p) >= m.index
  }

  /**
    What one message must do: one of a higher term is taken in that term unless it is an ignored vote
    request, a heartbeat of a higher term is followed, and an answer that completes the replication
    of an entry commits it.
  */
  ghost predicate TakenAsMeant(s: Node, m: Message, env: Env, t: Node) {
    && (m.term > s.currentTerm ==>
          if m.typ == MsgVote && s.checkQuorum && s.leader != 0 && s.electionElapsed < s.electionTimeout then t == s
          else t.currentTerm == if m.typ == MsgHup then m.term + 1 else m.term)
    && (RoleOk(s) && m.typ == MsgHeartbeat && m.term > s.currentTerm ==>
          && t.role == Follower && t.leader == m.from && t.electionElapsed == 0
          && t.commitIndex == (if s.commitIndex < m.commit then m.commit else s.commitIndex)
          && t.sent == s.sent + [Message(MsgHeartbeatResp, from := s.id, to := m.from, context := m.context)])
    && (CompletesReplication(s, m, env) ==> t.commitIndex >= m.index)
  }

  lemma TakenMeans(s: Node, m: Message, env: Env)
    requires Walks(env.order, s.prs)
    ensures TakenAsMeant(s, m, env, GeneralStep(s, m, env))
  {
    hide GeneralStep, IsOrder, MatchAfter, Answers, Walks, RoleOk;
    if m.term > s.currentTerm {
      TermAdopted(s, m, env);
      if RoleOk(s) && m.typ == MsgHeartbeat { HeartbeatTaken(s, m, env); }
    }
    if CompletesReplication(s, m, env) { AnsweredExactly(s, m, env, m.index); }
  }

  method CountGranted(votes: map<nat, bool>) returns (granted: nat)
    ensures granted == GrantedIn(votes)
  {
    granted := 0;
    var left := votes.Keys;
    ghost var counted: set<nat> := {};
    while left != {}
      invariant left <= votes.Keys
      invariant counted == set x | x in votes && x !in left && votes[x]
      invariant granted == |counted|
      decreases |left|
    {
      var x :| x in left;
      if votes[x] {
        granted := granted + 1;
        counted := counted + {x};
      }
      left := left - {x};
    }
    assert counted == Granting(votes);
  }

  lemma NoCommit(t: Node, env: Env)
    requires Walks(env.order, t.prs) && !MaybeCommit(t, env).1
    ensures MaybeCommit(t, env).0 == t
  {
  }
}
