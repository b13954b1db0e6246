/** When a node becomes leader, what that makes of elections, and what a lonely leader does to its log. */
module RaftElection {
  import opened UnstableLog
  import opened RaftNode
  import opened RaftSafety
  import opened RaftNetwork

  /** The recorded votes after the node's own; an earlier answer of its own id stays. */
  function WithOwnVote(s: Node): map<nat, bool> {
    if s.id in s.votes then s.votes else s.votes[s.id := true]
  }

  /** A node that stands for election leads at once exactly if the grants on record are a quorum. */
  lemma LeadsAtOnce(s: Node, env: Env)
    requires Walks(env.order, s.prs) && s.role != Leader
    ensures OnHup(s, env).role == Leader <==> GrantedIn(WithOwnVote(s)) == Quorum(s)
  {
    hide BcastVote, GrantedIn, Quiet;
    var c := BecomeCandidate(s, env);
    var t := GrantMe(c, c.id, true).0;
    BcastVoteQuiet(t, env, |env.order|);
    QuietRole(t, BcastVote(t, env, |env.order|));
  }

  lemma QuietRole(s: Node, t: Node)
    requires Quiet(s, t)
    ensures t.role == s.role
  {
  }

  /** With the counted map empty, as it always is: exactly if one vote on record is a grant. */
  lemma LeadsAlone(s: Node, env: Env)
    requires Walks(env.order, s.prs) && s.role != Leader && s.members == 0
    requires s.id in s.votes ==> s.votes[s.id]
    ensures OnHup(s, env).role == Leader <==> forall id :: id in s.votes && s.votes[id] ==> id == s.id
  {
    hide OnHup, GrantedIn;
    LeadsAtOnce(s, env);
    var votes := WithOwnVote(s);
    OneGrant(votes, s.id);
    assert forall id :: (id in votes && votes[id]) <==> (id in s.votes && s.votes[id]) || id == s.id;
  }

  lemma OneGrant(votes: map<nat, bool>, self: nat)
    requires self in votes && votes[self]
    ensures GrantedIn(votes) == 1 <==> forall id :: id in votes && votes[id] ==> id == self
  {
    var granted := Granting(votes);
    assert self in granted && forall id :: id in granted <==> id in votes && votes[id];
    if |granted| == 1 {
      forall id | id in granted ensures id == self { OneElement(granted, self, id); }
    }
    if forall id :: id in granted ==> id == self { assert granted == {self}; }
  }

  lemma OneElement(s: set<nat>, a: nat, b: nat)
    requires |s| == 1 && a in s && b in s
    ensures a == b
  {
    assert |s - {a}| == 0;
    assert s == {a} + (s - {a});
  }

  // ---------- elections in a network ----------

  ghost predicate TwoLead(sys: System) {
    exists a, b :: a in sys && b in sys && a != b
      && sys[a].role == Leader && sys[b].role == Leader && sys[a].currentTerm == sys[b].currentTerm
  }

  ghost predicate EndsTwoLed(run: seq<System>, log: seq<NetEvent>, boots: map<nat, Boot>) {
    NetRun(run, log, boots) && TwoLead(run[|log|])
  }

  /** A node that nobody has voted for yet, waiting for its timer. */
  ghost predicate Waiting(n: Node) {
    && n.role == Follower && n.step == StepFollower && n.tick == TickElection
    && n.currentTerm == 1 && n.members == 0 && n.votes == map[]
  }

  ghost predicate LeadsTermTwo(n: Node) {
    n.role == Leader && n.step == StepLeader && n.currentTerm == 2 && n.members == 0
  }

  /** Nothing but the role, the term, the vote and the timers changed. */
  ghost predicate SameBelongings(s: Node, t: Node) {
    && t.id == s.id && t.prs == s.prs && t.log == s.log && t.sent == s.sent
    && t.commitIndex == s.commitIndex && t.lastApplied == s.lastApplied
  }

  /** One tick: the timer goes on, or its expiry makes the node leader without a message sent. */
  lemma TimerOnce(n: Node, env: Env)
    requires Waiting(n) && Walks(env.order, n.prs)
    ensures var t := Next(n, Timer, env);
      && SameBelongings(n, t)
      && if n.electionElapsed + 1 >= n.randomizedTimeout then LeadsTermTwo(t)
         else Waiting(t) && t.electionElapsed == n.electionElapsed + 1 && t.randomizedTimeout == n.randomizedTimeout
  {
    if n.electionElapsed + 1 >= n.randomizedTimeout {
      var s := n.(electionElapsed := 0);
      LeadsAlone(s, env);
      OnHupLeading(s, env);
      assert GeneralStep(s, Message(MsgHup, from := n.id), env) == OnHup(s, env);
    }
  }

  lemma OnHupLeading(s: Node, env: Env)
    requires Walks(env.order, s.prs) && s.role != Leader && OnHup(s, env).role == Leader
    ensures OnHup(s, env) == BecomeLeader(GrantMe(BecomeCandidate(s, env), s.id, true).0, env)
    ensures OnHup(s, env).votes == WithOwnVote(s) && OnHup(s, env).currentTerm == s.currentTerm + 1
    ensures SameBelongings(s, OnHup(s, env)) && OnHup(s, env).members == s.members
  {
    hide BcastVote, GrantedIn, Quiet;
    var t := GrantMe(BecomeCandidate(s, env), s.id, true).0;
    BcastVoteQuiet(t, env, |env.order|);
    QuietRole(t, BcastVote(t, env, |env.order|));
  }

  lemma BootedWaits(id: nat, b: Boot)
    ensures Waiting(Booted(id, b)) && Booted(id, b).id == id && Booted(id, b).prs.Keys == Peers(b)
    ensures Booted(id, b).log.entries == []
    ensures Booted(id, b).lastApplied == Booted(id, b).commitIndex == if b.firstIndex > 0 then b.firstIndex - 1 else 0
  {
    BootedIs(id, b);
  }

  lemma {:induction false} OrderOf(s: set<nat>) returns (order: seq<nat>)
    ensures forall i, j :: 0 <= i < j < |order| ==> order[i] != order[j]
    ensures forall id :: id in order <==> id in s
    decreases |s|
  {
    if s == {} {
      order := [];
    } else {
      var x :| x in s;
      var rest := OrderOf(s - {x});
      order := [x] + rest;
    }
  }

  /** Some order to walk the peers of a node in, with a timeout to draw and a number to read. */
  lemma SomeEnv(n: Node, timeout: nat, stray: nat) returns (env: Env)
    ensures IsOrder(env.order, n.prs) && env.timeout == timeout && env.stray == stray
  {
    var order := OrderOf(n.prs.Keys);
    env := Env(order, timeout, stray, _ => 0);
  }

  lemma LocalStep(sys: System, a: nat, e: Event, env: Env)
    requires a in sys && IsOrder(env.order, sys[a].prs) && !e.Receive?
    ensures Walks(env.order, sys[a].prs)
    ensures NetStep(sys, NetEvent(a, e, env), sys[a := Next(sys[a], e, env)])
  {
    hide Next;
  }

  /** Steps of a network from any state, not only from the start. */
  ghost predicate NetSteps(run: seq<System>, log: seq<NetEvent>) {
    |run| == |log| + 1 && forall k :: 0 <= k < |log| ==> NetStep(run[k], log[k], run[k + 1])
  }

  /** Left to its timer, a waiting node becomes leader of term 2; nothing else changes anywhere. */
  lemma {:induction false} TimesOut(sys: System, a: nat, env: Env) returns (run: seq<System>, log: seq<NetEvent>)
    requires a in sys && Waiting(sys[a]) && IsOrder(env.order, sys[a].prs)
    ensures NetSteps(run, log) && run[0] == sys
    ensures a in run[|log|] && run[|log|] == sys[a := run[|log|][a]]
    ensures LeadsTermTwo(run[|log|][a]) && SameBelongings(sys[a], run[|log|][a])
    decreases sys[a].randomizedTimeout - sys[a].electionElapsed
  {
    hide Next, NetStep, Waiting, LeadsTermTwo, IsOrder, Walks;
    OrderWalks(env.order, sys[a].prs);
    var e := NetEvent(a, Timer, env);
    var next := sys[a := Next(sys[a], Timer, env)];
    LocalStep(sys, a, Timer, env);
    TimerOnce(sys[a], env);
    if sys[a].electionElapsed + 1 >= sys[a].randomizedTimeout {
      run, log := [sys, next], [e];
    } else {
      var run', log' := TimesOut(next, a, env);
      run, log := [sys] + run', [e] + log';
      Prepended(sys, e, run', log');
    }
  }

  lemma Prepended(sys: System, e: NetEvent, run: seq<System>, log: seq<NetEvent>)
    requires NetSteps(run, log) && NetStep(sys, e, run[0])
    ensures NetSteps([sys] + run, [e] + log) && ([sys] + run)[|log| + 1] == run[|log|]
  {
    hide NetStep;
    forall k | 0 <= k < |log| + 1 ensures NetStep(([sys] + run)[k], ([e] + log)[k], ([sys] + run)[k + 1]) {
      if k > 0 { assert NetStep(run[k - 1], log[k - 1], run[k]); }
    }
  }

  lemma Joined(run: seq<System>, log: seq<NetEvent>, run': seq<System>, log': seq<NetEvent>)
    requires NetSteps(run, log) && NetSteps(run', log') && run[|log|] == run'[0]
    ensures NetSteps(run[..|log|] + run', log + log') && (run[..|log|] + run')[|log + log'|] == run'[|log'|]
    ensures (run[..|log|] + run')[0] == run[0]
  {
    hide NetStep;
    var all, events := run[..|log|] + run', log + log';
    forall k | 0 <= k < |events| ensures NetStep(all[k], events[k], all[k + 1]) {
      if k < |log| {
        assert NetStep(run[k], log[k], run[k + 1]);
        assert all[k + 1] == run[k + 1];
      } else {
        assert NetStep(run'[k - |log|], log'[k - |log|], run'[k - |log| + 1]);
      }
    }
  }

  lemma Starts(boots: map<nat, Boot>) returns (sys: System)
    ensures NetInit(sys, boots) && sys.Keys == boots.Keys
    ensures forall id :: id in boots ==> Waiting(sys[id]) && sys[id] == Booted(id, boots[id])
  {
    hide Booted, Waiting;
    sys := map id | id in boots :: Booted(id, boots[id]);
    forall id | id in boots ensures Waiting(sys[id]) { BootedWaits(id, boots[id]); }
  }

  /**
    Whatever the network's settings and whichever peers its nodes are connected to, two of its nodes can
    end as leaders of one term, each tracking its peers, by their timers alone.
  */
  lemma AnyTwoLead(boots: map<nat, Boot>, a: nat, b: nat, timeout: nat)
    returns (run: seq<System>, log: seq<NetEvent>)
    requires a in boots && b in boots && a != b
    ensures EndsTwoLed(run, log, boots)
    ensures var last := run[|log|];
      && a in last && LeadsTermTwo(last[a]) && SameBelongings(Booted(a, boots[a]), last[a])
      && b in last && LeadsTermTwo(last[b]) && SameBelongings(Booted(b, boots[b]), last[b])
      && last[a].prs.Keys == Peers(boots[a]) && last[b].prs.Keys == Peers(boots[b])
  {
    hide NetStep, Waiting, NetInit, Booted, IsOrder;
    var sys := Starts(boots);
    BootedWaits(a, boots[a]);
    BootedWaits(b, boots[b]);
    var envA := SomeEnv(sys[a], timeout, 0);
    var run1, log1 := TimesOut(sys, a, envA);
    var envB := SomeEnv(sys[b], timeout, 0);
    var run2, log2 := TimesOut(run1[|log1|], b, envB);
    Joined(run1, log1, run2, log2);
    run, log := run1[..|log1|] + run2, log1 + log2;
    assert run[|log|][a] == run1[|log1|][a];
  }

  /** Two nodes connected to each other, both leaders of the second term. */
  lemma TwoLeaders() returns (run: seq<System>, log: seq<NetEvent>, boots: map<nat, Boot>)
    ensures NetRun(run, log, boots) && boots.Keys == {1, 2}
    ensures var last := run[|log|];
      && 1 in last && LeadsTermTwo(last[1]) && last[1].prs.Keys == {2}
      && 2 in last && LeadsTermTwo(last[2]) && last[2].prs.Keys == {1}
  {
    hide LeadsTermTwo, SameBelongings, NetRun, TwoLead;
    var env := Env([], 150, 0, _ => 0);
    var one := Boot(10, 150, 150, 1, 0, [2], env);
    boots := map[1 := one, 2 := one.(peers := [1])];
    run, log := AnyTwoLead(boots, 1, 2, 150);
    assert Peers(boots[1]) == {2} && Peers(boots[2]) == {1};
  }

  /** Elections are safe in a network, whichever peers its nodes know, exactly if it has at most one node. */
  lemma ElectionSafety(boots: map<nat, Boot>)
    ensures |boots| <= 1 <==> forall run: seq<System>, log: seq<NetEvent> :: !EndsTwoLed(run, log, boots)
  {
    hide EndsTwoLed;
    if |boots| <= 1 {
      forall run: seq<System>, log: seq<NetEvent> ensures !EndsTwoLed(run, log, boots) {
        AloneIsSafe(run, log, boots);
      }
    } else {
      var a, b := TwoOf(boots.Keys);
      var run, log := AnyTwoLead(boots, a, b, 0);
    }
  }

  lemma TwoOf(s: set<nat>) returns (a: nat, b: nat)
    requires |s| > 1
    ensures a in s && b in s && a != b
  {
    a :| a in s;
    assert |s - {a}| == |s| - 1;
    b :| b in s - {a};
  }

  lemma AloneIsSafe(run: seq<System>, log: seq<NetEvent>, boots: map<nat, Boot>)
    requires |boots| <= 1
    ensures !EndsTwoLed(run, log, boots)
  {
    hide NetInit, NetStep;
    if NetRun(run, log, boots) {
      RunKeys(run, log, boots, |log|);
      forall a, b | a in boots && b in boots ensures a == b { OneElement(boots.Keys, a, b); }
    }
  }

  // ---------- what such leaders do to their logs ----------

  lemma {:induction false} BcastAppendLog(s: Node, env: Env, k: nat)
    requires k <= |env.order| && Walks(env.order, s.prs)
    ensures BcastAppend(s, env, k).log == s.log && BcastAppend(s, env, k).commitIndex == s.commitIndex
  {
    hide AppendMessage;
    if k > 0 { BcastAppendLog(s, env, k - 1); }
  }

  /**
    A proposal to a leader: numbered from the applied index; and with no peer tracked, committed up to
    whatever is read.
  */
  lemma Proposes(n: Node, op: string, env: Env)
    requires LeadsTermTwo(n) && op != "" && Walks(env.order, n.prs)
    ensures var t := Next(n, Propose(op), env);
      && LeadsTermTwo(t) && t.lastApplied == n.lastApplied && t.prs.Keys == n.prs.Keys
      && t.log.entries == n.log.entries + [Entry(2, n.lastApplied + 1, op)]
      && (n.prs == map[] ==> t.commitIndex == if env.stray > n.commitIndex then env.stray else n.commitIndex)
  {
    hide GeneralStep, BcastAppend, Grows, CommitCandidate;
    var m := ProposalOf(op);
    LeaderTakes(n, m, env);
    LeaderStepQuiet(n, m, env);
    var t := AppendEntry(n, m.entries, env);
    AppendsOne(n, op, env);
    GrowsMembers(n, LeaderStep(n, m, env));
    BcastAppendLog(t, env, |env.order|);
  }

  lemma GrowsMembers(s: Node, t: Node)
    requires Grows(s, t)
    ensures t.members == s.members && t.id == s.id
  {
  }

  lemma LeaderTakes(n: Node, m: Message, env: Env)
    requires n.step == StepLeader && m.typ == MsgProp && m.term == 0 && Walks(env.order, n.prs)
    ensures GeneralStep(n, m, env) == LeaderStep(n, m, env)
  {
  }

  lemma AppendsOne(n: Node, op: string, env: Env)
    requires Walks(env.order, n.prs)
    ensures var t := AppendEntry(n, ProposalOf(op).entries, env);
      && t.log.entries == n.log.entries + [Entry(n.currentTerm, n.lastApplied + 1, op)]
      && (n.prs == map[] && n.members == 0 ==>
            t.commitIndex == if env.stray > n.commitIndex then env.stray else n.commitIndex)
  {
    assert env.order == [] || env.order[0] in env.order;
  }

  /** A run made longer by one event at one node. */
  lemma OneMore(run: seq<System>, log: seq<NetEvent>, boots: map<nat, Boot>, a: nat, e: Event, env: Env)
    returns (run': seq<System>, log': seq<NetEvent>)
    requires NetRun(run, log, boots) && a in run[|log|]
    requires IsOrder(env.order, run[|log|][a].prs) && !e.Receive?
    ensures Walks(env.order, run[|log|][a].prs)
    ensures NetRun(run', log', boots) && run'[|log'|] == run[|log|][a := Next(run[|log|][a], e, env)]
  {
    hide NetStep, Next, NetInit, IsOrder, Walks;
    var last := run[|log|];
    LocalStep(last, a, e, env);
    var next := last[a := Next(last[a], e, env)];
    var step := [NetEvent(a, e, env)];
    assert NetSteps([last, next], step);
    assert NetSteps(run, log);
    Joined(run, log, [last, next], step);
    run', log' := run[..|log|] + [last, next], log + step;
  }

  /** In every network a node can come to lead and take a proposal. */
  lemma LeadsAndProposes(boots: map<nat, Boot>, a: nat, op: string, stray: nat)
    returns (run: seq<System>, log: seq<NetEvent>)
    requires a in boots && op != ""
    ensures NetRun(run, log, boots) && a in run[|log|]
    ensures var n := run[|log|][a];
      && LeadsTermTwo(n) && n.prs.Keys == Peers(boots[a]) && n.log.entries == [Entry(2, n.lastApplied + 1, op)]
      && (boots[a].peers == [] ==> n.commitIndex == if stray > n.lastApplied then stray else n.lastApplied)
  {
    hide NetStep, Waiting, NetInit, Next, Booted, IsOrder, Walks, LeadsTermTwo;
    var sys := Starts(boots);
    BootedWaits(a, boots[a]);
    var env := SomeEnv(sys[a], 0, stray);
    OrderWalks(env.order, sys[a].prs);
    var run1, log1 := TimesOut(sys, a, env);
    Proposes(run1[|log1|][a], op, env);
    run, log := OneMore(run1, log1, boots, a, Propose(op), env);
    if boots[a].peers == [] { assert sys[a].prs == map[]; }
  }

  /**
    The read past the end of the matches is reached: a node configured without peers that leads takes a
    proposal, and ends with whatever number is read as its commit index.
  */
  lemma CommitsAnything(boots: map<nat, Boot>, a: nat, op: string, read: nat)
    returns (run: seq<System>, log: seq<NetEvent>)
    requires a in boots && boots[a].peers == [] && op != ""
    ensures NetRun(run, log, boots) && a in run[|log|]
    ensures Quorum(run[|log|][a]) > |run[|log|][a].prs|
    ensures read > run[|log|][a].lastApplied ==> run[|log|][a].commitIndex == read
    ensures |run[|log|][a].log.entries| == 1
  {
    run, log := LeadsAndProposes(boots, a, op, read);
    assert run[|log|][a].prs.Keys == {};
  }

  /** Two proposals before the first is applied are stored under one number, in every network. */
  lemma ProposalsShareNumber(boots: map<nat, Boot>, a: nat, first: string, second: string)
    returns (run: seq<System>, log: seq<NetEvent>)
    requires a in boots && first != "" && second != ""
    ensures NetRun(run, log, boots) && a in run[|log|]
    ensures var n := run[|log|][a];
      n.role == Leader && n.log.entries == [Entry(2, n.lastApplied + 1, first), Entry(2, n.lastApplied + 1, second)]
  {
    hide NetStep, Next, NetInit, NetRun, IsOrder, Walks;
    var run1, log1 := LeadsAndProposes(boots, a, first, 0);
    RunLength(run1, log1, boots);
    var env := SomeEnv(run1[|log1|][a], 0, 0);
    OrderWalks(env.order, run1[|log1|][a].prs);
    Proposes(run1[|log1|][a], second, env);
    run, log := OneMore(run1, log1, boots, a, Propose(second), env);
  }

  lemma RunLength(run: seq<System>, log: seq<NetEvent>, boots: map<nat, Boot>)
    requires NetRun(run, log, boots)
    ensures |run| == |log| + 1
  {
  }

  /**
    Logs of two leaders of one term can hold different entries under one number and term, whichever
    peers they know, if they resumed from the same index: the network keeps no log matching.
  */
  lemma LogsDisagree(boots: map<nat, Boot>, a: nat, b: nat, opA: string, opB: string)
    returns (run: seq<System>, log: seq<NetEvent>)
    requires a in boots && b in boots && a != b
    requires Booted(a, boots[a]).lastApplied == Booted(b, boots[b]).lastApplied
    requires opA != "" && opB != "" && opA != opB
    ensures NetRun(run, log, boots) && a in run[|log|] && b in run[|log|]
    ensures var x, y := run[|log|][a].log.entries, run[|log|][b].log.entries;
      |x| == 1 && |y| == 1 && x[0].index == y[0].index && x[0].term == y[0].term && x[0].data == opA && y[0].data == opB
  {
    hide NetStep, Next, NetInit, IsOrder, Walks, Booted, LeadsTermTwo;
    BootedWaits(a, boots[a]);
    BootedWaits(b, boots[b]);
    var run1, log1 := AnyTwoLead(boots, a, b, 0);
    var envA := SomeEnv(run1[|log1|][a], 0, 0);
    OrderWalks(envA.order, run1[|log1|][a].prs);
    Proposes(run1[|log1|][a], opA, envA);
    var run2, log2 := OneMore(run1, log1, boots, a, Propose(opA), envA);
    var envB := SomeEnv(run2[|log2|][b], 0, 0);
    OrderWalks(envB.order, run2[|log2|][b].prs);
    Proposes(run2[|log2|][b], opB, envB);
    run, log := OneMore(run2, log2, boots, b, Propose(opB), envB);
    assert run[|log|][a] == run2[|log2|][a];
  }
}
