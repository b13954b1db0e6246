/** What a leader and a follower do to each other's logs, and what a vote is worth. */
module RaftReplication {
  import opened UnstableLog
  import opened RaftNode

  /** The follower's log up to the message's index is the leader's, and reaches beyond what is committed. */
  ghost predicate Agrees(leader: Node, follower: Node, prev: nat) {
    && follower.commitIndex <= prev <= |follower.log.entries| && prev <= |leader.log.entries|
    && follower.log.entries[..prev] == leader.log.entries[..prev]
  }

  /**
    One round of replication: a follower that agrees with the leader up to where the leader thinks, and
    whose term is that of the entry there, ends with the leader's log, and its answer raises the
    leader's match for it to the length of that log.
  */
  lemma ReplicationRound(leader: Node, follower: Node, to: nat, env: Env)
    requires to in leader.prs && leader.log.entries != []
    requires Agrees(leader, follower, leader.prs[to].next - 1)
    requires AppendMessage(leader, to, env).logTerm == follower.currentTerm
    ensures var m := AppendMessage(leader, to, env);
      var f := HandleAppend(follower, m);
      var reply := Message(MsgAppResp, from := follower.id, to := leader.id, index := |leader.log.entries|);
      && f.log.entries == leader.log.entries && f.ready
      && f.sent == follower.sent + [reply]
      && Advanced(leader.prs[to], reply.index).matched >= |leader.log.entries|
  {
    hide Term;
    var prev := leader.prs[to].next - 1;
    var m := AppendMessage(leader, to, env);
    assert m.entries == leader.log.entries[prev..];
    assert leader.log.entries == leader.log.entries[..prev] + leader.log.entries[prev..];
  }

  /** Whether the answer to a message, the last message sent, is a refusal. */
  ghost predicate Refuses(s: Node, m: Message) {
    HandleAppend(s, m).sent[|s.sent|].reject
  }

  /**
    A refusal changes the log in exactly one case: the append without entries at index 0, in the
    term of a node that holds entries and has committed nothing, is refused after clearing the log.
  */
  lemma RefusedAppend(s: Node, m: Message)
    ensures Refuses(s, m) && HandleAppend(s, m).log != s.log <==>
      && m.index == 0 && m.entries == [] && s.commitIndex == 0
      && s.currentTerm == m.logTerm && s.log.entries != []
    ensures Refuses(s, m) && HandleAppend(s, m).log != s.log ==> HandleAppend(s, m).log.entries == []
  {
  }

  /** Leaders send such a message: with an empty log, to any peer that is next to get the first entry. */
  lemma EmptyLeaderClears(leader: Node, follower: Node, to: nat, env: Env)
    requires to in leader.prs && leader.log.entries == [] && leader.prs[to].next == 1
    requires follower.currentTerm == leader.currentTerm && follower.commitIndex == 0 && follower.log.entries != []
    ensures var m := AppendMessage(leader, to, env);
      Refuses(follower, m) && HandleAppend(follower, m).log.entries == []
  {
    RefusedAppend(follower, AppendMessage(leader, to, env));
  }

  /**
    Proposals are numbered from the applied index, not from the end of the log: numbers stay those of
    the positions if and only if everything in the log has been applied when they arrive.
  */
  lemma ProposalNumbers(s: Node, ents: seq<Entry>, env: Env)
    requires Walks(env.order, s.prs) && Contiguous(s.log.entries, 1)
    ensures Contiguous(AppendEntry(s, ents, env).log.entries, 1) <==> ents == [] || s.lastApplied == |s.log.entries|
  {
    hide CommitCandidate;
    var all := s.log.entries + Stamped(ents, s.currentTerm, s.lastApplied);
    assert AppendEntry(s, ents, env).log.entries == all;
    if ents != [] { assert all[|s.log.entries|].index == s.lastApplied + 1; }
  }

  /**
    A replicating peer is sent each entry of a log numbered by position once: the first append takes
    all it lacks, and the next one has none.
  */
  lemma PipelinedOnce(s: Node, to: nat, env: Env)
    requires to in s.prs && s.prs[to].state == Replicate && s.prs[to].next <= |s.log.entries|
    requires Contiguous(s.log.entries, 1)
    ensures var t := SendAppend(s, to, env);
      && t.prs[to] == s.prs[to].(next := |s.log.entries| + 1)
      && AppendMessage(s, to, env).entries == s.log.entries[s.prs[to].next - 1..]
      && AppendMessage(t, to, env).entries == [] && SendAppend(t, to, env).prs == t.prs
  {
    hide Term;
    var ents := AppendMessage(s, to, env).entries;
    assert ents[|ents| - 1] == s.log.entries[|s.log.entries| - 1];
  }

  /** A heartbeat commits nothing at a follower that holds what the leader thinks it holds. */
  lemma HeartbeatCommitsHeld(leader: Node, follower: Node, to: nat)
    requires to in leader.prs && leader.prs[to].matched <= |follower.log.entries|
    requires follower.commitIndex <= |follower.log.entries|
    ensures var f := HandleHeartbeat(follower, HeartbeatMessage(leader, to));
      && f.commitIndex <= |f.log.entries|
      && (f.commitIndex <= leader.commitIndex || f.commitIndex == follower.commitIndex)
  {
  }

  ghost predicate Grants(s: Node, m: Message) {
    !OnVote(s, m).sent[|s.sent|].reject
  }

  /**
    When a node grants two requests of one term in a row. A request that names its sender is granted
    whatever was voted before; one that does not, as those the code sends, only while no vote is
    remembered, and granting it leaves none remembered.
  */
  lemma GrantsAgain(s: Node, first: Message, second: Message)
    ensures Grants(s, first) && Grants(OnVote(s, first), second) <==>
      && UpToDate(s, first) && UpToDate(s, second)
      && (first.from == 0 ==> s.vote == 0)
      && (second.from == 0 ==> first.from == 0)
  {
  }

  /**
    The requests the code builds name no sender, so a node that has not voted grants every up-to-date
    one: two candidates of one term can both have its vote, and it answers neither by name.
  */
  lemma VotesForBoth(s: Node, one: Node, two: Node)
    ensures var a, b := VoteMessage(one, s.id), VoteMessage(two, s.id);
      && (Grants(s, a) && Grants(OnVote(s, a), b) <==>
            s.vote == 0 && UpToDate(s, a) && UpToDate(s, b))
      && OnVote(s, a).vote == 0 && OnVote(s, a).sent[|s.sent|].to == 0
  {
    GrantsAgain(s, VoteMessage(one, s.id), VoteMessage(two, s.id));
  }
}
