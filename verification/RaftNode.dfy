/** One Raft node as a step machine: what each handler does to the node's state and what it sends. */
module RaftNode {
  import opened Options
  import opened UnstableLog

  datatype MsgType =
    | MsgTrivial | MsgHeartbeat | MsgHeartbeatResp | MsgVote | MsgVoteResp | MsgApp | MsgAppResp | MsgHup
    | MsgCheckQuorum | MsgTransferLeader | MsgSnap | MsgNode | MsgNodeResp | MsgBeat | MsgProp

  /** Unset fields are 0, false or empty. */
  datatype Message = Message(typ: MsgType, to: nat := 0, from: nat := 0, term: nat := 0, logTerm: nat := 0,
                             index: nat := 0, entries: seq<Entry> := [], commit: nat := 0, reject: bool := false,
                             rejectHint: nat := 0, context: string := "")

  // ---------- a follower's progress, as the leader sees it ----------

  datatype ProgressState = Probe | Replicate | Snapshot

  type Position = n: nat | n >= 1 witness 1

  datatype Progress = Progress(next: Position, matched: nat, state: ProgressState, pendingSnapshot: nat,
      recentActive: bool) {
    function Reset(s: ProgressState): Progress {
      this.(pendingSnapshot := 0, state := s)
    }

    function BecomeProbe(): Progress {
      if state == Snapshot then
        Reset(Probe).(next := if matched >= pendingSnapshot then matched + 1 else pendingSnapshot + 1)
      else Reset(Probe).(next := matched + 1)
    }

    function BecomeReplicate(): Progress {
      Reset(Replicate).(next := matched + 1)
    }

    function BecomeSnapshot(index: nat): Progress {
      Reset(Snapshot).(pendingSnapshot := index)
    }

    function OptimisticUpdate(n: nat): Progress {
      this.(next := n + 1)
    }

    /** The update, and whether the match grew. */
    function MaybeUpdate(n: nat): (Progress, bool) {
      (this.(next := if next < n + 1 then n + 1 else next, matched := if matched < n then n else matched), matched < n)
    }
  }

  /** What the leader does with a successful response. */
  function Advanced(p: Progress, index: nat): Progress {
    var (q, grew) := p.(recentActive := true).MaybeUpdate(index);
    if !grew then q
    else match q.state
      case Probe => q.BecomeReplicate()
      case Snapshot => q.BecomeProbe()
      case Replicate => q
  }

  // ---------- the node ----------

  datatype Role = Leader | Candidate | Follower
  datatype Handler = StepLeader | StepCandidate | StepFollower
  datatype Ticker = TickElection | TickHeartbeat

  /** `members` is the size of the map `quorum` counts, which is not the map of tracked peers. */
  datatype Node = Node(
    id: nat, currentTerm: nat, vote: nat, leader: nat, role: Role, step: Handler, tick: Ticker,
    members: nat, prs: map<nat, Progress>, votes: map<nat, bool>,
    commitIndex: nat, lastApplied: nat, log: Unstable,
    heartbeatElapsed: nat, electionElapsed: nat, heartbeatTimeout: nat, electionTimeout: nat, randomizedTimeout: nat,
    checkQuorum: bool, ready: bool, sent: seq<Message>, unknownIds: seq<nat>)

  /**
    What the code does not determine: the order the map of peers is walked in, the random timeout
    drawn, what a read past the end of the vector of matches yields, and the terms storage answers.
  */
  datatype Env = Env(order: seq<nat>, timeout: nat, stray: nat, storageTerm: nat -> nat)

  ghost predicate IsOrder(order: seq<nat>, prs: map<nat, Progress>) {
    && (forall i, j :: 0 <= i < j < |order| ==> order[i] != order[j])
    && (forall id :: id in order <==> id in prs)
  }

  lemma OrderWalks(order: seq<nat>, prs: map<nat, Progress>)
    requires IsOrder(order, prs)
    ensures Walks(order, prs)
  {
  }

  predicate Walks(order: seq<nat>, prs: map<nat, Progress>) {
    forall id :: id in order ==> id in prs
  }

  function Initial(id: nat, heartbeatTimeout: nat, electionTimeout: nat, timeout: nat, offset: nat,
      firstIndex: nat): Node {
    var start := if firstIndex > 0 then firstIndex - 1 else 0;
    Node(id, 0, 0, 0, Follower, StepFollower, TickElection, 0, map[], map[], start, start,
         Unstable(offset, [], None), 0, 0, heartbeatTimeout, electionTimeout, timeout, false, false, [], [])
  }

  function Send(s: Node, m: Message): Node {
    s.(sent := s.sent + [m])
  }

  // ---------- roles ----------

  function Reset(s: Node, term: nat, env: Env): Node {
    s.(currentTerm := term, vote := if s.currentTerm != term then 0 else s.vote, leader := 0,
       electionElapsed := 0, heartbeatElapsed := 0, randomizedTimeout := env.timeout)
  }

  function StepDown(s: Node, term: nat, leader: nat, env: Env): Node {
    Reset(s, term, env).(step := StepFollower, tick := TickElection, leader := leader, role := Follower)
  }

  function BecomeCandidate(s: Node, env: Env): Node {
    if s.role == Leader then s
    else Reset(s, s.currentTerm + 1, env).(step := StepCandidate, tick := TickElection, vote := s.id, role := Candidate)
  }

  function BecomeLeader(s: Node, env: Env): Node {
    if s.role == Follower then s
    else Reset(s, s.currentTerm, env).(step := StepLeader, tick := TickHeartbeat, leader := s.id, role := Leader)
  }

  function Quorum(s: Node): nat {
    s.members / 2 + 1
  }

  function Granting(votes: map<nat, bool>): set<nat> {
    set id | id in votes && votes[id]
  }

  function GrantedIn(votes: map<nat, bool>): nat {
    |Granting(votes)|
  }

  /** Records the first vote of `id`; the count of grants so far. */
  function GrantMe(s: Node, id: nat, v: bool): (Node, nat) {
    var votes := if id in s.votes then s.votes else s.votes[id := v];
    (s.(votes := votes), GrantedIn(votes))
  }

  // ---------- commit ----------

  function Insert(x: nat, s: seq<nat>): (r: seq<nat>)
    ensures |r| == |s| + 1
  {
    if s == [] || x <= s[0] then [x] + s else [s[0]] + Insert(x, s[1..])
  }

  function Sorted(s: seq<nat>): (r: seq<nat>)
    ensures |r| == |s|
  {
    if s == [] then [] else Insert(s[|s| - 1], Sorted(s[..|s| - 1]))
  }

  function Matches(prs: map<nat, Progress>, order: seq<nat>): (r: seq<nat>)
    requires Walks(order, prs)
    ensures |r| == |order| && forall i :: 0 <= i < |order| ==> r[i] == prs[order[i]].matched
  {
    seq(|order|, i requires 0 <= i < |order| => prs[order[i]].matched)
  }

  /** The element of the sorted matches that `maybeCommit` takes. */
  function CommitCandidate(s: Node, env: Env): nat
    requires Walks(env.order, s.prs)
  {
    var mis := Sorted(Matches(s.prs, env.order));
    if Quorum(s) - 1 < |mis| then mis[Quorum(s) - 1] else env.stray
  }

  function CommitTo(s: Node, commit: nat): Node {
    if s.commitIndex < commit then s.(commitIndex := commit) else s
  }

  function MaybeCommit(s: Node, env: Env): (r: (Node, bool))
    requires Walks(env.order, s.prs)
    ensures r.0.prs == s.prs
  {
    var mci := CommitCandidate(s, env);
    if mci > s.commitIndex then (CommitTo(s, mci), true) else (s, false)
  }

  // ---------- the log ----------

  function Term(s: Node, index: nat, env: Env): nat {
    var t := MaybeTerm(s.log, index);
    if t > 0 then t else env.storageTerm(index)
  }

  /** The new log and the index answered, 0 for a refusal. */
  function MaybeAppend(s: Node, index: nat, logTerm: nat, ents: seq<Entry>): (Node, nat) {
    if |s.log.entries| >= index && s.currentTerm == logTerm then
      (s.(log := s.log.(entries := s.log.entries[..index] + ents)), index + |ents|)
    else (s, 0)
  }

  function Stamped(ents: seq<Entry>, term: nat, lastApplied: nat): (r: seq<Entry>)
    ensures |r| == |ents|
  {
    seq(|ents|, i requires 0 <= i < |ents| => ents[i].(term := term, index := lastApplied + 1 + i))
  }

  function AppendEntry(s: Node, ents: seq<Entry>, env: Env): (r: Node)
    requires Walks(env.order, s.prs)
    ensures r.prs == s.prs
  {
    var s1 := s.(log := s.log.(entries := s.log.entries + Stamped(ents, s.currentTerm, s.lastApplied)));
    MaybeCommit(s1, env).0.(ready := true)
  }

  // ---------- sending ----------

  function AppendMessage(s: Node, to: nat, env: Env): Message
    requires to in s.prs
  {
    var prev := s.prs[to].next - 1;
    Message(MsgApp, from := s.id, to := to, index := prev,
            logTerm := if prev == 0 then s.currentTerm else Term(s, prev, env), commit := s.commitIndex,
            entries := if prev < |s.log.entries| then s.log.entries[prev..] else [])
  }

  function SendAppend(s: Node, to: nat, env: Env): Node
    requires to in s.prs
  {
    var m := AppendMessage(s, to, env);
    var p := s.prs[to];
    Send(if m.entries != [] && p.state == Replicate then
           s.(prs := s.prs[to := p.OptimisticUpdate(m.entries[|m.entries| - 1].index)])
         else s, m)
  }

  /** The first `k` peers in order, but not the node itself and not peer 0. */
  function BcastAppend(s: Node, env: Env, k: nat): (r: Node)
    requires k <= |env.order| && Walks(env.order, s.prs)
    ensures r.prs.Keys == s.prs.Keys
  {
    if k == 0 then s
    else
      var t := BcastAppend(s, env, k - 1);
      var id := env.order[k - 1];
      if id == s.id || id == 0 then t else SendAppend(t, id, env)
  }

  function HeartbeatMessage(s: Node, to: nat): Message
    requires to in s.prs
  {
    Message(MsgHeartbeat, from := s.id, to := to, term := s.currentTerm,
            commit := if s.prs[to].matched < s.commitIndex then s.prs[to].matched else s.commitIndex)
  }

  function BcastHeartbeat(s: Node, env: Env, k: nat): (r: Node)
    requires k <= |env.order| && Walks(env.order, s.prs)
    ensures r == s.(sent := r.sent)
  {
    if k == 0 then s
    else
      var t := BcastHeartbeat(s, env, k - 1);
      var id := env.order[k - 1];
      if id == s.id then t else Send(t, HeartbeatMessage(t, id))
  }

  function VoteMessage(s: Node, to: nat): Message {
    Message(MsgVote, to := to, term := s.currentTerm, index := s.lastApplied, logTerm := s.commitIndex)
  }

  function BcastVote(s: Node, env: Env, k: nat): (r: Node)
    requires k <= |env.order|
    ensures r == s.(sent := r.sent)
  {
    if k == 0 then s
    else
      var t := BcastVote(s, env, k - 1);
      var id := env.order[k - 1];
      if id == s.id then t else Send(t, VoteMessage(t, id))
  }

  // ---------- handlers ----------

  function OnAppResp(s: Node, m: Message, env: Env): (r: Node)
    requires Walks(env.order, s.prs) && m.from in s.prs
    ensures r.prs.Keys == s.prs.Keys
  {
    if m.reject then s.(prs := s.prs[m.from := s.prs[m.from].(recentActive := true)])
    else
      var grew := s.prs[m.from].MaybeUpdate(m.index).1;
      var t := s.(prs := s.prs[m.from := Advanced(s.prs[m.from], m.index)]);
      if grew && MaybeCommit(t, env).1 then BcastAppend(MaybeCommit(t, env).0, env, |env.order|) else t
  }

  function OnHeartbeatResp(s: Node, m: Message, env: Env): (r: Node)
    requires m.from in s.prs
    ensures r.prs.Keys == s.prs.Keys
  {
    var t := s.(prs := s.prs[m.from := s.prs[m.from].(recentActive := true)]);
    if t.prs[m.from].matched < t.lastApplied then SendAppend(t, m.from, env) else t
  }

  function LeaderStep(s: Node, m: Message, env: Env): (r: Node)
    requires Walks(env.order, s.prs)
    ensures s.prs.Keys <= r.prs.Keys
  {
    match m.typ
    case MsgBeat => BcastHeartbeat(s, env, |env.order|)
    case MsgProp => BcastAppend(AppendEntry(s, m.entries, env), env, |env.order|)
    case MsgAppResp => if m.from !in s.prs then s else OnHeartbeatResp(OnAppResp(s, m, env), m, env)
    case MsgHeartbeatResp => if m.from !in s.prs then s else OnHeartbeatResp(s, m, env)
    case _ => s
  }

  /** Appending what a leader sends; candidates and followers alike. */
  function HandleAppend(s: Node, m: Message): (r: Node)
    ensures r.prs == s.prs
  {
    if m.index < s.commitIndex then Send(s, Message(MsgAppResp, from := s.id, to := m.from, index := s.commitIndex))
    else
      var (t, last) := MaybeAppend(s, m.index, m.logTerm, m.entries);
      if last > 0 then Send(t, Message(MsgAppResp, from := s.id, to := m.from, index := last)).(ready := true)
      else Send(t, Message(MsgAppResp, from := s.id, to := m.from, reject := true, index := m.index))
  }

  function HandleHeartbeat(s: Node, m: Message): Node {
    Send(CommitTo(s, m.commit), Message(MsgHeartbeatResp, from := s.id, to := m.from, context := m.context))
  }

  function CandidateStep(s: Node, m: Message, env: Env): (r: Node)
    requires Walks(env.order, s.prs)
    ensures s.prs.Keys <= r.prs.Keys
  {
    match m.typ
    case MsgHeartbeat => HandleHeartbeat(StepDown(s, s.currentTerm, m.from, env), m)
    case MsgApp => HandleAppend(StepDown(s, s.currentTerm, m.from, env), m)
    case MsgVoteResp =>
      var (t, grant) := GrantMe(s, m.from, !m.reject);
      if Quorum(t) == grant then BcastAppend(BecomeLeader(t, env), env, |env.order|)
      else if Quorum(t) == |t.votes| - grant then StepDown(t, t.currentTerm, 0, env)
      else t
    case _ => s
  }

  function FollowerStep(s: Node, m: Message): (r: Node)
    ensures r.prs == s.prs
  {
    match m.typ
    case MsgHeartbeat =>
      var t := s.(electionElapsed := 0);
      HandleHeartbeat(if s.leader != m.from then t.(leader := m.from, currentTerm := m.term) else t, m)
    case MsgApp => HandleAppend(s.(electionElapsed := 0, leader := m.from), m)
    case MsgTransferLeader => if s.leader == 0 then s else Send(s, m.(to := s.leader))
    case _ => s
  }

  function Dispatch(s: Node, m: Message, env: Env): (r: Node)
    requires Walks(env.order, s.prs)
    ensures s.prs.Keys <= r.prs.Keys
  {
    match s.step
    case StepLeader => LeaderStep(s, m, env)
    case StepCandidate => CandidateStep(s, m, env)
    case StepFollower => FollowerStep(s, m)
  }

  /** A heartbeat of the timer: the node stands for election, and wins it if its own vote is a quorum. */
  function OnHup(s: Node, env: Env): (r: Node)
    requires Walks(env.order, s.prs)
    ensures s.prs.Keys <= r.prs.Keys
  {
    if s.role == Leader then s
    else
      var c := BecomeCandidate(s, env);
      var (t, grant) := GrantMe(c, c.id, true);
      if Quorum(t) == grant then BecomeLeader(t, env) else BcastVote(t, env, |env.order|)
  }

  /** A request's log term and index are its sender's commit and applied indices. */
  predicate UpToDate(s: Node, m: Message) {
    m.logTerm > s.commitIndex || (m.logTerm == s.commitIndex && m.index >= s.lastApplied)
  }

  /** The test of the vote assigns the candidate where it should compare with it. */
  function OnVote(s: Node, m: Message): Node {
    var free := s.vote == 0 || m.from != 0;
    Send(s, Message(MsgVoteResp, to := m.from, term := m.term, reject := !(free && UpToDate(s, m))))
      .(electionElapsed := 0, vote := m.from)
  }

  function AddNode(s: Node, id: nat): Node {
    if id in s.prs then s
    else s.(prs := s.prs[id := Progress(s.lastApplied + 1, 0, Probe, 0, true)])
  }

  function OnNode(s: Node, m: Message): Node {
    Send(AddNode(s, m.from).(unknownIds := s.unknownIds + [m.from]),
         Message(MsgNodeResp, to := m.from, term := m.term))
  }

  /** The part of `generalStep` after the terms were compared. */
  function Act(s: Node, m: Message, env: Env): (r: Node)
    requires Walks(env.order, s.prs)
    ensures s.prs.Keys <= r.prs.Keys
  {
    match m.typ
    case MsgHup => OnHup(s, env)
    case MsgVote => OnVote(s, m)
    case MsgNode => OnNode(s, m)
    case _ => Dispatch(s, m, env)
  }

  predicate IgnoresVote(s: Node, m: Message) {
    m.typ == MsgVote && s.checkQuorum && s.leader != 0 && s.electionElapsed < s.electionTimeout
  }

  function GeneralStep(s: Node, m: Message, env: Env): (r: Node)
    requires Walks(env.order, s.prs)
    ensures s.prs.Keys <= r.prs.Keys
  {
    if m.term == 0 || m.term == s.currentTerm then Act(s, m, env)
    else if m.term > s.currentTerm then
      if IgnoresVote(s, m) then s else Act(StepDown(s, m.term, m.from, env), m, env)
    else if s.checkQuorum && (m.typ == MsgHeartbeat || m.typ == MsgApp) then
      Send(s, Message(MsgAppResp, to := m.from))
    else s
  }

  function ElectionTick(s: Node, env: Env): Node
    requires Walks(env.order, s.prs)
  {
    var t := s.(electionElapsed := s.electionElapsed + 1);
    if t.electionElapsed >= t.randomizedTimeout then
      GeneralStep(t.(electionElapsed := 0), Message(MsgHup, from := s.id), env)
    else t
  }

  function HeartbeatTick(s: Node, env: Env): Node
    requires Walks(env.order, s.prs)
  {
    var t := s.(heartbeatElapsed := s.heartbeatElapsed + 1, electionElapsed := s.electionElapsed + 1);
    var u := if t.electionElapsed >= t.electionTimeout then QuorumTick(t.(electionElapsed := 0), env) else t;
    if u.role != Leader then u
    else if u.heartbeatElapsed >= u.heartbeatTimeout then
      GeneralStep(u.(heartbeatElapsed := 0), Message(MsgBeat, from := s.id), env)
    else u
  }

  function QuorumTick(s: Node, env: Env): (r: Node)
    requires Walks(env.order, s.prs)
    ensures s.prs.Keys <= r.prs.Keys
  {
    if s.checkQuorum then GeneralStep(s, Message(MsgCheckQuorum, from := s.id), env) else s
  }

  function Tick(s: Node, env: Env): Node
    requires Walks(env.order, s.prs)
  {
    match s.tick
    case TickElection => ElectionTick(s, env)
    case TickHeartbeat => HeartbeatTick(s, env)
  }

  function AppliedTo(s: Node, index: nat): Node {
    if index == 0 then s else s.(lastApplied := index)
  }

  /** Persisting; what goes to storage is not part of the node's state. */
  function StorageLog(s: Node): Node {
    AppliedTo(s, s.commitIndex)
  }

  function SendAddNode(s: Node, to: nat): Node {
    Send(s, Message(MsgNode, from := s.id, to := to))
  }

  // ---------- runs ----------

  datatype Event = Receive(m: Message) | Timer | Propose(op: string) | Persist | Connect(peer: nat)

  function ProposalOf(op: string): Message {
    Message(MsgProp, entries := [Entry(0, 0, op)])
  }

  function Next(s: Node, e: Event, env: Env): Node
    requires Walks(env.order, s.prs)
  {
    match e
    case Receive(m) => GeneralStep(s, m, env)
    case Timer => Tick(s, env)
    case Propose(op) => if op == "" then s else GeneralStep(s, ProposalOf(op), env)
    case Persist => StorageLog(s)
    case Connect(peer) => SendAddNode(AddNode(s, peer), peer)
  }
}
