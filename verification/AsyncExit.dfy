/** The worker ends: once a terminate message is queued and nobody pushes, its own steps lead to the exit. */
module AsyncExit {
  import opened Options
  import opened MpmcQueue
  import opened MpmcSafety
  import opened MpmcTheorems
  import opened AsyncHelper
  import opened AsyncSafety

  /** Accesses to come before the worker's present call of `dequeue` has its message, or finds none. */
  ghost function Rank(q: State<Msg>, terminated: bool): nat
    requires |q.pcs| >= 1
  {
    match q.pcs[0]
    case Idle(last) => if last.NotReceived? && terminated then 1 else 6
    case DeqLoadPos => 5
    case DeqLoadSeq(pos) => if pos == q.deqPos then 4 else 6
    case DeqCas(pos) => if pos == q.deqPos then 3 else 5
    case DeqMove(_) => 10
    case DeqPublish(_, _) => 9
    case _ => 0
  }

  ghost function ToExit(h: Helper): int
    requires WellFormedHelper(h)
  {
    if h.exited then 0 else 8 * (h.q.enqPos - h.q.deqPos) + Rank(h.q, h.w.terminateRequested)
  }

  ghost predicate NobodyPushes(h: Helper)
    requires WellFormedHelper(h)
  {
    forall t :: 0 <= t < |h.pushing| ==> h.pushing[t].NotPushing?
  }

  ghost predicate NoneClaiming(q: State<Msg>) {
    forall t :: 1 <= t < |q.pcs| ==> q.pcs[t].Idle?
  }

  /** With no producer in a call, a fresh ticket is refused only when the queue is empty. */
  lemma RefusedWhenEmpty(q: State<Msg>, c: Choice<Msg>)
    requires Inv(q) && |q.pcs| >= 1 && NoneClaiming(q) && q.pcs[0].DeqLoadSeq?
    ensures var pos, pc := q.pcs[0].pos, Step(q, 0, c).pcs[0];
      && (pc.Idle? <==> pos == q.deqPos == q.enqPos)
      && (pc.Idle? ==> pc == Idle(NotReceived))
      && (pos == q.deqPos && !pc.Idle? ==> pc == DeqCas(pos))
      && (pos != q.deqPos ==> pc == DeqCas(pos) || pc == DeqLoadPos)
  {
    DequeueRefusal(q, 0, c);
    AheadMeansClaimed(q, q.pcs[0].pos);
    AheadMeansClaimed(q, q.deqPos);
    hide Inv, SeqAt;
  }

  /** One access of the worker brings the end of its call, or of the queue, nearer. */
  lemma AccessLowers(q: State<Msg>, processed: nat, c: Choice<Msg>, terminated: bool, after: bool)
    requires Inv(q) && |q.pcs| >= 1 && WorkerOk(q, processed) && NoneClaiming(q)
    requires q.pcs[0] == Idle(NotReceived) ==> !terminated
    requires terminated ==> after
    requires processed == q.deqPos == q.enqPos ==> after
    requires c == if q.pcs[0].Idle? then CallDequeue else Go
    ensures var q' := Step(q, 0, c);
      && q'.enqPos == q.enqPos && q'.pcs == q.pcs[0 := q'.pcs[0]]
      && 8 * (q.enqPos - q'.deqPos) + Rank(q', after) < 8 * (q.enqPos - q.deqPos) + Rank(q, terminated)
  {
    if q.pcs[0].DeqLoadSeq? { RefusedWhenEmpty(q, c); }
    hide Inv, Slot, Histories, SeqAt, DataAt;
  }

  lemma PushersIdle(h: Helper)
    requires HelperInv(h) && NobodyPushes(h)
    ensures NoneClaiming(h.q)
  {
    forall t | 1 <= t < |h.q.pcs| ensures h.q.pcs[t].Idle? { assert PushOk(h, t); }
  }

  /** Taking the terminate message sets the flag, and nothing clears it. */
  lemma FlagStands(h: Helper, h': Helper)
    requires HelperInv(h) && h' == WorkerStep(h, false, false) && !h.exited && !Exits(h)
    requires HasTerminate(h.q.claims, |h.q.claims|)
    ensures h.w.terminateRequested ==> h'.w.terminateRequested
    ensures h.processed == |h.q.claims| ==> h'.w.terminateRequested
  {
    hide Inv, PushOk, Step;
  }

  /** Every step of the worker brings the exit nearer. */
  lemma WorkerLowers(h: Helper)
    requires HelperInv(h) && NobodyPushes(h) && !h.exited && HasTerminate(h.q.claims, |h.q.claims|)
    ensures var h' := WorkerStep(h, false, false);
      ToExit(h') < ToExit(h) && h'.q.claims == h.q.claims && h'.pushing == h.pushing
  {
    hide Inv, PushOk, Step, Rank;
    PushersIdle(h);
    EnqIsClaims(h);
    WorkerShape(h, false, false);
    var h' := WorkerStep(h, false, false);
    if Exits(h) {
      ExitNear(h);
    } else {
      WorkerAccess(h.q, h.processed, WorkerChoice(h, false));
      FlagStands(h, h');
      AccessLowers(h.q, h.processed, WorkerChoice(h, false), h.w.terminateRequested, h'.w.terminateRequested);
    }
  }

  lemma EnqIsClaims(h: Helper)
    requires HelperInv(h)
    ensures h.q.enqPos == |h.q.claims| && h.q.deqPos <= h.q.enqPos
  {
  }

  lemma ExitNear(h: Helper)
    requires HelperInv(h) && !h.exited && Exits(h)
    ensures Rank(h.q, h.w.terminateRequested) == 1 && h.processed == h.q.deqPos
  {
    hide Inv, PushOk;
  }

  lemma {:induction false} AppendedRun(h: Helper, a: Act, acts: seq<Act>)
    requires WellFormedHelper(h)
    ensures RunHelper(h, [a] + acts) == RunHelper(ActStep(h, a), acts)
    decreases |acts|
  {
    hide ActStep;
    if acts == [] {
      assert [a] + acts == [a] && [a][..0] == [];
      assert RunHelper(h, []) == h;
    } else {
      AppendedRun(h, a, acts[..|acts| - 1]);
      assert ([a] + acts)[..|acts|] == [a] + acts[..|acts| - 1];
    }
  }

  /** The worker's own steps, no other thread taking one. */
  function WorkerAlone(n: nat): seq<Act> {
    seq(n, _ => WorkerAct(false, false))
  }

  /**
    A terminate message in the queue is enough: with nobody pushing, the worker exits after at most
    `ToExit(h)` steps of its own.
  */
  lemma {:induction false} WorkerExits(h: Helper) returns (steps: nat)
    requires HelperInv(h) && NobodyPushes(h) && HasTerminate(h.q.claims, |h.q.claims|)
    ensures steps <= ToExit(h)
    ensures var h' := RunHelper(h, WorkerAlone(steps)); h'.exited && HelperInv(h') && h'.q.claims == h.q.claims
    decreases ToExit(h)
  {
    hide Inv, WorkerOk, PushOk, Drained, ToExit;
    ToExitNatural(h);
    if h.exited {
      assert RunHelper(h, WorkerAlone(0)) == h;
      return 0;
    }
    WorkerLowers(h);
    ActStepInv(h, WorkerAct(false, false));
    hide WorkerStep;
    var h' := WorkerStep(h, false, false);
    var rest := WorkerExits(h');
    steps := rest + 1;
    AppendedRun(h, WorkerAct(false, false), WorkerAlone(rest));
    assert WorkerAlone(steps) == [WorkerAct(false, false)] + WorkerAlone(rest);
  }

  lemma ToExitNatural(h: Helper)
    requires HelperInv(h)
    ensures ToExit(h) >= 0
  {
  }
}
