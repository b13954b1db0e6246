/** The discarding policy drops a terminate message like any other, and then the worker never exits. */
module AsyncDiscard {
  import opened MpmcQueue
  import opened MpmcSafety
  import opened MpmcTheorems
  import opened AsyncHelper
  import opened AsyncSafety

  ghost predicate PushesTerminate(h: Helper)
    requires WellFormedHelper(h)
  {
    exists t :: 0 <= t < |h.q.pcs| && h.pushing[t] == Pushing(Terminate)
  }

  /** No terminate message is in the queue's history or on its way into it. */
  ghost predicate TerminateFree(h: Helper)
    requires WellFormedHelper(h)
  {
    !HasTerminate(h.q.claims, |h.q.claims|) && !PushesTerminate(h)
  }

  ghost predicate BeginsTerminate(acts: seq<Act>) {
    exists i :: 0 <= i < |acts| && acts[i].PushAct? && acts[i].m == Terminate
  }

  // ---------- no exit without a terminate message ----------

  /** A message that enters the queue is the one its thread is pushing. */
  lemma ClaimsOwn(h: Helper, t: nat, spurious: bool)
    requires HelperInv(h) && 1 <= t < |h.q.pcs|
    ensures var h' := ProducerStep(h, t, spurious);
      && (h'.q.claims == h.q.claims
          || (h.pushing[t].Pushing? && h'.q.claims == h.q.claims + [Claim(t, h.q.enqPos, h.pushing[t].m)]))
      && (h'.pushing == h.pushing || h'.pushing == h.pushing[t := NotPushing])
  {
    hide Step, Inv, Drained, SentBy;
    var pc := h.q.pcs[t];
    assert PushOk(h, t);
    if h.pushing[t].Pushing? {
      if !pc.Idle? {
        StepOutside(h.q, t, if spurious then SpuriousFailure else Go);
      } else if pc.last.NotSent? && h.blockRetry {
        StepOutside(h.q, t, CallEnqueue(pc.last.arg));
      }
    }
  }

  lemma StaysFree(h: Helper, a: Act)
    requires HelperInv(h) && TerminateFree(h) && !(a.PushAct? && a.m == Terminate)
    ensures TerminateFree(ActStep(h, a))
  {
    hide Inv, Drained, PushOk, Step;
    var h' := ActStep(h, a);
    match a
    case WorkerAct(spurious, timerDue) =>
      if !h.exited {
        WorkerShape(h, spurious, timerDue);
        WorkerAccess(h.q, h.processed, WorkerChoice(h, spurious));
      }
      assert h'.q.claims == h.q.claims && h'.pushing == h.pushing;
    case PushAct(t, m) =>
      if 1 <= t < |h.q.pcs| && h.pushing[t].NotPushing? { StartsIdle(h, t, m); }
    case ProducerAct(t, spurious) =>
      if 1 <= t < |h.q.pcs| {
        ClaimsOwn(h, t, spurious);
        if h.pushing[t].Pushing? { ClaimNotTerminate(h.q.claims, Claim(t, h.q.enqPos, h.pushing[t].m)); }
      }
  }

  lemma StartsIdle(h: Helper, t: nat, m: Msg)
    requires HelperInv(h) && 1 <= t < |h.q.pcs| && h.pushing[t].NotPushing?
    ensures h.q.pcs[t].Idle? && Step(h.q, t, CallEnqueue(m)) == SetPc(h.q, t, EnqLoadPos(m))
  {
    assert PushOk(h, t);
  }

  lemma ClaimNotTerminate(claims: seq<Claim<Msg>>, c: Claim<Msg>)
    requires !HasTerminate(claims, |claims|) && c.v != Terminate
    ensures !HasTerminate(claims + [c], |claims| + 1)
  {
    TerminateNext(claims + [c], |claims|);
    TerminateKept(claims, [c], |claims|);
  }

  /** The worker exits only after a terminate message, so without one it runs for ever. */
  lemma {:induction false} NeverExits(h: Helper, acts: seq<Act>)
    requires HelperInv(h) && TerminateFree(h) && !BeginsTerminate(acts)
    ensures var h' := RunHelper(h, acts); !h'.exited && HelperInv(h') && TerminateFree(h')
    decreases |acts|
  {
    hide ActStep, Inv, PushOk;
    if acts == [] {
      ExitHasTerminate(h);
    } else {
      var init := acts[..|acts| - 1];
      assert forall i :: 0 <= i < |init| ==> init[i] == acts[i];
      NeverExits(h, init);
      StaysFree(RunHelper(h, init), acts[|acts| - 1]);
      ActStepInv(RunHelper(h, init), acts[|acts| - 1]);
      ExitHasTerminate(RunHelper(h, acts));
    }
  }

  lemma ExitHasTerminate(h: Helper)
    requires HelperInv(h) && TerminateFree(h)
    ensures !h.exited
  {
    if h.exited { TerminateStays(h.q.claims, h.processed, |h.q.claims|); }
  }

  // ---------- one push by a thread that runs alone ----------

  function Alone(t: nat, m: Msg, steps: nat): seq<Act> {
    if steps == 0 then [PushAct(t, m)] else Alone(t, m, steps - 1) + [ProducerAct(t, false)]
  }

  /** The queue has no cell for the next ticket: the one a round earlier has not been released. */
  ghost predicate NoRoom(q: State<Msg>)
    requires WellFormed(q)
  {
    q.enqPos >= q.size && SeqAt(q, q.enqPos - q.size) < q.enqPos
  }

  /** The push has begun, and its thread is inside `enqueue` at `pc`. */
  function At(h: Helper, t: nat, m: Msg, pc: Pc<Msg>): Helper
    requires WellFormedHelper(h) && t < |h.q.pcs|
  {
    h.(q := SetPc(h.q, t, pc), pushing := h.pushing[t := Pushing(m)], begun := h.begun[t := h.begun[t] + [m]])
  }

  lemma AloneStep(h: Helper, t: nat, m: Msg, steps: nat)
    requires WellFormedHelper(h) && 1 <= t < |h.q.pcs| && steps > 0
    ensures RunHelper(h, Alone(t, m, steps)) ==
      ActStep(RunHelper(h, Alone(t, m, steps - 1)), ProducerAct(t, false))
  {
    assert Alone(t, m, steps)[..|Alone(t, m, steps)| - 1] == Alone(t, m, steps - 1);
  }

  /** Inside `enqueue` an access moves the queue only. */
  lemma AloneNext(h: Helper, t: nat, m: Msg, steps: nat)
    requires WellFormedHelper(h) && 1 <= t < |h.q.pcs| && steps > 0
    requires var k := RunHelper(h, Alone(t, m, steps - 1));
      |k.q.pcs| == |h.q.pcs| && k.pushing[t].Pushing? && !k.q.pcs[t].Idle?
    ensures var k := RunHelper(h, Alone(t, m, steps - 1));
      RunHelper(h, Alone(t, m, steps)) == k.(q := Step(k.q, t, Go))
  {
    AloneStep(h, t, m, steps);
    hide RunHelper, Alone, Step;
  }

  lemma AloneBegins(h: Helper, t: nat, m: Msg)
    requires HelperInv(h) && 1 <= t < |h.q.pcs| && h.pushing[t].NotPushing?
    ensures RunHelper(h, Alone(t, m, 0)) == At(h, t, m, EnqLoadPos(m))
    ensures RunHelper(h, Alone(t, m, 1)) == At(h, t, m, EnqLoadSeq(m, h.q.enqPos))
  {
    StartsIdle(h, t, m);
    hide HelperInv, Step;
    assert Alone(t, m, 0)[..0] == [];
    assert RunHelper(h, Alone(t, m, 0)) == PushStep(h, t, m);
    LoadsPosition(h, t, m);
  }

  lemma LoadsPosition(h: Helper, t: nat, m: Msg)
    requires WellFormedHelper(h) && 1 <= t < |h.q.pcs|
    requires RunHelper(h, Alone(t, m, 0)) == At(h, t, m, EnqLoadPos(m))
    ensures RunHelper(h, Alone(t, m, 1)) == At(h, t, m, EnqLoadSeq(m, h.q.enqPos))
  {
    AloneNext(h, t, m, 1);
    hide RunHelper, Alone;
  }

  /** The sequence load decides: refused exactly when there is no room for the next ticket. */
  lemma AloneDecides(h: Helper, t: nat, m: Msg)
    requires HelperInv(h) && 1 <= t < |h.q.pcs| && h.pushing[t].NotPushing?
    ensures RunHelper(h, Alone(t, m, 2)) ==
      At(h, t, m, if NoRoom(h.q) then Idle(NotSent(m)) else EnqCas(m, h.q.enqPos))
  {
    hide Inv, WorkerOk, Drained, PushOk, NoRoom, Step, RunHelper, Alone;
    AloneBegins(h, t, m);
    AloneNext(h, t, m, 2);
    AloneInv(h, t, m, 1);
    LoadDecides(At(h, t, m, EnqLoadSeq(m, h.q.enqPos)).q, t, m);
    SamePlace(h.q, At(h, t, m, EnqLoadSeq(m, h.q.enqPos)).q);
  }

  lemma LoadDecides(q: State<Msg>, t: nat, m: Msg)
    requires Inv(q) && t < |q.pcs| && q.pcs[t] == EnqLoadSeq(m, q.enqPos)
    ensures Step(q, t, Go) == SetPc(q, t, if NoRoom(q) then Idle(NotSent(m)) else EnqCas(m, q.enqPos))
  {
    hide Inv, SeqAt;
    EnqueueRefusal(q, t, Go);
    AheadMeansClaimed(q, q.enqPos);
  }

  lemma SamePlace(q: State<Msg>, q': State<Msg>)
    requires WellFormed(q) && WellFormed(q') && q'.seqs == q.seqs && q'.size == q.size && q'.enqPos == q.enqPos
    ensures NoRoom(q') == NoRoom(q)
  {
  }

  lemma AloneInv(h: Helper, t: nat, m: Msg, steps: nat)
    requires HelperInv(h) && 1 <= t < |h.q.pcs|
    ensures HelperInv(RunHelper(h, Alone(t, m, steps)))
  {
    hide Inv, WorkerOk, Drained, PushOk, ActStep;
    if steps == 0 {
      assert Alone(t, m, 0)[..0] == [];
      ActStepInv(h, PushAct(t, m));
    } else {
      AloneInv(h, t, m, steps - 1);
      AloneStep(h, t, m, steps);
      ActStepInv(RunHelper(h, Alone(t, m, steps - 1)), ProducerAct(t, false));
    }
  }

  /** The swap is won, the data moved and the cell published. */
  lemma SwapAndPublish(q: State<Msg>, t: nat, m: Msg)
    requires WellFormed(q) && t < |q.pcs| && q.pcs[t] == EnqCas(m, q.enqPos)
    ensures var q1 := Step(q, t, Go);
      var q2 := Step(q1, t, Go);
      var q3 := Step(q2, t, Go);
      && q1.pcs[t] == EnqMove(m, q.enqPos) && q1.claims == q.claims + [Claim(t, q.enqPos, m)]
      && q2.pcs[t] == EnqPublish(q.enqPos)
      && q3.pcs[t] == Idle(Sent) && q3.claims == q1.claims && q3.enqPos == q.enqPos + 1 && q3.deqPos == q.deqPos
  {
    hide Slot;
  }

  /** With room the message is claimed next, whatever the policy. */
  lemma AloneClaims(h: Helper, t: nat, m: Msg)
    requires HelperInv(h) && 1 <= t < |h.q.pcs| && h.pushing[t].NotPushing? && !NoRoom(h.q)
    ensures var k, at := RunHelper(h, Alone(t, m, 3)), At(h, t, m, EnqCas(m, h.q.enqPos));
      && k == at.(q := Step(at.q, t, Go))
      && k.q.claims == h.q.claims + [Claim(t, h.q.enqPos, m)]
  {
    hide Inv, WorkerOk, Drained, PushOk, NoRoom, Step, RunHelper, Alone;
    AloneDecides(h, t, m);
    AloneNext(h, t, m, 3);
    SwapAndPublish(At(h, t, m, EnqCas(m, h.q.enqPos)).q, t, m);
  }

  lemma AlonePublishes(h: Helper, t: nat, m: Msg)
    requires HelperInv(h) && 1 <= t < |h.q.pcs| && h.pushing[t].NotPushing? && !NoRoom(h.q)
    ensures var k, at := RunHelper(h, Alone(t, m, 5)), At(h, t, m, EnqCas(m, h.q.enqPos));
      && k == at.(q := k.q) && |k.q.pcs| == |h.q.pcs| && k.q.size == h.q.size
      && k.q.pcs[t] == Idle(Sent) && k.q.claims == h.q.claims + [Claim(t, h.q.enqPos, m)]
      && k.q.enqPos == h.q.enqPos + 1 && k.q.deqPos == h.q.deqPos
  {
    hide Inv, WorkerOk, Drained, PushOk, NoRoom, Step, RunHelper, Alone;
    AloneClaims(h, t, m);
    SwapAndPublish(At(h, t, m, EnqCas(m, h.q.enqPos)).q, t, m);
    AloneNext(h, t, m, 4);
    AloneNext(h, t, m, 5);
  }

  /** With room the whole push takes six accesses and leaves the message in the queue. */
  lemma AloneSends(h: Helper, t: nat, m: Msg)
    requires HelperInv(h) && 1 <= t < |h.q.pcs| && h.pushing[t].NotPushing? && !NoRoom(h.q)
    ensures var k := RunHelper(h, Alone(t, m, 6));
      && k.pushing == h.pushing && k.q.deqPos == h.q.deqPos && k.q.enqPos == h.q.enqPos + 1
      && k.q.claims == h.q.claims + [Claim(t, h.q.enqPos, m)] && SameSetup(h, k) && k.q.size == h.q.size
  {
    hide Inv, WorkerOk, Drained, PushOk, NoRoom, Step, RunHelper, Alone;
    AlonePublishes(h, t, m);
    AloneStep(h, t, m, 6);
    assert h.pushing[t := Pushing(m)][t := NotPushing] == h.pushing;
  }

  /** Without room the message is discarded, or offered again. */
  lemma AloneRefused(h: Helper, t: nat, m: Msg)
    requires HelperInv(h) && 1 <= t < |h.q.pcs| && h.pushing[t].NotPushing? && NoRoom(h.q)
    ensures var k, at := RunHelper(h, Alone(t, m, 3)), At(h, t, m, Idle(NotSent(m)));
      && k.q.claims == h.q.claims && |k.q.pcs| == |h.q.pcs| && k.begun == at.begun
      && k.pushing == if h.blockRetry then at.pushing else h.pushing
  {
    hide Inv, WorkerOk, Drained, PushOk, NoRoom, RunHelper, Alone;
    AloneDecides(h, t, m);
    AloneStep(h, t, m, 3);
    assert h.pushing[t := Pushing(m)][t := NotPushing] == h.pushing;
  }

  /**
    A thread that pushes a terminate message alone. The push ends unsent exactly when the policy
    discards and there is no room, and then the worker never exits, whatever the threads do later,
    unless another terminate message is pushed. Otherwise the message is claimed or offered again.
  */
  lemma DiscardedTerminate(h: Helper, t: nat)
    requires HelperInv(h) && 1 <= t < |h.q.pcs| && h.pushing[t].NotPushing? && TerminateFree(h)
    ensures
      var k := RunHelper(h, Alone(t, Terminate, 3));
      && |k.q.pcs| == |h.q.pcs| && k.begun[t] == h.begun[t] + [Terminate]
      && (k.pushing[t].NotPushing? <==> NoRoom(h.q) && !h.blockRetry)
      && (k.pushing[t].NotPushing? ==> TerminateFree(k))
      && (HasTerminate(k.q.claims, |k.q.claims|) <==> !NoRoom(h.q))
    ensures NoRoom(h.q) && !h.blockRetry ==>
      forall more :: !BeginsTerminate(more) ==> !RunHelper(RunHelper(h, Alone(t, Terminate, 3)), more).exited
  {
    hide Inv, WorkerOk, Drained, PushOk, NoRoom, HasTerminate, RunHelper, Alone, Step;
    AloneInv(h, t, Terminate, 3);
    if NoRoom(h.q) {
      AloneRefused(h, t, Terminate);
      if !h.blockRetry {
        var k := RunHelper(h, Alone(t, Terminate, 3));
        forall more | !BeginsTerminate(more) ensures !RunHelper(k, more).exited { NeverExits(k, more); }
      }
    } else {
      AloneClaims(h, t, Terminate);
      TerminateNext(h.q.claims + [Claim(t, h.q.enqPos, Terminate)], |h.q.claims|);
    }
  }

  // ---------- it happens for every size ----------

  lemma {:induction false} RunJoined(h: Helper, acts: seq<Act>, more: seq<Act>)
    requires WellFormedHelper(h)
    ensures RunHelper(h, acts + more) == RunHelper(RunHelper(h, acts), more)
    decreases |more|
  {
    hide ActStep;
    if more == [] {
      assert acts + more == acts;
    } else {
      RunJoined(h, acts, more[..|more| - 1]);
      assert (acts + more)[..|acts + more| - 1] == acts + more[..|more| - 1];
    }
  }

  ghost predicate Holds(h: Helper, k: nat) {
    && HelperInv(h) && TerminateFree(h) && h.q.enqPos == k && h.q.deqPos == 0
    && forall t :: 0 <= t < |h.q.pcs| ==> h.pushing[t].NotPushing?
  }

  /** Thread 1 fills the queue while the worker does not run. */
  lemma {:induction false} Fills(h: Helper, m: Msg, k: nat) returns (acts: seq<Act>)
    requires Holds(h, 0) && |h.q.pcs| >= 2 && k <= h.q.size && m != Terminate
    ensures var h' := RunHelper(h, acts); Holds(h', k) && SameSetup(h, h') && h'.q.size == h.q.size
  {
    hide Inv, WorkerOk, Drained, PushOk, SeqAt, HasTerminate;
    if k == 0 { return []; }
    acts := Fills(h, m, k - 1);
    hide RunHelper, Alone;
    var mid := RunHelper(h, acts);
    AloneSends(mid, 1, m);
    AloneInv(mid, 1, m, 6);
    RunJoined(h, acts, Alone(1, m, 6));
    ClaimNotTerminate(mid.q.claims, Claim(1, mid.q.enqPos, m));
    acts := acts + Alone(1, m, 6);
  }

  lemma FullHasNoRoom(q: State<Msg>)
    requires Inv(q) && q.enqPos == q.size && q.deqPos == 0
    ensures NoRoom(q)
  {
    hide Slot;
    SlotRound(0, q.size);
    assert CellOk(q, 0);
    if !FreeCell(q, 0) { SlotRound(q.seqs[0] - 1, q.size); }
  }

  /**
    For every size of the queue: a run under the discarding policy after which the terminate
    message was pushed and is lost, nobody is pushing, and the worker never exits.
  */
  lemma WorkerRunsOn(size: nat, threads: nat, sinks: nat, text: string) returns (acts: seq<Act>)
    requires AcceptsSize(size) && threads >= 2
    ensures
      var h := RunHelper(InitHelper(size, threads, sinks, false), acts);
      && |h.begun| == threads == |h.pushing| && Terminate in h.begun[1]
      && (forall t :: 0 <= t < threads ==> h.pushing[t].NotPushing?)
      && forall more :: !BeginsTerminate(more) ==> !RunHelper(h, more).exited
  {
    var init := InitHelper(size, threads, sinks, false);
    InitHelperInv(size, threads, sinks, false);
    acts := Fills(init, Log(0, text), size);
    hide Inv, Drained, PushOk;
    var full := RunHelper(init, acts);
    FullHasNoRoom(full.q);
    AloneRefused(full, 1, Terminate);
    DiscardedTerminate(full, 1);
    RunJoined(init, acts, Alone(1, Terminate, 3));
    hide RunHelper, Alone, NoRoom;
    acts := acts + Alone(1, Terminate, 3);
  }
}
