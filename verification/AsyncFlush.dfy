/** What a flush request is worth: the sinks are flushed behind everything pushed before it. */
module AsyncFlush {
  import opened Options
  import opened MpmcQueue
  import opened MpmcSafety
  import opened AsyncHelper
  import opened AsyncSafety

  ghost predicate AsksFlush(m: Msg) {
    m == Flush || m == Terminate
  }

  /** From event `e` on, every sink was flushed in turn. */
  ghost predicate RoundAt(out: seq<SinkEvent>, e: nat, sinks: nat) {
    e + sinks <= |out| && forall j :: 0 <= j < sinks ==> out[e + j] == Flushed(j)
  }

  /** Every sink was flushed after it had been offered all log messages of the tickets before `i`. */
  ghost predicate FlushedBehind(w: Worker, claims: seq<Claim<Msg>>, i: nat)
    requires i <= |claims|
  {
    exists e: nat ::
      RoundAt(w.out, e, w.sinks) && forall j :: 0 <= j < w.sinks ==> LogsUpTo(claims, i) <= OfferedTo(w.out[..e], j)
  }

  /** A flush request dealt with has been carried out, or still stands. */
  ghost predicate FlushKept(h: Helper)
    requires WellFormedHelper(h)
  {
    && h.processed <= |h.q.claims|
    && forall i :: 0 <= i < h.processed && AsksFlush(h.q.claims[i].v) ==>
         h.w.flushRequested || FlushedBehind(h.w, h.q.claims, i)
  }

  lemma BehindStays(w: Worker, w': Worker, claims: seq<Claim<Msg>>, more: seq<Claim<Msg>>, i: nat)
    requires i <= |claims| && FlushedBehind(w, claims, i) && w.out <= w'.out && w'.sinks == w.sinks
    ensures FlushedBehind(w', claims + more, i)
  {
    var e: nat :| RoundAt(w.out, e, w.sinks) &&
                  forall j :: 0 <= j < w.sinks ==> LogsUpTo(claims, i) <= OfferedTo(w.out[..e], j);
    assert w'.out[..e] == w.out[..e];
    LogsUpToGrows(claims, more, i);
    assert RoundAt(w'.out, e, w'.sinks);
  }

  /** A round of flushes comes after all that was offered before it. */
  lemma FlushBehindAll(h: Helper, timerDue: bool, i: nat)
    requires HelperInv(h) && i <= h.processed && (h.w.flushRequested || timerDue)
    ensures FlushedBehind(FlushIfDue(h.w, timerDue), h.q.claims, i)
  {
    hide Inv, PushOk, WorkerOk;
    var w' := FlushIfDue(h.w, timerDue);
    assert w'.out[..|h.w.out|] == h.w.out;
    LogsUpToPrefix(h.q.claims, i, h.processed);
    assert RoundAt(w'.out, |h.w.out|, w'.sinks);
  }

  /** What the worker does with the message it took. */
  lemma ProcessedActs(w: Worker, m: Msg)
    ensures var w' := Processed(w, m);
      && w'.sinks == w.sinks && w.out <= w'.out
      && (w'.flushRequested <==> w.flushRequested || AsksFlush(m))
      && (w'.terminateRequested <==> w.terminateRequested || m == Terminate)
      && (m.Log? <==> w'.out != w.out || (m.Log? && w.sinks == 0))
  {
    if m.Log? && w.sinks > 0 { assert Offers(w.sinks, m)[0] == Offered(0, m); }
  }

  /**
    When the queue was found empty, every sink is flushed in turn exactly if a flush was requested or
    the interval is over, no request stands any more, and the worker exits exactly if a terminate
    message was taken.
  */
  lemma EmptyQueueFlushes(h: Helper, spurious: bool, timerDue: bool)
    requires HelperInv(h) && !h.exited && h.q.pcs[0] == Idle(NotReceived)
    ensures var h', before := WorkerStep(h, spurious, timerDue), |h.w.out|;
      && !h'.w.flushRequested && h.w.out <= h'.w.out && h'.processed == h.processed
      && (if h.w.flushRequested || timerDue then
            |h'.w.out| == before + h.w.sinks && RoundAt(h'.w.out, before, h.w.sinks)
          else h'.w.out == h.w.out)
      && (h'.exited <==> h.w.terminateRequested)
  {
    hide Inv, PushOk, Step;
  }

  lemma TakenIsClaimed(h: Helper)
    requires HelperInv(h) && h.q.pcs[0].Idle? && h.q.pcs[0].last.Received?
    ensures h.processed < |h.q.claims| && h.q.pcs[0].last.got == Some(h.q.claims[h.processed].v)
  {
  }

  lemma WorkerKeepsFlush(h: Helper, spurious: bool, timerDue: bool)
    requires HelperInv(h) && FlushKept(h)
    ensures FlushKept(WorkerStep(h, spurious, timerDue))
  {
    hide Inv, PushOk, Step, FlushedBehind, LogsUpTo, OfferedTo;
    var h' := WorkerStep(h, spurious, timerDue);
    if h.exited { return; }
    WorkerAccess(h.q, h.processed, WorkerChoice(h, spurious));
    WorkerShape(h, spurious, timerDue);
    var pc := h.q.pcs[0];
    if pc.Idle? && pc.last.Received? {
      TakenIsClaimed(h);
      ProcessedActs(h.w, h.q.claims[h.processed].v);
      hide Processed;
      forall i | 0 <= i < h'.processed && AsksFlush(h.q.claims[i].v)
        ensures h'.w.flushRequested || FlushedBehind(h'.w, h.q.claims, i)
      {
        if i < h.processed && FlushedBehind(h.w, h.q.claims, i) { BehindStill(h.w, h'.w, h.q.claims, i); }
      }
    } else if pc.Idle? && pc.last.NotReceived? {
      hide FlushIfDue;
      assert h'.w == FlushIfDue(h.w, timerDue);
      RoundKeeps(h, h', timerDue);
    }
  }

  lemma RoundKeeps(h: Helper, h': Helper, timerDue: bool)
    requires HelperInv(h) && FlushKept(h) && WellFormedHelper(h')
    requires h'.w == FlushIfDue(h.w, timerDue) && h'.q.claims == h.q.claims && h'.processed == h.processed
    ensures FlushKept(h')
  {
    hide HelperInv, FlushedBehind;
    forall i | 0 <= i < h'.processed && AsksFlush(h.q.claims[i].v)
      ensures h'.w.flushRequested || FlushedBehind(h'.w, h.q.claims, i)
    {
      if h.w.flushRequested || timerDue { FlushBehindAll(h, timerDue, i); }
    }
  }

  lemma BehindStill(w: Worker, w': Worker, claims: seq<Claim<Msg>>, i: nat)
    requires i <= |claims| && FlushedBehind(w, claims, i) && w.out <= w'.out && w'.sinks == w.sinks
    ensures FlushedBehind(w', claims, i)
  {
    BehindStays(w, w', claims, [], i);
    assert claims + [] == claims;
  }

  /** Other threads only add tickets. */
  lemma OthersKeepFlush(h: Helper, h': Helper, more: seq<Claim<Msg>>)
    requires WellFormedHelper(h) && WellFormedHelper(h') && FlushKept(h)
    requires h'.w == h.w && h'.processed == h.processed && h'.q.claims == h.q.claims + more
    ensures FlushKept(h')
  {
    hide FlushedBehind;
    forall i | 0 <= i < h'.processed && AsksFlush(h'.q.claims[i].v)
      ensures h'.w.flushRequested || FlushedBehind(h'.w, h'.q.claims, i)
    {
      if FlushedBehind(h.w, h.q.claims, i) { BehindStays(h.w, h'.w, h.q.claims, more, i); }
    }
  }

  lemma ActKeepsFlush(h: Helper, a: Act)
    requires HelperInv(h) && FlushKept(h)
    ensures FlushKept(ActStep(h, a))
  {
    hide Inv, WorkerOk, Drained, Step, FlushKept, WorkerStep;
    var h' := ActStep(h, a);
    match a
    case WorkerAct(spurious, timerDue) => WorkerKeepsFlush(h, spurious, timerDue);
    case PushAct(t, m) =>
      if 1 <= t < |h.q.pcs| && h.pushing[t].NotPushing? {
        assert PushOk(h, t);
        StartEnqueue(h, t, m);
      }
      assert h'.q.claims == h.q.claims + [];
      OthersKeepFlush(h, h', []);
    case ProducerAct(t, spurious) => ProducerKeepsFlush(h, a);
  }

  lemma ProducerKeepsFlush(h: Helper, a: Act)
    requires HelperInv(h) && FlushKept(h) && a.ProducerAct?
    ensures FlushKept(ActStep(h, a))
  {
    hide Inv, WorkerOk, Drained, Step, FlushKept, SentBy;
    var h' := ActStep(h, a);
    var t := a.tid;
    assert h.q.claims + [] == h.q.claims;
    if 1 <= t < |h.q.pcs| && h.pushing[t].Pushing? {
      assert PushOk(h, t);
      if !h.q.pcs[t].Idle? {
        var c := if a.spurious then SpuriousFailure else Go;
        StepOutside(h.q, t, c);
        var more := if WinsSwap(h.q, t, c) then [Claim(t, h.q.pcs[t].pos, h.q.pcs[t].v)] else [];
        OthersKeepFlush(h, h', more);
        return;
      } else if h.q.pcs[t].last.NotSent? && h.blockRetry {
        StartEnqueue(h, t, h.q.pcs[t].last.arg);
      }
    }
    OthersKeepFlush(h, h', []);
  }

  /**
    Over every interleaving: whenever the worker has dealt with a flush or terminate message, then every
    sink was flushed after having been offered all log messages of earlier tickets, or the flush is still
    requested, which the next look at an empty queue carries out.
  */
  lemma {:induction false} FlushReachesSinks(size: nat, threads: nat, sinks: nat, blockRetry: bool, acts: seq<Act>)
    requires AcceptsSize(size) && threads >= 1
    ensures FlushKept(RunHelper(InitHelper(size, threads, sinks, blockRetry), acts))
    decreases |acts|
  {
    hide ActStep, HelperInv;
    if acts == [] {
      InitHelperInv(size, threads, sinks, blockRetry);
    } else {
      hide FlushKept;
      FlushReachesSinks(size, threads, sinks, blockRetry, acts[..|acts| - 1]);
      RunHelperInv(size, threads, sinks, blockRetry, acts[..|acts| - 1]);
      ActKeepsFlush(RunHelper(InitHelper(size, threads, sinks, blockRetry), acts[..|acts| - 1]), acts[|acts| - 1]);
    }
  }

  /** And once the queue was found empty, every flush asked for so far has reached every sink. */
  lemma EmptyQueueFlushed(h: Helper, spurious: bool, timerDue: bool, i: nat)
    requires HelperInv(h) && FlushKept(h) && !h.exited && h.q.pcs[0] == Idle(NotReceived)
    requires i < h.processed && AsksFlush(h.q.claims[i].v)
    ensures var h' := WorkerStep(h, spurious, timerDue);
      i < |h'.q.claims| && FlushedBehind(h'.w, h'.q.claims, i)
  {
    hide Inv, PushOk, Step, FlushedBehind, FlushIfDue;
    WorkerKeepsFlush(h, spurious, timerDue);
    EmptyQueueFlushes(h, spurious, timerDue);
    WorkerAccess(h.q, h.processed, WorkerChoice(h, spurious));
    WorkerShape(h, spurious, timerDue);
    assert WorkerStep(h, spurious, timerDue).q.claims == h.q.claims;
  }
}
