/** What the worker and the producers of the asynchronous helper guarantee over every run. */
module AsyncSafety {
  import opened Options
  import opened MpmcQueue
  import opened MpmcSafety
  import opened AsyncHelper

  /** What sink `j` was offered, in order. */
  ghost function OfferedTo(out: seq<SinkEvent>, j: nat): seq<Msg>
    decreases |out|
  {
    if out == [] then []
    else
      var e := out[|out| - 1];
      OfferedTo(out[..|out| - 1], j) + if e.Offered? && e.sink == j then [e.m] else []
  }

  /** The log messages among the first `k` tickets. */
  ghost function LogsUpTo(claims: seq<Claim<Msg>>, k: nat): seq<Msg>
    requires k <= |claims|
  {
    if k == 0 then [] else LogsUpTo(claims, k - 1) + if claims[k - 1].v.Log? then [claims[k - 1].v] else []
  }

  /** The messages thread `t` got into the queue, in order. */
  ghost function SentBy(claims: seq<Claim<Msg>>, t: nat): seq<Msg>
    decreases |claims|
  {
    if claims == [] then []
    else
      var c := claims[|claims| - 1];
      SentBy(claims[..|claims| - 1], t) + if c.tid == t then [c.v] else []
  }

  ghost predicate HasTerminate(claims: seq<Claim<Msg>>, k: nat) {
    exists p :: 0 <= p < k && p < |claims| && claims[p].v == Terminate
  }

  ghost predicate EndsWithFlush(out: seq<SinkEvent>, sinks: nat) {
    |out| >= sinks && forall j :: 0 <= j < sinks ==> out[|out| - sinks + j] == Flushed(j)
  }

  ghost predicate WorkerOk(q: State<Msg>, processed: nat)
    requires |q.pcs| >= 1 && Histories(q)
  {
    match q.pcs[0]
    case Idle(Received(got)) => q.deqPos == processed + 1 && got == Some(q.claims[processed].v)
    case Idle(_) => q.deqPos == processed
    case DeqLoadPos => q.deqPos == processed
    case DeqLoadSeq(_) => q.deqPos == processed
    case DeqCas(_) => q.deqPos == processed
    case DeqMove(p) => q.deqPos == processed + 1 && p == processed
    case DeqPublish(p, _) => q.deqPos == processed + 1 && p == processed
    case _ => false
  }

  /** The message a thread holds unmoved, on its way into the queue. */
  ghost function Unsent(pc: Pc<Msg>): seq<Msg> {
    match pc
    case EnqLoadPos(v) => [v]
    case EnqLoadSeq(v, _) => [v]
    case EnqCas(v, _) => [v]
    case Idle(NotSent(v)) => [v]
    case _ => []
  }

  ghost predicate ProducerPc(pc: Pc<Msg>) {
    pc.EnqLoadPos? || pc.EnqLoadSeq? || pc.EnqCas? || pc.EnqMove? || pc.EnqPublish?
    || pc == Idle(Sent) || (pc.Idle? && pc.last.NotSent?)
  }

  /**
    The account of one thread: what it got into the queue is what its finished pushes sent, plus
    the message under way once its swap has won. Under the retrying policy every push begun sends.
  */
  ghost predicate Account(blockRetry: bool, worker: bool, push: Push, pc: Pc<Msg>,
                          inQueue: seq<Msg>, sent: seq<Msg>, begun: seq<Msg>)
  {
    match push
    case NotPushing =>
      (!worker ==> pc.Idle?) && inQueue == sent && (blockRetry ==> begun == sent)
    case Pushing(m) =>
      && !worker && ProducerPc(pc)
      && (Unsent(pc) == [m] || Unsent(pc) == [])
      && inQueue == (if Unsent(pc) == [] then sent + [m] else sent)
      && (blockRetry ==> begun == sent + [m])
  }

  ghost predicate PushOk(h: Helper, t: nat)
    requires WellFormedHelper(h) && t < |h.q.pcs|
  {
    Account(h.blockRetry, t == 0, h.pushing[t], h.q.pcs[t], SentBy(h.q.claims, t), h.sent[t], h.begun[t])
  }

  ghost predicate Drained(h: Helper)
    requires WellFormedHelper(h)
  {
    && h.processed <= |h.q.claims|
    && (forall j :: 0 <= j < h.w.sinks ==> OfferedTo(h.w.out, j) == LogsUpTo(h.q.claims, h.processed))
    && (h.w.terminateRequested <==> HasTerminate(h.q.claims, h.processed))
    && (h.w.terminateRequested && !h.exited ==> h.w.flushRequested)
    && (h.exited ==> h.w.terminateRequested && EndsWithFlush(h.w.out, h.w.sinks) && h.q.pcs[0] == Idle(NotReceived))
  }

  ghost predicate HelperInv(h: Helper) {
    && WellFormedHelper(h) && Inv(h.q)
    && WorkerOk(h.q, h.processed)
    && Drained(h)
    && forall t :: 0 <= t < |h.q.pcs| ==> PushOk(h, t)
  }

  ghost predicate SameSetup(h: Helper, h': Helper) {
    |h'.q.pcs| == |h.q.pcs| && h'.w.sinks == h.w.sinks && h'.blockRetry == h.blockRetry
  }

  // ---------- one queue access, seen from outside the queue ----------

  ghost predicate WinsSwap(q: State<Msg>, t: nat, c: Choice<Msg>)
    requires t < |q.pcs|
  {
    q.pcs[t].EnqCas? && q.pcs[t].pos == q.enqPos && !c.SpuriousFailure?
  }

  lemma StepOutside(q: State<Msg>, t: nat, c: Choice<Msg>)
    requires WellFormed(q) && t < |q.pcs|
    ensures var q' := Step(q, t, c);
      && q'.pcs == q.pcs[t := q'.pcs[t]]
      && q'.claims == (if WinsSwap(q, t, c) then q.claims + [Claim(t, q.pcs[t].pos, q.pcs[t].v)] else q.claims)
      && (!q.pcs[t].DeqCas? ==> q'.deqPos == q.deqPos)
  {
    hide Slot;
  }

  lemma SentByGrows(claims: seq<Claim<Msg>>, c: Claim<Msg>, t: nat)
    ensures SentBy(claims + [c], t) == SentBy(claims, t) + if c.tid == t then [c.v] else []
  {
    assert (claims + [c])[..|claims|] == claims;
  }

  lemma {:induction false} LogsUpToGrows(claims: seq<Claim<Msg>>, more: seq<Claim<Msg>>, k: nat)
    requires k <= |claims|
    ensures LogsUpTo(claims + more, k) == LogsUpTo(claims, k)
  {
    if k > 0 { LogsUpToGrows(claims, more, k - 1); }
  }

  lemma {:induction false} OfferedToAppend(out: seq<SinkEvent>, more: seq<SinkEvent>, j: nat)
    ensures OfferedTo(out + more, j) == OfferedTo(out, j) + OfferedTo(more, j)
    decreases |more|
  {
    if more == [] {
      assert out + more == out;
    } else {
      OfferedToAppend(out, more[..|more| - 1], j);
      assert (out + more)[..|out + more| - 1] == out + more[..|more| - 1];
    }
  }

  lemma {:induction false} OfferedByRound(sinks: nat, m: Msg, j: nat)
    ensures OfferedTo(Offers(sinks, m), j) == if j < sinks then [m] else []
    decreases sinks
  {
    if sinks > 0 {
      OfferedByRound(sinks - 1, m, j);
      assert Offers(sinks, m)[..sinks - 1] == Offers(sinks - 1, m);
    }
  }

  lemma {:induction false} NoOfferInFlush(sinks: nat, j: nat)
    ensures OfferedTo(Flushes(sinks), j) == []
    decreases sinks
  {
    if sinks > 0 {
      NoOfferInFlush(sinks - 1, j);
      assert Flushes(sinks)[..sinks - 1] == Flushes(sinks - 1);
    }
  }

  // ---------- producers ----------

  /** Inside `enqueue` the message stays with the thread until its swap wins. */
  lemma StepUnsent(q: State<Msg>, t: nat, c: Choice<Msg>)
    requires WellFormed(q) && t < |q.pcs| && ProducerPc(q.pcs[t]) && !q.pcs[t].Idle?
    ensures var pc' := Step(q, t, c).pcs[t];
      && ProducerPc(pc')
      && Unsent(q.pcs[t]) == Unsent(pc') + (if WinsSwap(q, t, c) then [q.pcs[t].v] else [])
      && (WinsSwap(q, t, c) ==> Unsent(pc') == [])
  {
    hide Slot;
  }

  /** A queue access of thread `t` keeps the push accounts of every thread. */
  lemma AccountsKept(h: Helper, t: nat, c: Choice<Msg>, u: nat)
    requires WellFormedHelper(h) && t < |h.q.pcs| && u < |h.q.pcs| && PushOk(h, u)
    requires if t == 0 then !h.q.pcs[t].EnqCas?
             else ProducerPc(h.q.pcs[t]) && !h.q.pcs[t].Idle? && h.pushing[t].Pushing?
    requires t == 0 ==> h.pushing[0].NotPushing?
    ensures PushOk(h.(q := Step(h.q, t, c)), u)
  {
    hide Step, SentBy;
    StepOutside(h.q, t, c);
    if t > 0 { StepUnsent(h.q, t, c); }
    if WinsSwap(h.q, t, c) { SentByGrows(h.q.claims, Claim(t, h.q.pcs[t].pos, h.q.pcs[t].v), u); }
  }

  lemma ProducerKeepsWorker(h: Helper, t: nat, c: Choice<Msg>)
    requires HelperInv(h) && 1 <= t < |h.q.pcs|
    requires ProducerPc(h.q.pcs[t]) || h.q.pcs[t].Idle?
    ensures var h' := h.(q := Step(h.q, t, c)); Inv(h'.q) && WorkerOk(h'.q, h'.processed) && Drained(h')
  {
    hide Step;
    StepOutside(h.q, t, c);
    StepInv(h.q, t, c);
    var q' := Step(h.q, t, c);
    if WinsSwap(h.q, t, c) {
      var more := [Claim(t, h.q.pcs[t].pos, h.q.pcs[t].v)];
      LogsUpToGrows(h.q.claims, more, h.processed);
      TerminateKept(h.q.claims, more, h.processed);
    }
  }

  lemma TerminateKept(claims: seq<Claim<Msg>>, more: seq<Claim<Msg>>, k: nat)
    requires k <= |claims|
    ensures HasTerminate(claims + more, k) <==> HasTerminate(claims, k)
  {
    if HasTerminate(claims, k) {
      var p :| 0 <= p < k && p < |claims| && claims[p].v == Terminate;
      assert (claims + more)[p].v == Terminate;
    }
  }

  lemma ProducerStepInv(h: Helper, t: nat, spurious: bool)
    requires HelperInv(h) && 1 <= t < |h.q.pcs|
    ensures HelperInv(ProducerStep(h, t, spurious)) && SameSetup(h, ProducerStep(h, t, spurious))
  {
    hide Step, Inv, SentBy;
    var h' := ProducerStep(h, t, spurious);
    var pc := h.q.pcs[t];
    var c := if spurious then SpuriousFailure else Go;
    assert PushOk(h, t);
    if h.pushing[t].Pushing? {
      if !pc.Idle? {
        ProducerKeepsWorker(h, t, c);
      } else if pc.last.NotSent? && h.blockRetry {
        StartEnqueue(h, t, pc.last.arg);
      }
      forall u | 0 <= u < |h.q.pcs| ensures PushOk(h', u) {
        assert PushOk(h, u);
        if !pc.Idle? { AccountsKept(h, t, c, u); }
      }
    }
  }

  /** Entering `enqueue` changes nothing but the thread's own program counter. */
  lemma StartEnqueue(h: Helper, t: nat, v: Msg)
    requires HelperInv(h) && 1 <= t < |h.q.pcs| && h.q.pcs[t].Idle?
    ensures var q' := Step(h.q, t, CallEnqueue(v));
      && q' == SetPc(h.q, t, EnqLoadPos(v))
      && Inv(q') && WorkerOk(q', h.processed) && Drained(h.(q := q'))
  {
    ProducerKeepsWorker(h, t, CallEnqueue(v));
  }

  lemma PushStepInv(h: Helper, t: nat, m: Msg)
    requires HelperInv(h) && 1 <= t < |h.q.pcs|
    ensures HelperInv(PushStep(h, t, m)) && SameSetup(h, PushStep(h, t, m))
  {
    hide Step;
    var h' := PushStep(h, t, m);
    assert PushOk(h, t);
    if h.pushing[t].NotPushing? {
      StartEnqueue(h, t, m);
      forall u | 0 <= u < |h.q.pcs| ensures PushOk(h', u) { assert PushOk(h, u); }
    }
  }

  // ---------- the worker ----------

  /** The worker's own queue accesses follow `dequeue`, and do not touch the queue of messages. */
  lemma WorkerAccess(q: State<Msg>, processed: nat, c: Choice<Msg>)
    requires Inv(q) && |q.pcs| >= 1 && WorkerOk(q, processed)
    requires if q.pcs[0].Idle? then c == CallDequeue else c.Go? || c.SpuriousFailure?
    ensures var q' := Step(q, 0, c);
      && Inv(q') && q'.claims == q.claims
      && WorkerOk(q', if q.pcs[0].Idle? && q.pcs[0].last.Received? then processed + 1 else processed)
  {
    StepInv(q, 0, c);
    WorkerFollows(q, processed, c);
  }

  lemma WorkerFollows(q: State<Msg>, processed: nat, c: Choice<Msg>)
    requires WellFormed(q) && |q.pcs| >= 1 && Histories(q) && Histories(Step(q, 0, c))
    requires ThreadOk(q, 0) && WorkerOk(q, processed)
    requires if q.pcs[0].Idle? then c == CallDequeue else c.Go? || c.SpuriousFailure?
    ensures var q' := Step(q, 0, c);
      && q'.claims == q.claims
      && WorkerOk(q', if q.pcs[0].Idle? && q.pcs[0].last.Received? then processed + 1 else processed)
  {
    hide Slot;
  }

  lemma ProcessedOut(w: Worker, m: Msg, j: nat)
    requires j < w.sinks
    ensures OfferedTo(Processed(w, m).out, j) == OfferedTo(w.out, j) + if m.Log? then [m] else []
  {
    OfferedToAppend(w.out, Offers(w.sinks, m), j);
    OfferedByRound(w.sinks, m, j);
  }

  lemma FlushedOut(w: Worker, timerDue: bool)
    ensures forall j: nat :: OfferedTo(FlushIfDue(w, timerDue).out, j) == OfferedTo(w.out, j)
    ensures w.flushRequested ==> EndsWithFlush(FlushIfDue(w, timerDue).out, w.sinks)
  {
    forall j: nat ensures OfferedTo(FlushIfDue(w, timerDue).out, j) == OfferedTo(w.out, j) {
      OfferedToAppend(w.out, Flushes(w.sinks), j);
      NoOfferInFlush(w.sinks, j);
    }
  }

  lemma TerminateNext(claims: seq<Claim<Msg>>, k: nat)
    requires k < |claims|
    ensures HasTerminate(claims, k + 1) <==> HasTerminate(claims, k) || claims[k].v == Terminate
  {
    if HasTerminate(claims, k) {
      var p :| 0 <= p < k && p < |claims| && claims[p].v == Terminate;
      assert p < k + 1;
    }
  }

  lemma WorkerShape(h: Helper, spurious: bool, timerDue: bool)
    requires WellFormedHelper(h) && !h.exited
    ensures var h' := WorkerStep(h, spurious, timerDue);
      && h'.pushing == h.pushing && h'.begun == h.begun && h'.sent == h.sent && SameSetup(h, h')
      && h'.q == (if Exits(h) then h.q else Step(h.q, 0, WorkerChoice(h, spurious)))
      && h'.processed == if h.q.pcs[0].Idle? && h.q.pcs[0].last.Received? then h.processed + 1 else h.processed
  {
    hide Step, Offers, Flushes;
  }

  lemma WorkerStepInv(h: Helper, spurious: bool, timerDue: bool)
    requires HelperInv(h)
    ensures HelperInv(WorkerStep(h, spurious, timerDue)) && SameSetup(h, WorkerStep(h, spurious, timerDue))
  {
    hide Step, Drained, SentBy;
    if !h.exited {
      var h' := WorkerStep(h, spurious, timerDue);
      var c := WorkerChoice(h, spurious);
      WorkerAccess(h.q, h.processed, c);
      WorkerDrains(h, spurious, timerDue);
      WorkerShape(h, spurious, timerDue);
      hide WorkerStep, Inv;
      forall u | 0 <= u < |h.q.pcs| ensures PushOk(h', u) {
        assert PushOk(h, u) && PushOk(h, 0);
        AccountsKept(h, 0, c, u);
      }
    }
  }

  lemma WorkerDrains(h: Helper, spurious: bool, timerDue: bool)
    requires WellFormedHelper(h) && Histories(h.q) && WorkerOk(h.q, h.processed) && Drained(h) && !h.exited
    requires Step(h.q, 0, WorkerChoice(h, spurious)).claims == h.q.claims
    ensures Drained(WorkerStep(h, spurious, timerDue))
  {
    hide Step, OfferedTo, LogsUpTo, HasTerminate;
    if h.q.pcs[0].Idle? && h.q.pcs[0].last.Received? {
      TerminateNext(h.q.claims, h.processed);
      forall j | 0 <= j < h.w.sinks
        ensures OfferedTo(Processed(h.w, h.q.claims[h.processed].v).out, j) == LogsUpTo(h.q.claims, h.processed + 1)
      {
        ProcessedOut(h.w, h.q.claims[h.processed].v, j);
        LogsUpToNext(h.q.claims, h.processed);
      }
    }
    FlushedOut(h.w, timerDue);
  }

  lemma LogsUpToNext(claims: seq<Claim<Msg>>, k: nat)
    requires k < |claims|
    ensures LogsUpTo(claims, k + 1) == LogsUpTo(claims, k) + if claims[k].v.Log? then [claims[k].v] else []
  {
  }

  // ---------- whole runs ----------

  lemma InitHelperInv(size: nat, threads: nat, sinks: nat, blockRetry: bool)
    requires AcceptsSize(size) && threads >= 1
    ensures HelperInv(InitHelper(size, threads, sinks, blockRetry))
  {
    InitInv<Msg>(size, threads);
  }

  lemma ActStepInv(h: Helper, a: Act)
    requires HelperInv(h)
    ensures HelperInv(ActStep(h, a)) && SameSetup(h, ActStep(h, a))
  {
    hide Step, HelperInv, WorkerStep, PushStep, ProducerStep;
    match a
    case WorkerAct(spurious, timerDue) => WorkerStepInv(h, spurious, timerDue);
    case PushAct(t, m) => if 1 <= t < |h.q.pcs| { PushStepInv(h, t, m); }
    case ProducerAct(t, spurious) => if 1 <= t < |h.q.pcs| { ProducerStepInv(h, t, spurious); }
  }

  lemma {:induction false} RunHelperInv(size: nat, threads: nat, sinks: nat, blockRetry: bool, acts: seq<Act>)
    requires AcceptsSize(size) && threads >= 1
    ensures var h := RunHelper(InitHelper(size, threads, sinks, blockRetry), acts);
      HelperInv(h) && |h.q.pcs| == threads && h.w.sinks == sinks && h.blockRetry == blockRetry
    decreases |acts|
  {
    hide ActStep, HelperInv;
    if acts == [] {
      InitHelperInv(size, threads, sinks, blockRetry);
    } else {
      RunHelperInv(size, threads, sinks, blockRetry, acts[..|acts| - 1]);
      ActStepInv(RunHelper(InitHelper(size, threads, sinks, blockRetry), acts[..|acts| - 1]), acts[|acts| - 1]);
    }
  }

  /**
    When the worker loop has exited, the terminate message was among the messages it took, every
    sink had been offered every log message of those tickets in ticket order, in particular all
    of those before the terminate message, and the last thing done was to flush every sink.
  */
  lemma DrainedBeforeExit(size: nat, threads: nat, sinks: nat, blockRetry: bool, acts: seq<Act>)
    requires AcceptsSize(size) && threads >= 1
    ensures
      var h := RunHelper(InitHelper(size, threads, sinks, blockRetry), acts);
      && h.processed <= |h.q.claims|
      && (forall j :: 0 <= j < sinks ==> OfferedTo(h.w.out, j) == LogsUpTo(h.q.claims, h.processed))
      && (h.exited ==>
            && HasTerminate(h.q.claims, h.processed)
            && h.processed == h.q.deqPos
            && EndsWithFlush(h.w.out, sinks))
  {
    RunHelperInv(size, threads, sinks, blockRetry, acts);
  }

  /**
    A push that retries never loses its message: at any moment the messages of thread `t` that are
    in the queue's history, followed by the one it still holds unmoved, are exactly the messages
    it began to push, in order.
  */
  lemma RetryNeverLoses(size: nat, threads: nat, sinks: nat, acts: seq<Act>, t: nat)
    requires AcceptsSize(size) && 1 <= t < threads
    ensures
      var h := RunHelper(InitHelper(size, threads, sinks, true), acts);
      && |h.q.pcs| == threads == |h.begun| == |h.pushing|
      && h.begun[t] == SentBy(h.q.claims, t) + (if h.pushing[t].Pushing? then Unsent(h.q.pcs[t]) else [])
      && (h.pushing[t].NotPushing? ==> h.begun[t] == SentBy(h.q.claims, t))
  {
    RunHelperInv(size, threads, sinks, true, acts);
    var h := RunHelper(InitHelper(size, threads, sinks, true), acts);
    assert PushOk(h, t);
  }

  /** The first terminate message is taken before the exit, with every log message before it offered. */
  lemma FirstTerminateWaits(size: nat, threads: nat, sinks: nat, blockRetry: bool, acts: seq<Act>, k: nat, j: nat)
    requires AcceptsSize(size) && threads >= 1 && j < sinks
    requires var h := RunHelper(InitHelper(size, threads, sinks, blockRetry), acts);
      h.exited && k < |h.q.claims| && h.q.claims[k].v == Terminate && !HasTerminate(h.q.claims, k)
    ensures var h := RunHelper(InitHelper(size, threads, sinks, blockRetry), acts);
      k < h.processed && LogsUpTo(h.q.claims, k) <= OfferedTo(h.w.out, j)
  {
    RunHelperInv(size, threads, sinks, blockRetry, acts);
    var h := RunHelper(InitHelper(size, threads, sinks, blockRetry), acts);
    hide RunHelper;
    if h.processed <= k { TerminateStays(h.q.claims, h.processed, k); }
    LogsUpToPrefix(h.q.claims, k, h.processed);
  }

  lemma TerminateStays(claims: seq<Claim<Msg>>, k: nat, n: nat)
    requires k <= n
    ensures HasTerminate(claims, k) ==> HasTerminate(claims, n)
  {
    if HasTerminate(claims, k) {
      var p :| 0 <= p < k && p < |claims| && claims[p].v == Terminate;
      assert p < n;
    }
  }

  lemma {:induction false} LogsUpToPrefix(claims: seq<Claim<Msg>>, k: nat, n: nat)
    requires k <= n <= |claims|
    ensures LogsUpTo(claims, k) <= LogsUpTo(claims, n)
    decreases n
  {
    if k < n { LogsUpToPrefix(claims, k, n - 1); }
  }
}
