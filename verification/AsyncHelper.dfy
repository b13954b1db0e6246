/**
  The asynchronous log helper: producers push messages into the bounded queue, and one worker
  thread drains it into the sinks, flushes them and terminates.

  Thread 0 of the queue machine is the worker, the others are producers; every access to the
  queue is one step of that machine, so the interleavings are those of the queue.
*/
module AsyncHelper {
  import opened Options
  import opened MpmcQueue

  datatype Msg = Log(level: nat, text: string) | Flush | Terminate

  datatype SinkEvent = Offered(sink: nat, m: Msg) | Flushed(sink: nat)

  /** Whether a producer is inside `push_msg`, and with which message. */
  datatype Push = NotPushing | Pushing(m: Msg)

  /** What the worker thread updates, with the record of what it did to its sinks. */
  datatype Worker = Worker(sinks: nat, flushRequested: bool, terminateRequested: bool, out: seq<SinkEvent>)

  datatype Helper = Helper(
    q: State<Msg>,
    w: Worker,
    blockRetry: bool,
    exited: bool,
    pushing: seq<Push>,
    // histories: messages the worker has dealt with, and per thread the pushes begun and the ones that sent
    processed: nat,
    begun: seq<seq<Msg>>,
    sent: seq<seq<Msg>>)

  datatype Act =
    | WorkerAct(spurious: bool, timerDue: bool)
    | PushAct(tid: nat, m: Msg)
    | ProducerAct(tid: nat, spurious: bool)

  predicate WellFormedHelper(h: Helper) {
    && WellFormed(h.q) && |h.q.pcs| >= 1
    && |h.pushing| == |h.begun| == |h.sent| == |h.q.pcs|
  }

  function InitHelper(size: nat, threads: nat, sinks: nat, blockRetry: bool): (h: Helper)
    requires AcceptsSize(size) && threads >= 1
    ensures WellFormedHelper(h)
  {
    Helper(Init(size, threads), Worker(sinks, false, false, []), blockRetry, false,
           seq(threads, _ => NotPushing), 0, seq(threads, _ => []), seq(threads, _ => []))
  }

  function Offers(sinks: nat, m: Msg): seq<SinkEvent> {
    seq(sinks, j requires 0 <= j => Offered(j, m))
  }

  function Flushes(sinks: nat): seq<SinkEvent> {
    seq(sinks, j requires 0 <= j => Flushed(j))
  }

  /** `process_next_msg` after a successful dequeue. */
  function Processed(w: Worker, m: Msg): Worker {
    match m
    case Flush => w.(flushRequested := true)
    case Terminate => w.(flushRequested := true, terminateRequested := true)
    case Log(_, _) => w.(out := w.out + Offers(w.sinks, m))
  }

  /** `handle_flush_interval`: the only place where sinks are flushed. */
  function FlushIfDue(w: Worker, timerDue: bool): Worker {
    if w.flushRequested || timerDue then w.(out := w.out + Flushes(w.sinks), flushRequested := false) else w
  }

  /** The worker's next queue access: `process_next_msg` always starts with a dequeue. */
  function WorkerChoice(h: Helper, spurious: bool): Choice<Msg>
    requires WellFormedHelper(h)
  {
    if h.q.pcs[0].Idle? then CallDequeue else if spurious then SpuriousFailure else Go
  }

  /** `process_next_msg` returns false: the queue was found empty after a terminate message. */
  predicate Exits(h: Helper)
    requires WellFormedHelper(h)
  {
    var pc := h.q.pcs[0];
    pc.Idle? && pc.last.NotReceived? && h.w.terminateRequested
  }

  /** What `process_next_msg` does after its dequeue returned, if it just did. */
  function AfterDequeue(h: Helper, pc: Pc<Msg>, timerDue: bool): Helper {
    if pc.Idle? && pc.last.Received? then
      var dealt := h.(processed := h.processed + 1);
      if pc.last.got.Some? then dealt.(w := Processed(h.w, pc.last.got.value)) else dealt
    else if pc.Idle? && pc.last.NotReceived? then h.(w := FlushIfDue(h.w, timerDue))
    else h
  }

  function WorkerStep(h: Helper, spurious: bool, timerDue: bool): (h': Helper)
    requires WellFormedHelper(h)
    ensures WellFormedHelper(h')
  {
    if h.exited then h
    else
      var dealt := AfterDequeue(h, h.q.pcs[0], timerDue);
      if Exits(h) then dealt.(exited := true)
      else dealt.(q := Step(h.q, 0, WorkerChoice(h, spurious)))
  }

  /** `push_msg` between its calls of `enqueue`: a refused message is offered again, or discarded. */
  function ProducerStep(h: Helper, t: nat, spurious: bool): (h': Helper)
    requires WellFormedHelper(h) && 1 <= t < |h.q.pcs|
    ensures WellFormedHelper(h')
  {
    var pc := h.q.pcs[t];
    if h.pushing[t].NotPushing? then h
    else if pc.Idle? && !pc.last.NotSent? then
      h.(pushing := h.pushing[t := NotPushing], sent := h.sent[t := h.sent[t] + [h.pushing[t].m]])
    else if pc.Idle? && !h.blockRetry then h.(pushing := h.pushing[t := NotPushing])
    else
      var c := if pc.Idle? then CallEnqueue(pc.last.arg) else if spurious then SpuriousFailure else Go;
      h.(q := Step(h.q, t, c))
  }

  function PushStep(h: Helper, t: nat, m: Msg): (h': Helper)
    requires WellFormedHelper(h) && 1 <= t < |h.q.pcs|
    ensures WellFormedHelper(h')
  {
    if h.pushing[t].NotPushing? then
      h.(pushing := h.pushing[t := Pushing(m)], begun := h.begun[t := h.begun[t] + [m]],
         q := Step(h.q, t, CallEnqueue(m)))
    else h
  }

  function ActStep(h: Helper, a: Act): (h': Helper)
    requires WellFormedHelper(h)
    ensures WellFormedHelper(h')
  {
    match a
    case WorkerAct(spurious, timerDue) => WorkerStep(h, spurious, timerDue)
    case PushAct(t, m) => if 1 <= t < |h.q.pcs| then PushStep(h, t, m) else h
    case ProducerAct(t, spurious) => if 1 <= t < |h.q.pcs| then ProducerStep(h, t, spurious) else h
  }

  function RunHelper(h: Helper, acts: seq<Act>): (h': Helper)
    requires WellFormedHelper(h)
    ensures WellFormedHelper(h')
    decreases |acts|
  {
    if acts == [] then h else ActStep(RunHelper(h, acts[..|acts| - 1]), acts[|acts| - 1])
  }
}
