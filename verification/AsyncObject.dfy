/** The helper object's worker loop, draining a queue that already holds the terminate message. */
module AsyncObject {
  import opened Options
  import opened MpmcObject
  import opened AsyncHelper
  import opened AsyncSafety

  class AsyncLogHelper {
    const q: MpmcBoundedQueue<Msg>
    const sinks: nat
    var flushRequested: bool
    var terminateRequested: bool
    var out: seq<SinkEvent>

    constructor (q: MpmcBoundedQueue<Msg>, sinks: nat)
      ensures this.q == q && this.sinks == sinks && View() == Worker(sinks, false, false, [])
    {
      this.q, this.sinks := q, sinks;
      flushRequested, terminateRequested, out := false, false, [];
    }

    ghost function View(): Worker
      reads this
    {
      Worker(sinks, flushRequested, terminateRequested, out)
    }

    /** Flushes every sink when a flush was requested or the interval has expired. */
    method HandleFlushInterval(timerDue: bool)
      modifies this
      ensures View() == FlushIfDue(old(View()), timerDue)
    {
      if flushRequested || timerDue {
        var s := 0;
        while s < sinks
          invariant 0 <= s <= sinks
          invariant View() == old(View()).(out := out) && out == old(out) + Flushes(s)
        {
          out := out + [Flushed(s)];
          s := s + 1;
        }
        flushRequested := false;
      }
    }

    /** Offers a log message to every sink in turn. */
    method OfferToSinks(m: Msg)
      modifies this
      ensures View() == old(View()).(out := old(out) + Offers(sinks, m))
    {
      var s := 0;
      while s < sinks
        invariant 0 <= s <= sinks
        invariant View() == old(View()).(out := out) && out == old(out) + Offers(s, m)
      {
        out := out + [Offered(s, m)];
        s := s + 1;
      }
    }

    method ProcessNextMsg(spurious: nat, timerDue: bool) returns (active: bool)
      requires q.Valid()
      modifies this, q, q.sequence
      ensures q.Valid()
      ensures old(q.Contents()) != [] ==>
        active && q.Contents() == old(q.Contents())[1..] && View() == Processed(old(View()), old(q.Contents())[0])
      ensures old(q.Contents()) != [] ==>
        var m := old(q.Contents())[0];
        && flushRequested == (old(flushRequested) || m == Flush || m == Terminate)
        && terminateRequested == (old(terminateRequested) || m == Terminate)
        && |out| == |old(out)| + (if m.Log? then sinks else 0) && old(out) <= out
        && forall j :: 0 <= j < |out| - |old(out)| ==> out[|old(out)| + j] == Offered(j, m)
      ensures old(q.Contents()) == [] ==>
        active == !old(terminateRequested) && q.Contents() == [] && View() == FlushIfDue(old(View()), timerDue)
    {
      var incoming := q.Dequeue(spurious);
      if incoming.Some? {
        match incoming.value {
          case Flush =>
            flushRequested := true;
          case Terminate =>
            flushRequested := true;
            terminateRequested := true;
          case Log(_, _) =>
            OfferToSinks(incoming.value);
        }
        return true;
      }
      HandleFlushInterval(timerDue);
      return !terminateRequested;
    }

    /**
      With the terminate message already in the queue and no producer left, the loop ends: every
      message has been dealt with in order, and the sinks are flushed last.
    */
    method WorkerLoop(timerDue: bool)
      requires q.Valid() && Terminate in q.Contents()
      modifies this, q, q.sequence
      ensures q.Valid() && q.Contents() == []
      ensures View() == FlushIfDue(ProcessedAll(old(View()), old(q.Contents())), timerDue)
    {
      hide Processed, FlushIfDue, ProcessedAll;
      var active := true;
      NoneProcessed(View());
      ghost var all := q.Contents();
      ghost var done := 0;
      while active
        invariant q.Valid() && 0 <= done <= |all|
        invariant if active then q.Contents() == all[done..] else done == |all| && q.Contents() == []
        invariant View() == if active then ProcessedAll(old(View()), all[..done])
                            else FlushIfDue(ProcessedAll(old(View()), all), timerDue)
        decreases active, |all| - done
      {
        if done < |all| { ProcessedNext(old(View()), all, done); } else { assert all[..done] == all; }
        TerminateSeen(old(View()), all[..done]);
        active := ProcessNextMsg(0, timerDue);
        if active { done := done + 1; }
      }
    }
  }

  /** The worker after dealing with a sequence of messages. */
  ghost function ProcessedAll(w: Worker, ms: seq<Msg>): Worker
    decreases |ms|
  {
    if ms == [] then w else Processed(ProcessedAll(w, ms[..|ms| - 1]), ms[|ms| - 1])
  }

  lemma NoneProcessed(w: Worker)
    ensures ProcessedAll(w, []) == w
  {
  }

  lemma ProcessedNext(w: Worker, all: seq<Msg>, k: nat)
    requires k < |all|
    ensures ProcessedAll(w, all[..k + 1]) == Processed(ProcessedAll(w, all[..k]), all[k])
    ensures all[k..][0] == all[k] && all[k..][1..] == all[k + 1..]
  {
    assert all[..k + 1][..k] == all[..k];
  }

  lemma {:induction false} TerminateSeen(w: Worker, ms: seq<Msg>)
    ensures ProcessedAll(w, ms).terminateRequested <==> w.terminateRequested || Terminate in ms
    decreases |ms|
  {
    if ms != [] {
      TerminateSeen(w, ms[..|ms| - 1]);
      assert ms == ms[..|ms| - 1] + [ms[|ms| - 1]];
    }
  }

  ghost function LogsOf(ms: seq<Msg>): seq<Msg>
    decreases |ms|
  {
    if ms == [] then []
    else LogsOf(ms[..|ms| - 1]) + if ms[|ms| - 1].Log? then [ms[|ms| - 1]] else []
  }

  /** Every sink is offered exactly the log messages, in order, and the last event is the flush. */
  lemma {:induction false} DrainedLog(w: Worker, ms: seq<Msg>, timerDue: bool, j: nat)
    requires j < w.sinks
    ensures ProcessedAll(w, ms).sinks == w.sinks
    ensures OfferedTo(ProcessedAll(w, ms).out, j) == OfferedTo(w.out, j) + LogsOf(ms)
    ensures Flush in ms || Terminate in ms || timerDue ==>
      var end := FlushIfDue(ProcessedAll(w, ms), timerDue);
      EndsWithFlush(end.out, w.sinks) && OfferedTo(end.out, j) == OfferedTo(w.out, j) + LogsOf(ms)
    decreases |ms|
  {
    if ms != [] {
      DrainedLog(w, ms[..|ms| - 1], timerDue, j);
      ProcessedOut(ProcessedAll(w, ms[..|ms| - 1]), ms[|ms| - 1], j);
    }
    FlushPending(w, ms);
    FlushedOut(ProcessedAll(w, ms), timerDue);
  }

  lemma {:induction false} FlushPending(w: Worker, ms: seq<Msg>)
    ensures Flush in ms || Terminate in ms ==> ProcessedAll(w, ms).flushRequested
    decreases |ms|
  {
    if ms != [] {
      FlushPending(w, ms[..|ms| - 1]);
      assert ms == ms[..|ms| - 1] + [ms[|ms| - 1]];
    }
  }
}
