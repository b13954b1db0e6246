/** Whole-run guarantees of the thread pool, over every interleaving of its steps. */
module ThreadPoolSafety {
  import opened ThreadPool

  /** How many workers are asleep on the condition. */
  ghost function Asleep(ws: seq<Worker>): nat
    decreases |ws|
  {
    if ws == [] then 0 else Asleep(ws[..|ws| - 1]) + if ws[|ws| - 1].Waiting? then 1 else 0
  }

  ghost function Awake(ws: seq<Worker>): int {
    |ws| - Asleep(ws)
  }

  /** Tasks leave the queue in the order they were accepted. */
  ghost predicate Fifo<T>(p: Pool<T>) {
    && |p.accepted| == |p.started| + |p.m.tasks|
    && p.m.tasks == p.accepted[|p.started|..]
    && forall k :: 0 <= k < |p.started| ==> p.started[k].task == p.accepted[k]
  }

  /** Every started task is either being run by the worker that took it, or finished, and not twice. */
  ghost predicate Once<T>(p: Pool<T>) {
    && (forall k :: 0 <= k < |p.started| ==>
          p.started[k].worker < |p.workers| && (p.workers[p.started[k].worker] == Running(k) <==> k !in p.finished))
    && (forall w :: 0 <= w < |p.workers| && p.workers[w].Running? ==>
          p.workers[w].task < |p.started| && p.started[p.workers[w].task].worker == w)
    && (forall i :: 0 <= i < |p.finished| ==> p.finished[i] < |p.started|)
    && (forall i, j :: 0 <= i < j < |p.finished| ==> p.finished[i] != p.finished[j])
  }

  /** While a worker sleeps, every queued task has a notification in flight or an awake worker of its own. */
  ghost predicate Covered<T>(p: Pool<T>) {
    Asleep(p.workers) > 0 ==> |p.m.tasks| <= p.notifies + Awake(p.workers)
  }

  ghost predicate Phases<T>(p: Pool<T>) {
    && (p.m.stop <==> p.phase != Serving)
    && (p.phase == Joining || p.phase == Returned ==> !SomeWaiting(p.workers))
    && (p.phase == Returned ==> AllExited(p.workers))
    && (forall w :: 0 <= w < |p.workers| && p.workers[w].Exited? ==> p.m.stop && p.m.tasks == [])
  }

  ghost predicate PoolInv<T>(p: Pool<T>) {
    Fifo(p) && Once(p) && Covered(p) && Phases(p)
  }

  lemma {:induction false} AsleepUpdate(ws: seq<Worker>, i: nat, w: Worker)
    requires i < |ws|
    ensures Asleep(ws[i := w]) + (if ws[i].Waiting? then 1 else 0) == Asleep(ws) + if w.Waiting? then 1 else 0
    decreases |ws|
  {
    var init := ws[..|ws| - 1];
    if i == |ws| - 1 {
      assert ws[i := w][..|ws| - 1] == init;
    } else {
      assert ws[i := w][..|ws| - 1] == init[i := w];
      AsleepUpdate(init, i, w);
    }
  }

  lemma {:induction false} AsleepBounds(ws: seq<Worker>)
    ensures Asleep(ws) <= |ws|
    ensures Asleep(ws) > 0 <==> SomeWaiting(ws)
    ensures Asleep(ws) == |ws| <==> forall i :: 0 <= i < |ws| ==> ws[i].Waiting?
    decreases |ws|
  {
    if ws != [] {
      var init := ws[..|ws| - 1];
      AsleepBounds(init);
      assert forall i :: 0 <= i < |init| ==> init[i] == ws[i];
      if SomeWaiting(init) {
        var i :| 0 <= i < |init| && init[i].Waiting?;
        assert ws[i].Waiting?;
      }
      assert ws[|ws| - 1].Waiting? ==> SomeWaiting(ws);
    }
  }

  lemma WorkerKeeps<T>(p: Pool<T>, w: nat)
    requires PoolInv(p) && w < |p.workers|
    ensures PoolInv(RunWorker(p, w))
  {
    hide Once, Phases;
    var p' := RunWorker(p, w);
    AsleepUpdate(p.workers, w, p'.workers[w]);
    AsleepBounds(p.workers);
    AsleepBounds(p'.workers);
    assert Phases(p') by { WorkerPhases(p, w); }
    assert Once(p') by { WorkerOnce(p, w); }
  }

  lemma WorkerPhases<T>(p: Pool<T>, w: nat)
    requires Phases(p) && w < |p.workers|
    ensures Phases(RunWorker(p, w))
  {
    var p' := RunWorker(p, w);
    if SomeWaiting(p'.workers) {
      var i :| 0 <= i < |p'.workers| && p'.workers[i].Waiting?;
      if i != w { assert p.workers[i].Waiting?; }
    }
  }

  lemma WorkerOnce<T>(p: Pool<T>, w: nat)
    requires Once(p) && w < |p.workers|
    ensures Once(RunWorker(p, w))
  {
    if p.workers[w].Running? {
      FinishOnce(p, w);
    } else if p.workers[w].AtLock? && Look(p.m).Take? {
      TakeOnce(p, w);
    }
  }

  lemma FinishOnce<T>(p: Pool<T>, w: nat)
    requires Once(p) && w < |p.workers| && p.workers[w].Running?
    ensures Once(RunWorker(p, w))
  {
    var k := p.workers[w].task;
    var p' := RunWorker(p, w);
    assert forall j :: j in p'.finished <==> j in p.finished || j == k;
    assert k !in p.finished;
    forall i | 0 <= i < |p.finished| ensures p.finished[i] != k { assert p.finished[i] in p.finished; }
  }

  lemma TakeOnce<T>(p: Pool<T>, w: nat)
    requires Once(p) && w < |p.workers| && p.workers[w].AtLock? && Look(p.m).Take?
    ensures Once(RunWorker(p, w))
  {
    forall i | 0 <= i < |p.finished| ensures p.finished[i] != |p.started| { }
  }

  lemma WakeKeeps<T>(p: Pool<T>, w: nat, notified: bool)
    requires PoolInv(p) && w < |p.workers| && p.workers[w].Waiting? && (notified ==> p.notifies > 0)
    ensures PoolInv(p.(workers := p.workers[w := AtLock], notifies := if notified then p.notifies - 1 else p.notifies))
  {
    AsleepUpdate(p.workers, w, AtLock);
    var p' := p.(workers := p.workers[w := AtLock], notifies := if notified then p.notifies - 1 else p.notifies);
    if SomeWaiting(p'.workers) {
      var i :| 0 <= i < |p'.workers| && p'.workers[i].Waiting?;
      assert p.workers[i].Waiting?;
    }
  }

  lemma WakeAllKeeps<T>(p: Pool<T>)
    requires PoolInv(p) && p.phase == Stopping
    ensures PoolInv(p.(workers := WakeAll(p.workers), phase := Joining))
  {
    var p' := p.(workers := WakeAll(p.workers), phase := Joining);
    AsleepBounds(p'.workers);
    assert !SomeWaiting(p'.workers);
    assert forall w :: 0 <= w < |p.workers| && !p.workers[w].Waiting? ==> p'.workers[w] == p.workers[w];
  }

  lemma EnqueueKeeps<T>(p: Pool<T>, task: T)
    requires PoolInv(p)
    ensures PoolInv(PoolStep(p, Enqueue(task)))
  {
  }

  lemma PoolStepInv<T>(p: Pool<T>, a: Act<T>)
    requires PoolInv(p)
    ensures PoolInv(PoolStep(p, a)) && |PoolStep(p, a).workers| == |p.workers|
  {
    hide Fifo, Once, Look, Pop;
    AsleepBounds(p.workers);
    match a
    case Enqueue(task) => EnqueueKeeps(p, task);
    case NotifyOne(w) =>
      if p.notifies > 0 && w < |p.workers| && p.workers[w].Waiting? { WakeKeeps(p, w, true); }
      else { CountersKeep(p, PoolStep(p, a)); }
    case WorkerStep(w) => if w < |p.workers| { WorkerKeeps(p, w); }
    case SpuriousWake(w) => if w < |p.workers| && p.workers[w].Waiting? { WakeKeeps(p, w, false); }
    case SetStop => CountersKeep(p, PoolStep(p, a));
    case NotifyAll => if p.phase == Stopping { WakeAllKeeps(p); }
    case JoinReturns => CountersKeep(p, PoolStep(p, a));
  }

  lemma CountersKeep<T>(p: Pool<T>, p': Pool<T>)
    requires Fifo(p) && Once(p) && p'.m.tasks == p.m.tasks && p'.workers == p.workers
    requires p'.accepted == p.accepted && p'.started == p.started && p'.finished == p.finished
    ensures Fifo(p') && Once(p')
  {
  }

  lemma {:induction false} RunPoolInv<T>(threads: nat, acts: seq<Act<T>>)
    ensures var p := RunPool(InitPool(threads), acts); PoolInv(p) && |p.workers| == threads
    decreases |acts|
  {
    if acts == [] {
      AsleepBounds(InitPool<T>(threads).workers);
    } else {
      RunPoolInv(threads, acts[..|acts| - 1]);
      PoolStepInv(RunPool(InitPool(threads), acts[..|acts| - 1]), acts[|acts| - 1]);
    }
  }

  /**
    No lost wakeup: with a task queued, either some worker is awake, or a notification is still
    in flight. More than that: while any worker sleeps, there are at least as many notifications
    in flight and awake workers as queued tasks.
  */
  lemma NoLostWakeup<T>(threads: nat, acts: seq<Act<T>>)
    requires threads >= 1
    ensures
      var p := RunPool(InitPool(threads), acts);
      && (SomeWaiting(p.workers) ==> |p.m.tasks| <= p.notifies + Awake(p.workers))
      && (p.m.tasks != [] && p.notifies == 0 ==>
            exists w :: 0 <= w < |p.workers| && (p.workers[w].AtLock? || p.workers[w].Running?))
  {
    RunPoolInv(threads, acts);
    AsleepBounds(RunPool(InitPool(threads), acts).workers);
  }

  /** Tasks start in the order accepted, each by one worker and once; it runs until it finishes, once. */
  lemma StartedOnceInOrder<T>(threads: nat, acts: seq<Act<T>>)
    ensures
      var p := RunPool(InitPool(threads), acts);
      && |p.started| <= |p.accepted|
      && p.m.tasks == p.accepted[|p.started|..]
      && (forall k :: 0 <= k < |p.started| ==>
            && p.started[k].task == p.accepted[k]
            && p.started[k].worker < |p.workers|
            && (p.workers[p.started[k].worker] == Running(k) <==> k !in p.finished))
      && (forall i, j :: 0 <= i < j < |p.finished| ==> p.finished[i] != p.finished[j])
  {
    RunPoolInv(threads, acts);
  }

  /** When the destructor of a pool with a worker returns, every accepted task has run to its end. */
  lemma DestructorDrains<T>(threads: nat, acts: seq<Act<T>>)
    requires threads >= 1
    requires RunPool(InitPool<T>(threads), acts).phase == Returned
    ensures
      var p := RunPool(InitPool(threads), acts);
      p.m.tasks == [] && forall k :: 0 <= k < |p.accepted| ==> k in p.finished
  {
    RunPoolInv(threads, acts);
    var p := RunPool(InitPool<T>(threads), acts);
    assert p.workers[0].Exited?;
  }

  /** A pool without workers starts nothing, so it drains only if nothing was accepted. */
  lemma {:induction false} NoWorkersNoStarts<T>(acts: seq<Act<T>>)
    ensures
      var p := RunPool(InitPool(0), acts);
      && p.started == [] && p.workers == []
      && ((forall k :: 0 <= k < |p.accepted| ==> k in p.finished) <==> p.accepted == [])
    decreases |acts|
  {
    hide PoolInv, Fifo, Covered, Phases;
    RunPoolInv(0, acts);
    if acts != [] { NoWorkersNoStarts(acts[..|acts| - 1]); }
    OnceHolds(RunPool(InitPool(0), acts));
    NoneFinished(RunPool(InitPool(0), acts));
    assert 0 !in RunPool(InitPool<T>(0), acts).finished;
  }

  lemma OnceHolds<T>(p: Pool<T>)
    requires PoolInv(p)
    ensures Once(p)
  {
  }

  lemma NoneFinished<T>(p: Pool<T>)
    requires Once(p)
    ensures p.started == [] ==> p.finished == []
  {
    if |p.finished| > 0 { assert p.finished[0] < |p.started|; }
  }

  /** Such a pool can indeed be destroyed with an accepted task never run. */
  lemma EmptyPoolDropsTasks<T>(task: T)
    ensures
      var queued := PoolStep(InitPool(0), Enqueue(task));
      var joining := PoolStep(PoolStep(queued, SetStop), NotifyAll);
      var p := PoolStep(joining, JoinReturns);
      p.phase == Returned && p.accepted == [task] && p.started == []
  {
    var joining := PoolStep(PoolStep(PoolStep(InitPool(0), Enqueue(task)), SetStop), NotifyAll);
    assert joining.workers == [] && joining.phase == Joining;
  }

  // ---------- every phase makes progress ----------

  /** The steps a worker can take before it sleeps or leaves, beyond those of tasks still queued. */
  ghost function Weight(w: Worker): nat {
    match w case AtLock => 1 case Waiting => 0 case Running(_) => 2 case Exited => 0
  }

  ghost function Weights(ws: seq<Worker>): nat
    decreases |ws|
  {
    if ws == [] then 0 else Weights(ws[..|ws| - 1]) + Weight(ws[|ws| - 1])
  }

  /** Steps still to come before all workers sleep or have left, if nothing more is enqueued. */
  ghost function Remaining<T>(p: Pool<T>): nat {
    2 * |p.m.tasks| + Weights(p.workers)
  }

  ghost predicate IsAwake<T>(p: Pool<T>, w: nat) {
    w < |p.workers| && (p.workers[w].AtLock? || p.workers[w].Running?)
  }

  lemma {:induction false} WeightsUpdate(ws: seq<Worker>, i: nat, w: Worker)
    requires i < |ws|
    ensures Weights(ws[i := w]) + Weight(ws[i]) == Weights(ws) + Weight(w)
    decreases |ws|
  {
    var init := ws[..|ws| - 1];
    if i == |ws| - 1 {
      assert ws[i := w][..|ws| - 1] == init;
    } else {
      assert ws[i := w][..|ws| - 1] == init[i := w];
      WeightsUpdate(init, i, w);
    }
  }

  /**
    What a worker at the lock does: with a task queued it starts the oldest one, stopped or not; with
    none it sleeps, or leaves if the pool is stopped. One that runs a task finishes it and comes back.
  */
  lemma WorkerActs<T>(p: Pool<T>, w: nat)
    requires IsAwake(p, w)
    ensures var q := PoolStep(p, WorkerStep(w));
      && q.accepted == p.accepted && q.phase == p.phase && q.notifies == p.notifies && q.m.stop == p.m.stop
      && |q.workers| == |p.workers| && (forall v :: 0 <= v < |p.workers| && v != w ==> q.workers[v] == p.workers[v])
      && (p.workers[w].AtLock? && p.m.tasks != [] ==>
            && q.started == p.started + [Start(w, p.m.tasks[0])] && q.m.tasks == p.m.tasks[1..]
            && q.workers[w] == Running(|p.started|) && q.finished == p.finished)
      && (p.workers[w].AtLock? && p.m.tasks == [] ==>
            && q.started == p.started && q.m.tasks == [] && q.finished == p.finished
            && q.workers[w] == if p.m.stop then Exited else Waiting)
      && (p.workers[w].Running? ==>
            && q.started == p.started && q.m.tasks == p.m.tasks && q.workers[w] == AtLock
            && q.finished == p.finished + [p.workers[w].task])
  {
  }

  /** Whatever the phase, every step of an awake worker takes one off what remains. */
  lemma AwakeProgresses<T>(p: Pool<T>, w: nat)
    requires IsAwake(p, w)
    ensures Remaining(PoolStep(p, WorkerStep(w))) == Remaining(p) - 1
  {
    hide RunWorker;
    WorkerActs(p, w);
    var q := PoolStep(p, WorkerStep(w));
    assert q.workers == p.workers[w := q.workers[w]];
    WeightsUpdate(p.workers, w, q.workers[w]);
  }

  /**
    `enqueue` refuses exactly when the pool is stopped. A notification wakes one sleeper, is lost if nobody sleeps,
    and a sleeper may also wake without one.
  */
  lemma WakingActs<T>(p: Pool<T>, task: T, w: nat)
    ensures var q := PoolStep(p, Enqueue(task));
      if p.m.stop then q == p
      else q == p.(accepted := p.accepted + [task], m := p.m.(tasks := p.m.tasks + [task]), notifies := p.notifies + 1)
    ensures w < |p.workers| && p.workers[w].Waiting? ==>
      && PoolStep(p, SpuriousWake(w)) == p.(workers := p.workers[w := AtLock])
      && (p.notifies > 0 ==>
            PoolStep(p, NotifyOne(w)) == p.(workers := p.workers[w := AtLock], notifies := p.notifies - 1))
    ensures p.notifies > 0 && !SomeWaiting(p.workers) ==> PoolStep(p, NotifyOne(w)) == p.(notifies := p.notifies - 1)
  {
  }

  lemma QueuedMeansAwake<T>(p: Pool<T>)
    requires PoolInv(p) && p.workers != [] && p.notifies == 0
    ensures p.m.tasks == [] || exists w :: IsAwake(p, w)
  {
    AsleepBounds(p.workers);
    if p.m.tasks != [] {
      var w :| 0 <= w < |p.workers| && !p.workers[w].Waiting?;
      assert IsAwake(p, w);
    }
  }

  /**
    A pool with a worker that has come to rest is done: with no worker awake and no notification in
    flight, every accepted task has run to its end.
  */
  lemma RestMeansDone<T>(threads: nat, acts: seq<Act<T>>)
    requires threads >= 1
    requires var p := RunPool(InitPool<T>(threads), acts); p.notifies == 0 && forall w :: !IsAwake(p, w)
    ensures var p := RunPool(InitPool(threads), acts);
      p.m.tasks == [] && |p.started| == |p.accepted| && forall k :: 0 <= k < |p.accepted| ==> k in p.finished
  {
    hide RunPool;
    RunPoolInv(threads, acts);
    var p := RunPool(InitPool<T>(threads), acts);
    QueuedMeansAwake(p);
    forall k | 0 <= k < |p.started| ensures k in p.finished {
      assert !IsAwake(p, p.started[k].worker);
    }
  }

  // ---------- the destructor terminates ----------

  /**
    Once the waiters are notified, every step of a worker that has not left brings the join
    nearer, no other step delays it, and until it is reached some worker can step.
  */
  lemma JoinProgresses<T>(p: Pool<T>, a: Act<T>)
    requires PoolInv(p) && p.phase == Joining
    ensures Remaining(PoolStep(p, a)) <= Remaining(p)
    ensures a.WorkerStep? && a.worker < |p.workers| && !p.workers[a.worker].Exited? ==>
      Remaining(PoolStep(p, a)) < Remaining(p)
    ensures AllExited(p.workers) || exists w :: 0 <= w < |p.workers| && (p.workers[w].AtLock? || p.workers[w].Running?)
    ensures PoolStep(p, a).phase == Joining || PoolStep(p, a).phase == Returned
  {
    if a.WorkerStep? && a.worker < |p.workers| {
      WeightsUpdate(p.workers, a.worker, RunWorker(p, a.worker).workers[a.worker]);
    }
    if !AllExited(p.workers) {
      var w :| 0 <= w < |p.workers| && !p.workers[w].Exited?;
      assert !p.workers[w].Waiting?;
    }
  }

  lemma {:induction false} RunJoined<T>(p: Pool<T>, acts: seq<Act<T>>, more: seq<Act<T>>)
    ensures RunPool(p, acts + more) == RunPool(RunPool(p, acts), more)
    decreases |more|
  {
    hide PoolStep;
    if more == [] {
      assert acts + more == acts;
    } else {
      RunJoined(p, acts, more[..|more| - 1]);
      assert (acts + more)[..|acts + more| - 1] == acts + more[..|more| - 1];
    }
  }

  lemma RunOne<T>(p: Pool<T>, a: Act<T>)
    ensures RunPool(p, [a]) == PoolStep(p, a)
  {
    assert [a][..0] == [];
    assert RunPool(p, []) == p;
  }

  /** While the destructor joins, the workers can finish what was accepted, and it returns. */
  lemma {:induction false} JoinReached<T>(p: Pool<T>) returns (acts: seq<Act<T>>)
    requires PoolInv(p) && p.phase == Joining
    ensures RunPool(p, acts).phase == Returned && RunPool(p, acts).accepted == p.accepted
    decreases Remaining(p)
  {
    hide Fifo, Once, Covered, RunPool;
    if AllExited(p.workers) {
      RunOne(p, JoinReturns);
      return [JoinReturns];
    }
    var w :| 0 <= w < |p.workers| && !p.workers[w].Exited?;
    assert !p.workers[w].Waiting?;
    AwakeProgresses(p, w);
    PoolStepInv(p, WorkerStep(w));
    WorkerActs(p, w);
    hide PoolStep;
    var rest := JoinReached(PoolStep(p, WorkerStep(w)));
    acts := [WorkerStep(w)] + rest;
    RunJoined(p, [WorkerStep(w)], rest);
    RunOne(p, WorkerStep(w));
  }

  /**
    No state is stuck: whatever happened before, the pool can be stopped, notified and joined, and
    with a worker every task accepted has then run to its end.
  */
  lemma DestructorReturns<T>(threads: nat, before: seq<Act<T>>) returns (acts: seq<Act<T>>)
    ensures var was, p := RunPool(InitPool(threads), before), RunPool(InitPool(threads), before + acts);
      && p.phase == Returned && p.accepted == was.accepted
      && (threads >= 1 ==> forall k :: 0 <= k < |was.accepted| ==> k in p.finished)
  {
    hide RunPool, PoolInv;
    RunPoolInv(threads, before);
    var p := RunPool(InitPool<T>(threads), before);
    var stop, notify := [SetStop], [NotifyAll];
    RunOne(p, SetStop);
    PoolStepInv(p, SetStop);
    var stopped := PoolStep(p, SetStop);
    RunOne(stopped, NotifyAll);
    PoolStepInv(stopped, NotifyAll);
    var joining := PoolStep(stopped, NotifyAll);
    if p.phase == Returned {
      acts := [];
      assert before + [] == before;
    } else {
      var rest := JoinReached(joining);
      RunJoined(p, stop, notify);
      RunJoined(p, stop + notify, rest);
      acts := stop + notify + rest;
      RunJoined(InitPool(threads), before, acts);
    }
    if threads >= 1 { DestructorDrains<T>(threads, before + acts); }
  }
}
