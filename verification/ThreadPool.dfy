/**
  The thread pool: a task queue and a stop flag under one mutex, with a condition variable.

  Every critical section is one step, since the mutex serialises them; waiting on the condition
  releases the mutex and falls asleep at once. A notification is sent after its critical section,
  so it can still be in flight while other threads run. Sleeping workers may also wake spuriously.
*/
module ThreadPool {

  datatype Worker = AtLock | Waiting | Running(task: nat) | Exited

  /** The destructor: not called, `stop` set but waiters not yet notified, joining, returned. */
  datatype Phase = Serving | Stopping | Joining | Returned

  datatype Start<T> = Start(worker: nat, task: T)

  /** The state the mutex protects. */
  datatype Monitor<T> = Monitor(tasks: seq<T>, stop: bool)

  /** What a worker does on leaving its critical section. */
  datatype Verdict<T> = Sleep | Leave | Take(task: T)

  datatype Pool<T> = Pool(
    m: Monitor<T>,
    workers: seq<Worker>,
    notifies: nat,
    phase: Phase,
    // histories: tasks accepted by `enqueue`, tasks started and indices of finished ones, in order
    accepted: seq<T>,
    started: seq<Start<T>>,
    finished: seq<nat>)

  datatype Act<T> =
    | Enqueue(task: T)
    | NotifyOne(wakes: nat)
    | WorkerStep(worker: nat)
    | SpuriousWake(worker: nat)
    | SetStop
    | NotifyAll
    | JoinReturns

  /** `enqueue` under the lock: refused once the pool is stopped. */
  function Push<T>(m: Monitor<T>, task: T): Monitor<T> {
    if m.stop then m else m.(tasks := m.tasks + [task])
  }

  /** A worker under the lock, with the predicate of its wait. */
  function Look<T>(m: Monitor<T>): Verdict<T> {
    if !m.stop && m.tasks == [] then Sleep
    else if m.stop && m.tasks == [] then Leave
    else Take(m.tasks[0])
  }

  function Pop<T>(m: Monitor<T>): Monitor<T> {
    if Look(m).Take? then m.(tasks := m.tasks[1..]) else m
  }

  predicate SomeWaiting(ws: seq<Worker>) {
    exists i :: 0 <= i < |ws| && ws[i].Waiting?
  }

  predicate AllExited(ws: seq<Worker>) {
    forall i :: 0 <= i < |ws| ==> ws[i].Exited?
  }

  function WakeAll(ws: seq<Worker>): seq<Worker> {
    seq(|ws|, i requires 0 <= i < |ws| => if ws[i].Waiting? then AtLock else ws[i])
  }

  function InitPool<T>(threads: nat): Pool<T> {
    Pool(Monitor([], false), seq(threads, _ => AtLock), 0, Serving, [], [], [])
  }

  function RunWorker<T>(p: Pool<T>, w: nat): Pool<T>
    requires w < |p.workers|
  {
    match p.workers[w]
    case AtLock =>
      (match Look(p.m)
       case Sleep => p.(workers := p.workers[w := Waiting])
       case Leave => p.(workers := p.workers[w := Exited])
       case Take(task) =>
         p.(m := Pop(p.m), workers := p.workers[w := Running(|p.started|)], started := p.started + [Start(w, task)]))
    case Running(k) => p.(workers := p.workers[w := AtLock], finished := p.finished + [k])
    case _ => p
  }

  /** One step; an act that is not enabled changes nothing. */
  function PoolStep<T>(p: Pool<T>, a: Act<T>): Pool<T> {
    match a
    case Enqueue(task) =>
      if p.m.stop then p
      else p.(m := Push(p.m, task), accepted := p.accepted + [task], notifies := p.notifies + 1)
    case NotifyOne(w) =>
      if p.notifies == 0 then p
      else if w < |p.workers| && p.workers[w].Waiting? then
        p.(notifies := p.notifies - 1, workers := p.workers[w := AtLock])
      else if SomeWaiting(p.workers) then p
      else p.(notifies := p.notifies - 1)
    case WorkerStep(w) => if w < |p.workers| then RunWorker(p, w) else p
    case SpuriousWake(w) =>
      if w < |p.workers| && p.workers[w].Waiting? then p.(workers := p.workers[w := AtLock]) else p
    case SetStop => if p.phase == Serving then p.(m := p.m.(stop := true), phase := Stopping) else p
    case NotifyAll => if p.phase == Stopping then p.(workers := WakeAll(p.workers), phase := Joining) else p
    case JoinReturns => if p.phase == Joining && AllExited(p.workers) then p.(phase := Returned) else p
  }

  function RunPool<T>(p: Pool<T>, acts: seq<Act<T>>): Pool<T>
    decreases |acts|
  {
    if acts == [] then p else PoolStep(RunPool(p, acts[..|acts| - 1]), acts[|acts| - 1])
  }

  /**
    The object the mutex protects; each method is one critical section. The histories of tasks
    accepted and taken say what a queue between them is worth.
  */
  class PoolMonitor<T> {
    var tasks: seq<T>
    var stop: bool
    ghost var accepted: seq<T>
    ghost var taken: seq<T>

    /** Tasks are taken in the order they were accepted, and none is lost or invented. */
    ghost predicate Valid()
      reads this
    {
      accepted == taken + tasks
    }

    constructor ()
      ensures Valid() && State() == Monitor([], false) && accepted == []
    {
      tasks, stop := [], false;
      accepted, taken := [], [];
    }

    ghost function State(): Monitor<T>
      reads this
    {
      Monitor(tasks, stop)
    }

    /** False when `enqueue` throws because the pool is stopped; a stopped pool accepts nothing more. */
    method EnqueueLocked(task: T) returns (ok: bool)
      requires Valid()
      modifies this
      ensures Valid() && stop == old(stop) && taken == old(taken)
      ensures accepted == if ok then old(accepted) + [task] else old(accepted)
      ensures ok == !old(stop)
      ensures State() == Push(old(State()), task)
    {
      if stop {
        return false;
      }
      tasks := tasks + [task];
      accepted := accepted + [task];
      return true;
    }

    /**
      A worker gets the oldest task not yet taken; it sleeps only when all accepted tasks are taken
      and more may come, and leaves only when all are taken and none will.
    */
    method WorkerLocked() returns (v: Verdict<T>)
      requires Valid()
      modifies this
      ensures Valid() && stop == old(stop) && accepted == old(accepted)
      ensures v.Take? ==>
        |old(taken)| < |accepted| && v.task == accepted[|old(taken)|] && taken == old(taken) + [v.task]
      ensures v.Sleep? ==> !stop && taken == old(taken) == accepted
      ensures v.Leave? ==> stop && taken == old(taken) == accepted
      ensures v == Look(old(State())) && State() == Pop(old(State()))
    {
      if !(stop || |tasks| != 0) {
        return Sleep;
      }
      if stop && |tasks| == 0 {
        return Leave;
      }
      v := Take(tasks[0]);
      taken := taken + [tasks[0]];
      tasks := tasks[1..];
    }

    /** Stopping gives up no accepted task. */
    method SetStopLocked()
      requires Valid()
      modifies this
      ensures Valid() && stop && accepted == old(accepted) && taken == old(taken)
      ensures State() == old(State()).(stop := true)
    {
      stop := true;
    }
  }
}
