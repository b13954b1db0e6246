/**
  The bounded multi-producer multi-consumer queue as a machine of single atomic accesses.

  Every thread runs `enqueue`, `dequeue` or `is_empty` one access at a time: load a position
  counter, load a cell's sequence number, compare-and-swap the counter (which may fail
  spuriously), move the data, publish the sequence number. A schedule picks the next thread.
*/
module MpmcQueue {
  import opened Options
  import opened Bits

  /** What the last call of a thread gave back. A refused `enqueue` leaves its argument unmoved. */
  datatype Outcome<T> =
    | NoCall
    | Sent
    | NotSent(arg: T)
    | Received(got: Option<T>)
    | NotReceived
    | Emptiness(empty: bool)

  /** Where a thread is inside a call; the arguments are its local variables. */
  datatype Pc<T> =
    | Idle(last: Outcome<T>)
    | EnqLoadPos(v: T)
    | EnqLoadSeq(v: T, pos: nat)
    | EnqCas(v: T, pos: nat)
    | EnqMove(v: T, pos: nat)
    | EnqPublish(pos: nat)
    | DeqLoadPos
    | DeqLoadSeq(pos: nat)
    | DeqCas(pos: nat)
    | DeqMove(pos: nat)
    | DeqPublish(pos: nat, got: Option<T>)
    | EmptyFront
    | EmptyBack(front: nat)
    // `enqThen` is a history variable: enqueue_pos at the instant dequeue_pos was read
    | EmptyAgain(front: nat, back: nat, enqThen: nat)

  datatype Choice<T> = Go | SpuriousFailure | CallEnqueue(arg: T) | CallDequeue | CallIsEmpty
  datatype Move<T> = Move(tid: nat, choice: Choice<T>)

  // Histories: the winning swaps of either side in the order they happen, and the data moves out.
  datatype Claim<T> = Claim(tid: nat, ticket: nat, v: T)
  datatype Take = Take(tid: nat, ticket: nat)
  datatype Reading<T> = Reading(tid: nat, ticket: nat, got: Option<T>)

  datatype State<T> = State(
    size: nat,
    enqPos: nat,
    deqPos: nat,
    seqs: seq<nat>,
    data: seq<Option<T>>,
    pcs: seq<Pc<T>>,
    claims: seq<Claim<T>>,
    takes: seq<Take>,
    readings: seq<Reading<T>>)

  predicate WellFormed<T>(s: State<T>) {
    s.size >= 1 && |s.seqs| == s.size && |s.data| == s.size
  }

  /** The cell of a ticket: `pos & buffer_mask_`. */
  function Slot(pos: nat, size: nat): nat
    requires size >= 1
  {
    And(pos, size - 1)
  }

  predicate AcceptsSize(size: nat) {
    size >= 2 && And(size, size - 1) == 0
  }

  /**
    The cells of a queue nobody is working on: those of the tickets waiting to be taken are
    published, the others wait for the producer of their next ticket.
  */
  ghost predicate QuietCells(size: nat, enqPos: nat, deqPos: nat, seqs: seq<nat>) {
    && size >= 1 && |seqs| == size && deqPos <= enqPos <= deqPos + size
    && forall p: nat :: deqPos <= p < deqPos + size ==>
         Slot(p, size) < size && seqs[Slot(p, size)] == if p < enqPos then p + 1 else p
  }

  /** The queue right after construction, shared by any number of threads. */
  function Init<T>(size: nat, threads: nat): (s: State<T>)
    requires AcceptsSize(size)
    ensures WellFormed(s)
  {
    State(size, 0, 0, seq(size, i requires 0 <= i => i), seq(size, _ => None),
          seq(threads, _ => Idle(NoCall)), [], [], [])
  }

  function Begin<T>(last: Outcome<T>, c: Choice<T>): Pc<T> {
    match c
    case CallEnqueue(v) => EnqLoadPos(v)
    case CallDequeue => DeqLoadPos
    case CallIsEmpty => EmptyFront
    case _ => Idle(last)
  }

  /** The sequence number of the cell of `pos`; cells outside the buffer do not exist. */
  function SeqAt<T>(s: State<T>, pos: nat): nat
    requires WellFormed(s)
  {
    var i := Slot(pos, s.size);
    if i < s.size then s.seqs[i] else 0
  }

  function DataAt<T>(s: State<T>, pos: nat): Option<T>
    requires WellFormed(s)
  {
    var i := Slot(pos, s.size);
    if i < s.size then s.data[i] else None
  }

  function StoreSeq<T>(s: State<T>, pos: nat, q: nat): (s': State<T>)
    requires WellFormed(s)
    ensures WellFormed(s')
  {
    var i := Slot(pos, s.size);
    if i < s.size then s.(seqs := s.seqs[i := q]) else s
  }

  function StoreData<T>(s: State<T>, pos: nat, d: Option<T>): (s': State<T>)
    requires WellFormed(s)
    ensures WellFormed(s')
  {
    var i := Slot(pos, s.size);
    if i < s.size then s.(data := s.data[i := d]) else s
  }

  function SetPc<T>(s: State<T>, t: nat, pc: Pc<T>): State<T>
    requires t < |s.pcs|
  {
    s.(pcs := s.pcs[t := pc])
  }

  /** One atomic access of thread `t`. */
  function Step<T>(s: State<T>, t: nat, c: Choice<T>): (s': State<T>)
    requires WellFormed(s) && t < |s.pcs|
    ensures WellFormed(s') && s'.size == s.size && |s'.pcs| == |s.pcs|
  {
    match s.pcs[t]
    case Idle(last) => SetPc(s, t, Begin(last, c))
    case EnqLoadPos(v) => SetPc(s, t, EnqLoadSeq(v, s.enqPos))
    case EnqLoadSeq(v, pos) =>
      var dif := SeqAt(s, pos) as int - pos;
      SetPc(s, t, if dif == 0 then EnqCas(v, pos) else if dif < 0 then Idle(NotSent(v)) else EnqLoadPos(v))
    case EnqCas(v, pos) =>
      if s.enqPos == pos && !c.SpuriousFailure? then
        SetPc(s, t, EnqMove(v, pos)).(enqPos := pos + 1, claims := s.claims + [Claim(t, pos, v)])
      else SetPc(s, t, EnqLoadSeq(v, s.enqPos))
    case EnqMove(v, pos) => SetPc(StoreData(s, pos, Some(v)), t, EnqPublish(pos))
    case EnqPublish(pos) => SetPc(StoreSeq(s, pos, pos + 1), t, Idle(Sent))
    case DeqLoadPos => SetPc(s, t, DeqLoadSeq(s.deqPos))
    case DeqLoadSeq(pos) =>
      var dif := SeqAt(s, pos) as int - (pos + 1);
      SetPc(s, t, if dif == 0 then DeqCas(pos) else if dif < 0 then Idle(NotReceived) else DeqLoadPos)
    case DeqCas(pos) =>
      if s.deqPos == pos && !c.SpuriousFailure? then
        SetPc(s, t, DeqMove(pos)).(deqPos := pos + 1, takes := s.takes + [Take(t, pos)])
      else SetPc(s, t, DeqLoadSeq(s.deqPos))
    case DeqMove(pos) =>
      var got := DataAt(s, pos);
      SetPc(StoreData(s, pos, None), t, DeqPublish(pos, got)).(readings := s.readings + [Reading(t, pos, got)])
    case DeqPublish(pos, got) => SetPc(StoreSeq(s, pos, pos + s.size), t, Idle(Received(got)))
    case EmptyFront => SetPc(s, t, EmptyBack(s.enqPos))
    case EmptyBack(front) => SetPc(s, t, EmptyAgain(front, s.deqPos, s.enqPos))
    case EmptyAgain(front, back, _) =>
      SetPc(s, t, if front != s.enqPos then EmptyFront else Idle(Emptiness(back == front)))
  }

  function Exec<T>(s: State<T>, m: Move<T>): (s': State<T>)
    requires WellFormed(s)
    ensures WellFormed(s') && s'.size == s.size && |s'.pcs| == |s.pcs|
  {
    if m.tid < |s.pcs| then Step(s, m.tid, m.choice) else s
  }

  /** The state after a whole schedule. */
  function Run<T>(s: State<T>, schedule: seq<Move<T>>): (s': State<T>)
    requires WellFormed(s)
    ensures WellFormed(s') && s'.size == s.size && |s'.pcs| == |s.pcs|
    decreases |schedule|
  {
    if schedule == [] then s else Exec(Run(s, schedule[..|schedule| - 1]), schedule[|schedule| - 1])
  }
}
