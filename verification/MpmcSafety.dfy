/** The inductive invariant of the bounded queue, and what it means for every interleaving. */
module MpmcSafety {
  import opened Options
  import opened Bits
  import opened MpmcQueue

  ghost predicate HoldsEnq<T>(pc: Pc<T>, p: nat) {
    (pc.EnqMove? && pc.pos == p) || (pc.EnqPublish? && pc.pos == p)
  }

  ghost predicate HoldsDeq<T>(pc: Pc<T>, p: nat) {
    (pc.DeqMove? && pc.pos == p) || (pc.DeqPublish? && pc.pos == p)
  }

  ghost predicate Sized<T>(s: State<T>) {
    WellFormed(s) && s.size >= 2 && IsPow2(s.size)
  }

  ghost predicate Histories<T>(s: State<T>) {
    && |s.claims| == s.enqPos
    && |s.takes| == s.deqPos
    && (forall p :: 0 <= p < s.enqPos ==> s.claims[p].ticket == p && s.claims[p].tid < |s.pcs|)
    && (forall p :: 0 <= p < s.deqPos ==> s.takes[p].ticket == p && s.takes[p].tid < |s.pcs|)
    && s.deqPos <= s.enqPos <= s.deqPos + s.size
  }

  /** A claimed ticket's cell has reached it; a taken ticket's cell was published. */
  ghost predicate Passed<T>(s: State<T>)
    requires WellFormed(s)
  {
    && (forall p: nat :: p < s.enqPos ==> SeqAt(s, p) >= p)
    && (forall p: nat :: p < s.deqPos ==> SeqAt(s, p) >= p + 1)
  }

  /** Cell `i` waits for the producer of ticket `seqs[i]`, or is being filled by it. */
  ghost predicate FreeCell<T>(s: State<T>, i: nat)
    requires WellFormed(s) && i < s.size && Histories(s)
  {
    var q := s.seqs[i];
    && Slot(q, s.size) == i
    && (q < s.enqPos ==> HoldsEnq(s.pcs[s.claims[q].tid], q))
    && (q >= s.size ==> q - s.size < s.deqPos)
  }

  /** Cell `i` holds the item of ticket `seqs[i] - 1`, or is being emptied by its consumer. */
  ghost predicate FullCell<T>(s: State<T>, i: nat)
    requires WellFormed(s) && i < s.size && Histories(s)
  {
    var p := s.seqs[i] as int - 1;
    && 0 <= p < s.enqPos
    && Slot(p, s.size) == i
    && (p >= s.deqPos ==> s.data[i] == Some(s.claims[p].v))
    && (p < s.deqPos ==> HoldsDeq(s.pcs[s.takes[p].tid], p))
  }

  ghost predicate CellOk<T>(s: State<T>, i: nat)
    requires WellFormed(s) && i < s.size && Histories(s)
  {
    s.seqs[i] >= i && (FreeCell(s, i) || FullCell(s, i))
  }

  ghost predicate Cells<T>(s: State<T>)
    requires WellFormed(s) && Histories(s)
  {
    forall i :: 0 <= i < s.size ==> CellOk(s, i)
  }

  ghost predicate ThreadOk<T>(s: State<T>, t: nat)
    requires WellFormed(s) && Histories(s) && t < |s.pcs|
  {
    match s.pcs[t]
    case EnqLoadSeq(_, pos) => pos <= s.enqPos
    case EnqCas(_, pos) => pos <= s.enqPos && (pos == s.enqPos ==> SeqAt(s, pos) == pos)
    case EnqMove(v, pos) => pos < s.enqPos && s.claims[pos] == Claim(t, pos, v) && SeqAt(s, pos) == pos
    case EnqPublish(pos) =>
      pos < s.enqPos && s.claims[pos].tid == t && SeqAt(s, pos) == pos && DataAt(s, pos) == Some(s.claims[pos].v)
    case DeqLoadSeq(pos) => pos <= s.deqPos
    case DeqCas(pos) => pos <= s.deqPos && (pos == s.deqPos ==> SeqAt(s, pos) == pos + 1)
    case DeqMove(pos) =>
      pos < s.deqPos && s.takes[pos].tid == t && SeqAt(s, pos) == pos + 1 && DataAt(s, pos) == Some(s.claims[pos].v)
    case DeqPublish(pos, got) =>
      pos < s.deqPos && s.takes[pos].tid == t && SeqAt(s, pos) == pos + 1 && got == Some(s.claims[pos].v)
    case EmptyBack(front) => front <= s.enqPos
    case EmptyAgain(front, back, enqThen) => front <= enqThen <= s.enqPos
    case _ => true
  }

  ghost predicate Threads<T>(s: State<T>)
    requires WellFormed(s) && Histories(s)
  {
    forall t :: 0 <= t < |s.pcs| ==> ThreadOk(s, t)
  }

  ghost predicate WasRead<T>(s: State<T>, p: nat) {
    exists k :: 0 <= k < |s.readings| && s.readings[k].ticket == p
  }

  /** Every data move is of its own taken ticket, and delivers what was claimed with it. */
  ghost predicate Reads<T>(s: State<T>)
    requires Histories(s)
  {
    && (forall k :: 0 <= k < |s.readings| ==>
          var r := s.readings[k];
          && r.ticket < s.deqPos
          && r.got == Some(s.claims[r.ticket].v)
          && r.tid == s.takes[r.ticket].tid
          && s.pcs[r.tid] != DeqMove(r.ticket))
    && (forall k, l :: 0 <= k < l < |s.readings| ==> s.readings[k].ticket != s.readings[l].ticket)
    && (forall p: nat :: p < s.deqPos ==> s.pcs[s.takes[p].tid] == DeqMove(p) || WasRead(s, p))
  }

  ghost predicate Inv<T>(s: State<T>) {
    Sized(s) && Histories(s) && Passed(s) && Cells(s) && Threads(s) && Reads(s)
  }

  // ---------- arithmetic of cells ----------

  lemma SlotIsRemainder(p: nat, size: nat)
    requires size >= 1 && IsPow2(size)
    ensures Slot(p, size) == p % size
  {
    var k: nat :| size == Pow2(k);
    MaskIsRemainder(p, k);
  }

  lemma SlotGap(p: nat, q: nat, size: nat)
    requires size >= 2 && IsPow2(size)
    requires Slot(p, size) == Slot(q, size) && p < q
    ensures p + size <= q
  {
    SlotIsRemainder(p, size);
    SlotIsRemainder(q, size);
    SameRemainderGap(p, q, size);
  }

  lemma SlotsApart(p: nat, q: nat, size: nat)
    requires size >= 2 && IsPow2(size) && p < q < p + size
    ensures Slot(p, size) != Slot(q, size)
  {
    SlotIsRemainder(p, size);
    SlotIsRemainder(q, size);
    if p % size == q % size { SameRemainderGap(p, q, size); }
  }

  lemma SlotRound(p: nat, size: nat)
    requires size >= 2 && IsPow2(size)
    ensures Slot(p, size) < size
    ensures p < size ==> Slot(p, size) == p
    ensures Slot(p + size, size) == Slot(p, size)
  {
    SlotIsRemainder(p, size);
    SlotIsRemainder(p + size, size);
    NextRemainder(p, size);
    SplitBy(p, size);
    if p < size { RemainderUnique(p, size, 0, p); }
  }

  lemma NextSlotDiffers(p: nat, size: nat)
    requires size >= 2 && IsPow2(size)
    ensures Slot(p, size) != Slot(p + 1, size)
  {
    SlotIsRemainder(p, size);
    SlotIsRemainder(p + 1, size);
    if Slot(p, size) == Slot(p + 1, size) { SameRemainderGap(p, p + 1, size); }
  }

  /** Tickets of one cell are a whole round apart. */
  lemma SlotFacts(size: nat)
    requires size >= 2 && IsPow2(size)
    ensures forall p: nat :: Slot(p, size) < size
    ensures forall p: nat :: p < size ==> Slot(p, size) == p
    ensures forall p: nat, q: nat :: Slot(p, size) == Slot(q, size) && p < q ==> p + size <= q
    ensures forall p: nat :: Slot(p + size, size) == Slot(p, size)
  {
    forall p: nat
      ensures Slot(p, size) < size && (p < size ==> Slot(p, size) == p) && Slot(p + size, size) == Slot(p, size)
    {
      SlotRound(p, size);
    }
    forall p: nat, q: nat | Slot(p, size) == Slot(q, size) && p < q ensures p + size <= q {
      SlotGap(p, q, size);
    }
  }

  // ---------- the invariant holds initially and after every access ----------

  lemma InitInv<T>(size: nat, threads: nat)
    requires AcceptsSize(size)
    ensures Inv(Init<T>(size, threads))
  {
    PowerOfTwoTest(size);
    SlotFacts(size);
    var s := Init<T>(size, threads);
    forall i | 0 <= i < size ensures FreeCell(s, i) { assert s.seqs[i] == i; }
  }

  ghost predicate MovesData<T>(pc: Pc<T>) {
    pc.EnqMove? || pc.EnqPublish? || pc.DeqMove? || pc.DeqPublish?
  }

  /** The ticket a thread is working on, if any. */
  ghost function Ticket<T>(pc: Pc<T>): nat {
    match pc
    case EnqLoadSeq(_, pos) => pos
    case EnqCas(_, pos) => pos
    case EnqMove(_, pos) => pos
    case EnqPublish(pos) => pos
    case DeqLoadSeq(pos) => pos
    case DeqCas(pos) => pos
    case DeqMove(pos) => pos
    case DeqPublish(pos, _) => pos
    case _ => 0
  }

  /** The read history survives any access of `t` that moves no data out. */
  lemma ReadsFrame<T>(s: State<T>, s': State<T>, t: nat)
    requires Histories(s) && Reads(s) && Histories(s') && t < |s.pcs|
    requires s'.readings == s.readings && s.claims <= s'.claims && s.takes <= s'.takes
    requires |s'.pcs| == |s.pcs| && s'.pcs == s.pcs[t := s'.pcs[t]]
    requires !s.pcs[t].DeqMove? && (s'.pcs[t].DeqMove? ==> s'.pcs[t].pos >= s.deqPos)
    requires forall p: nat :: s.deqPos <= p < s'.deqPos ==> s'.pcs[s'.takes[p].tid] == DeqMove(p)
    ensures Reads(s')
  {
    forall p: nat | p < s'.deqPos ensures s'.pcs[s'.takes[p].tid] == DeqMove(p) || WasRead(s', p) {
      if p < s.deqPos {
        assert s'.takes[p] == s.takes[p];
        if WasRead(s, p) {
          var k :| 0 <= k < |s.readings| && s.readings[k].ticket == p;
          assert s'.readings[k].ticket == p;
        }
      }
    }
  }

  /** An access that only changes the thread's own locals. */
  lemma LocalStep<T>(s: State<T>, t: nat, pc: Pc<T>)
    requires Inv(s) && t < |s.pcs| && !MovesData(s.pcs[t]) && !MovesData(pc)
    requires ThreadOk(SetPc(s, t, pc), t)
    ensures Inv(SetPc(s, t, pc))
  {
    var s' := SetPc(s, t, pc);
    forall i | 0 <= i < s'.size ensures CellOk(s', i) { LocalCell(s, t, pc, i); }
    forall u | 0 <= u < |s'.pcs| ensures ThreadOk(s', u) { LocalThread(s, t, pc, u); }
    LocalPassed(s, t, pc);
    ReadsFrame(s, s', t);
  }

  lemma LocalPassed<T>(s: State<T>, t: nat, pc: Pc<T>)
    requires Sized(s) && Passed(s) && t < |s.pcs|
    ensures Passed(SetPc(s, t, pc))
  {
    var s' := SetPc(s, t, pc);
    forall p: nat ensures SeqAt(s', p) == SeqAt(s, p) { }
  }

  lemma LocalCell<T>(s: State<T>, t: nat, pc: Pc<T>, i: nat)
    requires Sized(s) && Histories(s) && Cells(s) && t < |s.pcs| && i < s.size
    requires !MovesData(s.pcs[t]) && !MovesData(pc)
    ensures CellOk(SetPc(s, t, pc), i)
  {
    assert CellOk(s, i);
  }

  lemma LocalThread<T>(s: State<T>, t: nat, pc: Pc<T>, u: nat)
    requires Sized(s) && Histories(s) && Threads(s) && t < |s.pcs| && u < |s.pcs|
    requires ThreadOk(SetPc(s, t, pc), t)
    ensures ThreadOk(SetPc(s, t, pc), u)
  {
    assert ThreadOk(s, u);
  }

  /** The winning swap of a producer. */
  lemma EnqWin<T>(s: State<T>, t: nat)
    requires Inv(s) && t < |s.pcs| && s.pcs[t].EnqCas? && s.pcs[t].pos == s.enqPos
    ensures Inv(Step(s, t, Go))
  {
    var s' := Step(s, t, Go);
    EnqWinHistory(s, t);
    forall i | 0 <= i < s'.size ensures CellOk(s', i) { EnqWinCell(s, t, i); }
    forall u | 0 <= u < |s'.pcs| ensures ThreadOk(s', u) { EnqWinThread(s, t, u); }
    ReadsFrame(s, s', t);
  }

  lemma EnqWinHistory<T>(s: State<T>, t: nat)
    requires Inv(s) && t < |s.pcs| && s.pcs[t].EnqCas? && s.pcs[t].pos == s.enqPos
    ensures Histories(Step(s, t, Go)) && Passed(Step(s, t, Go))
  {
    hide Slot;
    var pos := s.pcs[t].pos;
    var s' := Step(s, t, Go);
    var c := Slot(pos, s.size);
    if pos > 0 { NextSlotDiffers(pos - 1, s.size); }
    SlotRound(pos, s.size);
    assert ThreadOk(s, t) && CellOk(s, c);
    forall p: nat | p < s'.enqPos ensures SeqAt(s', p) >= p { assert p < s.enqPos ==> SeqAt(s, p) >= p; }
    forall p: nat | p < s'.deqPos ensures SeqAt(s', p) >= p + 1 { assert p < s.deqPos ==> SeqAt(s, p) >= p + 1; }
  }

  lemma EnqWinCell<T>(s: State<T>, t: nat, i: nat)
    requires Inv(s) && t < |s.pcs| && i < s.size && s.pcs[t].EnqCas? && s.pcs[t].pos == s.enqPos
    requires Histories(Step(s, t, Go))
    ensures CellOk(Step(s, t, Go), i)
  {
    hide Slot;
    var pos := s.pcs[t].pos;
    SlotRound(pos, s.size);
    assert ThreadOk(s, t) && CellOk(s, i);
  }

  lemma EnqWinThread<T>(s: State<T>, t: nat, u: nat)
    requires Inv(s) && t < |s.pcs| && u < |s.pcs| && s.pcs[t].EnqCas? && s.pcs[t].pos == s.enqPos
    requires Histories(Step(s, t, Go))
    ensures ThreadOk(Step(s, t, Go), u)
  {
    hide Slot;
    var pos := s.pcs[t].pos;
    SlotRound(pos, s.size);
    assert ThreadOk(s, t) && ThreadOk(s, u);
  }

  /** The producer moves its item into the cell. */
  lemma EnqMoves<T>(s: State<T>, t: nat)
    requires Inv(s) && t < |s.pcs| && s.pcs[t].EnqMove?
    ensures Inv(Step(s, t, Go))
  {
    var s' := Step(s, t, Go);
    EnqMovesHistory(s, t);
    forall i | 0 <= i < s'.size ensures CellOk(s', i) { EnqMovesCell(s, t, i); }
    forall u | 0 <= u < |s'.pcs| ensures ThreadOk(s', u) { EnqMovesThread(s, t, u); }
    ReadsFrame(s, s', t);
  }

  lemma EnqMovesHistory<T>(s: State<T>, t: nat)
    requires Inv(s) && t < |s.pcs| && s.pcs[t].EnqMove?
    ensures Histories(Step(s, t, Go)) && Passed(Step(s, t, Go))
  {
    hide Slot;
    var pos := s.pcs[t].pos;
    var s' := Step(s, t, Go);
    var c := Slot(pos, s.size);
    SlotRound(pos, s.size);
    assert ThreadOk(s, t) && CellOk(s, c);
    forall p: nat | p < s'.enqPos ensures SeqAt(s', p) >= p { assert p < s.enqPos ==> SeqAt(s, p) >= p; }
    forall p: nat | p < s'.deqPos ensures SeqAt(s', p) >= p + 1 { assert p < s.deqPos ==> SeqAt(s, p) >= p + 1; }
  }

  lemma EnqMovesCell<T>(s: State<T>, t: nat, i: nat)
    requires Inv(s) && t < |s.pcs| && i < s.size && s.pcs[t].EnqMove?
    requires Histories(Step(s, t, Go))
    ensures CellOk(Step(s, t, Go), i)
  {
    hide Slot;
    var pos := s.pcs[t].pos;
    SlotRound(pos, s.size);
    assert ThreadOk(s, t) && CellOk(s, i);
  }

  lemma EnqMovesThread<T>(s: State<T>, t: nat, u: nat)
    requires Inv(s) && t < |s.pcs| && u < |s.pcs| && s.pcs[t].EnqMove?
    requires Histories(Step(s, t, Go))
    ensures ThreadOk(Step(s, t, Go), u)
  {
    hide Slot;
    var pos := s.pcs[t].pos;
    SlotRound(pos, s.size);
    SlotRound(Ticket(s.pcs[u]), s.size);
    assert ThreadOk(s, t) && ThreadOk(s, u);
    if u != t && Slot(Ticket(s.pcs[u]), s.size) == Slot(pos, s.size) {
      NextSlotDiffers(Ticket(s.pcs[u]), s.size);
    }
  }

  /** The producer publishes the cell. */
  lemma EnqPublishes<T>(s: State<T>, t: nat)
    requires Inv(s) && t < |s.pcs| && s.pcs[t].EnqPublish?
    ensures Inv(Step(s, t, Go))
  {
    var s' := Step(s, t, Go);
    EnqPublishesHistory(s, t);
    forall i | 0 <= i < s'.size ensures CellOk(s', i) { EnqPublishesCell(s, t, i); }
    forall u | 0 <= u < |s'.pcs| ensures ThreadOk(s', u) { EnqPublishesThread(s, t, u); }
    ReadsFrame(s, s', t);
  }

  lemma EnqPublishesHistory<T>(s: State<T>, t: nat)
    requires Inv(s) && t < |s.pcs| && s.pcs[t].EnqPublish?
    ensures Histories(Step(s, t, Go)) && Passed(Step(s, t, Go))
  {
    hide Slot;
    var pos := s.pcs[t].pos;
    var s' := Step(s, t, Go);
    var c := Slot(pos, s.size);
    SlotRound(pos, s.size);
    assert ThreadOk(s, t) && CellOk(s, c);
    forall p: nat | p < s'.enqPos ensures SeqAt(s', p) >= p { assert p < s.enqPos ==> SeqAt(s, p) >= p; }
    forall p: nat | p < s'.deqPos ensures SeqAt(s', p) >= p + 1 { assert p < s.deqPos ==> SeqAt(s, p) >= p + 1; }
  }

  lemma EnqPublishesCell<T>(s: State<T>, t: nat, i: nat)
    requires Inv(s) && t < |s.pcs| && i < s.size && s.pcs[t].EnqPublish?
    requires Histories(Step(s, t, Go))
    ensures CellOk(Step(s, t, Go), i)
  {
    hide Slot;
    var pos := s.pcs[t].pos;
    SlotRound(pos, s.size);
    assert ThreadOk(s, t) && CellOk(s, i);
  }

  lemma EnqPublishesThread<T>(s: State<T>, t: nat, u: nat)
    requires Inv(s) && t < |s.pcs| && u < |s.pcs| && s.pcs[t].EnqPublish?
    requires Histories(Step(s, t, Go))
    ensures ThreadOk(Step(s, t, Go), u)
  {
    hide Slot;
    var pos := s.pcs[t].pos;
    NextSlotDiffers(pos, s.size);
    NextSlotDiffers(Ticket(s.pcs[u]), s.size);
    SlotRound(pos, s.size);
    assert ThreadOk(s, t) && ThreadOk(s, u);
  }

  /** The winning swap of a consumer. */
  lemma DeqWin<T>(s: State<T>, t: nat)
    requires Inv(s) && t < |s.pcs| && s.pcs[t].DeqCas? && s.pcs[t].pos == s.deqPos
    ensures Inv(Step(s, t, Go))
  {
    var s' := Step(s, t, Go);
    DeqWinHistory(s, t);
    forall i | 0 <= i < s'.size ensures CellOk(s', i) { DeqWinCell(s, t, i); }
    forall u | 0 <= u < |s'.pcs| ensures ThreadOk(s', u) { DeqWinThread(s, t, u); }
    ReadsFrame(s, s', t);
  }

  lemma DeqWinHistory<T>(s: State<T>, t: nat)
    requires Inv(s) && t < |s.pcs| && s.pcs[t].DeqCas? && s.pcs[t].pos == s.deqPos
    ensures Histories(Step(s, t, Go)) && Passed(Step(s, t, Go))
  {
    hide Slot;
    var pos := s.pcs[t].pos;
    var s' := Step(s, t, Go);
    var c := Slot(pos, s.size);
    NextSlotDiffers(pos, s.size);
    SlotRound(pos, s.size);
    assert ThreadOk(s, t) && CellOk(s, c);
    forall p: nat | p < s'.enqPos ensures SeqAt(s', p) >= p { assert p < s.enqPos ==> SeqAt(s, p) >= p; }
    forall p: nat | p < s'.deqPos ensures SeqAt(s', p) >= p + 1 { assert p < s.deqPos ==> SeqAt(s, p) >= p + 1; }
  }

  lemma DeqWinCell<T>(s: State<T>, t: nat, i: nat)
    requires Inv(s) && t < |s.pcs| && i < s.size && s.pcs[t].DeqCas? && s.pcs[t].pos == s.deqPos
    requires Histories(Step(s, t, Go))
    ensures CellOk(Step(s, t, Go), i)
  {
    hide Slot;
    var pos := s.pcs[t].pos;
    SlotRound(pos, s.size);
    assert ThreadOk(s, t) && CellOk(s, i);
  }

  lemma DeqWinThread<T>(s: State<T>, t: nat, u: nat)
    requires Inv(s) && t < |s.pcs| && u < |s.pcs| && s.pcs[t].DeqCas? && s.pcs[t].pos == s.deqPos
    requires Histories(Step(s, t, Go))
    ensures ThreadOk(Step(s, t, Go), u)
  {
    hide Slot;
    var pos := s.pcs[t].pos;
    NextSlotDiffers(pos, s.size);
    assert CellOk(s, Slot(pos, s.size)) by { SlotRound(pos, s.size); }
    SlotRound(pos, s.size);
    assert ThreadOk(s, t) && ThreadOk(s, u);
  }

  /** The consumer moves the item out. */
  lemma DeqMoves<T>(s: State<T>, t: nat)
    requires Inv(s) && t < |s.pcs| && s.pcs[t].DeqMove?
    ensures Inv(Step(s, t, Go))
  {
    var s' := Step(s, t, Go);
    DeqMovesHistory(s, t);
    forall i | 0 <= i < s'.size ensures CellOk(s', i) { DeqMovesCell(s, t, i); }
    forall u | 0 <= u < |s'.pcs| ensures ThreadOk(s', u) { DeqMovesThread(s, t, u); }
    DeqMovesReads(s, t);
  }

  lemma DeqMovesHistory<T>(s: State<T>, t: nat)
    requires Inv(s) && t < |s.pcs| && s.pcs[t].DeqMove?
    ensures Histories(Step(s, t, Go)) && Passed(Step(s, t, Go))
  {
    hide Slot;
    var pos := s.pcs[t].pos;
    var s' := Step(s, t, Go);
    var c := Slot(pos, s.size);
    SlotRound(pos, s.size);
    assert ThreadOk(s, t) && CellOk(s, c);
    forall p: nat | p < s'.enqPos ensures SeqAt(s', p) >= p { assert p < s.enqPos ==> SeqAt(s, p) >= p; }
    forall p: nat | p < s'.deqPos ensures SeqAt(s', p) >= p + 1 { assert p < s.deqPos ==> SeqAt(s, p) >= p + 1; }
  }

  lemma DeqMovesCell<T>(s: State<T>, t: nat, i: nat)
    requires Inv(s) && t < |s.pcs| && i < s.size && s.pcs[t].DeqMove?
    requires Histories(Step(s, t, Go))
    ensures CellOk(Step(s, t, Go), i)
  {
    hide Slot;
    var pos := s.pcs[t].pos;
    SlotRound(pos, s.size);
    assert ThreadOk(s, t) && CellOk(s, i);
  }

  lemma DeqMovesThread<T>(s: State<T>, t: nat, u: nat)
    requires Inv(s) && t < |s.pcs| && u < |s.pcs| && s.pcs[t].DeqMove?
    requires Histories(Step(s, t, Go))
    ensures ThreadOk(Step(s, t, Go), u)
  {
    hide Slot;
    var pos := s.pcs[t].pos;
    NextSlotDiffers(pos, s.size);
    NextSlotDiffers(Ticket(s.pcs[u]), s.size);
    SlotRound(pos, s.size);
    assert ThreadOk(s, t) && ThreadOk(s, u);
  }

  /** The consumer releases the cell for the next round. */
  lemma DeqPublishes<T>(s: State<T>, t: nat)
    requires Inv(s) && t < |s.pcs| && s.pcs[t].DeqPublish?
    ensures Inv(Step(s, t, Go))
  {
    var s' := Step(s, t, Go);
    DeqPublishesHistory(s, t);
    forall i | 0 <= i < s'.size ensures CellOk(s', i) { DeqPublishesCell(s, t, i); }
    forall u | 0 <= u < |s'.pcs| ensures ThreadOk(s', u) { DeqPublishesThread(s, t, u); }
    ReadsFrame(s, s', t);
  }

  lemma DeqPublishesHistory<T>(s: State<T>, t: nat)
    requires Inv(s) && t < |s.pcs| && s.pcs[t].DeqPublish?
    ensures Histories(Step(s, t, Go)) && Passed(Step(s, t, Go))
  {
    hide Slot;
    var pos := s.pcs[t].pos;
    var s' := Step(s, t, Go);
    var c := Slot(pos, s.size);
    SlotRound(pos, s.size);
    assert ThreadOk(s, t) && CellOk(s, c);
    forall p: nat | p < s'.enqPos ensures SeqAt(s', p) >= p { assert p < s.enqPos ==> SeqAt(s, p) >= p; }
    forall p: nat | p < s'.deqPos ensures SeqAt(s', p) >= p + 1 { assert p < s.deqPos ==> SeqAt(s, p) >= p + 1; }
  }

  lemma DeqPublishesCell<T>(s: State<T>, t: nat, i: nat)
    requires Inv(s) && t < |s.pcs| && i < s.size && s.pcs[t].DeqPublish?
    requires Histories(Step(s, t, Go))
    ensures CellOk(Step(s, t, Go), i)
  {
    hide Slot;
    var pos := s.pcs[t].pos;
    SlotRound(pos, s.size);
    assert ThreadOk(s, t) && CellOk(s, i);
    if i == Slot(pos, s.size) {
      NextRoundUnclaimed(s, t);
      assert FreeCell(Step(s, t, Go), i);
    } else {
      DeqPublishesOther(s, t, i);
    }
  }

  lemma NextRoundUnclaimed<T>(s: State<T>, t: nat)
    requires Inv(s) && t < |s.pcs| && s.pcs[t].DeqPublish?
    ensures s.enqPos <= s.pcs[t].pos + s.size
  {
    var pos := s.pcs[t].pos;
    assert ThreadOk(s, t);
    SlotRound(pos, s.size);
    if s.enqPos > pos + s.size { ClaimedPassed(s, pos + s.size); }
  }

  lemma ClaimedPassed<T>(s: State<T>, p: nat)
    requires WellFormed(s) && Passed(s) && p < s.enqPos
    ensures SeqAt(s, p) >= p
  {
  }

  lemma DeqPublishesOther<T>(s: State<T>, t: nat, i: nat)
    requires Inv(s) && t < |s.pcs| && i < s.size && s.pcs[t].DeqPublish?
    requires Histories(Step(s, t, Go)) && i != Slot(s.pcs[t].pos, s.size)
    ensures CellOk(Step(s, t, Go), i)
  {
    var pos := s.pcs[t].pos;
    assert ThreadOk(s, t) && CellOk(s, i);
    assert Step(s, t, Go).seqs[i] == s.seqs[i];
    if FreeCell(s, i) {
      assert FreeCell(Step(s, t, Go), i);
    } else {
      assert FullCell(Step(s, t, Go), i);
    }
  }

  lemma DeqPublishesThread<T>(s: State<T>, t: nat, u: nat)
    requires Inv(s) && t < |s.pcs| && u < |s.pcs| && s.pcs[t].DeqPublish?
    requires Histories(Step(s, t, Go))
    ensures ThreadOk(Step(s, t, Go), u)
  {
    hide Slot;
    var pos := s.pcs[t].pos;
    NextSlotDiffers(pos, s.size);
    NextSlotDiffers(Ticket(s.pcs[u]), s.size);
    SlotRound(pos, s.size);
    assert ThreadOk(s, t) && ThreadOk(s, u);
  }

  lemma DeqMovesReads<T>(s: State<T>, t: nat)
    requires Inv(s) && t < |s.pcs| && s.pcs[t].DeqMove?
    requires Histories(Step(s, t, Go))
    ensures Reads(Step(s, t, Go))
  {
    var pos := s.pcs[t].pos;
    var s' := Step(s, t, Go);
    assert ThreadOk(s, t);
    assert s'.readings == s.readings + [Reading(t, pos, DataAt(s, pos))];
    forall p: nat | p < s.deqPos ensures s'.pcs[s'.takes[p].tid] == DeqMove(p) || WasRead(s', p) {
      if WasRead(s, p) {
        var k :| 0 <= k < |s.readings| && s.readings[k].ticket == p;
        assert s'.readings[k].ticket == p;
      } else if p == pos {
        assert s'.readings[|s.readings|].ticket == p;
      }
    }
  }

  lemma LocalNext<T>(s: State<T>, t: nat, c: Choice<T>)
    requires Sized(s) && Histories(s) && Threads(s) && t < |s.pcs|
    requires !MovesData(s.pcs[t]) && !MovesData(Step(s, t, c).pcs[t])
    ensures Step(s, t, c) == SetPc(s, t, Step(s, t, c).pcs[t])
    ensures ThreadOk(SetPc(s, t, Step(s, t, c).pcs[t]), t)
  {
    hide Slot;
    assert ThreadOk(s, t);
  }

  lemma StepInv<T>(s: State<T>, t: nat, c: Choice<T>)
    requires Inv(s) && t < |s.pcs|
    ensures Inv(Step(s, t, c))
  {
    hide Slot;
    match s.pcs[t]
    case EnqCas(v, pos) =>
      if s.enqPos == pos && !c.SpuriousFailure? {
        EnqWin(s, t);
      } else {
        LocalNext(s, t, c);
        LocalStep(s, t, EnqLoadSeq(v, s.enqPos));
      }
    case EnqMove(_, _) => EnqMoves(s, t);
    case EnqPublish(_) => EnqPublishes(s, t);
    case DeqCas(pos) =>
      if s.deqPos == pos && !c.SpuriousFailure? {
        DeqWin(s, t);
      } else {
        LocalNext(s, t, c);
        LocalStep(s, t, DeqLoadSeq(s.deqPos));
      }
    case DeqMove(_) => DeqMoves(s, t);
    case DeqPublish(_, _) => DeqPublishes(s, t);
    case _ => LocalNext(s, t, c); LocalStep(s, t, Step(s, t, c).pcs[t]);
  }

  /** The invariant holds in every reachable state, whatever the interleaving. */
  lemma {:induction false} RunInv<T>(size: nat, threads: nat, schedule: seq<Move<T>>)
    requires AcceptsSize(size)
    ensures Inv(Run(Init(size, threads), schedule))
    decreases |schedule|
  {
    if schedule == [] {
      InitInv<T>(size, threads);
    } else {
      var before, m := schedule[..|schedule| - 1], schedule[|schedule| - 1];
      RunInv(size, threads, before);
      var s := Run(Init(size, threads), before);
      if m.tid < |s.pcs| { StepInv(s, m.tid, m.choice); }
    }
  }
}
