/** What the bounded queue guarantees over every interleaving of any number of threads. */
module MpmcTheorems {
  import opened Options
  import opened Bits
  import opened MpmcQueue
  import opened MpmcSafety

  /**
    FIFO by ticket, nothing lost, duplicated or invented. The i-th winning swap of either side
    carries ticket i, so no ticket is claimed twice. Every item moved out is the item its
    ticket's producer brought, is moved out by the ticket's only consumer, and only once; and a
    taken ticket whose item has not been moved out has its consumer about to move it.
  */
  lemma ExactlyOnce<T>(size: nat, threads: nat, schedule: seq<Move<T>>)
    requires AcceptsSize(size)
    ensures
      var s := Run(Init(size, threads), schedule);
      && |s.claims| == s.enqPos && |s.takes| == s.deqPos
      && (forall p :: 0 <= p < |s.claims| ==> s.claims[p].ticket == p)
      && (forall p :: 0 <= p < |s.takes| ==> s.takes[p].ticket == p)
      && (forall k :: 0 <= k < |s.readings| ==>
            var r := s.readings[k];
            && r.ticket < |s.takes| <= |s.claims|
            && r.got == Some(s.claims[r.ticket].v)
            && r.tid == s.takes[r.ticket].tid)
      && (forall k, l :: 0 <= k < l < |s.readings| ==> s.readings[k].ticket != s.readings[l].ticket)
      && (forall p: nat :: p < |s.takes| ==>
            s.takes[p].tid < |s.pcs| && (s.pcs[s.takes[p].tid] == DeqMove(p) || WasRead(s, p)))
  {
    RunInv(size, threads, schedule);
  }

  /** The thread is between winning a ticket of cell `i` and publishing that cell. */
  ghost predicate InWindow<T>(s: State<T>, t: nat, i: nat)
    requires WellFormed(s) && t < |s.pcs|
  {
    MovesData(s.pcs[t]) && Slot(s.pcs[t].pos, s.size) == i
  }

  ghost predicate RoundOf(q: nat, i: nat, k: nat, size: nat) {
    q == i + k * size || q == i + k * size + 1
  }

  ghost predicate ShapedCell(q: nat, i: nat, size: nat) {
    exists k: nat :: RoundOf(q, i, k, size)
  }

  /** Cell `i`'s sequence number is always i + k * size or one more. */
  ghost predicate SequenceShapes<T>(s: State<T>)
    requires WellFormed(s)
  {
    forall i :: 0 <= i < s.size ==> ShapedCell(s.seqs[i], i, s.size)
  }

  /** At most one thread is moving data in or out of any cell. */
  ghost predicate ExclusiveWindows<T>(s: State<T>)
    requires WellFormed(s)
  {
    forall i, t, u :: 0 <= t < |s.pcs| && 0 <= u < |s.pcs| && InWindow(s, t, i) && InWindow(s, u, i) ==> t == u
  }

  /** Counters stay within one buffer, sequence numbers keep their shape, windows exclude each other. */
  lemma Bounded<T>(size: nat, threads: nat, schedule: seq<Move<T>>)
    requires AcceptsSize(size)
    ensures
      var s := Run(Init(size, threads), schedule);
      && s.deqPos <= s.enqPos <= s.deqPos + size
      && SequenceShapes(s) && ExclusiveWindows(s)
  {
    RunInv(size, threads, schedule);
    BoundedState(Run(Init(size, threads), schedule));
  }

  lemma BoundedState<T>(s: State<T>)
    requires Inv(s)
    ensures SequenceShapes(s) && ExclusiveWindows(s)
  {
    forall i | 0 <= i < s.size ensures ShapedCell(s.seqs[i], i, s.size) { SequenceShape(s, i); }
    forall i, t, u | 0 <= t < |s.pcs| && 0 <= u < |s.pcs| && InWindow(s, t, i) && InWindow(s, u, i)
      ensures t == u
    {
      WindowsExclude(s, t, u);
    }
  }

  lemma SequenceShape<T>(s: State<T>, i: nat)
    requires Inv(s) && i < s.size
    ensures ShapedCell(s.seqs[i], i, s.size)
  {
    assert CellOk(s, i);
    var p: nat := if FreeCell(s, i) then s.seqs[i] else s.seqs[i] - 1;
    RoundOfTicket(p, s.size);
    assert RoundOf(s.seqs[i], i, p / s.size, s.size);
  }

  lemma RoundOfTicket(p: nat, size: nat)
    requires size >= 2 && IsPow2(size)
    ensures p == Slot(p, size) + (p / size) * size
  {
    hide Slot;
    SlotIsRemainder(p, size);
    SplitBy(p, size);
  }

  lemma WindowsExclude<T>(s: State<T>, t: nat, u: nat)
    requires Inv(s) && t < |s.pcs| && u < |s.pcs| && MovesData(s.pcs[t]) && MovesData(s.pcs[u])
    requires Slot(s.pcs[t].pos, s.size) == Slot(s.pcs[u].pos, s.size)
    ensures t == u
  {
    hide Slot;
    assert ThreadOk(s, t) && ThreadOk(s, u);
    NextSlotDiffers(s.pcs[t].pos, s.size);
    NextSlotDiffers(s.pcs[u].pos, s.size);
  }

  /** No access lowers a counter or a cell's sequence number. */
  lemma StepGrows<T>(s: State<T>, t: nat, c: Choice<T>)
    requires Inv(s) && t < |s.pcs|
    ensures var s' := Step(s, t, c);
      && s.enqPos <= s'.enqPos && s.deqPos <= s'.deqPos
      && forall i :: 0 <= i < s.size ==> s.seqs[i] <= s'.seqs[i]
  {
    hide Slot;
    assert ThreadOk(s, t);
  }

  lemma {:induction false} RunGrows<T>(s: State<T>, schedule: seq<Move<T>>)
    requires Inv(s)
    ensures var s' := Run(s, schedule);
      && Inv(s') && s.enqPos <= s'.enqPos && s.deqPos <= s'.deqPos
      && forall i :: 0 <= i < s.size ==> s.seqs[i] <= s'.seqs[i]
    decreases |schedule|
  {
    if schedule != [] {
      var before, m := schedule[..|schedule| - 1], schedule[|schedule| - 1];
      RunGrows(s, before);
      var mid := Run(s, before);
      if m.tid < |s.pcs| {
        StepInv(mid, m.tid, m.choice);
        StepGrows(mid, m.tid, m.choice);
      }
    }
  }

  /**
    `enqueue` refuses at its sequence load exactly when its ticket is the next one to be claimed
    and the ticket one round earlier is unreleased: the buffer is full, or that ticket's consumer
    is still between its swap and its release. The argument stays with the caller.
  */
  lemma EnqueueRefusal<T>(s: State<T>, t: nat, c: Choice<T>)
    requires Inv(s) && t < |s.pcs| && s.pcs[t].EnqLoadSeq?
    ensures var v, pos, s' := s.pcs[t].v, s.pcs[t].pos, Step(s, t, c);
      && (s'.pcs[t].Idle? <==> pos == s.enqPos && pos >= s.size && SeqAt(s, pos - s.size) < pos)
      && (s'.pcs[t].Idle? ==>
            && s' == SetPc(s, t, Idle(NotSent(v)))
            && (|| s.enqPos == s.deqPos + s.size
                || HoldsDeq(s.pcs[s.takes[pos - s.size].tid], pos - s.size)))
  {
    hide Slot;
    var pos := s.pcs[t].pos;
    SlotRound(pos, s.size);
    assert ThreadOk(s, t) && CellOk(s, Slot(pos, s.size));
    if pos >= s.size { SlotRound(pos - s.size, s.size); }
    if SeqAt(s, pos) < pos {
      FullBehind(s, pos);
    }
  }

  /** The cell of the next ticket still belongs to the round before. */
  lemma FullBehind<T>(s: State<T>, pos: nat)
    requires Inv(s) && pos <= s.enqPos && SeqAt(s, pos) < pos
    ensures pos == s.enqPos && pos >= s.size && SeqAt(s, pos - s.size) < pos
    ensures s.enqPos == s.deqPos + s.size || HoldsDeq(s.pcs[s.takes[pos - s.size].tid], pos - s.size)
  {
    hide Slot;
    var c := Slot(pos, s.size);
    SlotRound(pos, s.size);
    assert CellOk(s, c);
    var q: nat := if FreeCell(s, c) then s.seqs[c] else s.seqs[c] - 1;
    SlotGap(q, pos, s.size);
    RoundBefore(s, pos, q);
    NextSlotDiffers(q, s.size);
  }

  lemma RoundBefore<T>(s: State<T>, pos: nat, q: nat)
    requires Inv(s) && pos <= s.enqPos && q + s.size <= pos
    requires Slot(q, s.size) == Slot(pos, s.size) && q <= SeqAt(s, pos) <= q + 1
    ensures q + s.size == pos
  {
    hide Slot;
    SlotRound(pos - s.size, s.size);
    ClaimedPassed(s, pos - s.size);
    if q + s.size < pos { SlotGap(q, pos - s.size, s.size); }
  }

  /**
    `dequeue` gives up at its sequence load exactly when its ticket is the next one to be taken
    and is unpublished: nobody has claimed it yet, or its producer has not published it.
  */
  lemma DequeueRefusal<T>(s: State<T>, t: nat, c: Choice<T>)
    requires Inv(s) && t < |s.pcs| && s.pcs[t].DeqLoadSeq?
    ensures var pos, s' := s.pcs[t].pos, Step(s, t, c);
      && (s'.pcs[t].Idle? <==> pos == s.deqPos && SeqAt(s, pos) < pos + 1)
      && (s'.pcs[t].Idle? ==>
            && s' == SetPc(s, t, Idle(NotReceived))
            && (pos == s.enqPos || (pos < s.enqPos && HoldsEnq(s.pcs[s.claims[pos].tid], pos))))
  {
    hide Slot;
    var pos := s.pcs[t].pos;
    var i := Slot(pos, s.size);
    SlotRound(pos, s.size);
    assert ThreadOk(s, t) && CellOk(s, i);
    if pos < s.enqPos && SeqAt(s, pos) < pos + 1 {
      assert s.seqs[i] == pos;
      if FullCell(s, i) { NextSlotDiffers(pos - 1, s.size); }
    }
  }

  /** A failed swap that is not spurious, and a reload, both end up with a strictly larger ticket. */
  lemma RetrySeesLarger<T>(s: State<T>, t: nat, c: Choice<T>, later: seq<Move<T>>)
    requires Inv(s) && t < |s.pcs|
    ensures var s' := Step(s, t, c);
      && (s.pcs[t].EnqCas? && s'.pcs[t].EnqLoadSeq? && !c.SpuriousFailure? ==> s'.pcs[t].pos > s.pcs[t].pos)
      && (s.pcs[t].DeqCas? && s'.pcs[t].DeqLoadSeq? && !c.SpuriousFailure? ==> s'.pcs[t].pos > s.pcs[t].pos)
      && (s.pcs[t].EnqLoadSeq? && s'.pcs[t].EnqLoadPos? ==> Run(s', later).enqPos > s.pcs[t].pos)
      && (s.pcs[t].DeqLoadSeq? && s'.pcs[t].DeqLoadPos? ==> Run(s', later).deqPos > s.pcs[t].pos)
  {
    var s' := Step(s, t, c);
    assert ThreadOk(s, t);
    StepInv(s, t, c);
    RunGrows(s', later);
    if s.pcs[t].EnqLoadSeq? || s.pcs[t].DeqLoadSeq? { AheadMeansClaimed(s, s.pcs[t].pos); }
  }

  /** A cell ahead of a ticket shows that the ticket was claimed, or taken. */
  lemma AheadMeansClaimed<T>(s: State<T>, pos: nat)
    requires Inv(s)
    ensures SeqAt(s, pos) > pos ==> pos < s.enqPos
    ensures SeqAt(s, pos) > pos + 1 ==> pos < s.deqPos
  {
    hide Slot;
    var i := Slot(pos, s.size);
    SlotRound(pos, s.size);
    assert CellOk(s, i);
    var q := s.seqs[i];
    if q > pos {
      if FreeCell(s, i) {
        SlotGap(pos, q, s.size);
      } else if q - 1 > pos {
        SlotGap(pos, q - 1, s.size);
      }
    }
  }

  /** `t` read `back` from dequeue_pos at instant `n`, when enqueue_pos was `enqThen`, and is still in that call. */
  ghost predicate ReadBackAt<T>(s0: State<T>, schedule: seq<Move<T>>, t: nat, n: nat, back: nat, enqThen: nat)
    requires WellFormed(s0) && n < |schedule| && t < |s0.pcs|
  {
    && Run(s0, schedule[..n]).deqPos == back
    && Run(s0, schedule[..n]).enqPos == enqThen
    && Run(s0, schedule[..n]).pcs[t].EmptyBack?
    && forall m :: n < m <= |schedule| ==> Run(s0, schedule[..m]).pcs[t].EmptyAgain?
  }

  /** The only way into the last load of `is_empty` is through the middle one. */
  lemma EntersEmptyAgain<T>(s: State<T>, mv: Move<T>, t: nat)
    requires WellFormed(s) && t < |s.pcs| && Exec(s, mv).pcs[t].EmptyAgain?
    ensures Exec(s, mv).pcs[t] == s.pcs[t] ||
      (s.pcs[t].EmptyBack? && Exec(s, mv).pcs[t].back == s.deqPos && Exec(s, mv).pcs[t].enqThen == s.enqPos)
  {
    hide Slot;
  }

  lemma {:induction false} EmptyAgainReadBack<T>(size: nat, threads: nat, schedule: seq<Move<T>>, t: nat)
    requires AcceptsSize(size) && t < threads
    requires Run(Init(size, threads), schedule).pcs[t].EmptyAgain?
    ensures var s0 := Init(size, threads); var pc := Run(s0, schedule).pcs[t];
      exists n: nat :: n < |schedule| && ReadBackAt(s0, schedule, t, n, pc.back, pc.enqThen)
    decreases |schedule|
  {
    hide Step, Init;
    var s0 := Init<T>(size, threads);
    InitIdle<T>(size, threads, t);
    var last := |schedule| - 1;
    var before, mv := schedule[..last], schedule[last];
    var pc := Run(s0, schedule).pcs[t];
    var s := Run(s0, before);
    EntersEmptyAgain(s, mv, t);
    assert schedule[..|schedule|] == schedule;
    if s.pcs[t].EmptyAgain? {
      EmptyAgainReadBack(size, threads, before, t);
      var n: nat :| n < |before| && ReadBackAt(s0, before, t, n, pc.back, pc.enqThen);
      ReadBackExtends(s0, schedule, t, n, pc.back, pc.enqThen);
    } else {
      assert ReadBackAt(s0, schedule, t, last, pc.back, pc.enqThen);
    }
  }

  lemma InitIdle<T>(size: nat, threads: nat, t: nat)
    requires AcceptsSize(size) && t < threads
    ensures |Init<T>(size, threads).pcs| == threads && Init<T>(size, threads).pcs[t] == Idle(NoCall)
  {
  }

  lemma {:induction false} ReadBackExtends<T>(s0: State<T>, schedule: seq<Move<T>>, t: nat, n: nat, back: nat,
      enqThen: nat)
    requires WellFormed(s0) && t < |s0.pcs| && n < |schedule| - 1
    requires ReadBackAt(s0, schedule[..|schedule| - 1], t, n, back, enqThen)
    requires Run(s0, schedule).pcs[t].EmptyAgain?
    ensures ReadBackAt(s0, schedule, t, n, back, enqThen)
  {
    hide Run;
    var before := schedule[..|schedule| - 1];
    forall m | n <= m <= |schedule| ensures m < |schedule| ==> before[..m] == schedule[..m] { }
    assert schedule[..|schedule|] == schedule;
  }

  /**
    When `is_empty` returns, its answer is whether the counters were equal at an instant inside the call:
    true exactly if nothing was claimed and untaken then.
  */
  lemma {:induction false} EmptyInstant<T>(size: nat, threads: nat, before: seq<Move<T>>, mv: Move<T>)
    requires AcceptsSize(size) && mv.tid < threads
    requires Run(Init(size, threads), before).pcs[mv.tid].EmptyAgain?
    requires Exec(Run(Init(size, threads), before), mv).pcs[mv.tid].Idle?
    ensures exists n: nat, taken: nat, claimed: nat ::
      n < |before| && ReadBackAt(Init(size, threads), before, mv.tid, n, taken, claimed)
      && Exec(Run(Init(size, threads), before), mv).pcs[mv.tid] == Idle(Emptiness(taken == claimed))
  {
    hide Init, Step, Run, ReadBackAt;
    var s0 := Init<T>(size, threads);
    var s := Run(s0, before);
    var pc := s.pcs[mv.tid];
    EmptyAgainReadBack(size, threads, before, mv.tid);
    RunInv(size, threads, before);
    EmptyAnswer(s, mv.tid, mv.choice);
    var n: nat :| n < |before| && ReadBackAt(s0, before, mv.tid, n, pc.back, pc.enqThen);
    assert Exec(s, mv).pcs[mv.tid] == Idle(Emptiness(pc.back == pc.enqThen));
  }

  /** The last load ends the call only if nothing was claimed since the first one. */
  lemma EmptyAnswer<T>(s: State<T>, t: nat, c: Choice<T>)
    requires Inv(s) && t < |s.pcs| && s.pcs[t].EmptyAgain?
    ensures Step(s, t, c).pcs[t].Idle? <==> s.pcs[t].front == s.enqPos
    ensures Step(s, t, c).pcs[t].Idle? ==> Step(s, t, c).pcs[t] == Idle(Emptiness(s.pcs[t].back == s.pcs[t].enqThen))
  {
    hide Slot;
    assert ThreadOk(s, t);
  }

  /** Undisturbed, `is_empty` takes four accesses and answers whether the counters are equal. */
  lemma EmptyAlone<T>(s: State<T>, t: nat)
    requires WellFormed(s) && t < |s.pcs| && s.pcs[t].Idle?
    ensures var s1 := Step(s, t, CallIsEmpty);
      var s2 := Step(s1, t, Go);
      var s3 := Step(s2, t, Go);
      Step(s3, t, Go) == SetPc(s, t, Idle(Emptiness(s.deqPos == s.enqPos)))
  {
  }

  /** The consumer moves out what its ticket's producer brought, and leaves the cell without an item. */
  lemma MovesOut<T>(s: State<T>, t: nat, c: Choice<T>)
    requires Inv(s) && t < |s.pcs| && s.pcs[t].DeqMove?
    ensures var pos, s' := s.pcs[t].pos, Step(s, t, c);
      pos < |s.claims| && s'.pcs[t] == DeqPublish(pos, Some(s.claims[pos].v)) && DataAt(s', pos) == None
  {
    hide Slot;
    assert ThreadOk(s, t);
  }

  /** With every thread outside a call, the buffer holds exactly the claimed and untaken items. */
  lemma Quiescent<T>(s: State<T>)
    requires Inv(s) && forall t :: 0 <= t < |s.pcs| ==> s.pcs[t].Idle?
    ensures QuietCells(s.size, s.enqPos, s.deqPos, s.seqs)
    ensures forall p: nat :: s.deqPos <= p < s.enqPos ==> DataAt(s, p) == Some(s.claims[p].v)
  {
    hide Slot;
    forall p: nat | s.deqPos <= p < s.deqPos + s.size
      ensures Slot(p, s.size) < s.size
      ensures s.seqs[Slot(p, s.size)] == if p < s.enqPos then p + 1 else p
      ensures p < s.enqPos ==> DataAt(s, p) == Some(s.claims[p].v)
    {
      SlotRound(p, s.size);
      QuiescentCell(s, p);
    }
  }

  lemma QuiescentCell<T>(s: State<T>, p: nat)
    requires Inv(s) && forall t :: 0 <= t < |s.pcs| ==> s.pcs[t].Idle?
    requires s.deqPos <= p < s.deqPos + s.size
    ensures p < s.enqPos ==> SeqAt(s, p) == p + 1 && DataAt(s, p) == Some(s.claims[p].v)
    ensures s.enqPos <= p ==> SeqAt(s, p) == p
  {
    hide Slot;
    var i := Slot(p, s.size);
    SlotRound(p, s.size);
    assert CellOk(s, i);
    var q: nat := if FreeCell(s, i) then s.seqs[i] else s.seqs[i] - 1;
    assert p < s.enqPos ==> SeqAt(s, p) >= p;
    if q < p { SlotGap(q, p, s.size); }
    if p < q { SlotGap(p, q, s.size); }
  }
}
