/**
  The queue object itself, run by one thread at a time: its retry loops, over the buffer it
  updates in place, are a bounded FIFO queue.
*/
module MpmcObject {
  import opened Options
  import opened Bits
  import opened MpmcQueue
  import opened MpmcSafety

  /** The items of tickets `deq` to `enq`, oldest first. */
  ghost function Window<T>(slots: seq<T>, size: nat, deq: nat, enq: nat): (w: seq<T>)
    requires size >= 1 && deq <= enq
    requires forall p: nat :: deq <= p < enq ==> Slot(p, size) < |slots|
    ensures |w| == enq - deq
    ensures forall k :: 0 <= k < enq - deq ==> w[k] == slots[Slot(deq + k, size)]
  {
    seq(enq - deq, k requires 0 <= k < enq - deq => slots[Slot(deq + k, size)])
  }

  /** Writing the cell of the next free ticket appends to the window. */
  lemma WindowGrows<T>(slots: seq<T>, size: nat, deq: nat, enq: nat, v: T)
    requires size >= 2 && IsPow2(size) && |slots| == size && deq <= enq < deq + size
    ensures forall p: nat :: Slot(p, size) < size
    ensures Window(slots[Slot(enq, size) := v], size, deq, enq + 1) == Window(slots, size, deq, enq) + [v]
  {
    SlotFacts(size);
    hide Slot;
    var w, w' := Window(slots, size, deq, enq), Window(slots[Slot(enq, size) := v], size, deq, enq + 1);
    forall k | 0 <= k < |w'| ensures w'[k] == (w + [v])[k] {
      if k < |w| { SlotsApart(deq + k, enq, size); }
    }
  }

  /** What the two loops read, and what their last store leaves. */
  lemma QuietEnqueue(size: nat, enq: nat, deq: nat, seqs: seq<nat>)
    requires size >= 2 && IsPow2(size) && QuietCells(size, enq, deq, seqs)
    ensures Slot(enq, size) < size
    ensures seqs[Slot(enq, size)] == if enq < deq + size then enq else deq + 1
    ensures enq < deq + size ==> QuietCells(size, enq + 1, deq, seqs[Slot(enq, size) := enq + 1])
  {
    hide Slot;
    SlotRound(enq, size);
    SlotRound(deq, size);
    if enq < deq + size {
      forall p: nat | deq <= p < deq + size && p != enq ensures Slot(p, size) != Slot(enq, size) {
        if p < enq { SlotsApart(p, enq, size); } else { SlotsApart(enq, p, size); }
      }
    }
  }

  lemma QuietDequeue(size: nat, enq: nat, deq: nat, seqs: seq<nat>)
    requires size >= 2 && IsPow2(size) && QuietCells(size, enq, deq, seqs)
    ensures Slot(deq, size) < size
    ensures seqs[Slot(deq, size)] == if deq < enq then deq + 1 else deq
    ensures deq < enq ==> QuietCells(size, enq, deq + 1, seqs[Slot(deq, size) := deq + size])
  {
    hide Slot;
    SlotRound(deq, size);
    if deq < enq {
      forall p: nat | deq < p < deq + size ensures Slot(p, size) != Slot(deq, size) { SlotsApart(deq, p, size); }
    }
  }

  class MpmcBoundedQueue<T(0)> {
    const maxSize: nat
    const sequence: array<nat>
    const slots: array<T>
    var enqueuePos: nat
    var dequeuePos: nat

    /** No call is in progress. */
    ghost predicate Valid()
      reads this, sequence, slots
    {
      && maxSize >= 2 && IsPow2(maxSize)
      && slots.Length == maxSize && sequence as object != slots as object
      && QuietCells(maxSize, enqueuePos, dequeuePos, sequence[..])
    }

    ghost function Contents(): seq<T>
      requires Valid()
      reads this, sequence, slots
    {
      Window(slots[..], maxSize, dequeuePos, enqueuePos)
    }

    constructor (bufferSize: nat)
      requires AcceptsSize(bufferSize)
      ensures Valid() && maxSize == bufferSize && Contents() == []
      ensures fresh(sequence) && fresh(slots)
    {
      maxSize := bufferSize;
      sequence := new nat[bufferSize];
      slots := new T[bufferSize];
      enqueuePos, dequeuePos := 0, 0;
      new;
      PowerOfTwoTest(bufferSize);
      SlotFacts(bufferSize);
      var i := 0;
      while i != bufferSize
        invariant 0 <= i <= bufferSize
        invariant forall k :: 0 <= k < i ==> sequence[k] == k
        invariant enqueuePos == dequeuePos == 0
      {
        sequence[i] := i;
        i := i + 1;
      }
    }

    /** The constructor as its callers see it: it throws on a size that is not a power of two. */
    static method Create(bufferSize: nat) returns (r: Result<MpmcBoundedQueue<T>, string>)
      ensures r.Ok? <==> bufferSize >= 2 && IsPow2(bufferSize)
      ensures r.Ok? ==> fresh(r.value) && r.value.Valid() && r.value.maxSize == bufferSize && r.value.Contents() == []
    {
      if !(bufferSize >= 2 && And(bufferSize, bufferSize - 1) == 0) {
        if bufferSize >= 2 { PowerOfTwoTest(bufferSize); }
        return Err("async logger queue size must be power of two");
      }
      PowerOfTwoTest(bufferSize);
      var q := new MpmcBoundedQueue<T>(bufferSize);
      return Ok(q);
    }

    /** `spurious` is how often the weak compare-and-swap fails for no reason. */
    method Enqueue(data: T, spurious: nat) returns (sent: bool)
      requires Valid()
      modifies this, sequence, slots
      ensures Valid()
      ensures sent <==> |old(Contents())| < maxSize
      ensures Contents() == if sent then old(Contents()) + [data] else old(Contents())
    {
      QuietEnqueue(maxSize, enqueuePos, dequeuePos, sequence[..]);
      hide Slot, QuietCells;
      var failures := spurious;
      var pos := enqueuePos;
      while true
        invariant Valid() && pos == enqueuePos
        invariant enqueuePos == old(enqueuePos) && dequeuePos == old(dequeuePos)
        invariant sequence[..] == old(sequence[..]) && slots[..] == old(slots[..])
        decreases failures
      {
        var seqNow := sequence[Slot(pos, maxSize)];
        var dif := seqNow as int - pos;
        if dif == 0 {
          if failures == 0 { break; }
          failures := failures - 1;
        } else if dif < 0 {
          return false;
        } else {
          assert false; // the reload: nobody else moves the counter
        }
      }
      WindowGrows(slots[..], maxSize, dequeuePos, pos, data);
      enqueuePos := pos + 1;
      slots[Slot(pos, maxSize)] := data;
      assert slots[..] == old(slots[..])[Slot(pos, maxSize) := data];
      sequence[Slot(pos, maxSize)] := pos + 1;
      assert sequence[..] == old(sequence[..])[Slot(pos, maxSize) := pos + 1];
      sent := true;
    }

    method Dequeue(spurious: nat) returns (received: Option<T>)
      requires Valid()
      modifies this, sequence
      ensures Valid()
      ensures old(Contents()) == [] ==> received == None && Contents() == []
      ensures old(Contents()) != [] ==> received == Some(old(Contents())[0]) && Contents() == old(Contents())[1..]
    {
      QuietDequeue(maxSize, enqueuePos, dequeuePos, sequence[..]);
      hide Slot, QuietCells;
      var failures := spurious;
      var pos := dequeuePos;
      while true
        invariant Valid() && pos == dequeuePos
        invariant enqueuePos == old(enqueuePos) && dequeuePos == old(dequeuePos)
        invariant sequence[..] == old(sequence[..])
        decreases failures
      {
        var seqNow := sequence[Slot(pos, maxSize)];
        var dif := seqNow as int - (pos + 1);
        if dif == 0 {
          if failures == 0 { break; }
          failures := failures - 1;
        } else if dif < 0 {
          return None;
        } else {
          assert false; // the reload: nobody else moves the counter
        }
      }
      dequeuePos := pos + 1;
      received := Some(slots[Slot(pos, maxSize)]);
      sequence[Slot(pos, maxSize)] := pos + (maxSize - 1) + 1;
      assert sequence[..] == old(sequence[..])[Slot(pos, maxSize) := pos + maxSize];
    }

    method IsEmpty() returns (empty: bool)
      requires Valid()
      ensures empty <==> Contents() == []
    {
      var front := enqueuePos;
      var back := dequeuePos;
      empty := back == front;
    }
  }
}
