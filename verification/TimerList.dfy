/** The linked timer list of the `ae` event loop, changed in place. */
module TimerList {
  import opened Timers
  import opened TimerPass

  class TimeEvent {
    ghost const born: nat
    const data: int
    var id: int
    var whenSec: int
    var whenMs: int
    var next: TimeEvent?

    constructor (id: nat, when: Clock, data: int, next: TimeEvent?)
      ensures this.id == born == id && whenSec == when.sec && whenMs == when.ms
      ensures this.data == data && this.next == next
    {
      this.born, this.id, this.data, this.next := id, id, data, next;
      whenSec, whenMs := when.sec, when.ms;
    }

    ghost function Value(): Timer
      reads this
    {
      Timer(born, id != DELETED_EVENT_ID, whenSec, whenMs, data)
    }
  }

  ghost function Values(nodes: seq<TimeEvent>): (r: seq<Timer>)
    reads nodes
    ensures |r| == |nodes| && forall i :: 0 <= i < |nodes| ==> r[i] == nodes[i].Value()
  {
    if nodes == [] then [] else [nodes[0].Value()] + Values(nodes[1..])
  }

  ghost function At(nodes: seq<TimeEvent>, i: nat): TimeEvent? {
    if i < |nodes| then nodes[i] else null
  }

  /** Each node points to the one after it. */
  ghost predicate Linked(nodes: seq<TimeEvent>)
    reads nodes
  {
    && (forall i {:trigger nodes[i].next} :: 0 <= i < |nodes| ==> nodes[i].next == At(nodes, i + 1))
    && (forall i {:trigger nodes[i].id} :: 0 <= i < |nodes| ==>
          nodes[i].id == nodes[i].born || nodes[i].id == DELETED_EVENT_ID)
  }

  /** Ids are unique and strictly decrease along the list. */
  ghost predicate Numbered(nodes: seq<TimeEvent>, nextId: nat) {
    && (forall i {:trigger nodes[i].born} :: 0 <= i < |nodes| ==> nodes[i].born < nextId)
    && (forall i, j {:trigger nodes[i].born, nodes[j].born} :: 0 <= i < j < |nodes| ==> nodes[i].born > nodes[j].born)
  }

  lemma LinkedBehind(te: TimeEvent, s: seq<TimeEvent>, t: seq<TimeEvent>)
    requires Linked(s) && t == [te] + s && te.next == At(s, 0) && te.id == te.born
    requires Numbered(s, te.born)
    ensures Linked(t) && Numbered(t, te.born + 1)
    ensures Values(t) == [te.Value()] + Values(s)
  {
    assert t[1..] == s;
    forall i | 0 <= i < |t| ensures t[i].next == At(t, i + 1) {
      if i > 0 { assert t[i] == s[i - 1] && s[i - 1].next == At(s, i); }
    }
    forall i | 0 <= i < |t| ensures t[i].id == t[i].born || t[i].id == DELETED_EVENT_ID {
      if i > 0 { assert t[i] == s[i - 1]; }
    }
  }

  lemma LinkedWithout(s: seq<TimeEvent>, t: seq<TimeEvent>, pos: nat)
    requires pos < |s| && t == s[..pos] + s[pos + 1..]
    requires forall i {:trigger s[i].next} :: 0 <= i < |s| && i + 1 != pos ==> s[i].next == At(s, i + 1)
    requires pos > 0 ==> s[pos - 1].next == At(s, pos + 1)
    requires forall i {:trigger s[i].id} :: 0 <= i < |s| ==> s[i].id == s[i].born || s[i].id == DELETED_EVENT_ID
    ensures Linked(t)
  {
    forall i | 0 <= i < |t| ensures t[i].next == At(t, i + 1) {
      var k := if i < pos then i else i + 1;
      assert t[i] == s[k] && s[k].next == if k + 1 == pos then At(s, pos + 1) else At(s, k + 1);
    }
    forall i | 0 <= i < |t| ensures t[i].id == t[i].born || t[i].id == DELETED_EVENT_ID {
      assert t[i] == s[if i < pos then i else i + 1];
    }
  }

  lemma BornWithout(s: seq<TimeEvent>, t: seq<TimeEvent>, pos: nat, nextId: nat)
    requires pos < |s| && t == s[..pos] + s[pos + 1..] && Numbered(s, nextId)
    ensures Numbered(t, nextId)
  {
    assert forall i :: 0 <= i < |t| ==> t[i] == s[if i < pos then i else i + 1];
  }

  lemma ValuesUpdated(was: seq<Timer>, nodes: seq<TimeEvent>, i: nat)
    requires i < |nodes| == |was|
    requires forall j :: 0 <= j < |nodes| && j != i ==> nodes[j].Value() == was[j]
    ensures Values(nodes) == was[i := nodes[i].Value()]
  {
  }

  lemma ValuesLess(was: seq<Timer>, nodes: seq<TimeEvent>, pos: nat)
    requires pos < |was| == |nodes| + 1
    requires forall j :: 0 <= j < |nodes| ==> nodes[j].Value() == was[if j < pos then j else j + 1]
    ensures Values(nodes) == was[..pos] + was[pos + 1..]
  {
  }

  class TimerLoop {
    var head: TimeEvent?
    var nextId: nat
    var lastTime: int
    /** The nodes of the list, in order. */
    ghost var spine: seq<TimeEvent>

    ghost function NodeAt(i: nat): TimeEvent?
      reads `spine
    {
      At(spine, i)
    }

    ghost predicate Valid()
      reads `head, `spine, `nextId, spine
    {
      head == NodeAt(0) && Linked(spine) && Numbered(spine, nextId)
    }

    ghost function List(): (r: seq<Timer>)
      reads `spine, spine
      ensures |r| == |spine| && forall i :: 0 <= i < |spine| ==> r[i] == spine[i].Value()
    {
      Values(spine)
    }

    constructor (now: int)
      ensures Valid() && List() == [] && nextId == 0 && lastTime == now
    {
      head, nextId, lastTime, spine := null, 0, now, [];
    }

    method CreateTimeEvent(milliseconds: int, data: int, clock: Clock) returns (id: nat)
      requires Valid()
      modifies this
      ensures Valid() && lastTime == old(lastTime)
      ensures |spine| == |old(spine)| + 1 && spine[1..] == old(spine) && fresh(spine[0])
      ensures id == old(nextId) && nextId == id + 1
      ensures List() == Created(old(List()), old(nextId), milliseconds, data, clock)
    {
      id := nextId;
      nextId := nextId + 1;
      var te := new TimeEvent(id, AddMilliseconds(clock, milliseconds), data, head);
      head := te;
      ghost var s := spine;
      spine := [te] + s;
      LinkedBehind(te, s, spine);
      assert spine[1..] == old(spine);
    }

    method DeleteTimeEvent(id: int) returns (ok: bool)
      requires Valid()
      modifies spine
      ensures Valid()
      ensures List() == Marked(old(List()), id)
      ensures ok <==> exists k :: 0 <= k < |spine| && ShownId(old(List())[k]) == id
    {
      var te := head;
      ghost var i := 0;
      while te != null
        invariant i <= |spine| && te == NodeAt(i)
        invariant forall k :: 0 <= k < i ==> ShownId(List()[k]) != id
        decreases |spine| - i
        modifies {}
      {
        assert te.Value() == List()[i];
        if te.id == id { break; }
        te := te.next;
        i := i + 1;
      }
      if te != null {
        MarkedAt(List(), id, i);
        MarkNode(te, i);
        return true;
      }
      MarkedNone(List(), id);
      return false;
    }

    method MarkNode(te: TimeEvent, ghost i: nat)
      requires Valid() && i < |spine| && te == spine[i]
      modifies te`id
      ensures Valid()
      ensures List() == old(List())[i := old(List())[i].(live := false)]
    {
      hide Values;
      ghost var was := List();
      Distinct(i);
      te.id := DELETED_EVENT_ID;
      ValuesUpdated(was, spine, i);
    }

    lemma Distinct(i: nat)
      requires Valid() && i < |spine|
      ensures forall j :: 0 <= j < |spine| && j != i ==> spine[j] != spine[i]
    {
      forall j | 0 <= j < |spine| && j != i ensures spine[j] != spine[i] {
        assert spine[j].born != spine[i].born;
      }
    }

    method Apply(op: Op, ghost e: Edited) returns (ghost e': Edited)
      requires Valid() && List() == e.list && nextId == e.nextId
      modifies this, spine
      ensures Valid() && lastTime == old(lastTime) && e' == Edit(e, op)
      ensures List() == e'.list && nextId == e'.nextId
      ensures var n := e'.created - e.created;
        0 <= n <= |spine| && spine[n..] == old(spine)
      ensures forall x :: x in spine ==> x in old(spine) || fresh(x)
    {
      hide Marked, Created, Valid;
      match op {
        case Create(milliseconds, data, at) =>
          var id := CreateTimeEvent(milliseconds, data, at);
        case Delete(id) =>
          var ok := DeleteTimeEvent(id);
      }
      e' := Edit(e, op);
    }

    /** A callback, which may create and delete timers. */
    method RunCallback(ops: seq<Op>, ghost e0: Edited) returns (ghost e: Edited)
      requires Valid() && e0 == Edited(List(), nextId, 0, {})
      modifies this, spine
      ensures Valid() && lastTime == old(lastTime) && e == EditAll(e0, ops)
      ensures List() == e.list && nextId == e.nextId
      ensures |spine| == e.created + |old(spine)| && spine[e.created..] == old(spine)
      ensures forall n :: n in spine ==> n in old(spine) || fresh(n)
    {
      hide Valid, List, Edit, EditAll;
      e := e0;
      EditNone(e0);
      var k := 0;
      while k < |ops|
        invariant k <= |ops| && Valid() && lastTime == old(lastTime)
        invariant e == EditAll(e0, ops[..k]) && List() == e.list && nextId == e.nextId
        invariant e.created <= |spine| && spine[e.created..] == old(spine)
        invariant forall n :: n in spine ==> n in old(spine) || fresh(n)
      {
        ghost var before := spine;
        EditNext(e0, ops, k);
        ghost var c := e.created;
        assert forall j :: 0 <= j < |spine| ==> spine[j] in spine;
        e := Apply(ops[k], e);
        Prepended(before, spine, old(spine), c, e.created);
        k := k + 1;
      }
      assert ops[..k] == ops;
    }

    // ---------- the pass ----------

    lemma NodeFacts(i: nat)
      requires Valid() && i < |spine|
      ensures spine[i].next == NodeAt(i + 1)
      ensures if List()[i].live then spine[i].id == List()[i].born else spine[i].id == DELETED_EVENT_ID
    {
      assert List()[i] == spine[i].Value();
    }

    lemma HeadIs()
      requires Valid()
      ensures head == NodeAt(0)
    {
    }

    lemma ListOrdered()
      requires Valid()
      ensures Ordered(List(), nextId)
    {
    }

    /** The correction for a clock that went backwards. */
    method ForceAll()
      requires Valid()
      modifies spine
      ensures Valid() && List() == Forced(old(List()))
    {
      hide Values;
      ghost var was := List();
      var te := head;
      ghost var i := 0;
      while te != null
        invariant i <= |spine| && te == NodeAt(i) && Valid()
        invariant forall j :: 0 <= j < |spine| ==> spine[j].Value() == if j < i then was[j].(sec := 0) else was[j]
        decreases |spine| - i
      {
        ForceNode(te, i);
        te := te.next;
        i := i + 1;
      }
      assert List() == Forced(was);
    }

    method ForceNode(te: TimeEvent, ghost i: nat)
      requires Valid() && i < |spine| && te == spine[i]
      modifies te`whenSec
      ensures Valid() && te.Value() == old(te.Value()).(sec := 0)
      ensures forall j :: 0 <= j < |spine| && j != i ==> spine[j].Value() == old(spine[j].Value())
    {
      Distinct(i);
      te.whenSec := 0;
    }

    method Unlink(prev: TimeEvent?, te: TimeEvent, ghost pos: nat)
      requires Valid() && pos < |spine| && te == spine[pos]
      requires prev == if pos == 0 then null else spine[pos - 1]
      modifies this`head, this`spine, if prev == null then {} else {prev}
      ensures Valid() && spine == old(spine[..pos] + spine[pos + 1..])
      ensures List() == old(List()[..pos] + List()[pos + 1..])
    {
      hide Values;
      ghost var was := List();
      Distinct(pos);
      if pos > 0 { Distinct(pos - 1); }
      ghost var s := spine;
      assert te.next == At(s, pos + 1);
      if prev == null {
        head := te.next;
      } else {
        prev.next := te.next;
      }
      spine := spine[..pos] + spine[pos + 1..];
      LinkedWithout(s, spine, pos);
      BornWithout(s, spine, pos, nextId);
      ValuesLess(was, spine, pos);
    }

    method Reschedule(te: TimeEvent, ghost i: nat, when: Clock)
      requires Valid() && i < |spine| && te == spine[i]
      modifies te`whenSec, te`whenMs
      ensures Valid() && List() == old(List())[i := old(List())[i].(sec := when.sec, ms := when.ms)]
    {
      hide Values;
      ghost var was := List();
      Distinct(i);
      te.whenSec, te.whenMs := when.sec, when.ms;
      ValuesUpdated(was, spine, i);
    }

    /** After the callback: scheduled again from the clock read now, or marked. */
    method Settle(te: TimeEvent, ghost i: nat, retval: int, later: Clock, ghost r: Reaction)
      requires Valid() && i < |spine| && te == spine[i] && r.retval == retval && r.later == later
      modifies te`whenSec, te`whenMs, te`id
      ensures Valid() && List() == old(List())[i := Settled(old(List())[i], r)]
    {
      hide Valid, List;
      if retval != NOMORE {
        Reschedule(te, i, AddMilliseconds(later, retval));
      } else {
        MarkNode(te, i);
      }
    }

    method Fire(te: TimeEvent, r: Reaction, ghost p: Pass) returns (ghost q: Pass)
      requires Valid() && p.pos < |spine| && te == spine[p.pos] && List() == p.list && nextId == p.nextId
      requires te.id != DELETED_EVENT_ID && Due(te.Value(), r.clock)
      modifies this, spine
      ensures Valid() && q == Visit(p, r) && lastTime == old(lastTime)
      ensures List() == q.list && nextId == q.nextId && q.pos <= |spine| && q.pos > 0 && te == spine[q.pos - 1]
      ensures forall n :: n in spine ==> n in old(spine) || fresh(n)
    {
      hide EditAll, Settled, Valid, List, Due, Visit;
      assert p.list[p.pos] == te.Value();
      VisitDue(p, r);
      ghost var e0 := Edited(p.list, p.nextId, 0, {});
      ghost var e := RunCallback(r.ops, e0);
      ghost var at := p.pos + e.created;
      assert te == spine[e.created..][p.pos] == spine[at];
      Settle(te, at, r.retval, r.later, r);
      q := Visit(p, r);
    }

    /** Where a pass stands: the pointers, and the value of the list. */
    ghost predicate Standing(p: Pass, prev: TimeEvent?, te: TimeEvent?)
      reads `head, `spine, `nextId, spine
    {
      && Valid() && List() == p.list && nextId == p.nextId && p.pos <= |spine|
      && te == NodeAt(p.pos)
      && prev == (if p.pos == 0 then null else spine[p.pos - 1])
    }

    /** A timer no longer live is unlinked and finalized. */
    method Drop(prev: TimeEvent?, te: TimeEvent, r: Reaction, ghost p: Pass) returns (next: TimeEvent?, ghost q: Pass)
      requires Standing(p, prev, te) && te.id == DELETED_EVENT_ID
      modifies this`head, this`spine, if prev == null then {} else {prev}
      ensures q == Visit(p, r) && Standing(q, prev, next)
      ensures forall n :: n in spine ==> n in old(spine)
    {
      hide Valid, EditAll, Visit, List;
      NodeFacts(p.pos);
      VisitNotLive(p, r);
      next := te.next;
      Unlink(prev, te, p.pos);
      q := Visit(p, r);
    }

    /** A timer not due is passed over, a due one fired. */
    method Keep(te: TimeEvent, ghost prev: TimeEvent?, r: Reaction, ghost p: Pass)
      returns (due: bool, next: TimeEvent?, ghost q: Pass)
      requires Standing(p, prev, te) && te.id != DELETED_EVENT_ID
      modifies this, spine
      ensures q == Visit(p, r) && Standing(q, te, next) && lastTime == old(lastTime)
      ensures q.fired == if due then p.fired + [old(te.id)] else p.fired
      ensures forall n :: n in spine ==> n in old(spine) || fresh(n)
    {
      hide Valid, List, Visit;
      NodeFacts(p.pos);
      VisitLive(p, r);
      assert p.list[p.pos] == te.Value();
      due := r.clock.sec > te.whenSec || (r.clock.sec == te.whenSec && r.clock.ms >= te.whenMs);
      if due {
        q := Fire(te, r, p);
      } else {
        q := Visit(p, r);
      }
      NodeFacts(q.pos - 1);
      next := te.next;
    }

    method ProcessTimeEvents(now: int, script: nat -> Reaction)
      returns (processed: nat, fired: seq<int>, finalized: seq<int>, ghost q: Pass)
      requires Valid()
      modifies this, spine
      ensures Valid() && lastTime == now
      ensures q == Timers.ProcessTimeEvents(old(List()), old(nextId), now < old(lastTime), script)
      ensures List() == q.list && nextId == q.nextId
      ensures fired == q.fired && finalized == q.finalized && processed == |fired|
    {
      hide Finish, Valid, Ordered, List;
      if now < lastTime { ForceAll(); }
      lastTime := now;
      ListOrdered();
      HeadIs();
      processed, fired, finalized, q := RunPass(nextId - 1, script);
    }

    /** The loop over the list. */
    method RunPass(maxId: int, script: nat -> Reaction)
      returns (processed: nat, fired: seq<int>, finalized: seq<int>, ghost q: Pass)
      requires Valid() && maxId == nextId - 1
      modifies this, spine
      ensures Valid() && lastTime == old(lastTime)
      ensures q == Finish(Start(old(List()), old(nextId)), script)
      ensures List() == q.list && nextId == q.nextId
      ensures fired == q.fired && finalized == q.finalized && processed == |fired|
    {
      hide Finish, PassInv, Visit, Valid, Ordered, List, NodeAt, Standing, Start;
      processed, fired, finalized := 0, [], [];
      var prev: TimeEvent? := null;
      var te := head;
      var visits := 0;
      ghost var was := List();
      q := Start(was, nextId);
      ghost var q0 := q;
      ListOrdered();
      StartStanding();
      StartInv(was, nextId, script);
      while te != null
        invariant Standing(q, prev, te) && lastTime == old(lastTime) && Ordered(was, maxId + 1)
        invariant forall n :: n in spine ==> n in old(spine) || fresh(n)
        invariant PassInv(q, was, maxId + 1, script) && visits == q.visits
        invariant Finish(q, script) == Finish(q0, script)
        invariant fired == q.fired && finalized == q.finalized && processed == |fired|
        decreases |q.list| - q.pos
      {
        Here(q, prev, te);
        VisitKeeps(q, was, maxId + 1, script);
        NextOld(q, was, maxId + 1, script);
        FinishStep(q, script);
        VisitRecords(q, script(visits));
        if te.id == DELETED_EVENT_ID {
          finalized := finalized + [te.data];
          te, q := Drop(prev, te, script(visits), q);
        } else if te.id > maxId {
          assert false; // a new timer is only ever in front of the list
        } else {
          var id, visited := te.id, te;
          var due;
          assert forall k :: 0 <= k < |spine| ==> spine[k] in spine;
          due, te, q := Keep(visited, prev, script(visits), q);
          if due {
            fired := fired + [id];
            processed := processed + 1;
          }
          prev := visited;
        }
        visits := visits + 1;
      }
      AtEnd(q, prev);
      FinishDone(q, script);
    }

    lemma StartStanding()
      requires Valid()
      ensures var q := Start(List(), nextId);
        Standing(q, null, head) && q.visits == 0 && q.fired == [] && q.finalized == []
    {
      HeadIs();
    }

    lemma Here(p: Pass, prev: TimeEvent?, te: TimeEvent)
      requires Standing(p, prev, te)
      ensures p.pos < |p.list| == |spine| && te == spine[p.pos] && te.data == p.list[p.pos].data
      ensures if p.list[p.pos].live then te.id == p.list[p.pos].born else te.id == DELETED_EVENT_ID
      ensures prev != null ==> prev in spine
    {
      NodeFacts(p.pos);
    }

    lemma AtEnd(p: Pass, prev: TimeEvent?)
      requires Standing(p, prev, null)
      ensures Valid() && List() == p.list && nextId == p.nextId && p.pos == |p.list|
    {
    }
  }

  lemma VisitDue(p: Pass, r: Reaction)
    requires p.pos < |p.list| && p.list[p.pos].live && Due(p.list[p.pos], r.clock)
    ensures var e := EditAll(Edited(p.list, p.nextId, 0, {}), r.ops);
      |e.list| == e.created + |p.list| && Visit(p, r) == AfterFiring(p, e, r)
  {
    hide EditAll;
    EditAllLength(Edited(p.list, p.nextId, 0, {}), r.ops);
  }

  lemma VisitNotLive(p: Pass, r: Reaction)
    requires p.pos < |p.list| && !p.list[p.pos].live
    ensures var q := Visit(p, r);
      q.list == p.list[..p.pos] + p.list[p.pos + 1..] && q.pos == p.pos && q.nextId == p.nextId
  {
  }

  lemma VisitLive(p: Pass, r: Reaction)
    requires p.pos < |p.list|
    ensures p.list[p.pos].live ==>
      Visit(p, r).fired == if Due(p.list[p.pos], r.clock) then p.fired + [p.list[p.pos].born] else p.fired
    ensures p.list[p.pos].live && !Due(p.list[p.pos], r.clock) ==>
      Visit(p, r) == p.(pos := p.pos + 1, visits := p.visits + 1)
  {
  }

  /** A visit finalizes a timer that is not live, and fires no other than a live one. */
  lemma VisitRecords(p: Pass, r: Reaction)
    requires p.pos < |p.list|
    ensures Visit(p, r).finalized == if p.list[p.pos].live then p.finalized else p.finalized + [p.list[p.pos].data]
    ensures !p.list[p.pos].live ==> Visit(p, r).fired == p.fired
  {
  }

  /** The timer about to be visited is older than the pass. */
  lemma NextOld(p: Pass, was: seq<Timer>, nextId: nat, script: nat -> Reaction)
    requires PassInv(p, was, nextId, script) && p.pos < |p.list| && Ordered(was, nextId)
    ensures p.list[p.pos].born < nextId
  {
    hide Survivors;
    RestTail(p.list, p.pos, was, p.visits, p.deleted);
  }

  lemma FinishDone(p: Pass, script: nat -> Reaction)
    requires p.pos == |p.list|
    ensures Finish(p, script) == p
  {
  }

  lemma FinishStep(p: Pass, script: nat -> Reaction)
    requires p.pos < |p.list|
    ensures Finish(p, script) == Finish(Visit(p, script(p.visits)), script)
    ensures Visit(p, script(p.visits)).visits == p.visits + 1
    ensures var q := Visit(p, script(p.visits)); q.pos <= |q.list| && |q.list| - q.pos < |p.list| - p.pos
  {
    hide Visit;
    VisitProgresses(p, script(p.visits));
  }

  lemma EditNone(e: Edited)
    ensures EditAll(e, []) == e
  {
  }

  lemma EditNext(e: Edited, ops: seq<Op>, k: nat)
    requires k < |ops|
    ensures EditAll(e, ops[..k + 1]) == Edit(EditAll(e, ops[..k]), ops[k])
  {
    hide Edit;
    assert ops[..k + 1][..k] == ops[..k];
  }

  lemma Prepended(before: seq<TimeEvent>, now: seq<TimeEvent>, first: seq<TimeEvent>, c: nat, c': nat)
    requires c <= c' && c <= |before| && before[c..] == first
    requires c' - c <= |now| && now[c' - c..] == before
    ensures c' <= |now| && now[c'..] == first
  {
  }

  lemma {:induction false} MarkedAt(list: seq<Timer>, id: int, k: nat)
    requires k < |list| && ShownId(list[k]) == id
    requires forall i :: 0 <= i < k ==> ShownId(list[i]) != id
    ensures Marked(list, id) == list[k := list[k].(live := false)]
    decreases k
  {
    if k > 0 { MarkedAt(list[1..], id, k - 1); }
  }

  lemma {:induction false} MarkedNone(list: seq<Timer>, id: int)
    requires forall i :: 0 <= i < |list| ==> ShownId(list[i]) != id
    ensures Marked(list, id) == list
    decreases |list|
  {
    if list != [] { MarkedNone(list[1..], id); }
  }
}
