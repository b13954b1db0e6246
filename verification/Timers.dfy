/** Timer lists of the `ae` event loop as values, and one pass over them with callbacks. */
module Timers {

  const DELETED_EVENT_ID := -1
  const NOMORE := -1

  datatype Clock = Clock(sec: int, ms: int)

  /** A timer keeps the id it was created with in `born`; the list shows -1 once it is not `live`. */
  datatype Timer = Timer(born: nat, live: bool, sec: int, ms: int, data: int)

  function ShownId(t: Timer): int {
    if t.live then t.born else DELETED_EVENT_ID
  }

  /** What a callback may do to the list. */
  datatype Op = Create(milliseconds: int, data: int, at: Clock) | Delete(id: int)

  /** A visit: the clock when the timer is looked at, and what its callback does if it fires. */
  datatype Reaction = Reaction(clock: Clock, ops: seq<Op>, retval: int, later: Clock)

  /** Division and remainder of C, which truncate towards zero. */
  function TruncDiv(a: int, n: int): int
    requires n > 0
  {
    if a >= 0 then a / n else 0 - (0 - a) / n
  }

  function TruncMod(a: int, n: int): int
    requires n > 0
  {
    a - n * TruncDiv(a, n)
  }

  function AddMilliseconds(c: Clock, milliseconds: int): Clock {
    var sec := c.sec + TruncDiv(milliseconds, 1000);
    var ms := c.ms + TruncMod(milliseconds, 1000);
    if ms >= 1000 then Clock(sec + 1, ms - 1000) else Clock(sec, ms)
  }

  /** The sum is exact for every delay, and normal for delays that are not negative. */
  lemma AddMillisecondsExact(c: Clock, milliseconds: int)
    requires 0 <= c.ms < 1000
    ensures var r := AddMilliseconds(c, milliseconds);
      && 1000 * r.sec + r.ms == 1000 * c.sec + c.ms + milliseconds
      && (milliseconds >= 0 ==> 0 <= r.ms < 1000)
  {
  }

  predicate Due(t: Timer, c: Clock) {
    c.sec > t.sec || (c.sec == t.sec && c.ms >= t.ms)
  }

  // ---------- what the times mean ----------

  ghost function Millis(c: Clock): int {
    1000 * c.sec + c.ms
  }

  ghost function WhenMillis(t: Timer): int {
    1000 * t.sec + t.ms
  }

  ghost predicate NormalClock(c: Clock) {
    0 <= c.ms < 1000
  }

  /** The clock has reached the timer's time; a time written with negative milliseconds is seen up to a second late. */
  ghost predicate Reached(t: Timer, c: Clock) {
    Millis(c) >= WhenMillis(t) && (t.ms < 0 ==> c.sec >= t.sec)
  }

  /** Comparing seconds first and then milliseconds compares times. */
  lemma DueMeans(t: Timer, c: Clock)
    requires NormalClock(c) && -1000 < t.ms < 1000
    ensures Due(t, c) <==> Reached(t, c)
    ensures t.ms >= 0 ==> (Due(t, c) <==> Millis(c) >= WhenMillis(t))
  {
  }

  /** Every timer of the list has milliseconds from `least` on, 0 for normal times. */
  ghost predicate Within(list: seq<Timer>, least: int) {
    forall k :: 0 <= k < |list| ==> least <= list[k].ms < 1000
  }

  /** A created timer is due exactly its delay after the clock read then, and nothing else in the list changes. */
  lemma CreatedDue(list: seq<Timer>, nextId: nat, milliseconds: int, data: int, at: Clock, c: Clock)
    requires NormalClock(at) && NormalClock(c) && milliseconds >= 0
    ensures var r := Created(list, nextId, milliseconds, data, at);
      && |r| == |list| + 1 && r[1..] == list
      && r[0].live && r[0].born == nextId && r[0].data == data
      && (Due(r[0], c) <==> Millis(c) >= Millis(at) + milliseconds)
  {
  }

  // ---------- the operations on lists ----------

  /** Ids are unique and strictly decrease along the list. */
  ghost predicate Ordered(list: seq<Timer>, nextId: nat) {
    && (forall i, j :: 0 <= i < j < |list| ==> list[i].born > list[j].born)
    && (forall i :: 0 <= i < |list| ==> list[i].born < nextId)
  }

  function Created(list: seq<Timer>, nextId: nat, milliseconds: int, data: int, at: Clock): seq<Timer> {
    var when := AddMilliseconds(at, milliseconds);
    [Timer(nextId, true, when.sec, when.ms, data)] + list
  }

  /** Marks the first timer that shows `id`. */
  function Marked(list: seq<Timer>, id: int): (r: seq<Timer>)
    ensures |r| == |list|
  {
    if list == [] then []
    else if ShownId(list[0]) == id then [list[0].(live := false)] + list[1..]
    else [list[0]] + Marked(list[1..], id)
  }

  function Masked(t: Timer, deleted: set<int>): Timer {
    t.(live := t.live && t.born !in deleted)
  }

  lemma {:induction false} MarkedExact(list: seq<Timer>, nextId: nat, id: int, k: nat)
    requires Ordered(list, nextId) && k < |list|
    ensures Marked(list, id)[k] == Masked(list[k], {id})
    decreases |list|
  {
    if ShownId(list[0]) == id {
    } else if k > 0 {
      MarkedExact(list[1..], nextId, id, k - 1);
    }
  }

  datatype Edited = Edited(list: seq<Timer>, nextId: nat, created: nat, deleted: set<int>)

  function Edit(e: Edited, op: Op): Edited {
    match op
    case Create(milliseconds, data, at) =>
      e.(list := Created(e.list, e.nextId, milliseconds, data, at), nextId := e.nextId + 1, created := e.created + 1)
    case Delete(id) => e.(list := Marked(e.list, id), deleted := e.deleted + {id})
  }

  function EditAll(e: Edited, ops: seq<Op>): Edited {
    if ops == [] then e else Edit(EditAll(e, ops[..|ops| - 1]), ops[|ops| - 1])
  }

  /** The timers a callback finds keep their places behind those it creates; only deleted ones change. */
  ghost predicate EditedFrom(list: seq<Timer>, nextId: nat, e: Edited) {
    && Ordered(e.list, e.nextId) && e.nextId == nextId + e.created
    && |e.list| == e.created + |list|
    && (forall k :: 0 <= k < e.created ==> e.list[k].born >= nextId)
    && (forall k :: 0 <= k < |list| ==> e.list[e.created + k] == Masked(list[k], e.deleted))
  }

  lemma EditKeeps(list: seq<Timer>, nextId: nat, e: Edited, op: Op)
    requires EditedFrom(list, nextId, e)
    ensures EditedFrom(list, nextId, Edit(e, op))
  {
    hide Marked;
    var e' := Edit(e, op);
    if op.Delete? {
      forall k | 0 <= k < |e.list| ensures e'.list[k] == Masked(e.list[k], {op.id}) {
        MarkedExact(e.list, e.nextId, op.id, k);
      }
    }
  }

  lemma {:induction false} EditAllKeeps(list: seq<Timer>, nextId: nat, ops: seq<Op>)
    requires Ordered(list, nextId)
    ensures EditedFrom(list, nextId, EditAll(Edited(list, nextId, 0, {}), ops))
    decreases |ops|
  {
    hide Edit, Ordered;
    if ops != [] {
      EditAllKeeps(list, nextId, ops[..|ops| - 1]);
      EditKeeps(list, nextId, EditAll(Edited(list, nextId, 0, {}), ops[..|ops| - 1]), ops[|ops| - 1]);
    }
  }

  // ---------- one pass ----------

  /**
    `pos` is the timer about to be visited, `newer` the number of timers created by the pass, `visits`
    the number of timers visited, and `deleted` has all ids callbacks deleted.
  */
  datatype Pass = Pass(list: seq<Timer>, pos: nat, newer: nat, nextId: nat,
                       visits: nat, fired: seq<int>, finalized: seq<int>, deleted: set<int>)

  function Start(list: seq<Timer>, nextId: nat): Pass {
    Pass(list, 0, 0, nextId, 0, [], [], {})
  }

  /** A timer after its callback: scheduled again, or marked. */
  function Settled(t: Timer, r: Reaction): Timer {
    if r.retval != NOMORE then
      var when := AddMilliseconds(r.later, r.retval);
      t.(sec := when.sec, ms := when.ms)
    else t.(live := false)
  }

  /** A rescheduled timer is due exactly its delay after the clock read then; another one is marked. */
  lemma SettledDue(t: Timer, r: Reaction, c: Clock)
    requires NormalClock(r.later) && NormalClock(c)
    ensures var u := Settled(t, r);
      && u.born == t.born && u.data == t.data && (u.live <==> t.live && r.retval != -1)
      && (r.retval >= 0 ==> (Due(u, c) <==> Millis(c) >= Millis(r.later) + r.retval))
      && (r.retval == -1 ==> WhenMillis(u) == WhenMillis(t))
  {
  }

  function Visit(p: Pass, r: Reaction): Pass
    requires p.pos < |p.list|
  {
    var t := p.list[p.pos];
    if !t.live then
      p.(list := p.list[..p.pos] + p.list[p.pos + 1..], visits := p.visits + 1, finalized := p.finalized + [t.data])
    else if !Due(t, r.clock) then
      p.(pos := p.pos + 1, visits := p.visits + 1)
    else
      var e := EditAll(Edited(p.list, p.nextId, 0, {}), r.ops);
      var at := p.pos + e.created;
      p.(list := if at < |e.list| then e.list[at := Settled(e.list[at], r)] else e.list,
         pos := at + 1, newer := p.newer + e.created, nextId := e.nextId,
         visits := p.visits + 1, fired := p.fired + [t.born], deleted := p.deleted + e.deleted)
  }

  function Left(p: Pass): nat {
    if p.pos <= |p.list| then |p.list| - p.pos else 0
  }

  lemma VisitProgresses(p: Pass, r: Reaction)
    requires p.pos < |p.list|
    ensures Visit(p, r).pos <= |Visit(p, r).list| && Left(Visit(p, r)) == Left(p) - 1
    ensures Visit(p, r).visits == p.visits + 1
  {
    EditAllLength(Edited(p.list, p.nextId, 0, {}), r.ops);
  }

  lemma {:induction false} EditAllLength(e: Edited, ops: seq<Op>)
    requires |e.list| >= e.created
    ensures var e' := EditAll(e, ops); e'.created >= e.created && |e'.list| - e'.created == |e.list| - e.created
    ensures EditAll(e, ops).nextId - EditAll(e, ops).created == e.nextId - e.created
    decreases |ops|
  {
    if ops != [] { EditAllLength(e, ops[..|ops| - 1]); }
  }

  /** The rest of the pass, the reactions indexed by the number of the visit. */
  function Finish(p: Pass, script: nat -> Reaction): (q: Pass)
    ensures q.visits == p.visits + Left(p)
    decreases Left(p)
  {
    if p.pos >= |p.list| then p
    else
      VisitProgresses(p, script(p.visits));
      Finish(Visit(p, script(p.visits)), script)
  }

  /** The correction for a clock that went backwards: every timer is made due. */
  function Forced(list: seq<Timer>): (r: seq<Timer>)
    ensures |r| == |list| && forall i :: 0 <= i < |list| ==> r[i] == list[i].(sec := 0)
  {
    seq(|list|, i requires 0 <= i < |list| => list[i].(sec := 0))
  }

  function ProcessTimeEvents(list: seq<Timer>, nextId: nat, skewed: bool, script: nat -> Reaction): (q: Pass)
    ensures q.visits == |list|
  {
    Finish(Start(if skewed then Forced(list) else list, nextId), script)
  }

  // ---------- times stay normal ----------

  /** The clocks read are normal, and with `least` 0 no delay is negative. */
  ghost predicate Timely(r: Reaction, least: int) {
    && NormalClock(r.clock) && NormalClock(r.later)
    && (least == 0 ==> r.retval >= NOMORE)
    && forall k :: 0 <= k < |r.ops| && r.ops[k].Create? ==>
         NormalClock(r.ops[k].at) && (least == 0 ==> r.ops[k].milliseconds >= 0)
  }

  lemma {:induction false} MarkedWithin(list: seq<Timer>, id: int, least: int)
    requires Within(list, least)
    ensures Within(Marked(list, id), least)
    decreases |list|
  {
    if list != [] { MarkedWithin(list[1..], id, least); }
  }

  lemma EditWithin(e: Edited, op: Op, least: int)
    requires Within(e.list, least) && (least == 0 || least == -999)
    requires op.Create? ==> NormalClock(op.at) && (least == 0 ==> op.milliseconds >= 0)
    ensures Within(Edit(e, op).list, least)
  {
    hide Marked;
    if op.Delete? { MarkedWithin(e.list, op.id, least); }
  }

  lemma {:induction false} EditAllWithin(e: Edited, r: Reaction, k: nat, least: int)
    requires Within(e.list, least) && Timely(r, least) && (least == 0 || least == -999) && k <= |r.ops|
    ensures Within(EditAll(e, r.ops[..k]).list, least)
  {
    hide Edit, Within;
    if k > 0 {
      EditAllWithin(e, r, k - 1, least);
      assert r.ops[..k][..k - 1] == r.ops[..k - 1];
      EditWithin(EditAll(e, r.ops[..k - 1]), r.ops[k - 1], least);
    }
  }

  lemma VisitWithin(p: Pass, r: Reaction, least: int)
    requires p.pos < |p.list| && Within(p.list, least) && Timely(r, least) && (least == 0 || least == -999)
    ensures Within(Visit(p, r).list, least)
  {
    hide EditAll;
    EditAllWithin(Edited(p.list, p.nextId, 0, {}), r, |r.ops|, least);
    assert r.ops[..|r.ops|] == r.ops;
  }

  lemma {:induction false} FinishWithin(p: Pass, script: nat -> Reaction, least: int)
    requires Within(p.list, least) && (least == 0 || least == -999) && forall v: nat :: Timely(script(v), least)
    ensures Within(Finish(p, script).list, least)
    decreases Left(p)
  {
    hide Visit, Within, Timely;
    if p.pos < |p.list| {
      VisitProgresses(p, script(p.visits));
      VisitWithin(p, script(p.visits), least);
      FinishWithin(Visit(p, script(p.visits)), script, least);
    }
  }

  /** Milliseconds stay below 1000 in size over every pass, and from 0 on if no delay is negative. */
  lemma PassKeepsTimes(list: seq<Timer>, nextId: nat, skewed: bool, script: nat -> Reaction, least: int)
    requires Within(list, least) && (least == 0 || least == -999) && forall v: nat :: Timely(script(v), least)
    ensures Within(ProcessTimeEvents(list, nextId, skewed, script).list, least)
  {
    hide Finish, Timely;
    FinishWithin(Start(if skewed then Forced(list) else list, nextId), script, least);
  }
}
