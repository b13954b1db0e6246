/** What one pass does to each timer of the list it started with. */
module TimerPass {
  import opened Timers

  /** The ids a callback deletes, whether or not a timer shows them. */
  ghost function DeletedIn(ops: seq<Op>): set<int>
    decreases |ops|
  {
    if ops == [] then {}
    else
      var op := ops[|ops| - 1];
      DeletedIn(ops[..|ops| - 1]) + (if op.Delete? then {op.id} else {})
  }

  /** The ids deleted by the callbacks that fire before the `j`-th visit. */
  ghost function DeletedBefore(was: seq<Timer>, script: nat -> Reaction, j: nat): set<int>
    requires j <= |was|
  {
    if j == 0 then {}
    else
      var before := DeletedBefore(was, script, j - 1);
      if was[j - 1].live && was[j - 1].born !in before && Due(was[j - 1], script(j - 1).clock) then
        before + DeletedIn(script(j - 1).ops)
      else before
  }

  /** The `j`-th timer is live when its turn comes: no callback that fired before has deleted it. */
  ghost predicate LiveAt(was: seq<Timer>, script: nat -> Reaction, j: nat)
    requires j < |was|
  {
    was[j].live && was[j].born !in DeletedBefore(was, script, j)
  }

  /** The `j`-th timer fires: it is live when visited, and due by the clock of that visit. */
  ghost predicate FiresAt(was: seq<Timer>, script: nat -> Reaction, j: nat)
    requires j < |was|
  {
    LiveAt(was, script, j) && Due(was[j], script(j).clock)
  }

  ghost function Survivor(was: seq<Timer>, deleted: set<int>, script: nat -> Reaction, j: nat): Timer
    requires j < |was|
  {
    Masked(if FiresAt(was, script, j) then Settled(was[j], script(j)) else was[j], deleted)
  }

  /** The visited timers that were live when visited, in their old order. */
  ghost function Survivors(was: seq<Timer>, deleted: set<int>, script: nat -> Reaction, m: nat): seq<Timer>
    requires m <= |was|
  {
    if m == 0 then []
    else
      Survivors(was, deleted, script, m - 1)
      + (if LiveAt(was, script, m - 1) then [Survivor(was, deleted, script, m - 1)] else [])
  }

  ghost function FiredIds(was: seq<Timer>, script: nat -> Reaction, m: nat): seq<int>
    requires m <= |was|
  {
    if m == 0 then []
    else FiredIds(was, script, m - 1) + (if FiresAt(was, script, m - 1) then [was[m - 1].born] else [])
  }

  ghost function FinalizedData(was: seq<Timer>, script: nat -> Reaction, m: nat): seq<int>
    requires m <= |was|
  {
    if m == 0 then []
    else FinalizedData(was, script, m - 1) + (if LiveAt(was, script, m - 1) then [] else [was[m - 1].data])
  }

  /** Lengths: the visited part of the old list and the part still to visit. */
  ghost predicate Sizes(p: Pass, was: seq<Timer>) {
    p.newer <= p.pos <= |p.list| && p.visits <= |was| && |was| - p.visits == |p.list| - p.pos
  }

  ghost predicate RestIs(rest: seq<Timer>, was: seq<Timer>, deleted: set<int>) {
    |rest| == |was| && forall k :: 0 <= k < |rest| ==> rest[k] == Masked(was[k], deleted)
  }

  /** New timers, then the survivors, then the timers still to visit. */
  ghost predicate Shape(p: Pass, was: seq<Timer>, nextId: nat, script: nat -> Reaction)
    requires Sizes(p, was)
  {
    && (forall i :: 0 <= i < p.newer ==> p.list[i].born >= nextId)
    && p.list[p.newer..p.pos] == Survivors(was, p.deleted, script, p.visits)
    && RestIs(p.list[p.pos..], was[p.visits..], p.deleted)
  }

  ghost predicate PassInv(p: Pass, was: seq<Timer>, nextId: nat, script: nat -> Reaction) {
    && Sizes(p, was) && Ordered(p.list, p.nextId) && nextId <= p.nextId
    && Shape(p, was, nextId, script)
    && p.deleted == DeletedBefore(was, script, p.visits)
    && p.fired == FiredIds(was, script, p.visits)
    && p.finalized == FinalizedData(was, script, p.visits)
  }

  /** Deleting more only takes liveness away. */
  lemma {:induction false} SurvivorsMask(was: seq<Timer>, deleted: set<int>, more: set<int>,
      script: nat -> Reaction, m: nat)
    requires m <= |was|
    ensures var s := Survivors(was, deleted, script, m);
      var s' := Survivors(was, deleted + more, script, m);
      |s'| == |s| && forall i :: 0 <= i < |s| ==> s'[i] == Masked(s[i], more)
  {
    hide LiveAt, FiresAt;
    if m > 0 { SurvivorsMask(was, deleted, more, script, m - 1); }
  }

  lemma OrderedWithout(list: seq<Timer>, nextId: nat, pos: nat)
    requires Ordered(list, nextId) && pos < |list|
    ensures Ordered(list[..pos] + list[pos + 1..], nextId)
  {
    var r := list[..pos] + list[pos + 1..];
    assert forall i :: 0 <= i < |r| ==> r[i] == list[if i < pos then i else i + 1];
  }

  lemma RestTail(list: seq<Timer>, pos: nat, was: seq<Timer>, m: nat, deleted: set<int>)
    requires pos < |list| && m < |was| && RestIs(list[pos..], was[m..], deleted)
    ensures list[pos] == Masked(was[m], deleted)
    ensures RestIs(list[pos + 1..], was[m + 1..], deleted)
  {
    assert list[pos] == list[pos..][0];
    assert list[pos + 1..] == list[pos..][1..] && was[m + 1..] == was[m..][1..];
  }

  lemma VisitDead(p: Pass, was: seq<Timer>, nextId: nat, script: nat -> Reaction)
    requires PassInv(p, was, nextId, script) && p.pos < |p.list| && !p.list[p.pos].live
    ensures PassInv(Visit(p, script(p.visits)), was, nextId, script)
  {
    hide Survivor, Ordered, RestIs;
    var m := p.visits;
    RestTail(p.list, p.pos, was, m, p.deleted);
    OrderedWithout(p.list, p.nextId, p.pos);
    assert !LiveAt(was, script, m);
    var q := Visit(p, script(m));
    assert q.list[q.newer..q.pos] == p.list[p.newer..p.pos];
    assert q.list[q.pos..] == p.list[p.pos + 1..];
  }

  lemma VisitNotDue(p: Pass, was: seq<Timer>, nextId: nat, script: nat -> Reaction)
    requires PassInv(p, was, nextId, script) && p.pos < |p.list|
    requires p.list[p.pos].live && !Due(p.list[p.pos], script(p.visits).clock)
    ensures PassInv(Visit(p, script(p.visits)), was, nextId, script)
  {
    hide Ordered, RestIs;
    var m := p.visits;
    RestTail(p.list, p.pos, was, m, p.deleted);
    assert LiveAt(was, script, m) && !FiresAt(was, script, m);
    var q := Visit(p, script(m));
    assert q.list[q.newer..q.pos] == p.list[p.newer..p.pos] + [p.list[p.pos]];
  }

  ghost function AfterFiring(p: Pass, e: Edited, r: Reaction): Pass
    requires p.pos < |p.list| && |e.list| == e.created + |p.list|
  {
    var at := p.pos + e.created;
    Pass(e.list[at := Settled(e.list[at], r)], at + 1, p.newer + e.created, e.nextId,
         p.visits + 1, p.fired + [p.list[p.pos].born], p.finalized, p.deleted + e.deleted)
  }

  lemma VisitFires(p: Pass, was: seq<Timer>, nextId: nat, script: nat -> Reaction)
    requires PassInv(p, was, nextId, script) && p.pos < |p.list|
    requires p.list[p.pos].live && Due(p.list[p.pos], script(p.visits).clock)
    ensures PassInv(Visit(p, script(p.visits)), was, nextId, script)
  {
    hide Survivors, EditAll, FiredIds, FinalizedData, Ordered, RestIs, DeletedBefore;
    var m := p.visits;
    var r := script(m);
    EditAllKeeps(p.list, p.nextId, r.ops);
    RestTail(p.list, p.pos, was, m, p.deleted);
    var e := EditAll(Edited(p.list, p.nextId, 0, {}), r.ops);
    EditAllDeletes(Edited(p.list, p.nextId, 0, {}), r.ops);
    FiredShape(p, was, nextId, script, e);
    FiredSteps(was, script, m);
    assert Visit(p, r) == AfterFiring(p, e, r);
  }

  lemma {:induction false} EditAllDeletes(e: Edited, ops: seq<Op>)
    ensures EditAll(e, ops).deleted == e.deleted + DeletedIn(ops)
    decreases |ops|
  {
    if ops != [] { EditAllDeletes(e, ops[..|ops| - 1]); }
  }

  lemma FiredSteps(was: seq<Timer>, script: nat -> Reaction, m: nat)
    requires m < |was| && FiresAt(was, script, m)
    ensures FiredIds(was, script, m + 1) == FiredIds(was, script, m) + [was[m].born]
    ensures FinalizedData(was, script, m + 1) == FinalizedData(was, script, m)
    ensures DeletedBefore(was, script, m + 1) == DeletedBefore(was, script, m) + DeletedIn(script(m).ops)
  {
  }

  lemma SettleMasked(t: Timer, r: Reaction, deleted: set<int>)
    ensures Settled(Masked(t, deleted), r) == Masked(Settled(t, r), deleted)
  {
  }

  lemma MaskTwice(t: Timer, a: set<int>, b: set<int>)
    ensures Masked(Masked(t, a), b) == Masked(t, a + b)
  {
  }

  /** The part of the list already visited, with the timer that just fired at its end. */
  lemma FiredSurvivors(p: Pass, was: seq<Timer>, script: nat -> Reaction, e: Edited)
    requires Sizes(p, was) && p.pos < |p.list| && EditedFrom(p.list, p.nextId, e)
    requires p.list[p.newer..p.pos] == Survivors(was, p.deleted, script, p.visits)
    requires p.list[p.pos].live && Due(p.list[p.pos], script(p.visits).clock)
    requires p.list[p.pos] == Masked(was[p.visits], p.deleted) && FiresAt(was, script, p.visits)
    ensures var q := AfterFiring(p, e, script(p.visits));
      q.list[q.newer..q.pos] == Survivors(was, q.deleted, script, q.visits)
  {
    hide Ordered, Settled, Masked;
    var m := p.visits;
    var r := script(m);
    var q := AfterFiring(p, e, r);
    SurvivorsMask(was, p.deleted, e.deleted, script, m);
    var before := Survivors(was, q.deleted, script, m);
    MaskedFields(was[m], p.deleted);
    assert Survivors(was, q.deleted, script, m + 1) == before + [Masked(Settled(was[m], r), q.deleted)];
    MaskTwice(was[m], p.deleted, e.deleted);
    SettleMasked(was[m], r, q.deleted);
    assert q.list[q.pos - 1] == Masked(Settled(was[m], r), q.deleted);
    forall i | 0 <= i < |before| ensures before[i] == q.list[q.newer + i] {
      assert p.list[p.newer..p.pos][i] == p.list[p.newer + i];
      assert e.list[e.created + (p.newer + i)] == Masked(p.list[p.newer + i], e.deleted);
    }
  }

  lemma MaskedFields(t: Timer, deleted: set<int>)
    ensures var u := Masked(t, deleted); u.born == t.born && u.sec == t.sec && u.ms == t.ms && u.data == t.data
  {
  }

  lemma FiredRest(p: Pass, was: seq<Timer>, e: Edited, r: Reaction)
    requires Sizes(p, was) && p.pos < |p.list| && EditedFrom(p.list, p.nextId, e)
    requires RestIs(p.list[p.pos + 1..], was[p.visits + 1..], p.deleted)
    ensures var q := AfterFiring(p, e, r);
      RestIs(q.list[q.pos..], was[q.visits..], q.deleted)
  {
    hide Masked, Settled;
    var q := AfterFiring(p, e, r);
    forall k | 0 <= k < |was| - q.visits ensures q.list[q.pos..][k] == Masked(was[q.visits..][k], q.deleted) {
      assert p.list[p.pos + 1..][k] == p.list[p.pos + 1 + k];
      assert e.list[e.created + (p.pos + 1 + k)] == Masked(p.list[p.pos + 1 + k], e.deleted);
      MaskTwice(was[q.visits..][k], p.deleted, e.deleted);
    }
  }

  lemma FiredOrdered(p: Pass, e: Edited, r: Reaction, nextId: nat)
    requires p.newer <= p.pos < |p.list| && EditedFrom(p.list, p.nextId, e) && nextId <= p.nextId
    requires forall i :: 0 <= i < p.newer ==> p.list[i].born >= nextId
    ensures var q := AfterFiring(p, e, r);
      && Ordered(q.list, q.nextId) && nextId <= q.nextId
      && forall i :: 0 <= i < q.newer ==> q.list[i].born >= nextId
  {
    var q := AfterFiring(p, e, r);
    forall i | 0 <= i < |q.list| ensures q.list[i].born == e.list[i].born { }
    forall i | 0 <= i < q.newer ensures e.list[i].born >= nextId {
      if i >= e.created { assert e.list[e.created + (i - e.created)] == Masked(p.list[i - e.created], e.deleted); }
    }
  }

  lemma FiredShape(p: Pass, was: seq<Timer>, nextId: nat, script: nat -> Reaction, e: Edited)
    requires Sizes(p, was) && Shape(p, was, nextId, script) && p.pos < |p.list| && nextId <= p.nextId
    requires p.list[p.pos].live && Due(p.list[p.pos], script(p.visits).clock)
    requires p.list[p.pos] == Masked(was[p.visits], p.deleted) && FiresAt(was, script, p.visits)
    requires RestIs(p.list[p.pos + 1..], was[p.visits + 1..], p.deleted)
    requires EditedFrom(p.list, p.nextId, e)
    ensures var q := AfterFiring(p, e, script(p.visits));
      Sizes(q, was) && Ordered(q.list, q.nextId) && Shape(q, was, nextId, script) && nextId <= q.nextId
  {
    hide Ordered, RestIs, Survivors, Settled, Masked;
    FiredSurvivors(p, was, script, e);
    FiredRest(p, was, e, script(p.visits));
    FiredOrdered(p, e, script(p.visits), nextId);
  }

  lemma {:induction false} FinishKeeps(p: Pass, was: seq<Timer>, nextId: nat, script: nat -> Reaction)
    requires PassInv(p, was, nextId, script)
    ensures var q := Finish(p, script);
      PassInv(q, was, nextId, script) && q.visits == |was| && q.pos == |q.list|
    decreases Left(p)
  {
    hide Visit, Shape, Ordered, DeletedBefore;
    if p.pos < |p.list| {
      VisitKeeps(p, was, nextId, script);
      VisitProgresses(p, script(p.visits));
      FinishKeeps(Visit(p, script(p.visits)), was, nextId, script);
    }
  }

  lemma VisitKeeps(p: Pass, was: seq<Timer>, nextId: nat, script: nat -> Reaction)
    requires PassInv(p, was, nextId, script) && p.pos < |p.list|
    ensures PassInv(Visit(p, script(p.visits)), was, nextId, script)
  {
    hide Visit, PassInv;
    if !p.list[p.pos].live {
      VisitDead(p, was, nextId, script);
    } else if Due(p.list[p.pos], script(p.visits).clock) {
      VisitFires(p, was, nextId, script);
    } else {
      VisitNotDue(p, was, nextId, script);
    }
  }

  // ---------- the theorems ----------

  lemma OrderedForced(list: seq<Timer>, nextId: nat)
    requires Ordered(list, nextId)
    ensures Ordered(Forced(list), nextId)
  {
  }

  /** The list a pass works on: made due throughout if the clock went backwards. */
  ghost function Entered(list: seq<Timer>, skewed: bool): (r: seq<Timer>)
    ensures |r| == |list|
  {
    if skewed then Forced(list) else list
  }

  /**
    A pass visits every old timer, leaves the timers it created in front of the old survivors in their
    old order, fires in list order exactly the timers that are due and that no callback fired before
    them has deleted, and keeps live ids strictly decreasing along the list.
  */
  lemma PassOutcome(list: seq<Timer>, nextId: nat, skewed: bool, script: nat -> Reaction)
    requires Ordered(list, nextId)
    ensures var was := Entered(list, skewed);
      var q := ProcessTimeEvents(list, nextId, skewed, script);
      && q.newer <= |q.list|
      && q.list[q.newer..] == Survivors(was, q.deleted, script, |list|)
      && (forall i :: 0 <= i < q.newer ==> q.list[i].born >= nextId)
      && Ordered(q.list, q.nextId)
      && q.fired == FiredIds(was, script, |list|)
      && q.finalized == FinalizedData(was, script, |list|)
      && q.deleted == DeletedBefore(was, script, |list|)
  {
    hide Ordered, Survivors, Finish, FiredIds, FinalizedData, DeletedBefore;
    OrderedForced(list, nextId);
    var was := Entered(list, skewed);
    StartInv(was, nextId, script);
    FinishKeeps(Start(was, nextId), was, nextId, script);
    var q := Finish(Start(was, nextId), script);
    assert q.list[q.newer..] == q.list[q.newer..q.pos];
  }

  lemma StartInv(was: seq<Timer>, nextId: nat, script: nat -> Reaction)
    requires Ordered(was, nextId)
    ensures PassInv(Start(was, nextId), was, nextId, script)
  {
    var p := Start(was, nextId);
    assert p.list[0..] == was && was[0..] == was && p.list[0..0] == [];
  }

  lemma {:induction false} FiredOnly(was: seq<Timer>, script: nat -> Reaction, m: nat, id: int)
    requires m <= |was|
    requires forall j :: 0 <= j < m ==> was[j].born != id
    ensures id !in FiredIds(was, script, m)
  {
    hide FiresAt;
    if m > 0 { FiredOnly(was, script, m - 1, id); }
  }

  lemma {:induction false} FiredCount(was: seq<Timer>, script: nat -> Reaction, m: nat, j: nat)
    requires j < m <= |was|
    requires forall i :: 0 <= i < m && i != j ==> was[i].born != was[j].born
    ensures multiset(FiredIds(was, script, m))[was[j].born] == if FiresAt(was, script, j) then 1 else 0
  {
    hide FiresAt, FiredIds;
    var before := FiredIds(was, script, m - 1);
    var last := FiredNext(was, script, m);
    CountJoined(before, last, was[j].born);
    if j < m - 1 {
      FiredCount(was, script, m - 1, j);
    } else {
      FiredOnly(was, script, m - 1, was[j].born);
    }
  }

  lemma FiredNext(was: seq<Timer>, script: nat -> Reaction, m: nat) returns (last: seq<int>)
    requires 0 < m <= |was|
    ensures last == if FiresAt(was, script, m - 1) then [was[m - 1].born] else []
    ensures FiredIds(was, script, m) == FiredIds(was, script, m - 1) + last
  {
    hide FiresAt;
    last := if FiresAt(was, script, m - 1) then [was[m - 1].born] else [];
  }

  lemma CountJoined(a: seq<int>, b: seq<int>, x: int)
    ensures multiset(a + b)[x] == multiset(a)[x] + multiset(b)[x]
    ensures x !in a ==> multiset(a)[x] == 0
    ensures |b| == 1 ==> multiset(b)[x] == if b[0] == x then 1 else 0
    ensures |b| == 0 ==> multiset(b)[x] == 0
  {
    if |b| == 1 { assert b == [b[0]]; }
  }

  /** An old timer fires once if it is due at its visit and no callback fired before has deleted it; else never. */
  lemma FiredOnce(list: seq<Timer>, nextId: nat, skewed: bool, script: nat -> Reaction, j: nat)
    requires Ordered(list, nextId) && j < |list|
    ensures multiset(ProcessTimeEvents(list, nextId, skewed, script).fired)[list[j].born]
         == if FiresAt(Entered(list, skewed), script, j) then 1 else 0
  {
    hide ProcessTimeEvents, FiresAt, FiredIds, Survivors, FinalizedData;
    PassOutcome(list, nextId, skewed, script);
    OrderedForced(list, nextId);
    FiredCount(Entered(list, skewed), script, |list|, j);
  }

  /** A timer that a callback deletes before its turn never fires. */
  lemma DeletedNeverFires(list: seq<Timer>, nextId: nat, skewed: bool, script: nat -> Reaction, k: nat, j: nat)
    requires Ordered(list, nextId) && k < j < |list|
    requires FiresAt(Entered(list, skewed), script, k) && Delete(list[j].born) in script(k).ops
    ensures list[j].born !in ProcessTimeEvents(list, nextId, skewed, script).fired
  {
    hide ProcessTimeEvents;
    var was := Entered(list, skewed);
    FiredOnce(list, nextId, skewed, script, j);
    DeletedInHas(script(k).ops, list[j].born);
    DeletedGrows(was, script, k + 1, j);
  }

  lemma {:induction false} DeletedInHas(ops: seq<Op>, id: int)
    ensures id in DeletedIn(ops) <==> Delete(id) in ops
    decreases |ops|
  {
    if ops != [] {
      DeletedInHas(ops[..|ops| - 1], id);
      assert ops == ops[..|ops| - 1] + [ops[|ops| - 1]];
    }
  }

  lemma {:induction false} DeletedGrows(was: seq<Timer>, script: nat -> Reaction, k: nat, m: nat)
    requires k <= m <= |was|
    ensures DeletedBefore(was, script, k) <= DeletedBefore(was, script, m)
    decreases m
  {
    if k < m { DeletedGrows(was, script, k, m - 1); }
  }

  lemma {:induction false} SurvivorKept(was: seq<Timer>, deleted: set<int>, script: nat -> Reaction, m: nat, j: nat)
    requires j < m <= |was| && LiveAt(was, script, j)
    ensures Survivor(was, deleted, script, j) in Survivors(was, deleted, script, m)
  {
    hide Survivor, LiveAt;
    if j < m - 1 { SurvivorKept(was, deleted, script, m - 1, j); }
  }

  /** Timers a pass creates do not fire in it. */
  lemma NoneCreatedFires(list: seq<Timer>, nextId: nat, skewed: bool, script: nat -> Reaction, id: int)
    requires Ordered(list, nextId) && id >= nextId
    ensures id !in ProcessTimeEvents(list, nextId, skewed, script).fired
  {
    hide ProcessTimeEvents;
    PassOutcome(list, nextId, skewed, script);
    FiredOnly(Entered(list, skewed), script, |list|, id);
  }

  /** A timer live when visited is never unlinked. */
  lemma LiveStays(list: seq<Timer>, nextId: nat, skewed: bool, script: nat -> Reaction, j: nat)
    requires Ordered(list, nextId) && j < |list| && LiveAt(Entered(list, skewed), script, j)
    ensures var q := ProcessTimeEvents(list, nextId, skewed, script);
      Survivor(Entered(list, skewed), q.deleted, script, j) in q.list
  {
    hide ProcessTimeEvents, Survivor, Survivors, LiveAt;
    PassOutcome(list, nextId, skewed, script);
    var q := ProcessTimeEvents(list, nextId, skewed, script);
    SurvivorKept(Entered(list, skewed), q.deleted, script, |list|, j);
    InTail(q.list, q.newer, Survivor(Entered(list, skewed), q.deleted, script, j));
  }

  lemma InTail(list: seq<Timer>, from: nat, t: Timer)
    requires from <= |list| && t in list[from..]
    ensures t in list
  {
  }

  /** Of a list with normal times, visited by normal clocks, exactly the timers fire whose time is reached. */
  lemma FiresWhenReached(list: seq<Timer>, nextId: nat, skewed: bool, script: nat -> Reaction, j: nat)
    requires Ordered(list, nextId) && Within(list, -999) && j < |list| && NormalClock(script(j).clock)
    ensures var was := Entered(list, skewed);
      multiset(ProcessTimeEvents(list, nextId, skewed, script).fired)[list[j].born]
        == if LiveAt(was, script, j) && Reached(was[j], script(j).clock) then 1 else 0
  {
    hide ProcessTimeEvents, LiveAt, Due, Reached;
    FiredOnce(list, nextId, skewed, script, j);
    DueMeans(Entered(list, skewed)[j], script(j).clock);
  }

  /** After a clock that went backwards every timer is reached from the first second on. */
  lemma SkewReaches(list: seq<Timer>, c: Clock, j: nat)
    requires Within(list, -999) && j < |list| && NormalClock(c) && c.sec >= 1
    ensures Reached(Entered(list, true)[j], c)
  {
  }

  /**
    A live timer whose time has come when it is visited, and that no callback deletes, fires once and is
    rescheduled or marked.
  */
  lemma DueTimerFiresOnce(list: seq<Timer>, nextId: nat, skewed: bool, script: nat -> Reaction, j: nat)
    requires Ordered(list, nextId) && j < |list| && list[j].live
    requires -1000 < list[j].ms < 1000 && NormalClock(script(j).clock)
    requires Reached(Entered(list, skewed)[j], script(j).clock)
    requires list[j].born !in ProcessTimeEvents(list, nextId, skewed, script).deleted
    ensures var q := ProcessTimeEvents(list, nextId, skewed, script);
      && multiset(q.fired)[list[j].born] == 1
      && Settled(Entered(list, skewed)[j], script(j)) in q.list
  {
    hide ProcessTimeEvents, Survivors, FiredIds, DeletedBefore, Due, Reached;
    PassOutcome(list, nextId, skewed, script);
    var q := ProcessTimeEvents(list, nextId, skewed, script);
    var was := Entered(list, skewed);
    DueMeans(was[j], script(j).clock);
    DeletedGrows(was, script, j, |list|);
    assert LiveAt(was, script, j);
    FiredOnce(list, nextId, skewed, script, j);
    LiveStays(list, nextId, skewed, script, j);
    SettleMasked(was[j], script(j), q.deleted);
    assert Masked(was[j], q.deleted) == was[j];
  }
}
