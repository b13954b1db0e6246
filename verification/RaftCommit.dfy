/** How many peers have what `maybeCommit` commits. */
module RaftCommit {
  import opened RaftNode

  ghost predicate Ascending(s: seq<nat>) {
    forall i, j :: 0 <= i < j < |s| ==> s[i] <= s[j]
  }

  ghost function AtLeast(s: seq<nat>, v: nat): nat
    decreases |s|
  {
    if s == [] then 0 else AtLeast(s[..|s| - 1], v) + if s[|s| - 1] >= v then 1 else 0
  }

  lemma {:induction false} AtLeastFirst(x: nat, s: seq<nat>, v: nat)
    ensures AtLeast([x] + s, v) == (if x >= v then 1 else 0) + AtLeast(s, v)
    decreases |s|
  {
    if s != [] {
      AtLeastFirst(x, s[..|s| - 1], v);
      assert ([x] + s)[..|s|] == [x] + s[..|s| - 1];
    } else {
      assert ([x] + s)[..0] == [];
    }
  }

  lemma {:induction false} InsertCounts(x: nat, s: seq<nat>, v: nat)
    ensures AtLeast(Insert(x, s), v) == AtLeast(s, v) + if x >= v then 1 else 0
    decreases |s|
  {
    hide AtLeast;
    AtLeastFirst(x, s, v);
    if s != [] && x > s[0] {
      InsertCounts(x, s[1..], v);
      AtLeastFirst(s[0], Insert(x, s[1..]), v);
      AtLeastFirst(s[0], s[1..], v);
      assert [s[0]] + s[1..] == s;
    }
  }

  lemma {:induction false} InsertAscends(x: nat, s: seq<nat>)
    requires Ascending(s)
    ensures Ascending(Insert(x, s))
    ensures Insert(x, s)[0] == if s != [] && s[0] < x then s[0] else x
    decreases |s|
  {
    if s != [] && x > s[0] {
      InsertAscends(x, s[1..]);
      var r := Insert(x, s[1..]);
      assert forall i :: 0 <= i < |r| ==> s[0] <= r[i] by {
        assert s[0] <= r[0];
        assert forall i :: 0 < i < |r| ==> r[0] <= r[i];
      }
    }
  }

  /** Sorting orders the matches and loses none of them. */
  lemma {:induction false} SortedSorts(s: seq<nat>, v: nat)
    ensures Ascending(Sorted(s)) && AtLeast(Sorted(s), v) == AtLeast(s, v)
    decreases |s|
  {
    if s != [] {
      SortedSorts(s[..|s| - 1], v);
      InsertAscends(s[|s| - 1], Sorted(s[..|s| - 1]));
      InsertCounts(s[|s| - 1], Sorted(s[..|s| - 1]), v);
    }
  }

  /** From position `k` of a sorted sequence on, everything is at least what is there. */
  lemma {:induction false} AtLeastFrom(s: seq<nat>, k: nat, n: nat)
    requires Ascending(s) && k < n <= |s|
    ensures AtLeast(s[..n], s[k]) >= n - k
    decreases n
  {
    assert s[..n][..n - 1] == s[..n - 1];
    if k < n - 1 { AtLeastFrom(s, k, n - 1); }
  }

  ghost function Holding(prs: map<nat, Progress>, v: nat): set<nat> {
    set id | id in prs && prs[id].matched >= v
  }

  ghost function HoldingAmong(prs: map<nat, Progress>, ids: seq<nat>, v: nat): set<nat>
    requires Walks(ids, prs)
  {
    set id | id in ids && prs[id].matched >= v
  }

  ghost predicate Distinct(ids: seq<nat>) {
    forall i, j :: 0 <= i < j < |ids| ==> ids[i] != ids[j]
  }

  lemma LastApart(ids: seq<nat>)
    requires Distinct(ids) && ids != []
    ensures Distinct(ids[..|ids| - 1]) && ids[|ids| - 1] !in ids[..|ids| - 1]
    ensures forall id :: id in ids <==> id in ids[..|ids| - 1] || id == ids[|ids| - 1]
  {
    assert ids == ids[..|ids| - 1] + [ids[|ids| - 1]];
  }

  lemma {:induction false} CountHolding(prs: map<nat, Progress>, ids: seq<nat>, v: nat)
    requires Walks(ids, prs) && Distinct(ids)
    ensures |HoldingAmong(prs, ids, v)| == AtLeast(Matches(prs, ids), v)
    decreases |ids|
  {
    if ids == [] {
      assert HoldingAmong(prs, ids, v) == {};
    } else {
      LastApart(ids);
      hide Distinct;
      var front, last := ids[..|ids| - 1], ids[|ids| - 1];
      CountHolding(prs, front, v);
      assert Matches(prs, ids)[..|ids| - 1] == Matches(prs, front);
      HoldingSplit(prs, front, last, ids, v);
    }
  }

  lemma HoldingSplit(prs: map<nat, Progress>, front: seq<nat>, last: nat, ids: seq<nat>, v: nat)
    requires Walks(ids, prs) && Walks(front, prs) && last in prs && last !in front
    requires forall id :: id in ids <==> id in front || id == last
    ensures |HoldingAmong(prs, ids, v)| == |HoldingAmong(prs, front, v)| + if prs[last].matched >= v then 1 else 0
  {
    var before := HoldingAmong(prs, front, v);
    if prs[last].matched >= v {
      assert HoldingAmong(prs, ids, v) == before + {last};
    } else {
      assert HoldingAmong(prs, ids, v) == before;
    }
  }

  ghost function Ids(ids: seq<nat>): set<nat> {
    set id | id in ids
  }

  lemma OrderCounts(order: seq<nat>, prs: map<nat, Progress>)
    requires IsOrder(order, prs)
    ensures |order| == |prs|
  {
    DistinctSize(order);
    assert prs.Keys == Ids(order);
  }

  lemma {:induction false} DistinctSize(ids: seq<nat>)
    requires Distinct(ids)
    ensures |Ids(ids)| == |ids|
    decreases |ids|
  {
    if ids == [] {
      assert Ids(ids) == {};
    } else {
      LastApart(ids);
      hide Distinct;
      var front, last := ids[..|ids| - 1], ids[|ids| - 1];
      DistinctSize(front);
      assert Ids(ids) == Ids(front) + {last};
    }
  }

  /** `maybeCommit` reads inside its vector exactly if the quorum is no larger than the number of tracked peers. */
  lemma ReadsInside(s: Node, env: Env)
    requires IsOrder(env.order, s.prs)
    ensures Quorum(s) - 1 < |Matches(s.prs, env.order)| <==> Quorum(s) <= |s.prs|
  {
    OrderCounts(env.order, s.prs);
  }

  /**
    Whenever the commit index is raised, to `mci`, and the quorum is no larger than the number of
    tracked peers, all but `quorum - 1` of them at least have a match of `mci`.
  */
  lemma CommitCounted(s: Node, env: Env)
    requires IsOrder(env.order, s.prs) && Quorum(s) <= |s.prs|
    requires MaybeCommit(s, env).1
    ensures var mci := MaybeCommit(s, env).0.commitIndex;
      mci > s.commitIndex && |Holding(s.prs, mci)| >= |s.prs| - Quorum(s) + 1
  {
    hide AtLeast, Sorted;
    var mis := Sorted(Matches(s.prs, env.order));
    OrderCounts(env.order, s.prs);
    var k := Quorum(s) - 1;
    var mci := mis[k];
    SortedSorts(Matches(s.prs, env.order), mci);
    AtLeastFrom(mis, k, |mis|);
    assert mis[..|mis|] == mis;
    CountHolding(s.prs, env.order, mci);
    assert HoldingAmong(s.prs, env.order, mci) == Holding(s.prs, mci);
  }

  /**
    The map the quorum counts is never filled, so what the code commits every tracked peer has.
  */
  lemma CommitNeedsAll(s: Node, env: Env)
    requires IsOrder(env.order, s.prs) && s.prs != map[] && s.members == 0
    requires MaybeCommit(s, env).1
    ensures forall id :: id in s.prs ==> s.prs[id].matched >= MaybeCommit(s, env).0.commitIndex
  {
    hide MaybeCommit;
    assert |s.prs| >= 1;
    CommitCounted(s, env);
    var holding := Holding(s.prs, MaybeCommit(s, env).0.commitIndex);
    assert holding <= s.prs.Keys;
    SubsetAll(holding, s.prs.Keys);
  }

  lemma SubsetAll(a: set<nat>, b: set<nat>)
    requires a <= b && |a| >= |b|
    ensures a == b
  {
    assert b == a + (b - a) && |a + (b - a)| == |a| + |b - a|;
    assert b - a == {};
  }

  /** And it is raised whenever that many peers have more than is committed. */
  lemma CommitComplete(s: Node, env: Env, v: nat)
    requires IsOrder(env.order, s.prs) && Quorum(s) <= |s.prs|
    requires |Holding(s.prs, v)| >= |s.prs| - Quorum(s) + 1
    ensures MaybeCommit(s, env).0.commitIndex >= v
  {
    hide AtLeast, Sorted;
    var mis := Sorted(Matches(s.prs, env.order));
    OrderCounts(env.order, s.prs);
    SortedSorts(Matches(s.prs, env.order), v);
    CountHolding(s.prs, env.order, v);
    assert HoldingAmong(s.prs, env.order, v) == Holding(s.prs, v);
    assert mis[..|mis|] == mis;
    AtLeastUpTo(mis, Quorum(s) - 1, v, |mis|);
  }

  lemma {:induction false} AtLeastUpTo(s: seq<nat>, k: nat, v: nat, n: nat)
    requires Ascending(s) && k < |s| && n <= |s|
    ensures s[k] < v ==> AtLeast(s[..n], v) <= if n <= k + 1 then 0 else n - k - 1
    decreases n
  {
    if n > 0 {
      assert s[..n][..n - 1] == s[..n - 1];
      AtLeastUpTo(s, k, v, n - 1);
    }
  }
}
