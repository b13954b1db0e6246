/** The part of the log not yet handed to storage: entries from `offset` on, and perhaps a snapshot before them. */
module UnstableLog {
  import opened Options

  datatype Entry = Entry(term: nat, index: nat, data: string)
  datatype SnapshotMetadata = SnapshotMetadata(index: nat, term: nat)
  datatype Unstable = Unstable(offset: nat, entries: seq<Entry>, snap: Option<SnapshotMetadata>)

  // ---------- what the log stands for ----------

  ghost predicate Contiguous(ents: seq<Entry>, first: nat) {
    forall i :: 0 <= i < |ents| ==> ents[i].index == first + i
  }

  ghost predicate WellFormed(u: Unstable) {
    && u.offset >= 1 && Contiguous(u.entries, u.offset)
    && (u.snap.Some? ==> u.snap.value.index < u.offset)
  }

  /** The entries by their own index. */
  ghost function ByIndex(ents: seq<Entry>): map<nat, Entry>
    decreases |ents|
  {
    if ents == [] then map[]
    else ByIndex(ents[..|ents| - 1])[ents[|ents| - 1].index := ents[|ents| - 1]]
  }

  lemma {:induction false} ByIndexContiguous(ents: seq<Entry>, first: nat)
    requires Contiguous(ents, first)
    ensures forall k :: k in ByIndex(ents) <==> first <= k < first + |ents|
    ensures forall k :: k in ByIndex(ents) ==> ByIndex(ents)[k] == ents[k - first]
    decreases |ents|
  {
    if ents != [] { ByIndexContiguous(ents[..|ents| - 1], first); }
  }

  ghost function Below(m: map<nat, Entry>, bound: nat): map<nat, Entry> {
    map k | k in m && k < bound :: m[k]
  }

  // ---------- the operations ----------

  function MaybeLastIndex(u: Unstable): nat {
    if u.entries != [] then if u.offset + |u.entries| > 0 then u.offset + |u.entries| - 1 else 0
    else if u.snap.Some? then u.snap.value.index
    else 0
  }

  function MaybeTerm(u: Unstable, index: nat): nat {
    if index < u.offset then
      if u.snap.None? then 0
      else if u.snap.value.index == index then u.snap.value.term
      else 0
    else
      var last := MaybeLastIndex(u);
      if last == 0 || index > last || index - u.offset >= |u.entries| then 0
      else u.entries[index - u.offset].term
  }

  function StableTo(u: Unstable, index: nat, term: nat): Unstable {
    var gterm := MaybeTerm(u, index);
    if gterm == 0 then u
    else if gterm == term && index == u.offset then
      u.(entries := u.entries[index + 1 - u.offset..], offset := index + 1)
    else u
  }

  function StableSnapTo(u: Unstable, index: nat): Unstable {
    if u.snap.Some? && u.snap.value.index == index then u.(snap := None) else u
  }

  function Restore(u: Unstable, snap: SnapshotMetadata): Unstable {
    Unstable(snap.index + 1, [], Some(snap))
  }

  /** No index is skipped between the log and the new entries. */
  predicate GapFree(u: Unstable, ents: seq<Entry>)
    requires ents != []
  {
    ents[0].index <= u.offset + |u.entries|
  }

  function TruncateAndAppend(u: Unstable, ents: seq<Entry>): Unstable
    requires ents != [] && GapFree(u, ents)
  {
    if ents[0].index == u.offset + |u.entries| then u.(entries := u.entries + ents)
    else if ents[0].index <= u.offset then u.(offset := ents[0].index, entries := ents)
    else u.(entries := u.entries[..ents[0].index - u.offset] + ents)
  }

  // ---------- refinement ----------

  /** Lookups agree with the map and the snapshot. */
  lemma MaybeTermIs(u: Unstable, index: nat)
    requires WellFormed(u)
    ensures MaybeTerm(u, index) ==
      if index in ByIndex(u.entries) then ByIndex(u.entries)[index].term
      else if u.snap.Some? && u.snap.value.index == index then u.snap.value.term
      else 0
  {
    ByIndexContiguous(u.entries, u.offset);
  }

  /** The last index is the largest one in the map, or else the snapshot's. */
  lemma MaybeLastIndexIs(u: Unstable)
    requires WellFormed(u)
    ensures var m := ByIndex(u.entries);
      if m == map[] then MaybeLastIndex(u) == (if u.snap.Some? then u.snap.value.index else 0)
      else MaybeLastIndex(u) in m && forall k :: k in m ==> k <= MaybeLastIndex(u)
  {
    ByIndexContiguous(u.entries, u.offset);
    if u.entries != [] { assert u.offset in ByIndex(u.entries); }
  }

  /** Whichever of its three ways it takes, truncation is one cut and one append. */
  lemma TruncateCuts(u: Unstable, ents: seq<Entry>)
    requires ents != [] && GapFree(u, ents)
    ensures var u' := TruncateAndAppend(u, ents);
      var keep := if ents[0].index <= u.offset then 0 else ents[0].index - u.offset;
      && keep <= |u.entries| && u'.entries == u.entries[..keep] + ents && u'.snap == u.snap
      && u'.offset == (if ents[0].index <= u.offset then ents[0].index else u.offset)
  {
  }

  /** It keeps everything below the first new index, and then has the new entries. */
  lemma TruncateAndAppendIs(u: Unstable, ents: seq<Entry>)
    requires WellFormed(u) && ents != [] && GapFree(u, ents) && Contiguous(ents, ents[0].index)
    ensures ByIndex(TruncateAndAppend(u, ents).entries) == Below(ByIndex(u.entries), ents[0].index) + ByIndex(ents)
  {
    hide ByIndex, TruncateAndAppend, Contiguous;
    TruncateWellFormed(u, ents);
    var u' := TruncateAndAppend(u, ents);
    var m := Below(ByIndex(u.entries), ents[0].index) + ByIndex(ents);
    forall k: nat ensures k in ByIndex(u'.entries) <==> k in m
      ensures k in m ==> ByIndex(u'.entries)[k] == m[k]
    {
      TruncatedAt(u, ents, k);
    }
  }

  lemma TruncatedAt(u: Unstable, ents: seq<Entry>, k: nat)
    requires WellFormed(u) && ents != [] && GapFree(u, ents) && Contiguous(ents, ents[0].index)
    requires Contiguous(TruncateAndAppend(u, ents).entries, TruncateAndAppend(u, ents).offset)
    ensures var m := ByIndex(TruncateAndAppend(u, ents).entries);
      && (k in m <==> k in ByIndex(ents) || (k in ByIndex(u.entries) && k < ents[0].index))
      && (k in m ==> m[k] == if k in ByIndex(ents) then ByIndex(ents)[k] else ByIndex(u.entries)[k])
  {
    hide ByIndex, TruncateAndAppend, Contiguous;
    TruncateCuts(u, ents);
    var u' := TruncateAndAppend(u, ents);
    ByIndexAt(u.entries, u.offset, k);
    ByIndexAt(ents, ents[0].index, k);
    ByIndexAt(u'.entries, u'.offset, k);
  }

  lemma {:induction false} ByIndexAt(ents: seq<Entry>, first: nat, k: nat)
    requires Contiguous(ents, first)
    ensures k in ByIndex(ents) <==> first <= k < first + |ents|
    ensures k in ByIndex(ents) ==> ByIndex(ents)[k] == ents[k - first]
  {
    ByIndexContiguous(ents, first);
  }

  /** The log stays well formed exactly when the new entries are contiguous, from an index past the snapshot. */
  lemma TruncateWellFormed(u: Unstable, ents: seq<Entry>)
    requires WellFormed(u) && ents != [] && GapFree(u, ents)
    ensures var u' := TruncateAndAppend(u, ents);
      Contiguous(u'.entries, u'.offset) <==> Contiguous(ents, ents[0].index)
    ensures WellFormed(TruncateAndAppend(u, ents)) <==>
      && Contiguous(ents, ents[0].index) && ents[0].index >= 1
      && (u.snap.Some? ==> ents[0].index > u.snap.value.index)
  {
    TruncateCuts(u, ents);
    var u' := TruncateAndAppend(u, ents);
    var keep := if ents[0].index <= u.offset then 0 else ents[0].index - u.offset;
    TailContiguous(u.entries[..keep], ents, u'.offset);
  }

  lemma TailContiguous(head: seq<Entry>, tail: seq<Entry>, first: nat)
    requires Contiguous(head, first) && tail != [] && tail[0].index == first + |head|
    ensures Contiguous(head + tail, first) <==> Contiguous(tail, tail[0].index)
  {
    var all := head + tail;
    assert forall i :: 0 <= i < |tail| ==> all[|head| + i] == tail[i];
    assert forall i :: 0 <= i < |all| ==> all[i] == if i < |head| then head[i] else tail[i - |head|];
  }

  /** Stabilising takes away the first entry, and only if its index and term are the ones named. */
  lemma StableToIs(u: Unstable, index: nat, term: nat)
    requires WellFormed(u)
    ensures var u' := StableTo(u, index, term);
      var m := ByIndex(u.entries);
      && WellFormed(u') && u'.snap == u.snap
      && ByIndex(u'.entries) ==
           (if term != 0 && index == u.offset && index in m && m[index].term == term then m - {index} else m)
  {
    hide ByIndex;
    MaybeTermIs(u, index);
    ByIndexAt(u.entries, u.offset, index);
    var u' := StableTo(u, index, term);
    forall k: nat ensures k in ByIndex(u.entries) <==> u.offset <= k < u.offset + |u.entries|
      ensures k in ByIndex(u'.entries) <==> u'.offset <= k < u'.offset + |u'.entries|
      ensures k in ByIndex(u.entries) ==> ByIndex(u.entries)[k] == u.entries[k - u.offset]
      ensures k in ByIndex(u'.entries) ==> ByIndex(u'.entries)[k] == u'.entries[k - u'.offset]
    {
      ByIndexAt(u.entries, u.offset, k);
      ByIndexAt(u'.entries, u'.offset, k);
    }
  }

  /** Dropping the stabilised snapshot forgets its term and, with no entries, its index, and nothing else. */
  lemma StableSnapToIs(u: Unstable, index: nat, k: nat)
    requires WellFormed(u)
    ensures var u' := StableSnapTo(u, index);
      var drops := u.snap.Some? && u.snap.value.index == index;
      && WellFormed(u') && ByIndex(u'.entries) == ByIndex(u.entries)
      && MaybeTerm(u', k) == (if drops && k == index then 0 else MaybeTerm(u, k))
      && MaybeLastIndex(u') == if drops && u.entries == [] then 0 else MaybeLastIndex(u)
  {
    MaybeTermIs(u, k);
    MaybeTermIs(StableSnapTo(u, index), k);
    ByIndexAt(u.entries, u.offset, k);
  }

  lemma RestoreIs(u: Unstable, snap: SnapshotMetadata)
    ensures var u' := Restore(u, snap);
      && WellFormed(u') && ByIndex(u'.entries) == map[]
      && MaybeLastIndex(u') == snap.index && MaybeTerm(u', snap.index) == snap.term
  {
  }
}
