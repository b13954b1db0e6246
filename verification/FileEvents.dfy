/** File events of the `ae` event loop over its epoll and select back ends. */
module FileEvents {

  datatype Mask = Mask(readable: bool, writable: bool)

  const NONE: Mask := Mask(false, false)
  const FD_SETSIZE: nat := 1024

  function Or(a: Mask, b: Mask): Mask {
    Mask(a.readable || b.readable, a.writable || b.writable)
  }

  function And(a: Mask, b: Mask): Mask {
    Mask(a.readable && b.readable, a.writable && b.writable)
  }

  function Without(a: Mask, b: Mask): Mask {
    Mask(a.readable && !b.readable, a.writable && !b.writable)
  }

  /** Taking `b` off `a` leaves some of it, and takes some. */
  predicate PartlyLeft(a: Mask, b: Mask) {
    Without(a, b) != NONE && Without(a, b) != a
  }

  datatype FileEvent = FileEvent(mask: Mask, rfileProc: int, wfileProc: int, clientData: int)
  datatype FiredEvent = FiredEvent(fd: nat, mask: Mask)

  /** `maxfd` is exactly the largest descriptor with a non-empty mask, or -1. */
  ghost predicate MaxIs(es: seq<FileEvent>, maxfd: int) {
    && -1 <= maxfd < |es|
    && (maxfd >= 0 ==> es[maxfd].mask != NONE)
    && forall j :: maxfd < j < |es| ==> es[j].mask == NONE
  }

  // ---------- back ends ----------

  datatype Kind = Epoll | Select
  datatype Op = Add | Mod | Del

  /** The kernel's interest set, or the two descriptor sets, as the back end's state. */
  datatype Watched = Watched(interest: map<nat, Mask>, rfds: set<nat>, wfds: set<nat>)

  function WatchedFor(kind: Kind, w: Watched, fd: nat): Mask {
    match kind
    case Epoll => if fd in w.interest then w.interest[fd] else NONE
    case Select => Mask(fd in w.rfds, fd in w.wfds)
  }

  /** What the back end watches is what the loop has recorded, descriptor by descriptor. */
  ghost predicate Mirrors(kind: Kind, w: Watched, es: seq<FileEvent>) {
    forall fd: nat :: Recorded(es, fd) == WatchedFor(kind, w, fd)
  }

  /** No empty entries in the interest set. */
  ghost predicate NoIdleEntry(w: Watched) {
    forall fd: nat :: fd in w.interest ==> w.interest[fd] != NONE
  }

  ghost function Recorded(es: seq<FileEvent>, fd: nat): Mask {
    if fd < |es| then es[fd].mask else NONE
  }

  class Api {
    const kind: Kind
    var watched: Watched
    /** Set once an `epoll_ctl` was issued that the kernel must refuse. */
    ghost var illegal: bool

    constructor (kind: Kind)
      ensures this.kind == kind && watched == Watched(map[], {}, {}) && !illegal
    {
      this.kind, watched, illegal := kind, Watched(map[], {}, {}), false;
    }

    /** EEXIST and ENOENT, or a refusal for want of resources when a descriptor is added or changed. */
    method EpollCtl(op: Op, fd: nat, events: Mask, refuse: bool) returns (ok: bool)
      modifies this
      ensures ok <==> (op.Add? <==> fd !in old(watched.interest)) && !(refuse && !op.Del?)
      ensures illegal == (old(illegal) || (op.Add? <==> fd in old(watched.interest)))
      ensures watched.rfds == old(watched.rfds) && watched.wfds == old(watched.wfds)
      ensures watched.interest == if !ok then old(watched.interest)
        else if op.Del? then old(watched.interest) - {fd} else old(watched.interest)[fd := events]
    {
      ok := (op.Add? <==> fd !in watched.interest) && !(refuse && !op.Del?);
      illegal := illegal || (op.Add? <==> fd in watched.interest);
      if ok {
        watched := watched.(interest := if op.Del? then watched.interest - {fd} else watched.interest[fd := events]);
      }
    }

    method AddEvent(events: array<FileEvent>, fd: nat, mask: Mask, refuse: bool) returns (ok: bool)
      requires fd < events.Length && (kind.Select? ==> fd < FD_SETSIZE)
      modifies this
      ensures kind.Select? ==> ok && illegal == old(illegal)
      ensures !ok ==> watched == old(watched)
      ensures ok ==> watched == WatchedWith(kind, old(watched), fd, Or(mask, events[fd].mask), mask)
      ensures kind.Epoll? ==>
        && illegal == (old(illegal) || (events[fd].mask == NONE <==> fd in old(watched.interest)))
        && ok == ((events[fd].mask == NONE <==> fd !in old(watched.interest)) && !refuse)
    {
      if kind.Epoll? {
        var op := if events[fd].mask == NONE then Add else Mod;
        var merged := Or(mask, events[fd].mask);
        ok := EpollCtl(op, fd, merged, refuse);
      } else {
        if mask.readable { watched := watched.(rfds := watched.rfds + {fd}); }
        if mask.writable { watched := watched.(wfds := watched.wfds + {fd}); }
        ok := true;
      }
    }

    /** The result of `epoll_ctl` is ignored: a refused change leaves what is watched as it was. */
    method DelEvent(events: array<FileEvent>, fd: nat, delmask: Mask, refuse: bool)
      requires fd < events.Length
      modifies this
      ensures kind.Select? ==> illegal == old(illegal) && watched == WatchedLess(old(watched), fd, delmask)
      ensures kind.Epoll? ==>
        && illegal == (old(illegal) || fd !in old(watched.interest))
        && (var left := Without(events[fd].mask, delmask);
            if fd !in old(watched.interest) || (refuse && left != NONE) then watched == old(watched)
            else watched == old(watched).(interest := if left != NONE then old(watched.interest)[fd := left]
                                                      else old(watched.interest) - {fd}))
    {
      if kind.Epoll? {
        var mask := Without(events[fd].mask, delmask);
        if mask != NONE {
          var ok := EpollCtl(Mod, fd, mask, refuse);
        } else {
          var ok := EpollCtl(Del, fd, mask, refuse);
        }
      } else {
        if delmask.readable { watched := watched.(rfds := watched.rfds - {fd}); }
        if delmask.writable { watched := watched.(wfds := watched.wfds - {fd}); }
      }
    }

    method Resize(setsize: nat) returns (ok: bool)
      ensures ok <==> kind.Epoll? || setsize < FD_SETSIZE
    {
      return kind.Epoll? || setsize < FD_SETSIZE;
    }

    /** The select scan; `readable` and `writable` are the sets `select` leaves, `retval` its result. */
    method PollSelect(events: array<FileEvent>, maxfd: int, fired: array<FiredEvent>, retval: int,
                      readable: set<nat>, writable: set<nat>) returns (numevents: nat)
      requires -1 <= maxfd < events.Length == fired.Length
      modifies fired
      ensures numevents <= maxfd + 1
      ensures retval > 0 ==> fired[..numevents] == Scan(events[..], maxfd + 1, readable, writable)
      ensures retval <= 0 ==> numevents == 0 && fired[..] == old(fired[..])
    {
      numevents := 0;
      if retval > 0 {
        var j := 0;
        while j <= maxfd
          invariant numevents <= j <= maxfd + 1
          invariant fired[..numevents] == Scan(events[..], j, readable, writable)
        {
          var fe := events[j];
          if fe.mask != NONE {
            var mask := NONE;
            if fe.mask.readable && j in readable { mask := mask.(readable := true); }
            if fe.mask.writable && j in writable { mask := mask.(writable := true); }
            fired[numevents] := FiredEvent(j, mask);
            numevents := numevents + 1;
          }
          j := j + 1;
        }
      }
    }
  }

  function WatchedWith(kind: Kind, w: Watched, fd: nat, merged: Mask, mask: Mask): Watched {
    if kind.Epoll? then w.(interest := w.interest[fd := merged])
    else w.(rfds := if mask.readable then w.rfds + {fd} else w.rfds,
            wfds := if mask.writable then w.wfds + {fd} else w.wfds)
  }

  function WatchedLess(w: Watched, fd: nat, mask: Mask): Watched {
    w.(rfds := if mask.readable then w.rfds - {fd} else w.rfds,
       wfds := if mask.writable then w.wfds - {fd} else w.wfds)
  }

  // ---------- what the select scan reports ----------

  /** The registered descriptors below `n`, each with the part of its mask that is ready. */
  ghost function Scan(es: seq<FileEvent>, n: int, readable: set<nat>, writable: set<nat>): seq<FiredEvent>
    requires n <= |es|
    decreases n
  {
    if n <= 0 then []
    else
      var fd := n - 1;
      Scan(es, fd, readable, writable)
      + if es[fd].mask == NONE then [] else [FiredEvent(fd, And(es[fd].mask, Mask(fd in readable, fd in writable)))]
  }

  /** Only registered descriptors are reported, each at most once and in order, with what is ready. */
  lemma {:induction false} ScanReportsOnce(es: seq<FileEvent>, n: int, readable: set<nat>, writable: set<nat>)
    requires n <= |es|
    ensures var s := Scan(es, n, readable, writable);
      && |s| <= (if n < 0 then 0 else n)
      && (forall k :: 0 <= k < |s| ==>
            && s[k].fd < n && es[s[k].fd].mask != NONE
            && s[k].mask == And(es[s[k].fd].mask, Mask(s[k].fd in readable, s[k].fd in writable)))
      && (forall j, k :: 0 <= j < k < |s| ==> s[j].fd < s[k].fd)
    decreases n
  {
    if n > 0 { ScanReportsOnce(es, n - 1, readable, writable); }
  }

  lemma {:induction false} ScanFinds(es: seq<FileEvent>, n: int, readable: set<nat>, writable: set<nat>, fd: nat)
    returns (f: FiredEvent)
    requires fd < n <= |es| && es[fd].mask != NONE
    ensures f in Scan(es, n, readable, writable) && f.fd == fd
    decreases n
  {
    if fd < n - 1 {
      f := ScanFinds(es, n - 1, readable, writable, fd);
    } else {
      f := FiredEvent(fd, And(es[fd].mask, Mask(fd in readable, fd in writable)));
    }
  }

  /** The scan up to `maxfd` reports exactly the registered descriptors. */
  lemma ScanIsComplete(es: seq<FileEvent>, maxfd: int, readable: set<nat>, writable: set<nat>, fd: nat)
    requires MaxIs(es, maxfd)
    ensures Recorded(es, fd) != NONE <==> exists f :: f in Scan(es, maxfd + 1, readable, writable) && f.fd == fd
  {
    hide Scan;
    ScanReportsOnce(es, maxfd + 1, readable, writable);
    if Recorded(es, fd) != NONE {
      var f := ScanFinds(es, maxfd + 1, readable, writable, fd);
    }
  }

  // ---------- the loop ----------

  class EventLoop {
    const api: Api
    var events: array<FileEvent>
    var fired: array<FiredEvent>
    var setsize: int
    var maxfd: int

    ghost predicate Valid()
      reads this
    {
      setsize == events.Length == fired.Length && -1 <= maxfd < setsize
    }

    /** `maxfd` is exact, the back end watches what is recorded, and every `epoll_ctl` so far was legal. */
    ghost predicate Consistent()
      reads this, api, events
    {
      && Valid() && MaxIs(events[..], maxfd)
      && Mirrors(api.kind, api.watched, events[..]) && NoIdleEntry(api.watched)
      && !api.illegal
    }

    constructor (setsize: nat, kind: Kind)
      ensures Consistent() && this.setsize == setsize && maxfd == -1 && api.kind == kind
      ensures fresh(events) && fresh(fired) && fresh(api)
    {
      this.setsize, maxfd := setsize, -1;
      events := new FileEvent[setsize](_ => FileEvent(NONE, 0, 0, 0));
      fired := new FiredEvent[setsize](_ => FiredEvent(0, NONE));
      api := new Api(kind);
    }

    method ResizeSetSize(newSize: int) returns (ok: bool)
      requires Valid()
      modifies this
      ensures Valid() && (events == old(events) || fresh(events)) && (fired == old(fired) || fresh(fired))
      ensures ok <==> newSize == old(setsize) || (maxfd < newSize && (api.kind.Epoll? || newSize < FD_SETSIZE))
      ensures maxfd == old(maxfd) && setsize == if ok then newSize else old(setsize)
      ensures !ok || newSize == old(setsize) ==> events == old(events)
      ensures forall fd: nat :: fd <= maxfd ==> events[fd] == old(events[fd])
      ensures ok && newSize != old(setsize) ==> forall fd: nat :: maxfd < fd < setsize ==> events[fd].mask == NONE
      ensures old(Consistent()) ==> Consistent()
    {
      if newSize == setsize { return true; }
      if maxfd >= newSize { return false; }
      var fits := api.Resize(newSize);
      if !fits { return false; }
      var oldEvents := events;
      events := new FileEvent[newSize](i requires 0 <= i reads this, oldEvents =>
        if i < oldEvents.Length then oldEvents[i] else FileEvent(NONE, 0, 0, 0));
      fired := new FiredEvent[newSize](_ => FiredEvent(0, NONE));
      setsize := newSize;
      var i := maxfd + 1;
      while i < newSize
        invariant maxfd < i <= newSize == events.Length == fired.Length == setsize
        invariant maxfd == old(maxfd) && oldEvents[..] == old(events[..]) && fresh(events) && fresh(fired)
        invariant forall fd: nat :: fd <= maxfd ==> events[fd] == oldEvents[fd]
        invariant forall fd: nat :: maxfd < fd < i ==> events[fd].mask == NONE
      {
        events[i] := events[i].(mask := NONE);
        i := i + 1;
      }
      if old(Consistent()) { ResizeMirrors(api.kind, api.watched, oldEvents[..], events[..], maxfd); }
      return true;
    }

    method CreateFileEvent(fd: nat, mask: Mask, proc: int, clientData: int, refuse: bool) returns (ok: bool)
      requires Valid() && (api.kind.Select? ==> fd < FD_SETSIZE)
      modifies this`maxfd, events, api
      ensures Valid()
      ensures fd >= setsize ==> !ok
      ensures !ok ==> events[..] == old(events[..]) && maxfd == old(maxfd) && api.watched == old(api.watched)
      ensures ok ==>
        fd < setsize && events[..] == old(events[..])[fd := Added(old(events[..])[fd], mask, proc, clientData)]
      ensures ok ==>
        && (forall x: nat :: x < setsize && x != fd ==> events[x] == old(events[..])[x])
        && (events[fd].mask.readable <==> old(events[..])[fd].mask.readable || mask.readable)
        && (events[fd].mask.writable <==> old(events[..])[fd].mask.writable || mask.writable)
        && events[fd].rfileProc == (if mask.readable then proc else old(events[..])[fd].rfileProc)
        && events[fd].wfileProc == (if mask.writable then proc else old(events[..])[fd].wfileProc)
        && events[fd].clientData == clientData
      ensures ok ==> maxfd == if fd > old(maxfd) then fd else old(maxfd)
      ensures ok ==>
        api.watched == WatchedWith(api.kind, old(api.watched), fd, Or(mask, old(events[..])[fd].mask), mask)
      ensures fd < setsize && api.kind.Epoll? ==>
        && api.illegal == (old(api.illegal) || (old(events[..])[fd].mask == NONE <==> fd in old(api.watched.interest)))
        && ok == ((old(events[..])[fd].mask == NONE <==> fd !in old(api.watched.interest)) && !refuse)
      ensures old(Consistent()) ==> (ok <==> fd < setsize && !(refuse && api.kind.Epoll?))
      ensures old(Consistent()) ==>
        (Consistent() <==>
          !ok || mask != NONE || old(events[..])[fd].mask != NONE || (api.kind.Select? && fd < old(maxfd)))
    {
      if fd >= setsize { return false; }
      ghost var was, w := events[..], api.watched;
      if old(Consistent()) { assert Recorded(was, fd) == was[fd].mask; }
      ok := api.AddEvent(events, fd, mask, refuse);
      if !ok { return; }
      events[fd] := Added(events[fd], mask, proc, clientData);
      assert events[..] == was[fd := Added(was[fd], mask, proc, clientData)];
      if old(Consistent()) {
        CreateMirrors(api.kind, w, was, fd, mask, proc, clientData);
        CreateMax(was, maxfd, fd, mask, proc, clientData);
      }
      if fd > maxfd { maxfd := fd; }
    }

    method DeleteFileEvent(fd: nat, mask: Mask, refuse: bool)
      requires Valid()
      modifies this`maxfd, events, api
      ensures Valid()
      ensures fd >= setsize || old(events[..])[fd].mask == NONE ==>
        events[..] == old(events[..]) && maxfd == old(maxfd) && api.watched == old(api.watched)
      ensures fd < setsize ==> events[..] == old(events[..])[fd := Removed(old(events[..])[fd], mask)]
      ensures fd < setsize && api.kind.Epoll? && refuse && Without(old(events[..])[fd].mask, mask) != NONE ==>
        api.watched == old(api.watched)
      ensures old(Consistent()) ==>
        (Consistent() <==>
          !(refuse && api.kind.Epoll? && fd < setsize && PartlyLeft(old(events[..])[fd].mask, mask)))
    {
      hide Mirrors, NoIdleEntry;
      if fd >= setsize { return; }
      ghost var was, w := events[..], api.watched;
      if events[fd].mask == NONE {
        assert events[..] == was[fd := Removed(was[fd], mask)];
        return;
      }
      api.DelEvent(events, fd, mask, refuse);
      events[fd] := Removed(events[fd], mask);
      assert events[..] == was[fd := Removed(was[fd], mask)];
      if old(Consistent()) {
        DeleteMirrors(api.kind, w, was, fd, mask);
        DeleteRefused(api.kind, w, was, fd, mask);
      }
      if fd == maxfd && events[fd].mask == NONE {
        var j := maxfd - 1;
        while j >= 0 && events[j].mask == NONE
          invariant -1 <= j < maxfd
          invariant forall k :: j < k < fd ==> events[k].mask == NONE
        {
          j := j - 1;
        }
        maxfd := j;
      }
    }

    /** In a consistent loop: what the back end watches the descriptor for, nothing above the maximum. */
    method GetFileEvents(fd: nat) returns (mask: Mask)
      requires Valid()
      ensures mask == Recorded(events[..], fd)
      ensures Consistent() ==> mask == WatchedFor(api.kind, api.watched, fd) && (fd > maxfd ==> mask == NONE)
    {
      if fd >= setsize { return NONE; }
      return events[fd].mask;
    }
  }

  function Added(fe: FileEvent, mask: Mask, proc: int, clientData: int): FileEvent {
    FileEvent(Or(fe.mask, mask), if mask.readable then proc else fe.rfileProc,
              if mask.writable then proc else fe.wfileProc, clientData)
  }

  function Removed(fe: FileEvent, mask: Mask): FileEvent {
    fe.(mask := Without(fe.mask, mask))
  }

  lemma ResizeMirrors(kind: Kind, w: Watched, was: seq<FileEvent>, now: seq<FileEvent>, maxfd: int)
    requires Mirrors(kind, w, was) && MaxIs(was, maxfd) && maxfd < |now|
    requires forall fd: nat :: fd <= maxfd ==> now[fd] == was[fd]
    requires forall fd: nat :: maxfd < fd < |now| ==> now[fd].mask == NONE
    ensures Mirrors(kind, w, now) && MaxIs(now, maxfd)
  {
    assert forall fd: nat :: Recorded(now, fd) == Recorded(was, fd);
  }

  /** Registering keeps the mirror exactly when it leaves no empty entry in an interest set. */
  lemma CreateMirrors(kind: Kind, w: Watched, was: seq<FileEvent>, fd: nat, mask: Mask, proc: int, clientData: int)
    requires fd < |was| && Mirrors(kind, w, was) && NoIdleEntry(w)
    ensures var w' := WatchedWith(kind, w, fd, Or(mask, was[fd].mask), mask);
      && Mirrors(kind, w', was[fd := Added(was[fd], mask, proc, clientData)])
      && (NoIdleEntry(w') <==> kind.Select? || mask != NONE || was[fd].mask != NONE)
  {
    var now := was[fd := Added(was[fd], mask, proc, clientData)];
    var w' := WatchedWith(kind, w, fd, Or(mask, was[fd].mask), mask);
    forall x: nat ensures Recorded(now, x) == if x == fd then Or(was[fd].mask, mask) else Recorded(was, x) { }
    assert Recorded(was, fd) == was[fd].mask;
    assert kind.Epoll? ==> w'.interest[fd] == Or(mask, was[fd].mask);
  }

  lemma CreateMax(was: seq<FileEvent>, maxfd: int, fd: nat, mask: Mask, proc: int, clientData: int)
    requires fd < |was| && MaxIs(was, maxfd)
    ensures MaxIs(was[fd := Added(was[fd], mask, proc, clientData)], if fd > maxfd then fd else maxfd)
       <==> mask != NONE || was[fd].mask != NONE || fd < maxfd
  {
  }

  lemma DeleteMirrors(kind: Kind, w: Watched, was: seq<FileEvent>, fd: nat, mask: Mask)
    requires fd < |was| && Mirrors(kind, w, was) && NoIdleEntry(w) && was[fd].mask != NONE
    ensures var left := Without(was[fd].mask, mask);
      var w' := if kind.Select? then WatchedLess(w, fd, mask)
                else w.(interest := if left != NONE then w.interest[fd := left] else w.interest - {fd});
      && (kind.Epoll? ==> fd in w.interest)
      && Mirrors(kind, w', was[fd := Removed(was[fd], mask)]) && NoIdleEntry(w')
  {
    var now := was[fd := Removed(was[fd], mask)];
    forall x: nat ensures Recorded(now, x) == if x == fd then Without(was[fd].mask, mask) else Recorded(was, x) { }
    assert Recorded(was, fd) == was[fd].mask;
  }

  /** The kernel keeps watching for what the loop forgot, exactly when something was removed. */
  lemma DeleteRefused(kind: Kind, w: Watched, was: seq<FileEvent>, fd: nat, mask: Mask)
    requires fd < |was| && Mirrors(kind, w, was) && NoIdleEntry(w) && was[fd].mask != NONE
    ensures Mirrors(kind, w, was[fd := Removed(was[fd], mask)]) <==> Without(was[fd].mask, mask) == was[fd].mask
  {
    var now := was[fd := Removed(was[fd], mask)];
    forall x: nat ensures Recorded(now, x) == if x == fd then Without(was[fd].mask, mask) else Recorded(was, x) { }
    assert Recorded(was, fd) == was[fd].mask;
  }

  /**
    The failing family: registering an unregistered descriptor for nothing leaves epoll an entry the
    loop has no record of, and the next registration of it issues an illegal addition and fails.
  */
  method EmptyMaskMisleads(loop: EventLoop, fd: nat, mask: Mask) returns (first: bool, second: bool)
    requires loop.Consistent() && loop.api.kind.Epoll? && fd < loop.setsize && loop.events[fd].mask == NONE
    modifies loop, loop.events, loop.api
    ensures first && !second && loop.api.illegal
  {
    first := loop.CreateFileEvent(fd, NONE, 0, 0, false);
    second := loop.CreateFileEvent(fd, mask, 0, 0, false);
  }
}
