/** `file_helper` and `rotating_file_sink` over a file system that maps names to contents. */
module RotatingFile {
  import opened Options
  import opened RotatingNames

  type Files = map<string, string>

  // ---------- what a rotation should do ----------

  /** `a` in one file system is what `b` is in another: both absent, or equal contents. */
  ghost predicate Same(f: Files, a: string, g: Files, b: string) {
    (a in f <==> b in g) && (a in f ==> f[a] == g[b])
  }

  ghost predicate IsRotated(name: string, base: string, maxFiles: nat) {
    exists i: nat :: i <= maxFiles && name == CalcFilename(base, i)
  }

  /** Every file moves up by one, the oldest is gone, the first is empty, and no other file changes. */
  ghost predicate Shifted(was: Files, now: Files, base: string, maxFiles: nat) {
    && (forall i: nat :: 1 <= i <= maxFiles ==> Same(now, CalcFilename(base, i), was, CalcFilename(base, i - 1)))
    && CalcFilename(base, 0) in now && now[CalcFilename(base, 0)] == ""
    && (forall name :: !IsRotated(name, base, maxFiles) ==> Same(now, name, was, name))
  }

  /** The sink's view of the world: the files and the size it believes the current one has. */
  datatype SinkState = SinkState(files: Files, currentSize: nat)

  ghost predicate Appended(was: Files, now: Files, name: string, text: string) {
    name in was && now == was[name := was[name] + text]
  }

  /** One message. */
  ghost predicate Logged(s: SinkState, msg: string, s': SinkState, base: string, maxSize: nat, maxFiles: nat) {
    if s.currentSize + |msg| > maxSize then
      && s'.currentSize == |msg|
      && exists mid :: Shifted(s.files, mid, base, maxFiles) && Appended(mid, s'.files, base, msg)
    else
      s'.currentSize == s.currentSize + |msg| && Appended(s.files, s'.files, base, msg)
  }

  // ---------- the file system and the helper ----------

  class FileSystem {
    var files: Files

    constructor (files: Files)
      ensures this.files == files
    {
      this.files := files;
    }

    /** `fopen` for writing; the empty name cannot be opened. */
    method Fopen(name: string, truncate: bool) returns (ok: bool)
      modifies this
      ensures ok <==> name != ""
      ensures files == if !ok then old(files)
        else if truncate || name !in old(files) then old(files)[name := ""] else old(files)
    {
      if name == "" { return false; }
      if truncate || name !in files { files := files[name := ""]; }
      return true;
    }

    method Remove(name: string) returns (ok: bool)
      modifies this
      ensures ok <==> name in old(files)
      ensures files == old(files) - {name}
    {
      ok := name in files;
      files := files - {name};
    }

    /** `std::rename`, which replaces the target. */
    method Rename(src: string, target: string) returns (ok: bool)
      requires src != target
      modifies this
      ensures ok <==> src in old(files)
      ensures files == if ok then (old(files) - {src})[target := old(files)[src]] else old(files)
    {
      if src !in files { return false; }
      files := (files - {src})[target := files[src]];
      return true;
    }
  }

  class FileHelper {
    const fs: FileSystem
    var fd: bool
    var filename: string
    /** What the open file held when it was opened, and what was written to it since. */
    ghost var initial: string
    ghost var written: string

    ghost predicate Valid()
      reads this, fs
    {
      fd ==> filename in fs.files && fs.files[filename] == initial + written
    }

    constructor (fs: FileSystem)
      ensures Valid() && this.fs == fs && !fd && filename == ""
    {
      this.fs, fd, filename := fs, false, "";
      initial, written := "", "";
    }

    method Close()
      modifies this`fd
      ensures Valid() && !fd
    {
      fd := false;
    }

    method Open(fname: string, truncate: bool) returns (r: Result<(), string>)
      modifies this, fs
      ensures Valid() && filename == fname && fd == r.Ok? && written == ""
      ensures r.Ok? <==> fname != ""
      ensures r.Ok? ==> initial == if truncate then "" else Text(old(fs.files), fname)
      ensures fs.files == if r.Err? then old(fs.files)
        else if truncate || fname !in old(fs.files) then old(fs.files)[fname := ""] else old(fs.files)
    {
      Close();
      filename := fname;
      var ok := fs.Fopen(fname, truncate);
      fd := ok;
      initial, written := if truncate then "" else Text(old(fs.files), fname), "";
      return if ok then Ok(()) else Err("Failed opening file");
    }

    method Reopen(truncate: bool) returns (r: Result<(), string>)
      requires Valid()
      modifies this, fs
      ensures Valid() && filename == old(filename)
      ensures r.Ok? <==> filename != ""
      ensures fd == (r.Ok? || old(fd))
      ensures fs.files == if r.Err? then old(fs.files)
        else if truncate || filename !in old(fs.files) then old(fs.files)[filename := ""] else old(fs.files)
    {
      if filename == "" { return Err("Failed re opening file - was not opened before"); }
      r := Open(filename, truncate);
    }

    /** Everything written since the file was opened stays in it, in order, behind what it held then. */
    method Write(msg: string)
      requires Valid() && fd
      modifies this`written, fs
      ensures Valid() && written == old(written) + msg
      ensures Appended(old(fs.files), fs.files, filename, msg)
    {
      fs.files := fs.files[filename := fs.files[filename] + msg];
      written := written + msg;
    }

    /** What the file held when it was opened, and everything written since; no size when closed. */
    method Size() returns (r: Result<nat, string>)
      requires Valid()
      ensures r == if fd then Ok(|initial| + |written|) else Err("Cannot use size() on closed file")
    {
      return if fd then Ok(|fs.files[filename]|) else Err("Cannot use size() on closed file");
    }
  }

  // ---------- the sink ----------

  class RotatingFileSink {
    const base: string
    const maxSize: nat
    const maxFiles: nat
    const helper: FileHelper
    var currentSize: nat

    ghost predicate Valid()
      reads this, helper, helper.fs
    {
      && base != "" && helper.fd && helper.filename == base && helper.Valid()
      && currentSize == |helper.fs.files[base]|
    }

    ghost function State(): SinkState
      reads this, helper, helper.fs
    {
      SinkState(helper.fs.files, currentSize)
    }

    constructor (base: string, maxSize: nat, maxFiles: nat, fs: FileSystem)
      requires base != ""
      modifies fs
      ensures Valid() && fresh(helper) && helper.fs == fs
      ensures this.base == base && this.maxSize == maxSize && this.maxFiles == maxFiles
      ensures fs.files == if base in old(fs.files) then old(fs.files) else old(fs.files)[base := ""]
    {
      this.base, this.maxSize, this.maxFiles := base, maxSize, maxFiles;
      currentSize := 0;
      var h := new FileHelper(fs);
      helper := h;
      new;
      var result := helper.Open(CalcFilename(base, 0), false);
      var size := helper.Size();
      currentSize := size.value;
    }

    /** The constructor as its callers see it: it throws when the file cannot be opened. */
    static method Create(base: string, maxSize: nat, maxFiles: nat, fs: FileSystem)
      returns (r: Result<RotatingFileSink, string>)
      modifies fs
      ensures r.Ok? <==> base != ""
      ensures r.Ok? ==> fresh(r.value) && r.value.Valid() && r.value.base == base && r.value.helper.fs == fs
      ensures fs.files == if r.Err? || base in old(fs.files) then old(fs.files) else old(fs.files)[base := ""]
    {
      if base == "" { return Err("Failed opening file"); }
      var sink := new RotatingFileSink(base, maxSize, maxFiles, fs);
      return Ok(sink);
    }

    method SinkIt(msg: string)
      requires Valid()
      modifies this, helper, helper.fs
      ensures Valid()
      ensures Logged(old(State()), msg, State(), base, maxSize, maxFiles)
    {
      currentSize := currentSize + |msg|;
      if currentSize > maxSize {
        Rotate();
        ghost var mid := helper.fs.files;
        currentSize := |msg|;
        helper.Write(msg);
        assert Shifted(old(helper.fs.files), mid, base, maxFiles) && Appended(mid, helper.fs.files, base, msg);
      } else {
        helper.Write(msg);
      }
    }

    method Rotate()
      requires base != "" && helper.fd && helper.filename == base && helper.Valid()
      modifies helper, helper.fs
      ensures helper.fd && helper.filename == base && helper.Valid()
      ensures Shifted(old(helper.fs.files), helper.fs.files, base, maxFiles)
    {
      helper.Close();
      var fs := helper.fs;
      ghost var was := fs.files;
      var i: nat := maxFiles;
      while i > 0
        invariant i <= maxFiles && !helper.fd && helper.filename == base
        invariant ShiftedDownTo(was, fs.files, base, maxFiles, i)
      {
        ghost var before := fs.files;
        var src := CalcFilename(base, i - 1);
        var target := CalcFilename(base, i);
        Distinct(base, i);
        if target in fs.files {
          var removed := fs.Remove(target);
        }
        if src in fs.files {
          var renamed := fs.Rename(src, target);
        }
        ShiftOne(was, before, fs.files, base, maxFiles, i);
        i := i - 1;
      }
      ghost var shifted := fs.files;
      var reopened := helper.Reopen(true);
      Truncated(was, shifted, fs.files, base, maxFiles);
    }
  }

  lemma Distinct(base: string, i: nat)
    requires i > 0
    ensures CalcFilename(base, i - 1) != CalcFilename(base, i)
  {
    hide CalcFilename;
    if CalcFilename(base, i - 1) == CalcFilename(base, i) { CalcFilenameInjective(base, i - 1, i); }
  }

  /** The loop of `_rotate` with `i` files still to move; the `i`-th is already moved away. */
  ghost predicate ShiftedDownTo(was: Files, now: Files, base: string, maxFiles: nat, i: nat) {
    && (forall j: nat :: i < j <= maxFiles ==> Same(now, CalcFilename(base, j), was, CalcFilename(base, j - 1)))
    && (forall j: nat :: j < i || j == i == maxFiles ==> Same(now, CalcFilename(base, j), was, CalcFilename(base, j)))
    && (i < maxFiles ==> CalcFilename(base, i) !in now)
    && (forall name :: !IsRotated(name, base, maxFiles) ==> Same(now, name, was, name))
  }

  lemma ShiftOne(was: Files, before: Files, after: Files, base: string, maxFiles: nat, i: nat)
    requires 0 < i <= maxFiles && ShiftedDownTo(was, before, base, maxFiles, i)
    requires Same(after, CalcFilename(base, i), before, CalcFilename(base, i - 1))
    requires CalcFilename(base, i - 1) !in after
    requires forall name :: name != CalcFilename(base, i) && name != CalcFilename(base, i - 1) ==>
               Same(after, name, before, name)
    ensures ShiftedDownTo(was, after, base, maxFiles, i - 1)
  {
    hide CalcFilename;
    forall j: nat | j != i && j != i - 1
      ensures Same(after, CalcFilename(base, j), before, CalcFilename(base, j))
    {
      if CalcFilename(base, j) == CalcFilename(base, i) { CalcFilenameInjective(base, j, i); }
      if CalcFilename(base, j) == CalcFilename(base, i - 1) { CalcFilenameInjective(base, j, i - 1); }
    }
    forall j: nat | i - 1 < j <= maxFiles
      ensures Same(after, CalcFilename(base, j), was, CalcFilename(base, j - 1))
    {
      if j == i {
        assert Same(before, CalcFilename(base, i - 1), was, CalcFilename(base, i - 1));
      } else {
        assert Same(before, CalcFilename(base, j), was, CalcFilename(base, j - 1));
      }
    }
    forall j: nat | j < i - 1 ensures Same(after, CalcFilename(base, j), was, CalcFilename(base, j)) {
      assert Same(before, CalcFilename(base, j), was, CalcFilename(base, j));
    }
    assert IsRotated(CalcFilename(base, i), base, maxFiles) && IsRotated(CalcFilename(base, i - 1), base, maxFiles);
    forall name | !IsRotated(name, base, maxFiles) ensures Same(after, name, was, name) {
      assert Same(after, name, before, name) && Same(before, name, was, name);
    }
  }

  lemma Truncated(was: Files, shifted: Files, now: Files, base: string, maxFiles: nat)
    requires ShiftedDownTo(was, shifted, base, maxFiles, 0) && now == shifted[base := ""]
    ensures Shifted(was, now, base, maxFiles)
  {
    assert CalcFilename(base, 0) == base;
    hide CalcFilename;
    forall i: nat | 1 <= i <= maxFiles ensures CalcFilename(base, i) != base { OtherName(base, i); }
    assert IsRotated(base, base, maxFiles);
  }

  // ---------- whole runs ----------

  ghost function Text(files: Files, name: string): string {
    if name in files then files[name] else ""
  }

  /** The files with indices below `n`, oldest first. */
  ghost function History(files: Files, base: string, n: nat): string {
    if n == 0 then "" else Text(files, CalcFilename(base, n - 1)) + History(files, base, n - 1)
  }

  ghost function Concat(files: Files, base: string, maxFiles: nat): string {
    History(files, base, maxFiles + 1)
  }

  ghost function Flatten(msgs: seq<string>): string {
    if msgs == [] then "" else Flatten(msgs[..|msgs| - 1]) + msgs[|msgs| - 1]
  }

  lemma {:induction false} HistoryShifts(was: Files, now: Files, base: string, maxFiles: nat, n: nat)
    requires Shifted(was, now, base, maxFiles) && n <= maxFiles
    ensures History(now, base, n + 1) == History(was, base, n)
  {
    hide CalcFilename;
    if n > 0 { HistoryShifts(was, now, base, maxFiles, n - 1); }
  }

  lemma {:induction false} HistoryAppends(was: Files, now: Files, base: string, msg: string, n: nat)
    requires Appended(was, now, base, msg)
    ensures History(now, base, n + 1) == History(was, base, n + 1) + msg
  {
    assert CalcFilename(base, 0) == base;
    hide CalcFilename, History;
    OldestFirst(now, base, n);
    OldestFirst(was, base, n);
    if n > 0 {
      HistoryAppends(was, now, base, msg, n - 1);
      OtherName(base, n);
      Associate(Text(was, CalcFilename(base, n)), History(was, base, n), msg);
    }
  }

  lemma Associate(a: string, b: string, c: string)
    ensures a + (b + c) == a + b + c
  {
  }

  lemma OtherName(base: string, n: nat)
    requires n > 0
    ensures CalcFilename(base, n) != base
  {
    if CalcFilename(base, n) == CalcFilename(base, 0) { CalcFilenameInjective(base, n, 0); }
  }

  lemma OldestFirst(files: Files, base: string, n: nat)
    ensures History(files, base, n + 1) == Text(files, CalcFilename(base, n)) + History(files, base, n)
    ensures History(files, base, 0) == ""
  {
  }

  /** What a message pushes out of the files: the oldest file, if the message makes them rotate. */
  ghost function Dropped(s: SinkState, msg: string, base: string, maxSize: nat, maxFiles: nat): string {
    if s.currentSize + |msg| > maxSize then Text(s.files, CalcFilename(base, maxFiles)) else ""
  }

  /** Nothing is lost or reordered but the oldest file, whole. */
  lemma LoggedKeepsRest(s: SinkState, msg: string, s': SinkState, base: string, maxSize: nat, maxFiles: nat)
    requires Logged(s, msg, s', base, maxSize, maxFiles)
    ensures Concat(s.files, base, maxFiles) + msg
         == Dropped(s, msg, base, maxSize, maxFiles) + Concat(s'.files, base, maxFiles)
  {
    hide CalcFilename, History;
    if s.currentSize + |msg| > maxSize {
      var mid :| Shifted(s.files, mid, base, maxFiles) && Appended(mid, s'.files, base, msg);
      HistoryShifts(s.files, mid, base, maxFiles, maxFiles);
      HistoryAppends(mid, s'.files, base, msg, maxFiles);
      OldestFirst(s.files, base, maxFiles);
    } else {
      HistoryAppends(s.files, s'.files, base, msg, maxFiles);
    }
  }

  /** The current file is rotated away exactly when the message would make it larger than the limit. */
  lemma RotatesWhenFull(s: SinkState, msg: string, s': SinkState, base: string, maxSize: nat, maxFiles: nat)
    requires SizeKnown(s, base) && Logged(s, msg, s', base, maxSize, maxFiles)
    ensures var fits := |s.files[base]| + |msg| <= maxSize;
      && base in s'.files && s'.files[base] == (if fits then s.files[base] + msg else msg)
      && (fits ==> forall i: nat :: 1 <= i <= maxFiles ==>
            Text(s'.files, CalcFilename(base, i)) == Text(s.files, CalcFilename(base, i)))
      && (!fits ==> forall i: nat :: 1 <= i <= maxFiles ==>
            Text(s'.files, CalcFilename(base, i)) == Text(s.files, CalcFilename(base, i - 1)))
  {
    assert CalcFilename(base, 0) == base;
    hide CalcFilename;
    forall i: nat | i >= 1 ensures CalcFilename(base, i) != base { OtherName(base, i); }
    if s.currentSize + |msg| > maxSize {
      var mid :| Shifted(s.files, mid, base, maxFiles) && Appended(mid, s'.files, base, msg);
      forall i: nat | 1 <= i <= maxFiles
        ensures Text(s'.files, CalcFilename(base, i)) == Text(s.files, CalcFilename(base, i - 1))
      {
        assert Same(mid, CalcFilename(base, i), s.files, CalcFilename(base, i - 1));
      }
    }
  }

  ghost predicate IsRun(states: seq<SinkState>, msgs: seq<string>, base: string, maxSize: nat, maxFiles: nat) {
    && |states| == |msgs| + 1
    && forall k :: 0 <= k < |msgs| ==> Logged(states[k], msgs[k], states[k + 1], base, maxSize, maxFiles)
  }

  ghost predicate SizeKnown(s: SinkState, base: string) {
    base in s.files && s.currentSize == |s.files[base]|
  }

  lemma LoggedSize(s: SinkState, msg: string, s': SinkState, base: string, maxSize: nat, maxFiles: nat)
    requires SizeKnown(s, base) && Logged(s, msg, s', base, maxSize, maxFiles)
    ensures SizeKnown(s', base)
    ensures s'.currentSize <= maxSize || s'.files[base] == msg
  {
    assert CalcFilename(base, 0) == base;
  }

  /** Everything pushed out over a run. */
  ghost function AllDropped(states: seq<SinkState>, msgs: seq<string>, base: string, maxSize: nat,
      maxFiles: nat): string
    requires |states| == |msgs| + 1
    decreases |msgs|
  {
    if msgs == [] then ""
    else
      var k := |msgs| - 1;
      AllDropped(states[..|msgs|], msgs[..k], base, maxSize, maxFiles)
      + Dropped(states[k], msgs[k], base, maxSize, maxFiles)
  }

  /**
    Over any stream of messages the files, oldest to newest, hold a suffix of what they held first
    followed by all messages; the cut-off part is made of whole oldest files.
  */
  lemma {:induction false} StreamConserved(states: seq<SinkState>, msgs: seq<string>, base: string, maxSize: nat,
      maxFiles: nat)
    requires IsRun(states, msgs, base, maxSize, maxFiles)
    ensures Concat(states[0].files, base, maxFiles) + Flatten(msgs)
         == AllDropped(states, msgs, base, maxSize, maxFiles) + Concat(states[|msgs|].files, base, maxFiles)
    decreases |msgs|
  {
    hide Concat, Logged, Dropped;
    if msgs != [] {
      var k := |msgs| - 1;
      StreamConserved(states[..|msgs|], msgs[..k], base, maxSize, maxFiles);
      LoggedKeepsRest(states[k], msgs[k], states[k + 1], base, maxSize, maxFiles);
      Reassociate(Concat(states[0].files, base, maxFiles), Flatten(msgs[..k]), msgs[k],
                  AllDropped(states[..|msgs|], msgs[..k], base, maxSize, maxFiles),
                  Concat(states[k].files, base, maxFiles), Dropped(states[k], msgs[k], base, maxSize, maxFiles),
                  Concat(states[|msgs|].files, base, maxFiles));
    }
  }

  lemma Reassociate(start: string, flat: string, msg: string, gone: string, mid: string, more: string, end: string)
    requires start + flat == gone + mid && mid + msg == more + end
    ensures start + (flat + msg) == gone + more + end
  {
    calc {
      start + (flat + msg);
      (start + flat) + msg;
      gone + (mid + msg);
      gone + more + end;
    }
  }

  /** The size the sink keeps is the real one, and only a message too large by itself exceeds the limit. */
  lemma {:induction false} StreamSizes(states: seq<SinkState>, msgs: seq<string>, base: string, maxSize: nat,
      maxFiles: nat)
    requires IsRun(states, msgs, base, maxSize, maxFiles) && SizeKnown(states[0], base)
    ensures var last := states[|msgs|];
      && SizeKnown(last, base)
      && (msgs != [] ==> |last.files[base]| <= maxSize || last.files[base] == msgs[|msgs| - 1])
    decreases |msgs|
  {
    hide Logged;
    if msgs != [] {
      var k := |msgs| - 1;
      StreamSizes(states[..|msgs|], msgs[..k], base, maxSize, maxFiles);
      LoggedSize(states[k], msgs[k], states[k + 1], base, maxSize, maxFiles);
    }
  }

  ghost function Rotations(states: seq<SinkState>, msgs: seq<string>, maxSize: nat): nat
    requires |states| == |msgs| + 1
    decreases |msgs|
  {
    if msgs == [] then 0
    else
      var k := |msgs| - 1;
      Rotations(states[..|msgs|], msgs[..k], maxSize) + if states[k].currentSize + |msgs[k]| > maxSize then 1 else 0
  }

  /** Only the first `n` names are in use. */
  ghost predicate AbsentFrom(files: Files, base: string, maxFiles: nat, n: nat) {
    forall i: nat :: n <= i <= maxFiles ==> CalcFilename(base, i) !in files
  }

  lemma LoggedUsesOneMore(s: SinkState, msg: string, s': SinkState, base: string, maxSize: nat, maxFiles: nat, n: nat)
    requires Logged(s, msg, s', base, maxSize, maxFiles) && n >= 1 && AbsentFrom(s.files, base, maxFiles, n)
    ensures AbsentFrom(s'.files, base, maxFiles, if s.currentSize + |msg| > maxSize then n + 1 else n)
  {
    hide CalcFilename;
    var n' := if s.currentSize + |msg| > maxSize then n + 1 else n;
    forall i: nat | n' <= i <= maxFiles ensures CalcFilename(base, i) !in s'.files {
      OtherName(base, i);
      if n' == n + 1 {
        var mid :| Shifted(s.files, mid, base, maxFiles) && Appended(mid, s'.files, base, msg);
        assert Same(mid, CalcFilename(base, i), s.files, CalcFilename(base, i - 1));
      }
    }
  }

  /** Starting with no rotated file, the first `maxFiles` rotations lose nothing at all. */
  lemma {:induction false} NothingLostEarly(states: seq<SinkState>, msgs: seq<string>, base: string, maxSize: nat,
      maxFiles: nat)
    requires IsRun(states, msgs, base, maxSize, maxFiles) && AbsentFrom(states[0].files, base, maxFiles, 1)
    ensures AbsentFrom(states[|msgs|].files, base, maxFiles, Rotations(states, msgs, maxSize) + 1)
    ensures Rotations(states, msgs, maxSize) <= maxFiles ==> AllDropped(states, msgs, base, maxSize, maxFiles) == ""
    decreases |msgs|
  {
    hide Logged, CalcFilename;
    if msgs != [] {
      var k := |msgs| - 1;
      NothingLostEarly(states[..|msgs|], msgs[..k], base, maxSize, maxFiles);
      LoggedUsesOneMore(states[k], msgs[k], states[k + 1], base, maxSize, maxFiles, Rotations(states[..|msgs|],
          msgs[..k], maxSize) + 1);
    }
  }
}
