/** The names of the rotated files: a counter put before the extension, if there is one. */
module RotatingNames {
  import opened Numerals

  const FOLDER_SEP: char := '/'

  /** `std::string::rfind`, with -1 for `npos`. */
  function RFind(s: string, c: char): (r: int)
    ensures -1 <= r < |s|
    ensures r >= 0 ==> s[r] == c && c !in s[r + 1..]
    ensures r == -1 <==> c !in s
  {
    if s == [] then -1
    else if s[|s| - 1] == c then |s| - 1
    else
      var r := RFind(s[..|s| - 1], c);
      assert s == s[..|s| - 1] + [s[|s| - 1]];
      assert r >= 0 ==> s[r + 1..] == s[..|s| - 1][r + 1..] + [s[|s| - 1]];
      r
  }

  function SplitByExtension(fname: string): (string, string) {
    var extIndex := RFind(fname, '.');
    if extIndex == -1 || extIndex == 0 || extIndex == |fname| - 1 then (fname, "")
    else
      var folderIndex := RFind(fname, FOLDER_SEP);
      if folderIndex != -1 && folderIndex >= extIndex - 1 then (fname, "")
      else (fname[..extIndex], fname[extIndex..])
  }

  /** What counts as an extension: the dot of a hidden file, a trailing dot and a dot in a folder do not. */
  predicate IsExtension(stem: string, ext: string) {
    && |stem| > 0 && stem[|stem| - 1] != FOLDER_SEP
    && |ext| > 1 && ext[0] == '.'
    && '.' !in ext[1..] && FOLDER_SEP !in ext[1..]
  }

  lemma SplitJoins(fname: string)
    ensures var (stem, ext) := SplitByExtension(fname); stem + ext == fname
  {
  }

  /** Splitting finds the extension whenever there is one, and nothing else. */
  lemma SplitFindsExtension(fname: string, stem: string, ext: string)
    requires stem + ext == fname && (ext == "" || IsExtension(stem, ext))
    requires ext == "" ==> forall k :: 0 <= k <= |fname| ==> !IsExtension(fname[..k], fname[k..])
    ensures SplitByExtension(fname) == (stem, ext)
  {
    if ext == "" {
      assert stem == fname;
      SplitIsExtension(fname);
    } else {
      var at := |stem|;
      assert fname[at] == '.' && fname[at + 1..] == ext[1..];
      LastIs(fname, '.', at);
      assert fname[at - 1] == stem[at - 1];
      forall k | at < k < |fname| ensures fname[k] != FOLDER_SEP { After(fname, FOLDER_SEP, at + 1, k); }
    }
  }

  lemma After(s: string, c: char, from: nat, k: nat)
    requires from <= k < |s| && c !in s[from..]
    ensures s[k] != c
  {
    assert s[k] == s[from..][k - from];
  }

  lemma SplitIsExtension(fname: string)
    ensures var (stem, ext) := SplitByExtension(fname);
      && (ext == "" || IsExtension(stem, ext))
      && stem == fname[..|stem|] && ext == fname[|stem|..]
  {
    hide IsExtension;
    var e := RFind(fname, '.');
    var folder := RFind(fname, FOLDER_SEP);
    if 0 < e < |fname| - 1 && folder < e - 1 {
      forall k | e - 1 <= k < |fname| ensures fname[k] != FOLDER_SEP { After(fname, FOLDER_SEP, folder + 1, k); }
      ExtensionAt(fname, e);
    }
  }

  lemma ExtensionAt(fname: string, e: nat)
    requires 0 < e < |fname| - 1 && fname[e] == '.' && '.' !in fname[e + 1..]
    requires forall k :: e - 1 <= k < |fname| ==> fname[k] != FOLDER_SEP
    ensures IsExtension(fname[..e], fname[e..])
  {
    assert fname[e..][1..] == fname[e + 1..];
  }

  lemma LastIs(s: string, c: char, at: nat)
    requires at < |s| && s[at] == c && c !in s[at + 1..]
    ensures RFind(s, c) == at
  {
    var r := RFind(s, c);
    forall k | at < k < |s| ensures s[k] != c { After(s, c, at + 1, k); }
    forall k | r < k < |s| ensures s[k] != c { After(s, c, r + 1, k); }
  }

  function CalcFilename(filename: string, index: nat): string {
    if index != 0 then
      var (basename, ext) := SplitByExtension(filename);
      basename + "." + Dec(index) + ext
    else filename
  }

  /** No two indices share a file. */
  lemma CalcFilenameInjective(filename: string, i: nat, j: nat)
    requires CalcFilename(filename, i) == CalcFilename(filename, j)
    ensures i == j
  {
    hide Dec, SplitByExtension;
    SplitJoins(filename);
    if i != 0 && j != 0 {
      var (basename, ext) := SplitByExtension(filename);
      SameMiddle(basename + ".", Dec(i), Dec(j), ext);
      DecInjective(i, j);
    }
  }

  /**
    The counter goes between the name and its extension: whichever valid extension the name has, or none,
    and the numbered name has it too.
  */
  lemma CounterBeforeExtension(filename: string, stem: string, ext: string, index: nat)
    requires stem + ext == filename && (ext == "" || IsExtension(stem, ext))
    requires ext == "" ==> forall k :: 0 <= k <= |filename| ==> !IsExtension(filename[..k], filename[k..])
    ensures CalcFilename(filename, 0) == filename
    ensures index > 0 ==> CalcFilename(filename, index) == stem + "." + Dec(index) + ext
    ensures index > 0 && ext != "" ==>
      SplitByExtension(CalcFilename(filename, index)) == (stem + "." + Dec(index), ext)
  {
    hide SplitByExtension, IsExtension, Dec;
    SplitFindsExtension(filename, stem, ext);
    if index > 0 && ext != "" {
      var numbered := stem + "." + Dec(index);
      StillExtension(stem, index, ext);
      SplitFindsExtension(numbered + ext, numbered, ext);
    }
  }

  lemma StillExtension(stem: string, index: nat, ext: string)
    requires IsExtension(stem, ext)
    ensures IsExtension(stem + "." + Dec(index), ext)
  {
    hide Dec;
    DecDigits(index);
    var numbered := stem + "." + Dec(index);
    assert numbered[|numbered| - 1] == Dec(index)[|Dec(index)| - 1];
  }

  lemma SameMiddle(a: string, x: string, y: string, b: string)
    requires a + x + b == a + y + b
    ensures x == y
  {
    assert |x| == |y|;
    assert (a + x + b)[|a|..|a| + |x|] == x;
    assert (a + y + b)[|a|..|a| + |y|] == y;
  }
}
