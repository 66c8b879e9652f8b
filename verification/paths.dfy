/**
 The parts of `System.IO.Path` that decide where a simulation file is written,
 with the .NET Framework's Windows rules: `\` and `/` separate directories,
 `:` is the volume separator, and a file name ends at any of the three. UNC
 and device roots are not modelled.
 */
module Paths {
  import opened Base
  import opened Sequences

  /** `Path.DirectorySeparatorChar` on Windows. */
  const DirectorySeparator: char := '\\'

  /** `Path.VolumeSeparatorChar` on Windows. */
  const VolumeSeparator: char := ':'

  predicate IsSeparator(c: char) {
    c == '\\' || c == '/'
  }

  /** A character a file name cannot run past: a directory or the volume separator. */
  predicate IsNameBreak(c: char) {
    IsSeparator(c) || c == VolumeSeparator
  }

  /** The characters every `Path` member used here rejects with an ArgumentException. */
  predicate IsInvalidPathChar(c: char) {
    c < ' ' || c == '"' || c == '<' || c == '>' || c == '|'
  }

  predicate HasInvalidPathChars(path: string) {
    exists i :: 0 <= i < |path| && IsInvalidPathChar(path[i])
  }

  /**
   The length of the root: a volume `X:` followed by a separator is 3, a bare
   volume `X:` is 2, a leading separator is 1, anything else 0.
   */
  function RootLength(path: string): (n: nat)
    ensures n <= |path| && n <= 3
    ensures n > 0 <==> IsRooted(path)
    ensures n > 0 ==> IsNameBreak(path[n - 1])
  {
    if |path| >= 2 && !IsSeparator(path[0]) && path[1] == VolumeSeparator then
      if |path| >= 3 && IsSeparator(path[2]) then 3 else 2
    else if |path| >= 1 && IsSeparator(path[0]) then 1
    else 0
  }

  /** `Path.IsPathRooted`: a leading separator, or the volume separator second. */
  predicate IsRooted(path: string) {
    (|path| >= 1 && IsSeparator(path[0])) || (|path| >= 2 && path[1] == VolumeSeparator)
  }

  /**
   `Path.GetFileName`: what follows the last separator or volume separator,
   that is, the longest suffix without either.
   */
  function FileName(path: string): (r: string)
    ensures |r| <= |path| && r == path[|path| - |r|..]
    ensures forall i :: 0 <= i < |r| ==> !IsNameBreak(r[i])
    ensures |r| < |path| ==> IsNameBreak(path[|path| - |r| - 1])
    ensures RootLength(path) <= |path| - |r|
  {
    var start := LastIndex(path, IsNameBreak) + 1;
    assert forall i :: start <= i < |path| ==> !IsNameBreak(path[i]);
    path[start..]
  }

  /** `Path.GetFileNameWithoutExtension`: the file name up to its last `.`. */
  function FileNameWithoutExtension(path: string): (r: string)
    ensures |r| <= |FileName(path)| && r == FileName(path)[..|r|]
    ensures forall i :: 0 <= i < |r| ==> !IsNameBreak(r[i])
    ensures |r| < |FileName(path)| ==> FileName(path)[|r|] == '.'
  {
    var name := FileName(path);
    var dot := LastIndex(name, IsDot);
    if dot < 0 then name else DotPrefix(name, dot)
  }

  /** The part of a name before a dot at `dot`. */
  function DotPrefix(name: string, dot: nat): (r: string)
    requires dot < |name| && IsDot(name[dot])
    requires forall i :: 0 <= i < |name| ==> !IsNameBreak(name[i])
    ensures |r| < |name| && r == name[..|r|] && name[|r|] == '.'
    ensures forall i :: 0 <= i < |r| ==> !IsNameBreak(r[i])
  {
    name[..dot]
  }

  predicate IsDot(c: char) {
    c == '.'
  }

  /**
   `Path.Combine(first, second)`: an empty part yields the other, a rooted
   second part replaces the first, and otherwise `\` is inserted unless the
   first part already ends in a separator or the volume separator.
   */
  function Combine(first: string, second: string): (r: string)
    ensures |second| == 0 ==> r == first
    ensures |second| > 0 && (|first| == 0 || IsRooted(second)) ==> r == second
    ensures |second| > 0 && |first| > 0 && !IsRooted(second) && IsNameBreak(first[|first| - 1]) ==>
              r == first + second
    ensures |second| > 0 && |first| > 0 && !IsRooted(second) && !IsNameBreak(first[|first| - 1]) ==>
              r == first + [DirectorySeparator] + second
  {
    if |second| == 0 then first
    else if |first| == 0 || IsRooted(second) then second
    else if IsNameBreak(first[|first| - 1]) then first + second
    else first + [DirectorySeparator] + second
  }

  /**
   `Path.GetDirectoryName`: None (for `null`) when the path is no longer than
   its root; otherwise the text before the last separator past the root, with
   any run of separators before it trimmed back to the root.
   */
  function DirectoryName(path: string): (r: Option<string>)
    ensures r.None? <==> |path| <= RootLength(path)
    ensures r.Some? ==> |r.value| < |path| && r.value == path[..|r.value|]
    ensures r.Some? ==> RootLength(path) <= |r.value|
    ensures r.Some? && |r.value| > RootLength(path) ==> !IsSeparator(path[|r.value| - 1]) && IsSeparator(path[|r.value|])
    ensures r.Some? ==> forall i, k :: |r.value| <= k <= i < |path| && IsSeparator(path[i]) ==> IsSeparator(path[k])
  {
    var root := RootLength(path);
    if |path| <= root then None
    else
      var last := LastIndex(path[root..], IsSeparator);
      var end := if last < 0 then root else root + last;
      Some(path[..TrimSeparators(path, end, root)])
  }

  /** Moves `end` back past separators, never below `root`. */
  function TrimSeparators(path: string, end: nat, root: nat): (r: nat)
    requires root <= end <= |path|
    ensures root <= r <= end
    ensures r > root ==> !IsSeparator(path[r - 1])
    ensures forall i :: r <= i < end ==> IsSeparator(path[i])
    decreases end
  {
    if end > root && IsSeparator(path[end - 1]) then TrimSeparators(path, end - 1, root) else end
  }

  // ---------------------------------------------------------------------------
  // Where a simulation file goes

  /** The extension every simulation file is given. */
  const SimulationExtension: string := ".ptSim"

  /** `Path.Combine(folder, GetFileNameWithoutExtension(baseName)) + ".ptSim"`. */
  function SimulationPath(folder: string, baseName: string): string {
    Combine(folder, FileNameWithoutExtension(baseName)) + SimulationExtension
  }

  /** A name free of name breaks, placed after a prefix that ends in one, is read back as the file name. */
  lemma FileNameAfterPrefix(prefix: string, name: string)
    requires forall i :: 0 <= i < |name| ==> !IsNameBreak(name[i])
    requires |prefix| > 0 ==> IsNameBreak(prefix[|prefix| - 1])
    ensures FileName(prefix + name) == name
  {
    var path := prefix + name;
    assert forall i :: |prefix| <= i < |path| ==> path[i] == name[i - |prefix|];
    if |prefix| > 0 {
      assert IsNameBreak(path[|prefix| - 1]);
    }
    assert LastIndex(path, IsNameBreak) == |prefix| - 1;
    assert path[|prefix|..] == name;
  }

  /** Joining a folder with an unrooted name puts the name after a prefix that is empty or ends in a name break. */
  lemma CombineAsPrefix(folder: string, name: string) returns (prefix: string)
    requires |name| > 0 && !IsRooted(name)
    ensures Combine(folder, name) == prefix + name
    ensures |prefix| > 0 ==> IsNameBreak(prefix[|prefix| - 1])
  {
    if |folder| == 0 {
      prefix := "";
    } else if IsNameBreak(folder[|folder| - 1]) {
      prefix := folder;
    } else {
      prefix := folder + [DirectorySeparator];
    }
  }

  /** Appending the extension to a non-empty stem without name breaks keeps it unrooted and without name breaks. */
  lemma WithExtension(stem: string)
    requires |stem| > 0
    requires forall i :: 0 <= i < |stem| ==> !IsNameBreak(stem[i])
    ensures !IsRooted(stem + SimulationExtension)
    ensures forall i :: 0 <= i < |stem + SimulationExtension| ==> !IsNameBreak((stem + SimulationExtension)[i])
    ensures LastIndex(stem + SimulationExtension, IsDot) == |stem|
  {
    var name := stem + SimulationExtension;
    assert name[0] == stem[0];
    assert |stem| == 1 ==> name[1] == '.';
    assert |stem| > 1 ==> name[1] == stem[1];
    assert forall i :: |stem| <= i < |name| ==> name[i] == SimulationExtension[i - |stem|];
    assert name[|stem|] == '.';
  }

  /**
   A simulation file named after `stem` keeps that stem: reading the name
   back from the written path gives `stem` again.
   */
  lemma StemSurvives(folder: string, stem: string)
    requires |stem| > 0
    requires forall i :: 0 <= i < |stem| ==> !IsNameBreak(stem[i])
    ensures FileNameWithoutExtension(Combine(folder, stem) + SimulationExtension) == stem
  {
    assert !IsRooted(stem) by {
      assert !IsNameBreak(stem[0]);
      if |stem| > 1 {
        assert !IsNameBreak(stem[1]);
      }
    }
    var prefix := CombineAsPrefix(folder, stem);
    var name := stem + SimulationExtension;
    WithExtension(stem);
    assert Combine(folder, stem) + SimulationExtension == prefix + name;
    FileNameAfterPrefix(prefix, name);
    assert name[..|stem|] == stem;
  }

  /** The simulation file written for `baseName` is named after the stem of `baseName`. */
  lemma SimulationPathKeepsStem(folder: string, baseName: string)
    requires |FileNameWithoutExtension(baseName)| > 0
    ensures FileNameWithoutExtension(SimulationPath(folder, baseName)) == FileNameWithoutExtension(baseName)
  {
    StemSurvives(folder, FileNameWithoutExtension(baseName));
  }
}
