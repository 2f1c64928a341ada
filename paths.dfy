/** Where the engine and its probe tool are looked for, and file paths as the builders see them.
    A path is abstracted to the (directory, stem, extension) triple the `Path` helpers return;
    whether a file exists is a predicate supplied by the caller. */
module Paths {
  import opened Wrappers
  import opened Search

  /** The directory separators .NET's `Path` checks on Windows. */
  predicate IsSeparator(c: char) {
    c == '\\' || c == '/'
  }

  /** `Path.Combine` of a directory and a relative name: no separator is added after an empty
      directory or one that already ends in a separator, otherwise a backslash is inserted. */
  function Combine(dir: string, name: string): (r: string)
    ensures |r| >= |name| && r[|r| - |name|..] == name
    ensures |dir| + |name| <= |r| <= |dir| + 1 + |name| && r[..|dir|] == dir
    ensures |r| == |dir| + 1 + |name| ==> r[|dir|] == '\\'
    ensures |r| == |dir| + |name| <==> dir == [] || IsSeparator(dir[|dir| - 1])
    ensures dir == [] ==> r == name
  {
    if dir == [] || IsSeparator(dir[|dir| - 1]) then dir + name else dir + "\\" + name
  }

  /** Combining names under one directory keeps them apart. */
  lemma CombineInjective(dir: string, a: string, b: string)
    requires Combine(dir, a) == Combine(dir, b)
    ensures a == b
  {
    var p := if dir == [] || IsSeparator(dir[|dir| - 1]) then dir else dir + "\\";
    assert Combine(dir, a) == p + a && Combine(dir, b) == p + b;
    assert a == (p + a)[|p|..];
    assert b == (p + b)[|p|..];
  }

  lemma CombineDistinct(dir: string, a: string, b: string)
    requires a != b
    ensures Combine(dir, a) != Combine(dir, b)
  {
    if Combine(dir, a) == Combine(dir, b) {
      CombineInjective(dir, a, b);
    }
  }

  /** A file path as `Path.GetDirectoryName` (None when it returns null),
      `Path.GetFileNameWithoutExtension` and `Path.GetExtension` split it. */
  datatype FilePath = FilePath(dir: Option<string>, stem: string, ext: string)

  /** An extension is empty or a dot followed by the rest of the name. */
  predicate ValidExtension(ext: string) {
    ext == [] || ext[0] == '.'
  }

  /** The text of a path whose directory is known. */
  function FullPath(p: FilePath): string {
    Combine(p.dir.GetOr(""), p.stem + p.ext)
  }

  function LocalEngine(baseDir: string): string {
    Combine(baseDir, "ffmpeg.exe")
  }

  function BundledEngine(baseDir: string): string {
    Combine(Combine(Combine(baseDir, "ffmpeg"), "bin"), "ffmpeg.exe")
  }

  function LocalProbe(baseDir: string): string {
    Combine(baseDir, "ffprobe.exe")
  }

  function BundledProbe(baseDir: string): string {
    Combine(Combine(Combine(baseDir, "ffmpeg"), "bin"), "ffprobe.exe")
  }

  /** The places `ResolveFfmpegPath` tries, in order: the given path when it is not empty,
      then next to the application, then in its `ffmpeg\bin` bundle. */
  function EngineCandidates(candidate: Option<string>, baseDir: string): seq<string> {
    (if candidate.Some? && candidate.value != "" then [candidate.value] else [])
    + [LocalEngine(baseDir), BundledEngine(baseDir)]
  }

  /** The places `ResolveFfprobePath` tries: beside the engine when its directory is known and
      not empty, then next to the application, then in the bundle. */
  function ProbeCandidates(engineDir: Option<string>, baseDir: string): seq<string> {
    (if engineDir.Some? && engineDir.value != "" then [Combine(engineDir.value, "ffprobe.exe")] else [])
    + [LocalProbe(baseDir), BundledProbe(baseDir)]
  }

  /** The engine executable: the first existing candidate, or None. */
  function ResolveEnginePath(candidate: Option<string>, baseDir: string, fileExists: string -> bool): (r: Option<string>)
    ensures r.Some? ==> fileExists(r.value)
    ensures r.Some? ==> IsFirstPresent(EngineCandidates(candidate, baseDir), fileExists, r.value)
    ensures r.None? <==> !fileExists(LocalEngine(baseDir)) && !fileExists(BundledEngine(baseDir))
                         && (candidate.Some? && candidate.value != "" ==> !fileExists(candidate.value))
  {
    var cs := EngineCandidates(candidate, baseDir);
    if candidate.Some? && candidate.value != "" then
      assert cs == [candidate.value, LocalEngine(baseDir), BundledEngine(baseDir)];
      NoneOfThree(candidate.value, LocalEngine(baseDir), BundledEngine(baseDir), fileExists);
      FirstPresent(cs, fileExists)
    else
      assert cs == [LocalEngine(baseDir), BundledEngine(baseDir)];
      NoneOfTwo(LocalEngine(baseDir), BundledEngine(baseDir), fileExists);
      FirstPresent(cs, fileExists)
  }

  /** The probe tool: the first existing candidate, or None. */
  function ResolveProbePath(engineDir: Option<string>, baseDir: string, fileExists: string -> bool): (r: Option<string>)
    ensures r.Some? ==> fileExists(r.value)
    ensures r.Some? ==> IsFirstPresent(ProbeCandidates(engineDir, baseDir), fileExists, r.value)
    ensures r.None? <==> !fileExists(LocalProbe(baseDir)) && !fileExists(BundledProbe(baseDir))
                         && (engineDir.Some? && engineDir.value != "" ==> !fileExists(Combine(engineDir.value, "ffprobe.exe")))
  {
    var cs := ProbeCandidates(engineDir, baseDir);
    if engineDir.Some? && engineDir.value != "" then
      assert cs == [Combine(engineDir.value, "ffprobe.exe"), LocalProbe(baseDir), BundledProbe(baseDir)];
      NoneOfThree(Combine(engineDir.value, "ffprobe.exe"), LocalProbe(baseDir), BundledProbe(baseDir), fileExists);
      FirstPresent(cs, fileExists)
    else
      assert cs == [LocalProbe(baseDir), BundledProbe(baseDir)];
      NoneOfTwo(LocalProbe(baseDir), BundledProbe(baseDir), fileExists);
      FirstPresent(cs, fileExists)
  }

  /** An existing path given by the caller always wins. */
  lemma GivenEngineWins(candidate: string, baseDir: string, fileExists: string -> bool)
    requires candidate != "" && fileExists(candidate)
    ensures ResolveEnginePath(Some(candidate), baseDir, fileExists) == Some(candidate)
  {
    var r := ResolveEnginePath(Some(candidate), baseDir, fileExists);
    var cs := EngineCandidates(Some(candidate), baseDir);
    assert cs[0] == candidate;
    var k :| 0 <= k < |cs| && cs[k] == r.value && fileExists(r.value) && NoneBefore(cs, fileExists, k);
  }

  /** Without a usable given path, the copy next to the application beats the bundled one. */
  lemma LocalEngineBeatsBundle(candidate: Option<string>, baseDir: string, fileExists: string -> bool)
    requires candidate.Some? && candidate.value != "" ==> !fileExists(candidate.value)
    requires fileExists(LocalEngine(baseDir))
    ensures ResolveEnginePath(candidate, baseDir, fileExists) == Some(LocalEngine(baseDir))
  {
    var cs := EngineCandidates(candidate, baseDir);
    var i := |cs| - 2;
    assert cs[i] == LocalEngine(baseDir);
    assert NoneBefore(cs, fileExists, i);
    FirstPresentAt(cs, fileExists, i);
  }

  /** The probe tool beside the engine is preferred to every other copy. */
  lemma SiblingProbeWins(engineDir: string, baseDir: string, fileExists: string -> bool)
    requires engineDir != "" && fileExists(Combine(engineDir, "ffprobe.exe"))
    ensures ResolveProbePath(Some(engineDir), baseDir, fileExists) == Some(Combine(engineDir, "ffprobe.exe"))
  {
    var r := ResolveProbePath(Some(engineDir), baseDir, fileExists);
    var cs := ProbeCandidates(Some(engineDir), baseDir);
    assert cs[0] == Combine(engineDir, "ffprobe.exe");
    var k :| 0 <= k < |cs| && cs[k] == r.value && fileExists(r.value) && NoneBefore(cs, fileExists, k);
  }
}
