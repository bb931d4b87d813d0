/**
 * Path handling of `main.cpp`: the directory separator of each platform, the
 * `find_last_of`/`rfind` searches, the filename/extension split done by
 * `loadImage`, and the paths that `main` builds from a directory and a name.
 */
module Naming {
  import opened Wrappers

  /** The two builds of `main`: `#ifdef _WIN32` and the POSIX branch. */
  datatype Platform = Posix | Windows

  /** The separator `main` puts between a directory and a file name. */
  function Separator(platform: Platform): char
  {
    if platform.Windows? then '\\' else '/'
  }

  /** `loadImage` cuts at either separator, whatever the platform. */
  const PathSeparators: set<char> := {'/', '\\'}

  /** Inserted between the base name and the extension of every output file. */
  const GraySuffix: string := "_grayscale"

  /** True when `e` has the shape of an extension: a leading `.` and no other `.`. */
  predicate IsExtensionShaped(e: string)
  {
    |e| > 0 && e[0] == '.' && '.' !in e[1..]
  }

  predicate EndsWith(s: string, suffix: string)
  {
    |suffix| <= |s| && s[|s| - |suffix|..] == suffix
  }

  predicate SeparatorFree(s: string)
  {
    forall j :: 0 <= j < |s| ==> s[j] !in PathSeparators
  }

  /**
   * Index of the last character of `s` that belongs to `cs`, or None for
   * `std::string::npos`. With `cs == {c}` this is `rfind(c)`.
   */
  function LastIndexOf(s: string, cs: set<char>): (r: Option<nat>)
    ensures r.Some? ==> r.value < |s| && s[r.value] in cs
    ensures r.Some? ==> forall j :: r.value < j < |s| ==> s[j] !in cs
    ensures r.None? <==> forall j :: 0 <= j < |s| ==> s[j] !in cs
  {
    if |s| == 0 then None
    else if s[|s| - 1] in cs then Some(|s| - 1)
    else LastIndexOf(s[..|s| - 1], cs)
  }

  /** The text after the last `/` or `\`, or the whole path when it has neither. */
  function FileNameOf(path: string): (f: string)
    ensures |f| <= |path| && f == path[|path| - |f|..]
    ensures forall j :: 0 <= j < |f| ==> f[j] !in PathSeparators
    ensures |f| < |path| ==> path[|path| - |f| - 1] in PathSeparators
  {
    match LastIndexOf(path, PathSeparators)
    case Some(i) => path[i + 1..]
    case None => path
  }

  /** A file name cut at its last `.` into a base name and an extension that keeps the dot. */
  datatype SplitName = SplitName(name: string, extension: string)

  function SplitExtension(filename: string): (r: SplitName)
    ensures r.name + r.extension == filename
    ensures r.extension == "" <==> '.' !in filename
    ensures r.extension != "" ==> IsExtensionShaped(r.extension)
  {
    match LastIndexOf(filename, {'.'})
    case Some(dot) =>
      assert filename[dot + 1..] == filename[dot..][1..];
      SplitName(filename[..dot], filename[dot..])
    case None => SplitName(filename, "")
  }

  /** `dir + sep + name`, as `main` builds both input and output paths. */
  function JoinPath(platform: Platform, dir: string, name: string): string
  {
    dir + [Separator(platform)] + name
  }

  /** `output_dir + sep + name + "_grayscale" + extension` (lines 195 and 197). */
  function OutputPath(platform: Platform, outputDir: string, name: string, extension: string): string
  {
    JoinPath(platform, outputDir, name + GraySuffix + extension)
  }

  /** When `s` ends in an extension-shaped `e`, the last `.` of `s` is the one that starts `e`. */
  lemma LastDotOfSuffix(s: string, e: string)
    requires IsExtensionShaped(e) && EndsWith(s, e)
    ensures LastIndexOf(s, {'.'}) == Some(|s| - |e|)
  {
    var k := |s| - |e|;
    assert s[k] == e[0] == '.';
    assert s[k] in {'.'};
    forall j | k < j < |s|
      ensures s[j] !in {'.'}
    {
      assert s[j] == e[1..][j - k - 1];
    }
    var r := LastIndexOf(s, {'.'});
    assert r.value >= k;
    assert r.value <= k;
  }

  /** The file name of a path keeps every separator-free suffix of that path. */
  lemma FileNameKeepsSuffix(path: string, suffix: string)
    requires EndsWith(path, suffix)
    requires forall j :: 0 <= j < |suffix| ==> suffix[j] !in PathSeparators
    ensures EndsWith(FileNameOf(path), suffix)
  {
    var f := FileNameOf(path);
    assert f[|f| - |suffix|..] == path[|path| - |suffix|..];
  }

  /** A separator-free name joined to a directory is given back by `FileNameOf`. */
  lemma FileNameOfJoin(platform: Platform, dir: string, name: string)
    requires forall j :: 0 <= j < |name| ==> name[j] !in PathSeparators
    ensures FileNameOf(JoinPath(platform, dir, name)) == name
  {
    var path := JoinPath(platform, dir, name);
    FileNameKeepsSuffix(path, name);
    var f := FileNameOf(path);
    assert path[|path| - |name| - 1] in PathSeparators;
    assert f == path[|path| - |f|..];
    assert path[|path| - |name|..] == name;
  }

  /** A file name ending in an extension-shaped `e` splits into what precedes `e` and `e` itself. */
  lemma SplitAtKnownExtension(filename: string, e: string)
    requires IsExtensionShaped(e) && EndsWith(filename, e)
    ensures SplitExtension(filename) == SplitName(filename[..|filename| - |e|], e)
  {
    LastDotOfSuffix(filename, e);
  }

  /** Appending keeps a suffix: `a + b` ends in every suffix of `b`. */
  lemma EndsWithAppend(a: string, b: string, suffix: string)
    requires EndsWith(b, suffix)
    ensures EndsWith(a + b, suffix)
  {
    assert (a + b)[|a + b| - |b|..] == b;
    assert (a + b)[|a + b| - |suffix|..] == b[|b| - |suffix|..];
  }

  /** `a + b + c` ends in `b + c`. */
  lemma EndsWithTail(a: string, b: string, c: string)
    ensures EndsWith(a + b + c, b + c)
  {
    assert (a + b + c)[|a|..] == b + c;
  }

  /** An output path ends in the gray suffix followed by the extension, and so in the extension. */
  lemma OutputPathEnds(platform: Platform, outputDir: string, name: string, extension: string)
    ensures EndsWith(OutputPath(platform, outputDir, name, extension), GraySuffix + extension)
    ensures EndsWith(OutputPath(platform, outputDir, name, extension), extension)
  {
    var file := name + GraySuffix + extension;
    EndsWithTail(name, GraySuffix, extension);
    EndsWithAppend(outputDir + [Separator(platform)], file, GraySuffix + extension);
    EndsWithTail([], name + GraySuffix, extension);
    assert [] + (name + GraySuffix) + extension == file;
    EndsWithAppend(outputDir + [Separator(platform)], file, extension);
  }

  /**
   * A path ending in a separator-free, extension-shaped `e` has `e` as the
   * extension of its file name.
   */
  lemma ExtensionOfPathSuffix(path: string, e: string)
    requires IsExtensionShaped(e) && SeparatorFree(e) && EndsWith(path, e)
    ensures SplitExtension(FileNameOf(path)).extension == e
  {
    FileNameKeepsSuffix(path, e);
    SplitAtKnownExtension(FileNameOf(path), e);
  }
}
