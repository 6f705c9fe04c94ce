/**
 * File-system paths as sequences of components, with the semantics of Rust's
 * `Path::file_name`, `file_stem`, `extension`, `with_file_name` and `join`.
 */
module Paths {
  import opened Wrappers
  import opened Text

  type Path = seq<string>

  /** `Path::file_name`: the last component, unless it is `.` or `..`. */
  function FileName(p: Path): Option<string> {
    if |p| > 0 && p[|p| - 1] != "" && p[|p| - 1] != "." && p[|p| - 1] != ".." then Some(p[|p| - 1])
    else None
  }

  /** Position of the last `.` in a name. */
  function LastDot(name: string): (i: Option<nat>)
    ensures i.Some? ==> i.value < |name| && name[i.value] == '.' && '.' !in name[i.value + 1..]
    ensures i.None? ==> '.' !in name
  {
    if name == [] then None
    else if name[|name| - 1] == '.' then Some(|name| - 1)
    else
      var r := LastDot(name[..|name| - 1]);
      assert name == name[..|name| - 1] + [name[|name| - 1]];
      r
  }

  /**
   * Rust's `rsplit_file_at_dot` followed by the choice `file_stem` and
   * `extension` make: a name with no dot, or whose only dot is its first
   * character, has no extension and is its own stem.
   */
  function StemAndExtension(name: string): (Option<string>, Option<string>) {
    if name == ".." then (Some(name), None)
    else match LastDot(name)
      case None => (Some(name), None)
      case Some(i) => if i == 0 then (Some(name), None) else (Some(name[..i]), Some(name[i + 1..]))
  }

  function FileStem(p: Path): Option<string> {
    match FileName(p)
    case None => None
    case Some(n) => StemAndExtension(n).0
  }

  function Extension(p: Path): Option<string> {
    match FileName(p)
    case None => None
    case Some(n) => StemAndExtension(n).1
  }

  /** The stem, a dot and the extension give back the file name. */
  lemma StemDotExtension(p: Path)
    requires Extension(p).Some?
    ensures FileStem(p).Some? && FileName(p) == Some(FileStem(p).value + "." + Extension(p).value)
    ensures '.' !in Extension(p).value
  {
    var n := FileName(p).value;
    var i := LastDot(n).value;
    assert n == n[..i] + "." + n[i + 1..];
  }

  /** The last dot of `s.ext`, when `ext` has none, is the one just after `s`. */
  lemma {:induction false} LastDotBeforeExtension(s: string, ext: string)
    requires '.' !in ext
    ensures LastDot(s + "." + ext) == Some(|s|)
    decreases |ext|
  {
    var n := s + "." + ext;
    if ext != [] {
      assert n[..|n| - 1] == s + "." + ext[..|ext| - 1];
      assert ext[|ext| - 1] in ext;
      LastDotBeforeExtension(s, ext[..|ext| - 1]);
    }
  }

  /**
   * Naming a file `stem.ext` gives back that stem and extension, when the
   * extension has no dot, the stem is not empty and the name is not `..`
   * (so `..ogg` has stem `.` and extension `ogg`).
   */
  lemma StemAndExtensionOfName(dir: Path, stem: string, ext: string)
    requires stem != [] && (stem != "." || ext != "") && '.' !in ext
    ensures FileStem(dir + [stem + "." + ext]) == Some(stem)
    ensures Extension(dir + [stem + "." + ext]) == Some(ext)
  {
    var n := stem + "." + ext;
    LastDotBeforeExtension(stem, ext);
    assert n[..|stem|] == stem && n[|stem| + 1..] == ext;
  }

  /** `Path::with_file_name`: replace the file name, or add one when there is none. */
  function WithFileName(p: Path, name: string): (r: Path)
    ensures |r| >= 1 && r[|r| - 1] == name
  {
    if FileName(p).Some? then p[..|p| - 1] + [name] else p + [name]
  }

  /** `Path::join` with a relative, single-component name. */
  function Join(dir: Path, name: string): (r: Path)
    ensures |r| == |dir| + 1 && r[..|dir|] == dir && r[|dir|] == name
  {
    dir + [name]
  }

  /** `to_string_lossy`, with `/` between components. */
  function ToString(p: Path): string {
    if p == [] then "" else if |p| == 1 then p[0] else ToString(p[..|p| - 1]) + "/" + p[|p| - 1]
  }
}
