// File-system paths as sequences of components, with the file-name, stem,
// extension, parent and join operations of a standard path library.

module Paths {
  import opened Errors

  /** A path, as the sequence of its components ("dir", "sub", "name.ext"). */
  type Path = seq<string>

  /** The last component, unless the path is empty or ends in "." or "..". */
  function FileName(p: Path): (r: Option<string>)
    ensures r.Some? <==> p != [] && p[|p| - 1] != "." && p[|p| - 1] != ".."
    ensures r.Some? ==> r.value == p[|p| - 1]
  {
    if p == [] || p[|p| - 1] == "." || p[|p| - 1] == ".." then None else Some(p[|p| - 1])
  }

  /** Index of the last '.' in a name, if any. */
  function LastDot(name: string): (r: Option<nat>)
    ensures r.Some? ==> r.value < |name| && name[r.value] == '.'
                        && forall j | r.value < j < |name| :: name[j] != '.'
    ensures r.None? ==> '.' !in name
  {
    if name == [] then None
    else if name[|name| - 1] == '.' then Some(|name| - 1)
    else LastDot(name[..|name| - 1])
  }

  /**
   * A file name split at its last dot: (stem, extension).  A name without a
   * dot, or whose only dot is its first character, has no extension.
   */
  function SplitAtDot(name: string): (string, Option<string>)
  {
    match LastDot(name)
    case None => (name, None)
    case Some(i) => if i == 0 then (name, None) else (name[..i], Some(name[i + 1..]))
  }

  function Extension(p: Path): Option<string>
  {
    match FileName(p)
    case None => None
    case Some(name) => SplitAtDot(name).1
  }

  function FileStem(p: Path): Option<string>
  {
    match FileName(p)
    case None => None
    case Some(name) => Some(SplitAtDot(name).0)
  }

  /** Stem and extension partition the file name around its last dot. */
  lemma StemDotExtension(p: Path)
    ensures Extension(p).Some? ==>
      FileName(p) == Some(FileStem(p).value + "." + Extension(p).value)
      && '.' !in Extension(p).value && FileStem(p).value != []
    ensures Extension(p).None? && FileName(p).Some? ==> FileStem(p) == FileName(p)
  {
    if Extension(p).Some? {
      var name := FileName(p).value;
      var i := LastDot(name).value;
      assert name == name[..i] + "." + name[i + 1..];
    }
  }

  /** The last dot of a name is at i when i holds a dot and nothing after it does. */
  lemma {:induction false} LastDotIs(name: string, i: nat)
    requires i < |name| && name[i] == '.' && forall j | i < j < |name| :: name[j] != '.'
    ensures LastDot(name) == Some(i)
    decreases |name|
  {
    if i < |name| - 1 {
      LastDotIs(name[..|name| - 1], i);
    }
  }

  /** A file named "stem.ext" with a non-empty stem and a dot-free, non-empty extension splits back into the two. */
  lemma StemAndExtension(dir: Path, stem: string, ext: string)
    requires stem != [] && ext != [] && '.' !in ext
    ensures Extension(dir + [stem + "." + ext]) == Some(ext)
    ensures FileStem(dir + [stem + "." + ext]) == Some(stem)
  {
    var name := stem + "." + ext;
    var i := |stem|;
    assert name[i] == '.';
    forall j | i < j < |name|
      ensures name[j] != '.'
    {
      assert name[j] == ext[j - i - 1];
    }
    LastDotIs(name, i);
    assert name[..i] == stem && name[i + 1..] == ext;
  }

  /** The path without its last component; none for the empty path. */
  function Parent(p: Path): (r: Option<Path>)
    ensures r.Some? <==> p != []
    ensures r.Some? ==> r.value + [p[|p| - 1]] == p
  {
    if p == [] then None else Some(p[..|p| - 1])
  }

  function Join(p: Path, name: string): (r: Path)
    ensures Parent(r) == Some(p)
    ensures name != "." && name != ".." ==> FileName(r) == Some(name)
  {
    p + [name]
  }

  /** Replaces the file name, or appends one when the path has none. */
  function WithFileName(p: Path, name: string): (r: Path)
    ensures name != "." && name != ".." ==> FileName(r) == Some(name)
    ensures FileName(p).Some? ==> Parent(r) == Parent(p)
    ensures FileName(p).None? ==> Parent(r) == Some(p)
  {
    if FileName(p).Some? then Join(p[..|p| - 1], name) else Join(p, name)
  }
}
