/** The part of Rust's `PathBuf` the cache handles use: `push` and `set_extension`, on a path
    seen as a list of components. */
module Paths {
  import opened Wrappers

  /** One path component: a non-empty name without a separator. */
  type Name = s: string | s != [] && '/' !in s witness "a"

  /** An extension to set: non-empty, without a separator or a dot. */
  type Extension = s: string | s != [] && '/' !in s && '.' !in s witness "a"

  /** A path: rooted or not, and its components. */
  datatype Path = Path(absolute: bool, parts: seq<Name>)

  /** `PathBuf::from` a single name, such as a generated id. */
  function FromName(n: Name): Path
  {
    Path(false, [n])
  }

  /** `push`: a rooted path replaces the base, any other is appended to it. */
  function Push(base: Path, p: Path): Path
  {
    if p.absolute then p else Path(base.absolute, base.parts + p.parts)
  }

  /** The index of the last dot of `s`, if it has one. */
  function LastDot(s: string): (r: Option<nat>)
    ensures r.Some? ==> r.value < |s| && s[r.value] == '.' && '.' !in s[r.value + 1..]
    ensures r.None? ==> '.' !in s
  {
    if |s| == 0 then None
    else if s[|s| - 1] == '.' then Some(|s| - 1)
    else
      var r := LastDot(s[..|s| - 1]);
      assert s == s[..|s| - 1] + [s[|s| - 1]];
      if r.Some? then
        assert s[r.value + 1..] == s[..|s| - 1][r.value + 1..] + [s[|s| - 1]];
        r
      else r
  }

  /** `file_stem`: the name up to its last dot, unless that dot starts the name or there is
      none, in which case the whole name. */
  function Stem(n: Name): Name
  {
    var d := LastDot(n);
    if d.None? || d.value == 0 then n else n[..d.value]
  }

  /** `set_extension`: the last name becomes its stem, a dot and the extension; a path with
      no file name (empty, or ending in `..`) is left alone. */
  function SetExtension(p: Path, ext: Extension): Path
  {
    if |p.parts| == 0 || p.parts[|p.parts| - 1] == ".." then p
    else
      var last: Name := Stem(p.parts[|p.parts| - 1]) + "." + ext;
      Path(p.absolute, p.parts[..|p.parts| - 1] + [last])
  }

  /** The stem of a name with the extension set is the stem it had. */
  lemma StemWithExtension(n: Name, ext: Extension)
    ensures Stem(Stem(n) + "." + ext) == Stem(n)
  {
    var s := Stem(n);
    var t: Name := s + "." + ext;
    assert t[|s|] == '.';
    assert t[|s| + 1..] == ext;
    assert t[..|s|] == s;
  }

  /** Setting an extension twice is setting it once. */
  lemma SetExtensionIdempotent(p: Path, ext: Extension)
    ensures SetExtension(SetExtension(p, ext), ext) == SetExtension(p, ext)
  {
    if |p.parts| > 0 && p.parts[|p.parts| - 1] != ".." {
      StemWithExtension(p.parts[|p.parts| - 1], ext);
      var q := SetExtension(p, ext);
      assert q.parts[..|q.parts| - 1] == p.parts[..|p.parts| - 1];
    }
  }

  /** A name without a dot, pushed onto a folder and given an extension, becomes the last
      component `name.ext` under the folder. */
  lemma PushedNameWithExtension(folder: Path, n: Name, ext: Extension)
    requires '.' !in n
    ensures SetExtension(Push(folder, FromName(n)), ext) == Path(folder.absolute, folder.parts + [n + "." + ext])
  {
    var p := Push(folder, FromName(n));
    assert p.parts == folder.parts + [n];
    assert p.parts[..|p.parts| - 1] == folder.parts;
    assert n != "..";
  }

  /** Pushing a rooted result onto any folder and setting the same extension again finds it
      unchanged. */
  lemma ResolvedPathIsFixed(folder: Path, p: Path, ext: Extension)
    requires SetExtension(p, ext).absolute
    ensures SetExtension(Push(folder, SetExtension(p, ext)), ext) == SetExtension(p, ext)
  {
    SetExtensionIdempotent(p, ext);
  }
}
