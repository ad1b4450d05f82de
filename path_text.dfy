/**
  The parts of pathlib that the command builder uses, on paths as text:
  the last component of a path (`Path.name`), the name without its last
  extension (`Path.stem`), and a directory joined with a file name
  (`Path(dir) / name`), kept as the pair it was built from.
 */
module PathText {
  import opened Options

  /** The separator of POSIX paths. */
  const Separator: char := '/'

  /** The extension separator that `Path.stem` cuts at. */
  const Dot: char := '.'

  /** `Path(dir) / name`: a file name joined under a directory. */
  datatype FsPath = FsPath(dir: string, name: string)

  /** Position of the first occurrence of `c` in `s`, if any. */
  function IndexOf(s: string, c: char): (r: Option<nat>)
    ensures r.None? <==> c !in s
    ensures r.Some? ==> r.value < |s| && s[r.value] == c && c !in s[..r.value]
  {
    if |s| == 0 then None
    else if s[0] == c then Some(0)
    else
      match IndexOf(s[1..], c)
      case None => None
      case Some(i) =>
        assert s[..i + 1] == [s[0]] + s[1..][..i];
        Some(i + 1)
  }

  /** Position of the last occurrence of `c` in `s`, if any. */
  function LastIndexOf(s: string, c: char): (r: Option<nat>)
    ensures r.None? <==> c !in s
    ensures r.Some? ==> r.value < |s| && s[r.value] == c && c !in s[r.value + 1..]
  {
    if |s| == 0 then None
    else if s[|s| - 1] == c then Some(|s| - 1)
    else
      var r := LastIndexOf(s[..|s| - 1], c);
      assert s == s[..|s| - 1] + [s[|s| - 1]];
      match r
      case None => None
      case Some(i) =>
        assert s[i + 1..] == s[..|s| - 1][i + 1..] + [s[|s| - 1]];
        r
  }

  /** `Path(path).name`: the text after the last separator, or all of `path`. */
  function BaseName(path: string): string
  {
    match LastIndexOf(path, Separator)
    case None => path
    case Some(i) => path[i + 1..]
  }

  /** The base name is the longest suffix of the path that is free of separators. */
  lemma BaseNameSpec(path: string)
    ensures Separator !in BaseName(path)
    ensures |BaseName(path)| <= |path| && BaseName(path) == path[|path| - |BaseName(path)|..]
    ensures |BaseName(path)| < |path| ==> path[|path| - |BaseName(path)| - 1] == Separator
    ensures Separator !in path ==> BaseName(path) == path
  {
  }

  /**
    `Path(name).stem`: the name cut at its last dot, when that dot is
    neither the first nor the last character; otherwise the name itself.
   */
  function Stem(name: string): string
  {
    match LastIndexOf(name, Dot)
    case None => name
    case Some(i) => if 0 < i < |name| - 1 then name[..i] else name
  }

  /**
    The stem is a prefix of the name. It is shorter exactly when the name
    has a dot that is neither first nor last and no dot after it; the cut is
    at that dot.
   */
  lemma StemSpec(name: string)
    ensures |Stem(name)| <= |name| && Stem(name) == name[..|Stem(name)|]
    ensures Stem(name) != name ==>
              var n := |Stem(name)|;
              0 < n < |name| - 1 && name[n] == Dot && Dot !in name[n + 1..]
    ensures Stem(name) == name ==>
              forall i :: 0 < i < |name| - 1 && name[i] == Dot ==> Dot in name[i + 1..]
  {
  }

  /** Joining a separator-free name under any directory gives that name back as the base name. */
  lemma BaseNameOfJoin(dir: string, name: string)
    requires Separator !in name
    ensures BaseName(dir + [Separator] + name) == name
  {
    var path := dir + [Separator] + name;
    BaseNameSpec(path);
    assert path[|dir|] == Separator;
    assert path[|path| - |name|..] == name;
  }

  /** The stem of `s.e`, for a non-empty `s` and a non-empty, dot-free extension `e`, is `s`. */
  lemma StemOfDotted(s: string, e: string)
    requires s != [] && e != [] && Dot !in e
    ensures Stem(s + [Dot] + e) == s
  {
    var name := s + [Dot] + e;
    StemSpec(name);
    assert name[|s|] == Dot;
    assert name[|s| + 1..] == e;
    assert name[..|s|] == s;
  }
}
