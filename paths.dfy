/** POSIX path strings as `os.path` and `pathlib` treat them (paths are assumed normalised:
    no repeated or trailing slashes, no `.` or `..` components). */
module Paths {
  import opened Common

  predicate IsAbs(p: string)
  {
    |p| > 0 && p[0] == '/'
  }

  /** `os.path.join(a, b)`: an absolute `b` replaces `a`. */
  function Join(a: string, b: string): (r: string)
    ensures IsAbs(b) ==> r == b
    ensures IsAbs(a) ==> IsAbs(r)
  {
    if IsAbs(b) then b
    else if a == "" || a[|a| - 1] == '/' then a + b
    else a + "/" + b
  }

  function LastIndexOf(s: string, c: char): (r: Option<nat>)
    ensures r.None? <==> c !in s
    ensures r.Some? ==> r.value < |s| && s[r.value] == c && c !in s[r.value + 1..]
  {
    if s == [] then None
    else if s[|s| - 1] == c then Some(|s| - 1)
    else
      var r := LastIndexOf(s[..|s| - 1], c);
      assert r.Some? ==> s[r.value + 1..] == s[..|s| - 1][r.value + 1..] + [s[|s| - 1]];
      assert r.None? ==> s == s[..|s| - 1] + [s[|s| - 1]];
      r
  }

  /** `os.path.dirname` of a normalised path. */
  function DirName(p: string): string
  {
    match LastIndexOf(p, '/')
    case None => ""
    case Some(k) => if k == 0 then "/" else p[..k]
  }

  /** `os.path.basename`, which is also `pathlib.PurePath.name`. */
  function BaseName(p: string): string
  {
    match LastIndexOf(p, '/')
    case None => p
    case Some(k) => p[k + 1..]
  }

  /** A path joined from a directory and a plain file name splits back into the two. */
  lemma JoinSplits(d: string, n: string)
    requires IsAbs(d) && d[|d| - 1] != '/'
    requires n != "" && '/' !in n
    ensures DirName(Join(d, n)) == d && BaseName(Join(d, n)) == n
  {
    var p := Join(d, n);
    assert p == d + "/" + n;
    assert p[|d| + 1..] == n;
    assert p[|d|] == '/';
  }

  /** `pathlib.PurePath.suffix`: from the last dot of the name, unless that dot is the first or
      the last character. */
  function Suffix(name: string): (r: string)
    ensures r == "" || (|r| < |name| && r[0] == '.' && name[|name| - |r|..] == r)
  {
    match LastIndexOf(name, '.')
    case None => ""
    case Some(i) => if 0 < i < |name| - 1 then name[i..] else ""
  }

  /** `name.replace(suffix, "")`, as both the watermark and the video action derive a file stem:
      every occurrence of the suffix is removed, not only the final one. */
  function Stem(name: string): string
  {
    ReplaceAll(name, Suffix(name), "")
  }

  /** A name whose suffix occurs only at its end loses exactly that suffix; a name without a
      suffix is its own stem. */
  lemma StemSplit(name: string)
    requires Suffix(name) != "" ==> !Contains(name[..|name| - 1], Suffix(name))
    ensures Stem(name) + Suffix(name) == name
  {
    var suf := Suffix(name);
    if suf == "" {
      ReplaceSelf(name, "");
    } else {
      var pre := name[..|name| - |suf|];
      assert pre + suf == name;
      ReplaceAtEnd(pre, suf, "");
    }
  }
}
