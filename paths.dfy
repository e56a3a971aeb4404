/** POSIX path handling as `os.path` does it (`basename`, `dirname`, `join`),
    and `last_folders` of censo_qm/utilities.py, which prints the last one, two or
    three components of a path. */
module Paths {
  import opened Builtins

  /** The index just after the last '/', or 0 when there is none. */
  function AfterLastSlash(p: string): (i: nat)
    ensures i <= |p|
    ensures i > 0 ==> p[i - 1] == '/'
    ensures forall k :: i <= k < |p| ==> p[k] != '/'
  {
    match FindLast(p, '/')
    case None => 0
    case Some(k) => k + 1
  }

  /** `os.path.basename(p)`: everything after the last '/'. */
  function Basename(p: string): (b: string)
    ensures '/' !in b
    ensures |b| <= |p| && b == p[|p| - |b|..]
  {
    p[AfterLastSlash(p)..]
  }

  /** `s.rstrip('/')`. */
  function StripSlashes(s: string): (r: string)
    ensures r <= s
    ensures |r| == 0 || r[|r| - 1] != '/'
  {
    if |s| > 0 && s[|s| - 1] == '/' then StripSlashes(s[..|s| - 1]) else s
  }

  predicate AllSlashes(s: string)
  {
    forall k :: 0 <= k < |s| ==> s[k] == '/'
  }

  /** `os.path.dirname(p)` (and `os.path.split(p)[0]`): everything up to the last
      '/', with trailing slashes removed unless that leaves nothing but slashes. */
  function Dirname(p: string): string
  {
    var head := p[..AfterLastSlash(p)];
    if |head| > 0 && !AllSlashes(head) then StripSlashes(head) else head
  }

  /** `os.path.join(a, b)`. */
  function Join(a: string, b: string): string
  {
    if |b| > 0 && b[0] == '/' then b
    else if |a| == 0 || a[|a| - 1] == '/' then a + b
    else a + "/" + b
  }

  /** `last_folders(path, number)`: the last `number` components joined by '/',
      for number 1, 2 or 3; any other number counts as 1. */
  function LastFolders(path: string, number: int): string
  {
    var n := if number in {1, 2, 3} then number else 1;
    if n == 1 then Basename(path)
    else if n == 2 then Join(Basename(Dirname(path)), Basename(path))
    else Join(Join(Basename(Dirname(Dirname(path))), Basename(Dirname(path))), Basename(path))
  }

  /** A single path component: not empty, no '/'. */
  predicate Component(c: string)
  {
    |c| > 0 && '/' !in c
  }

  /** Appending "/c" to a path makes c its base name and the path its directory
      name, when the path does not end in '/'. */
  lemma SplitLast(d: string, c: string)
    requires Component(c)
    requires |d| > 0 && d[|d| - 1] != '/'
    ensures Basename(d + "/" + c) == c
    ensures Dirname(d + "/" + c) == d
  {
    var p := d + "/" + c;
    assert p[|d|] == '/';
    assert forall k :: |d| < k < |p| ==> p[k] == c[k - |d| - 1];
    var i := AfterLastSlash(p);
    assert i == |d| + 1;
    assert p[i..] == c;
    var head := p[..i];
    assert head == d + "/";
    assert head[|head| - 2] == d[|d| - 1];
    assert !AllSlashes(head);
    assert head[..|head| - 1] == d;
    assert StripSlashes(d) == d;
    assert StripSlashes(head) == d;
  }

  /** `last_folders` of `a/b/c/d` gives `d`, `c/d` and `b/c/d`, and falls back
      to one component for any other number. */
  lemma LastFoldersOfPath(a: string, b: string, c: string, d: string, number: int)
    requires |a| > 0 && a[|a| - 1] != '/'
    requires Component(b) && Component(c) && Component(d)
    ensures var p := a + "/" + b + "/" + c + "/" + d;
            LastFolders(p, number) ==
              if number == 2 then c + "/" + d
              else if number == 3 then b + "/" + c + "/" + d
              else d
  {
    var ab := a + "/" + b;
    var abc := ab + "/" + c;
    SplitLast(a, b);
    SplitLast(ab, c);
    SplitLast(abc, d);
  }
}
