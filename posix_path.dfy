/**
 * The parts of Python's `os.path` (POSIX flavour) that the crawler and the pipelines use
 * on URL paths: `basename`, `dirname` and `splitext`.
 */
module PosixPath {
  import opened Wrappers
  import opened Text

  predicate IsSlash(c: char) {
    c == '/'
  }

  /** `p.rfind('/') + 1`: where the last component starts. */
  function ComponentStart(p: string): (i: nat)
    ensures i <= |p|
    ensures i > 0 ==> p[i - 1] == '/'
    ensures forall k :: i <= k < |p| ==> p[k] != '/'
  {
    if p == [] then 0
    else if p[|p| - 1] == '/' then |p|
    else ComponentStart(p[..|p| - 1])
  }

  /** `os.path.basename(p)`: everything after the last '/'. */
  function BaseName(p: string): (r: string)
    ensures EndsWith(p, r) && '/' !in r
  {
    p[ComponentStart(p)..]
  }

  /** The last position of `c` in `s`, if any (`s.rfind(c)`). */
  function LastIndexOf(s: string, c: char): (r: Option<nat>)
    ensures r.Some? ==> r.value < |s| && s[r.value] == c
    ensures r.Some? ==> forall k :: r.value < k < |s| ==> s[k] != c
    ensures r.None? ==> c !in s
  {
    if s == [] then None
    else if s[|s| - 1] == c then Some(|s| - 1)
    else LastIndexOf(s[..|s| - 1], c)
  }

  /**
   * `os.path.dirname(p)`: everything up to the last '/', with the trailing slashes
   * removed unless the head is made only of slashes.
   */
  function DirName(p: string): (r: string)
    ensures StartsWith(p, r)
  {
    var head := p[..ComponentStart(p)];
    if head != [] && !AllSatisfy(head, IsSlash) then DropTrailing(head, IsSlash) else head
  }

  predicate AllDots(s: string) {
    forall k :: 0 <= k < |s| ==> s[k] == '.'
  }

  /**
   * Where `os.path.splitext(p)` cuts `p`: at the last '.' of the last component when
   * something other than a dot precedes it within that component; otherwise at the end.
   */
  function ExtensionStart(p: string): (d: nat)
    ensures d <= |p|
    ensures d < |p| ==> p[d] == '.' && '.' !in p[d + 1..] && '/' !in p[d..]
    ensures d < |p| ==> ComponentStart(p) <= d && !AllDots(p[ComponentStart(p)..d])
  {
    var start := ComponentStart(p);
    match LastIndexOf(p, '.')
    case Some(dot) =>
      if start <= dot && !AllDots(p[start..dot]) then dot else |p|
    case None => |p|
  }

  /** `os.path.splitext(p)[0]`. */
  function Stem(p: string): string {
    p[..ExtensionStart(p)]
  }

  /** `os.path.splitext(p)[1]`: empty, or a dot followed by neither dots nor slashes. */
  function Extension(p: string): (e: string)
    ensures e == [] || (e[0] == '.' && '.' !in e[1..] && '/' !in e)
  {
    p[ExtensionStart(p)..]
  }

  /** A path is its stem followed by its extension. */
  lemma StemThenExtension(p: string)
    ensures Stem(p) + Extension(p) == p
    ensures EndsWith(p, Extension(p))
  {
  }

  /** A component without a dot has no extension. */
  lemma NoDotNoExtension(p: string)
    requires '.' !in BaseName(p)
    ensures Extension(p) == [] && Stem(p) == p
  {
  }

  /** A hidden file such as ".profile" has no extension: its only dot leads the component. */
  lemma LeadingDotIsNotExtension(p: string)
    requires var b := BaseName(p); |b| > 0 && b[0] == '.' && '.' !in b[1..]
    ensures Extension(p) == []
  {
  }
}
