/** The two functions of Python's `posixpath` that the system uses. */
module Paths {

  /** The path is absolute: it starts with a slash. */
  predicate IsAbsolute(p: string)
  {
    |p| > 0 && p[0] == '/'
  }

  /**
   * `os.path.join(a, b)`: an absolute `b` replaces `a`; otherwise `b` is
   * appended, with a slash in between unless `a` is empty or ends in one.
   */
  function Join(a: string, b: string): (r: string)
    ensures IsAbsolute(b) ==> r == b
    ensures !IsAbsolute(b) && a != "" && a[|a| - 1] != '/' ==> r == a + "/" + b
    ensures !IsAbsolute(b) && (a == "" || a[|a| - 1] == '/') ==> r == a + b
  {
    if IsAbsolute(b) then b
    else if a == "" || a[|a| - 1] == '/' then a + b
    else a + "/" + b
  }

  /**
   * `os.path.basename(p)`: what follows the last slash.  The contract says
   * exactly that: a suffix of `p` without a slash, preceded in `p` by a slash
   * unless it is the whole of `p`.
   */
  function BaseName(p: string): (r: string)
    ensures '/' !in r
    ensures |r| <= |p| && r == p[|p| - |r|..]
    ensures |r| < |p| ==> p[|p| - |r| - 1] == '/'
    decreases |p|
  {
    if p == "" || p[|p| - 1] == '/' then ""
    else BaseName(p[..|p| - 1]) + [p[|p| - 1]]
  }

  /** Appending a slash-free name after a slash (or to nothing) makes it the base name. */
  lemma {:induction false} BaseNameAfterSlash(x: string, b: string)
    requires x == "" || x[|x| - 1] == '/'
    requires '/' !in b
    ensures BaseName(x + b) == b
    decreases |b|
  {
    if b != "" {
      var init := b[..|b| - 1];
      assert (x + b)[..|x + b| - 1] == x + init;
      BaseNameAfterSlash(x, init);
      assert init + [b[|b| - 1]] == b;
    } else {
      assert x + b == x;
    }
  }

  /** The base name of a joined path is the last component that was joined. */
  lemma BaseNameOfJoin(a: string, b: string)
    requires '/' !in b
    ensures BaseName(Join(a, b)) == b
  {
    if a == "" || a[|a| - 1] == '/' {
      BaseNameAfterSlash(a, b);
    } else {
      assert Join(a, b) == (a + "/") + b;
      BaseNameAfterSlash(a + "/", b);
    }
  }
}
