/**
 * The three `os.path` operations the downloader uses, with POSIX semantics
 * (separator `/`, extension separator `.`): `join` of two components,
 * `basename` and `splitext`.
 */
module PosixPath {
  import opened Strings

  /** `os.path.join(a, b)`: an absolute `b` replaces `a`; otherwise `b` is appended after one separator. */
  function PathJoin(a: string, b: string): (r: string)
    ensures StartsWith(b, "/") ==> r == b
    ensures !StartsWith(b, "/") && (a == "" || a[|a| - 1] == '/') ==> r == a + b
    ensures !StartsWith(b, "/") && a != "" && a[|a| - 1] != '/' ==> r == a + "/" + b
    ensures !StartsWith(b, "/") ==> StartsWith(r, a)
    ensures a == "" ==> r == b
  {
    if |b| > 0 && b[0] == '/' then b
    else if a == [] || a[|a| - 1] == '/' then a + b
    else a + "/" + b
  }

  /**
   * Path `p` lies in directory `dir` (or is `dir` itself) component-wise:
   * `p` extends `dir` and the extension begins at a separator, so `Week 10/a`
   * is not under `Week 1`. The empty path is the current directory, under
   * which every relative path lies.
   */
  predicate Under(p: string, dir: string) {
    p == dir
    || (StartsWith(p, dir) && (dir == "" || dir[|dir| - 1] == '/' || (|p| > |dir| && p[|dir|] == '/')))
  }

  /** Joining a separator-free component onto `a` yields a path under `a`. */
  lemma JoinUnder(a: string, b: string)
    requires '/' !in b
    ensures Under(PathJoin(a, b), a)
  {
    if a != "" && a[|a| - 1] != '/' {
      assert (a + "/" + b)[|a|] == '/';
    }
  }

  /** Being under a directory is transitive. */
  lemma UnderTrans(p: string, q: string, d: string)
    requires Under(p, q) && Under(q, d)
    ensures Under(p, d)
  {
    if p != q && q != d {
      assert p[..|d|] == p[..|q|][..|d|];
      if d != "" && d[|d| - 1] != '/' {
        assert p[|d|] == p[..|q|][|d|];
      }
    }
  }

  /** A prefix that stops inside a component is not a directory of the path. */
  lemma PrefixNotUnder()
    ensures StartsWith("Week 10/a", "Week 1") && !Under("Week 10/a", "Week 1")
  {
    assert "Week 10/a"[6] == '0';
  }

  /** `os.path.basename(p)`: what follows the last `/`. */
  function Basename(p: string): (r: string)
    ensures |r| <= |p| && r == p[|p| - |r|..]
    ensures forall k | 0 <= k < |r| :: r[k] != '/'
    ensures |r| < |p| ==> p[|p| - |r| - 1] == '/'
  {
    p[LastIndexOf(p, '/') + 1..]
  }

  /**
   * The final path component of `p` has an extension in the sense of
   * `splitext`: some `.` in it comes after a character that is not a dot
   * (so leading dots, as in `.bashrc`, do not start an extension).
   */
  ghost predicate HasExtension(p: string) {
    exists j, i | 0 <= j < i < |p| :: DotAfterName(p, j, i)
  }

  /** `p[i]` is a dot, `p[j]` is not, and no separator follows `j`: a `.` after a name character of the last component. */
  predicate DotAfterName(p: string, j: int, i: int)
    requires 0 <= j < i < |p|
  {
    p[i] == '.' && p[j] != '.' && '/' !in p[j..]
  }

  /** There is a non-dot character in `p[lo..hi]`. */
  predicate SomeNonDot(p: string, lo: int, hi: int)
    requires 0 <= lo <= hi <= |p|
  {
    exists k | lo <= k < hi :: p[k] != '.'
  }

  /**
   * `os.path.splitext(p)`: `(root, ext)` with `root + ext == p`; `ext` is empty
   * or runs from the last dot to the end, and is non-empty exactly when the
   * final component has an extension.
   */
  function SplitExt(p: string): (r: (string, string))
    ensures r.0 + r.1 == p
    ensures r.1 == "" || (r.1[0] == '.' && '.' !in r.1[1..] && '/' !in r.1)
    ensures r.1 != "" <==> HasExtension(p)
  {
    var sep := LastIndexOf(p, '/');
    var dot := LastIndexOf(p, '.');
    if dot > sep && SomeNonDot(p, sep + 1, dot) then
      SplitExtWitness(p, sep, dot);
      (p[..dot], p[dot..])
    else
      SplitExtNone(p, sep, dot);
      (p, "")
  }

  lemma SplitExtWitness(p: string, sep: int, dot: int)
    requires sep == LastIndexOf(p, '/') && dot == LastIndexOf(p, '.')
    requires dot > sep && SomeNonDot(p, sep + 1, dot)
    ensures HasExtension(p)
    ensures '.' !in p[dot + 1..] && '/' !in p[dot..]
  {
    var k :| sep + 1 <= k < dot && p[k] != '.';
    assert '/' !in p[k..] by {
      forall m | 0 <= m < |p[k..]| ensures p[k..][m] != '/' { assert p[k..][m] == p[k + m]; }
    }
    assert DotAfterName(p, k, dot);
    assert '.' !in p[dot + 1..] by {
      forall m | dot + 1 <= m < |p| ensures p[m] != '.' { }
    }
    assert '/' !in p[dot..] by {
      forall m | dot <= m < |p| ensures p[m] != '/' { }
    }
  }

  lemma SplitExtNone(p: string, sep: int, dot: int)
    requires sep == LastIndexOf(p, '/') && dot == LastIndexOf(p, '.')
    requires !(dot > sep && SomeNonDot(p, sep + 1, dot))
    ensures !HasExtension(p)
  {
  }

  /** A one-character name never has an extension (`splitext("a") == ("a", "")`, `splitext(".") == (".", "")`). */
  lemma SplitExtSingleChar(p: string)
    requires |p| == 1
    ensures SplitExt(p) == (p, "")
  {
    assert !HasExtension(p);
  }
}
