/**
 * The `os.path` (posixpath) functions the converters call, on `/`-separated
 * strings: `join` of two parts, `splitext`, `dirname`, `basename`, and
 * `relpath` for the paths a directory walk produces.
 */
module PyPath {
  import opened PyStr

  /** `s.rfind(c)`: the last index holding `c`, or -1. */
  function RFind(s: string, c: char): (r: int)
    ensures -1 <= r < |s|
    ensures r >= 0 ==> s[r] == c
    decreases |s|
  {
    if s == [] then -1
    else if s[|s| - 1] == c then |s| - 1
    else RFind(s[..|s| - 1], c)
  }

  /** No occurrence of `c` follows the one `rfind` returns. */
  lemma {:induction false} RFindLast(s: string, c: char)
    ensures forall k :: RFind(s, c) < k < |s| ==> s[k] != c
    decreases |s|
  {
    if s != [] && s[|s| - 1] != c {
      var init := s[..|s| - 1];
      RFindLast(init, c);
      forall k | RFind(s, c) < k < |s| ensures s[k] != c {
        if k < |s| - 1 {
          assert s[k] == init[k];
        }
      }
    }
  }

  /** A file name as a directory listing returns it: non-empty, no `/`. */
  predicate IsName(n: string) {
    n != [] && '/' !in n
  }

  /** `os.path.join(a, b)`: an absolute `b` replaces `a`; otherwise one `/`
      is put between them unless `a` is empty or already ends with `/`. */
  function Join(a: string, b: string): (r: string)
    ensures EndsWith(r, b)
  {
    if b != [] && b[0] == '/' then b
    else if a == [] || a[|a| - 1] == '/' then a + b
    else a + "/" + b
  }

  /** Whether some character of `p[lo..hi]` is not a dot. */
  predicate HasNonDot(p: string, lo: int, hi: int)
    requires 0 <= lo <= hi <= |p|
    decreases hi - lo
  {
    lo < hi && (p[lo] != '.' || HasNonDot(p, lo + 1, hi))
  }

  /** `HasNonDot` holds exactly when some character in the range is not a dot. */
  lemma {:induction false} HasNonDotAt(p: string, lo: int, hi: int)
    requires 0 <= lo <= hi <= |p|
    ensures HasNonDot(p, lo, hi) <==> exists k :: lo <= k < hi && p[k] != '.'
    decreases hi - lo
  {
    if lo < hi {
      HasNonDotAt(p, lo + 1, hi);
    }
  }

  /** `os.path.splitext(p)`: the extension starts at the last dot of the
      last component, unless everything before that dot in the component
      is dots (so `.caf` alone has no extension). */
  function SplitExt(p: string): (parts: (string, string))
    ensures parts.0 + parts.1 == p
  {
    var sepIndex := RFind(p, '/');
    var dotIndex := RFind(p, '.');
    if dotIndex > sepIndex && HasNonDot(p, sepIndex + 1, dotIndex) then
      (p[..dotIndex], p[dotIndex..])
    else
      (p, "")
  }

  /** The slashes `rstrip('/')` removes. */
  function RStripSlashes(s: string): (r: string)
    ensures |r| <= |s| && r == s[..|r|]
    decreases |s|
  {
    if s != [] && s[|s| - 1] == '/' then RStripSlashes(s[..|s| - 1]) else s
  }

  /** `os.path.basename(p)`: everything after the last `/`. */
  function BaseName(p: string): (r: string)
    ensures '/' !in r && EndsWith(p, r)
  {
    RFindLast(p, '/');
    p[RFind(p, '/') + 1..]
  }

  /** `os.path.dirname(p)`: everything up to the last `/`, with trailing
      slashes removed unless it is all slashes. */
  function DirName(p: string): (r: string)
    ensures StartsWith(p, r)
  {
    var head := p[..RFind(p, '/') + 1];
    if head != [] && exists k :: 0 <= k < |head| && head[k] != '/' then RStripSlashes(head) else head
  }

  /** `p` lies strictly below the directory `start`, written the way
      `os.walk(start)` writes the paths it yields: `start`, one separator
      (none if `start` already ends with one), then a relative remainder. */
  predicate Under(p: string, start: string) {
    && start != []
    && StartsWith(p, start)
    && if start[|start| - 1] == '/' then |p| > |start| && p[|start|] != '/'
       else |p| > |start| + 1 && p[|start|] == '/' && p[|start| + 1] != '/'
  }

  /** `os.path.relpath(p, start)` for the paths `os.walk(start)` yields
      below `start`. Those remainders hold no `.` or `..` component, which
      `relpath` would normalise and this function does not. */
  function RelPath(p: string, start: string): (r: string)
    requires Under(p, start)
    ensures r != [] && r[0] != '/'
  {
    if start[|start| - 1] == '/' then p[|start|..] else p[|start| + 1..]
  }

  /** Joining a directory with the path relative to it gives the path back. */
  lemma JoinRelPath(p: string, start: string)
    requires Under(p, start)
    ensures Join(start, RelPath(p, start)) == p
  {
    assert p == p[..|start|] + p[|start|..];
    if start[|start| - 1] != '/' {
      assert p[|start|..] == "/" + p[|start| + 1..];
    }
  }

  /** A relative remainder joined onto a directory lies below it, and
      `relpath` recovers the remainder. */
  lemma RelPathJoin(start: string, r: string)
    requires start != [] && r != [] && r[0] != '/'
    ensures Under(Join(start, r), start)
    ensures RelPath(Join(start, r), start) == r
  {
  }

  /** Joining a name onto a path below `start` stays below `start`. */
  lemma JoinUnder(root: string, start: string, n: string)
    requires Under(root, start) && IsName(n)
    ensures Under(Join(root, n), start)
  {
    var p := Join(root, n);
    assert p[..|root|] == root;
    assert p[..|start|] == root[..|start|];
  }

  /** A path and the path with a different remainder after the same
      directory differ; `Join` is injective in its second argument for
      relative remainders. */
  lemma JoinInjective(a: string, r1: string, r2: string)
    requires r1 != [] && r1[0] != '/' && r2 != [] && r2[0] != '/'
    requires Join(a, r1) == Join(a, r2)
    ensures r1 == r2
  {
    var k := if a == [] || a[|a| - 1] == '/' then |a| else |a| + 1;
    assert r1 == Join(a, r1)[k..];
  }

  /** `splitext` keeps the first character of a path and never returns an
      empty stem for a non-empty path. */
  lemma SplitExtStem(p: string)
    requires p != []
    ensures SplitExt(p).0 != [] && SplitExt(p).0[0] == p[0]
  {
    var sepIndex := RFind(p, '/');
    var dotIndex := RFind(p, '.');
    if dotIndex > sepIndex && HasNonDot(p, sepIndex + 1, dotIndex) {
      HasNonDotAt(p, sepIndex + 1, dotIndex);
      var k :| sepIndex + 1 <= k < dotIndex && p[k] != '.';
      assert dotIndex > 0;
    }
  }

  /** For a file named `<stem>.<ext>` whose stem is not only dots,
      `splitext` strips exactly the last `1 + |ext|` characters. */
  lemma SplitExtOfName(root: string, n: string, extLen: nat)
    requires IsName(n) && extLen < |n|
    requires n[|n| - extLen - 1] == '.'
    requires forall k :: |n| - extLen <= k < |n| ==> n[k] != '.'
    requires exists k :: 0 <= k < |n| - extLen - 1 && n[k] != '.'
    ensures var p := Join(root, n); SplitExt(p).0 == p[..|p| - extLen - 1]
  {
    SplitExtOfSuffix(Join(root, n), n, extLen);
  }

  /** The same for any path whose last component is such a name. */
  lemma SplitExtOfSuffix(p: string, n: string, extLen: nat)
    requires EndsWith(p, n)
    requires IsName(n) && extLen < |n|
    requires n[|n| - extLen - 1] == '.'
    requires forall k :: |n| - extLen <= k < |n| ==> n[k] != '.'
    requires exists k :: 0 <= k < |n| - extLen - 1 && n[k] != '.'
    ensures SplitExt(p).0 == p[..|p| - extLen - 1]
  {
    var off := |p| - |n|;
    var dot := |p| - extLen - 1;
    assert p[off..] == n;
    assert RFind(p, '.') == dot by {
      assert forall k :: dot < k < |p| ==> p[k] == n[k - off];
      RFindAt(p, '.', dot);
    }
    assert RFind(p, '/') < off by {
      assert forall k :: off <= k < |p| ==> p[k] == n[k - off];
      RFindBefore(p, '/', off);
    }
    assert HasNonDot(p, RFind(p, '/') + 1, dot) by {
      var j :| 0 <= j < |n| - extLen - 1 && n[j] != '.';
      assert p[off + j] == n[j];
      HasNonDotAt(p, RFind(p, '/') + 1, dot);
    }
  }

  /** When `c` does not occur from `lo` on, `rfind` lands before `lo`. */
  lemma RFindBefore(s: string, c: char, lo: int)
    requires 0 <= lo <= |s|
    requires forall k :: lo <= k < |s| ==> s[k] != c
    ensures RFind(s, c) < lo
  {
    RFindLast(s, c);
  }

  /** Text appended to a relative name is appended to the joined path. */
  lemma JoinAppend(a: string, b: string, t: string)
    requires b != [] && b[0] != '/'
    ensures Join(a, b + t) == Join(a, b) + t
  {
    assert (b + t)[0] == b[0];
    if a == [] || a[|a| - 1] == '/' {
      assert a + (b + t) == (a + b) + t;
    } else {
      assert a + "/" + (b + t) == (a + "/" + b) + t;
    }
  }

  /** `dirname` of a name joined onto a directory that does not end with a
      slash is that directory. */
  lemma DirNameJoin(d: string, n: string)
    requires IsName(n) && d != [] && d[|d| - 1] != '/'
    ensures DirName(Join(d, n)) == d
  {
    var p := Join(d, n);
    assert p == d + "/" + n;
    forall k | |d| < k < |p| ensures p[k] != '/' {
      assert p[k] == n[k - |d| - 1];
    }
    RFindAt(p, '/', |d|);
    var head := p[..|d| + 1];
    assert head == d + "/";
    assert head[|d| - 1] != '/';
    assert RStripSlashes(head) == RStripSlashes(d);
  }

  /** `basename` of a name joined onto a directory is the name. */
  lemma BaseNameJoin(d: string, n: string)
    requires IsName(n)
    ensures BaseName(Join(d, n)) == n
  {
    var p := Join(d, n);
    var off := |p| - |n|;
    assert p[off..] == n;
    forall k | off <= k < |p| ensures p[k] != '/' {
      assert p[k] == n[k - off];
    }
    assert off == 0 || p[off - 1] == '/';
  }

  /** `rfind` finds the occurrence after which there is none. */
  lemma RFindAt(s: string, c: char, i: int)
    requires 0 <= i < |s| && s[i] == c
    requires forall k :: i < k < |s| ==> s[k] != c
    ensures RFind(s, c) == i
  {
    RFindLast(s, c);
  }
}
