/**
  The POSIX path operations the resolver composes to place a dependency:
  `os.path.join` (two arguments), `os.path.dirname`, `os.path.basename`
  and `str.lstrip("/")`, following Python's `posixpath` definitions.
 */
module PosixPath {
  import opened Base

  /** `os.path.join(a, b)`: an absolute `b` replaces `a`; otherwise one `/` separates them. */
  function Join(a: Path, b: Path): Path {
    if |b| > 0 && b[0] == '/' then b
    else if a == [] || a[|a| - 1] == '/' then a + b
    else a + "/" + b
  }

  /** `p.rfind("/") + 1`: the index where the last component starts. */
  function SlashEnd(p: Path): (i: nat)
    ensures i <= |p|
    ensures i > 0 ==> p[i - 1] == '/'
    ensures '/' !in p[i..]
  {
    if p == [] then 0
    else if p[|p| - 1] == '/' then |p|
    else
      var i := SlashEnd(p[..|p| - 1]);
      assert p[i..] == p[..|p| - 1][i..] + [p[|p| - 1]];
      i
  }

  /** `os.path.basename(p)`. */
  function Basename(p: Path): Path {
    p[SlashEnd(p)..]
  }

  predicate AllSlashes(s: Path) {
    forall k :: 0 <= k < |s| ==> s[k] == '/'
  }

  /** `s.rstrip("/")`. */
  function RStripSlashes(s: Path): (r: Path)
    ensures |r| <= |s| && r == s[..|r|]
    ensures r == [] || r[|r| - 1] != '/'
    ensures AllSlashes(s[|r|..])
  {
    if s != [] && s[|s| - 1] == '/' then
      var r := RStripSlashes(s[..|s| - 1]);
      assert s[|r|..] == s[..|s| - 1][|r|..] + ['/'];
      r
    else s
  }

  /** The number of slashes `s` starts with. */
  function LeadingSlashes(s: Path): (n: nat)
    ensures n <= |s| && AllSlashes(s[..n])
    ensures n < |s| ==> s[n] != '/'
  {
    if s != [] && s[0] == '/' then
      var n := 1 + LeadingSlashes(s[1..]);
      assert forall k :: 1 <= k < n ==> s[..n][k] == s[1..][..n - 1][k - 1];
      n
    else 0
  }

  /** `s.lstrip("/")`. */
  function LStripSlashes(s: Path): Path {
    s[LeadingSlashes(s)..]
  }

  /** `os.path.dirname(p)`: the text up to the last `/`, with trailing slashes
      stripped unless it consists of slashes only. */
  function Dirname(p: Path): Path {
    var head := p[..SlashEnd(p)];
    if head != [] && !AllSlashes(head) then RStripSlashes(head) else head
  }

  /** No two adjacent slashes anywhere in the path. */
  predicate NoDoubleSlash(p: Path) {
    forall k :: 0 <= k < |p| - 1 ==> !(p[k] == '/' && p[k + 1] == '/')
  }

  lemma {:induction false} SlashEndNoSlash(x: Path, y: Path)
    requires '/' !in y
    ensures SlashEnd(x + y) == SlashEnd(x)
    decreases |y|
  {
    if y != [] {
      var xy := x + y;
      assert xy[..|xy| - 1] == x + y[..|y| - 1];
      assert y[|y| - 1] in y;
      SlashEndNoSlash(x, y[..|y| - 1]);
    } else {
      assert x + y == x;
    }
  }

  lemma {:induction false} SlashEndWithSlash(x: Path, y: Path)
    requires '/' in y
    ensures SlashEnd(x + y) == |x| + SlashEnd(y)
    decreases |y|
  {
    var xy := x + y;
    if y[|y| - 1] != '/' {
      assert xy[..|xy| - 1] == x + y[..|y| - 1];
      assert '/' in y[..|y| - 1] by {
        var k :| 0 <= k < |y| && y[k] == '/';
        assert y[..|y| - 1][k] == '/';
      }
      SlashEndWithSlash(x, y[..|y| - 1]);
    }
  }

  /** Joining a relative component keeps that component's basename. */
  lemma BasenameOfJoin(a: Path, b: Path)
    requires b == [] || b[0] != '/'
    ensures Basename(Join(a, b)) == Basename(b)
  {
    var sep := if a == [] || a[|a| - 1] == '/' then a else a + "/";
    assert Join(a, b) == sep + b;
    BasenameAfterSlash(sep, b);
  }

  /** Text that is empty or ends in a slash does not change the basename of what follows it. */
  lemma BasenameAfterSlash(sep: Path, b: Path)
    requires sep == [] || sep[|sep| - 1] == '/'
    ensures Basename(sep + b) == Basename(b)
  {
    if '/' in b {
      SlashEndWithSlash(sep, b);
      SuffixFrom(sep, b, SlashEnd(b));
    } else {
      SlashEndNoSlash(sep, b);
      SlashEndNoSlash([], b);
      assert [] + b == b;
      SuffixFrom(sep, b, 0);
    }
  }

  /** The tail of a concatenation that starts inside its second part. */
  lemma SuffixFrom(x: Path, y: Path, j: nat)
    requires j <= |y|
    ensures (x + y)[|x| + j..] == y[j..]
  {
  }

  /** Stripping leading slashes does not change the basename. */
  lemma BasenameOfLStrip(p: Path)
    ensures Basename(LStripSlashes(p)) == Basename(p)
  {
    var n := LeadingSlashes(p);
    var lead, r := p[..n], p[n..];
    assert p == lead + r;
    if '/' in r {
      SlashEndWithSlash(lead, r);
      var j := SlashEnd(r);
      assert p[n + j..] == r[j..];
    } else {
      SlashEndNoSlash(lead, r);
      assert SlashEnd(r) == 0;
      assert SlashEnd(lead) == n by {
        if n > 0 {
          assert lead[n - 1] == '/';
        }
      }
    }
  }

  /** `os.path.join(os.path.dirname(p), os.path.basename(p)) == p` for a path
      without doubled slashes. */
  lemma JoinDirnameBasename(p: Path)
    requires NoDoubleSlash(p)
    ensures Join(Dirname(p), Basename(p)) == p
  {
    var i := SlashEnd(p);
    if i > 0 {
      if AllSlashes(p[..i]) {
        RootDirname(p);
      } else {
        InnerDirname(p);
      }
    }
  }

  /** The last slash is the leading one: the directory is the root. */
  lemma RootDirname(p: Path)
    requires NoDoubleSlash(p)
    requires SlashEnd(p) > 0 && AllSlashes(p[..SlashEnd(p)])
    ensures Join(Dirname(p), Basename(p)) == p
  {
    var i := SlashEnd(p);
    assert forall j :: 0 <= j < i ==> p[j] == '/' by {
      forall j | 0 <= j < i
        ensures p[j] == '/'
      {
        assert p[..i][j] == p[j];
      }
    }
    NoSlashPairBefore(p, i);
    assert i == 1;
    assert Dirname(p) == "/";
    assert |p| <= 1 || !(p[0] == '/' && p[1] == '/');
    assert Join("/", p[1..]) == "/" + p[1..];
  }

  /** In a path without doubled slashes, the two characters before `i` are not both slashes. */
  lemma NoSlashPairBefore(p: Path, i: nat)
    requires NoDoubleSlash(p) && i <= |p|
    ensures i >= 2 ==> !(p[i - 2] == '/' && p[i - 1] == '/')
  {
  }

  /** The last slash follows a non-slash: the directory is the text before it. */
  lemma InnerDirname(p: Path)
    requires NoDoubleSlash(p)
    requires SlashEnd(p) > 0 && !AllSlashes(p[..SlashEnd(p)])
    ensures Join(Dirname(p), Basename(p)) == p
  {
    var i := SlashEnd(p);
    TextBeforeLastSlash(p);
    var d := p[..i - 1];
    assert Dirname(p) == d by {
      assert p[..i] == d + ['/'];
      StripOneSlash(d);
    }
    JoinAtSlash(p, i);
  }

  /** When not all of the text up to the last slash is slashes, a non-slash
      directly precedes that slash. */
  lemma TextBeforeLastSlash(p: Path)
    requires NoDoubleSlash(p)
    requires SlashEnd(p) > 0 && !AllSlashes(p[..SlashEnd(p)])
    ensures SlashEnd(p) >= 2 && p[SlashEnd(p) - 2] != '/'
  {
    var i := SlashEnd(p);
    var k :| 0 <= k < i && p[..i][k] != '/';
    NoSlashPairBefore(p, i);
  }

  /** One trailing slash after a non-slash is all `rstrip` removes. */
  lemma StripOneSlash(d: Path)
    requires d != [] && d[|d| - 1] != '/'
    ensures RStripSlashes(d + ['/']) == d
  {
    assert (d + ['/'])[..|d|] == d;
  }

  /** Cutting a path without doubled slashes at a slash and joining the two
      sides gives it back. */
  lemma JoinAtSlash(p: Path, i: nat)
    requires NoDoubleSlash(p)
    requires 2 <= i <= |p| && p[i - 1] == '/' && p[i - 2] != '/'
    ensures Join(p[..i - 1], p[i..]) == p
  {
    assert p[i..] == [] || p[i] != '/' by {
      if p[i..] != [] {
        assert p[i..][0] == p[i];
      }
    }
    assert p == p[..i - 1] + "/" + p[i..];
  }
}
