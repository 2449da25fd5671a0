/**
  The POSIX flavour of Python's `os.path` functions the backend calls:
  `splitext`, `basename` and `join`.
*/
module Paths {
  import opened Strings

  /** `s.rfind(c)`: the last index of `c` in `s`, or -1. */
  function RFind(s: string, c: char): (r: int)
    ensures -1 <= r < |s|
    ensures r == -1 ==> c !in s
    ensures r >= 0 ==> s[r] == c && c !in s[r + 1..]
    decreases |s|
  {
    if |s| == 0 then -1
    else if s[|s| - 1] == c then |s| - 1
    else
      assert s[..|s| - 1] + [s[|s| - 1]] == s;
      RFind(s[..|s| - 1], c)
  }

  predicate AllDots(s: string)
  {
    forall i :: 0 <= i < |s| ==> s[i] == '.'
  }

  /**
    `os.path.splitext(p)`: the extension starts at the last '.' of the last path
    component, unless only dots precede it in that component (".bashrc" and
    "..x" have no extension).
  */
  function SplitExt(p: string): (r: (string, string))
    ensures r.0 + r.1 == p
    ensures r.1 == "" || (r.1[0] == '.' && '.' !in r.1[1..] && '/' !in r.1)
  {
    var sep := RFind(p, '/');
    var dot := RFind(p, '.');
    if dot > sep && !AllDots(p[sep + 1..dot]) then
      SplitAtDot(p, sep, dot);
      (p[..dot], p[dot..])
    else (p, "")
  }

  lemma SplitAtDot(p: string, sep: int, dot: int)
    requires -1 <= sep < dot < |p|
    requires p[dot] == '.' && '.' !in p[dot + 1..] && '/' !in p[sep + 1..]
    ensures p[..dot] + p[dot..] == p
    ensures p[dot..][0] == '.' && '.' !in p[dot..][1..] && '/' !in p[dot..]
  {
    assert p[dot..][1..] == p[dot + 1..];
    NotInLaterSuffix(p, '/', sep + 1, dot);
  }

  /** A character absent from a suffix is absent from every shorter suffix. */
  lemma NotInLaterSuffix(s: string, c: char, i: nat, j: nat)
    requires i <= j <= |s| && c !in s[i..]
    ensures c !in s[j..]
  {
    forall k | j <= k < |s|
      ensures s[k] != c
    {
      assert s[k] == s[i..][k - i];
    }
  }

  /** The last occurrence is the one after which the character no longer appears. */
  lemma RFindIsLast(s: string, c: char, k: int)
    requires 0 <= k < |s| && s[k] == c && c !in s[k + 1..]
    ensures RFind(s, c) == k
  {
  }

  function Ext(p: string): string
  {
    SplitExt(p).1
  }

  /** `os.path.basename(p)`: what follows the last '/'. */
  function Basename(p: string): (r: string)
    ensures '/' !in r
    ensures |r| <= |p| && r == p[|p| - |r|..]
  {
    p[RFind(p, '/') + 1..]
  }

  /** `os.path.join(a, b)` on POSIX: an absolute `b` replaces `a`. */
  function PathJoin(a: string, b: string): string
  {
    if |b| > 0 && b[0] == '/' then b
    else if a == "" || a[|a| - 1] == '/' then a + b
    else a + "/" + b
  }

  /** A relative name joined to a directory keeps the name as its last component. */
  lemma PathJoinBasename(dir: string, name: string)
    requires '/' !in name && name != ""
    ensures Basename(PathJoin(dir, name)) == name
  {
    var j := PathJoin(dir, name);
    var n := |j| - |name|;
    assert j[n..] == name;
    if n == 0 {
      assert RFind(j, '/') == -1;
    } else {
      assert j[n - 1] == '/';
      assert j[n..] == name;
      RFindIsLast(j, '/', n - 1);
    }
  }

  /**
    For a plain file name (no '/', not starting with '.'), the lower-cased
    extension equals `e` exactly when the lower-cased name ends with `e`, for
    any `e` of the shape ".xyz" (one leading dot and no other).
  */
  lemma ExtOfPlainName(name: string, e: string)
    requires '/' !in name && |name| > 0 && name[0] != '.'
    requires |e| >= 1 && e[0] == '.' && '.' !in e[1..]
    ensures Lower(Ext(name)) == e <==> EndsWith(Lower(name), e)
  {
    if Lower(Ext(name)) == e {
      var ext := Ext(name);
      assert name[|name| - |ext|..] == ext;
      LowerSuffix(name, |name| - |ext|);
    }
    if |e| <= |name| && Lower(name)[|name| - |e|..] == e {
      ExtOfNameEndingIn(name, e);
    }
  }

  lemma ExtOfNameEndingIn(name: string, e: string)
    requires '/' !in name && |name| > 0 && name[0] != '.'
    requires |e| >= 1 && e[0] == '.' && '.' !in e[1..]
    requires |e| <= |name| && Lower(name)[|name| - |e|..] == e
    ensures Lower(Ext(name)) == e
  {
    var ln := Lower(name);
    var k := |name| - |e|;
    assert ln[k] == e[0];
    LowerCharPunctuation(name[k]);
    forall j | k < j < |name|
      ensures name[j] != '.'
    {
      LowerCharPunctuation(name[j]);
      assert ln[j] == e[j - k];
      assert e[j - k] == e[1..][j - k - 1];
    }
    assert '.' !in name[k + 1..];
    RFindIsLast(name, '.', k);
    assert RFind(name, '/') == -1;
    assert !AllDots(name[0..k]) by {
      assert name[0..k][0] == name[0];
    }
    assert Ext(name) == name[k..];
    LowerSuffix(name, k);
  }
}
