/** The parts of Python's `posixpath` the dataset tools rely on: `splitext`,
    `basename` and two-argument `join`. */
module Paths {

  /** `s.rfind(c)`: the index of the last `c` in `s`, or -1. */
  function RFind(s: string, c: char): (r: int)
    ensures -1 <= r < |s|
    ensures r >= 0 ==> s[r] == c
  {
    if s == [] then -1
    else if s[|s| - 1] == c then |s| - 1
    else RFind(s[..|s| - 1], c)
  }

  /** No `c` follows the one `rfind` finds, and -1 means there is none. */
  lemma {:induction false} RFindLast(s: string, c: char)
    ensures forall k :: RFind(s, c) < k < |s| ==> s[k] != c
    ensures RFind(s, c) == -1 <==> c !in s
  {
    if s != [] && s[|s| - 1] != c {
      RFindLast(s[..|s| - 1], c);
      assert s == s[..|s| - 1] + [s[|s| - 1]];
    }
  }

  /** Nothing after the last `c` is a `c`. */
  lemma NotInSuffix(s: string, i: int, c: char)
    requires -1 <= i < |s|
    requires forall k :: i < k < |s| ==> s[k] != c
    ensures c !in s[i + 1..]
  {
    var t := s[i + 1..];
    forall j | 0 <= j < |t| ensures t[j] != c {
      assert t[j] == s[i + 1 + j];
    }
  }

  /** Some character of `s[lo..hi]` is not a dot. */
  predicate HasNonDot(s: string, lo: int, hi: int)
    requires 0 <= lo <= hi <= |s|
  {
    exists k :: lo <= k < hi && s[k] != '.'
  }

  /** `posixpath.splitext(p)`: the extension runs from the last dot to the end,
      provided that dot lies in the last path component and that component has
      a character other than a dot before it; otherwise there is no extension. */
  function Splitext(p: string): (r: (string, string))
    ensures r.0 + r.1 == p
  {
    var sep := RFind(p, '/');
    var dot := RFind(p, '.');
    if dot > sep && HasNonDot(p, sep + 1, dot) then
      (p[..dot], p[dot..])
    else (p, [])
  }

  /** `posixpath.basename(p)`: what follows the last slash. */
  function Basename(p: string): (r: string)
    ensures '/' !in r
    ensures EndsWithSeq(p, r)
  {
    var i := RFind(p, '/');
    RFindLast(p, '/');
    NotInSuffix(p, i, '/');
    p[i + 1..]
  }

  predicate EndsWithSeq(s: string, suffix: string)
  {
    |suffix| <= |s| && s[|s| - |suffix|..] == suffix
  }

  /** `posixpath.join(a, b)`: `b` itself when it is absolute, otherwise `b`
      appended to `a` with one slash between them. */
  function JoinPath(a: string, b: string): (r: string)
    ensures |b| > 0 && b[0] != '/' ==> r == JoinPrefix(a) + b
  {
    if |b| > 0 && b[0] == '/' then b
    else if a == [] || a[|a| - 1] == '/' then a + b
    else a + "/" + b
  }

  /** What `join(a, ·)` puts in front of a relative name: empty or ending in a slash. */
  function JoinPrefix(a: string): (r: string)
    ensures r == [] || r[|r| - 1] == '/'
  {
    if a == [] || a[|a| - 1] == '/' then a else a + "/"
  }

  /** Joining a relative name and then extending it is joining the extended name. */
  lemma JoinExtend(dir: string, name: string, ext: string)
    requires name != [] && name[0] != '/'
    ensures JoinPath(dir, name) + ext == JoinPath(dir, name + ext)
  {
    var pre := JoinPrefix(dir);
    assert (name + ext)[0] == name[0];
    assert (pre + name) + ext == pre + (name + ext);
  }

  lemma {:induction false} RFindAppend(pre: string, name: string, c: char)
    ensures RFind(pre + name, c) == if RFind(name, c) >= 0 then |pre| + RFind(name, c) else RFind(pre, c)
    decreases |name|
  {
    if name != [] {
      var s := pre + name;
      var last := name[|name| - 1];
      if last != c {
        assert s[..|s| - 1] == pre + name[..|name| - 1];
        RFindAppend(pre, name[..|name| - 1], c);
      }
    } else {
      assert pre + name == pre;
    }
  }

  /** In `pre + name` with `pre` empty or ending in a slash and `name` free of
      slashes, the last slash is the end of `pre`. */
  lemma SepOfPrefixed(pre: string, name: string)
    requires pre == [] || pre[|pre| - 1] == '/'
    requires '/' !in name
    ensures RFind(pre + name, '/') == |pre| - 1
  {
    RFindLast(name, '/');
    RFindAppend(pre, name, '/');
  }

  /** `HasNonDot` does not see a prefix put in front. */
  lemma HasNonDotShift(pre: string, name: string, d: int)
    requires 0 <= d <= |name|
    ensures HasNonDot(pre + name, |pre|, |pre| + d) == HasNonDot(name, 0, d)
  {
    var p := pre + name;
    if HasNonDot(p, |pre|, |pre| + d) {
      var k :| |pre| <= k < |pre| + d && p[k] != '.';
      assert name[k - |pre|] == p[k];
    }
    if HasNonDot(name, 0, d) {
      var k :| 0 <= k < d && name[k] != '.';
      assert p[k + |pre|] == name[k];
    }
  }

  /** `splitext` of a slash-free name placed after such a prefix. */
  lemma SplitextPrefixed(pre: string, name: string)
    requires pre == [] || pre[|pre| - 1] == '/'
    requires '/' !in name
    ensures Splitext(pre + name) == (pre + Splitext(name).0, Splitext(name).1)
  {
    var p := pre + name;
    SepOfPrefixed(pre, name);
    SepOfPrefixed([], name);
    assert [] + name == name;
    RFindAppend(pre, name, '.');
    var d := RFind(name, '.');
    if d >= 0 {
      HasNonDotShift(pre, name, d);
      assert p[..|pre| + d] == pre + name[..d];
      assert p[|pre| + d..] == name[d..];
    } else {
      assert RFind(p, '.') == RFind(pre, '.');
    }
  }

  /** The extension of a name inside a directory is the name's own extension:
      `splitext(join(d, n)) == (join(d, splitext(n)[0]), splitext(n)[1])`. */
  lemma SplitextJoin(dir: string, name: string)
    requires name != [] && '/' !in name
    ensures Splitext(JoinPath(dir, name)) == (JoinPath(dir, Splitext(name).0), Splitext(name).1)
  {
    var pre := JoinPrefix(dir);
    SplitextPrefixed(pre, name);
    SplitextRoot(name);
  }

  /** The root `splitext` leaves of a non-empty path starts with the path's
      first character: an extension needs something other than dots before it. */
  lemma SplitextRoot(p: string)
    requires p != []
    ensures Splitext(p).0 != [] && Splitext(p).0[0] == p[0]
  {
    var sep := RFind(p, '/');
    var dot := RFind(p, '.');
    if dot > sep && HasNonDot(p, sep + 1, dot) {
      assert dot > 0;
    }
  }

  /** Putting an extension `e` on a path whose last component has a character
      other than a dot gives back that path and `e`. */
  lemma SplitextWithExt(x: string, e: string)
    requires |e| >= 1 && e[0] == '.' && '.' !in e[1..] && '/' !in e
    requires exists k :: RFind(x, '/') < k < |x| && x[k] != '.'
    ensures Splitext(x + e) == (x, e)
  {
    var p := x + e;
    RFindLast(e, '/');
    RFindAppend(x, e, '/');
    RFindLast(e[1..], '.');
    RFindAppend([e[0]], e[1..], '.');
    assert [e[0]] + e[1..] == e;
    RFindAppend(x, e, '.');
    var sep := RFind(p, '/');
    var dot := RFind(p, '.');
    assert dot == |x|;
    var k :| RFind(x, '/') < k < |x| && x[k] != '.';
    assert p[k] == x[k];
    assert HasNonDot(p, sep + 1, dot);
    assert p[..dot] == x;
    assert p[dot..] == e;
  }
}
