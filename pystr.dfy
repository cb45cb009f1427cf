/**
 * The parts of Python's `str` methods and of `os.path` (POSIX flavour) that the
 * application relies on: `strip()`, `endswith`, `split('.')[-1]`,
 * `os.path.splitext`, `os.path.basename` and `os.path.join`.
 * Strings are sequences of Unicode code points, as Python's are.
 */
module PyStr {

  /** Python's `str.isspace()` for one character: the characters `strip()`
      with no argument removes. */
  predicate IsSpace(c: char) {
    var n := c as int;
    (9 <= n <= 13) || (28 <= n <= 32) || n == 0x85 || n == 0xA0 || n == 0x1680
    || (0x2000 <= n <= 0x200A) || n == 0x2028 || n == 0x2029 || n == 0x202F
    || n == 0x205F || n == 0x3000
  }

  predicate AllSpace(s: string) {
    forall i :: 0 <= i < |s| ==> IsSpace(s[i])
  }

  predicate StartsWith(s: string, prefix: string) {
    |prefix| <= |s| && s[..|prefix|] == prefix
  }

  /** `s.endswith(suffix)`; comparison is exact, so it is case-sensitive. */
  predicate EndsWith(s: string, suffix: string) {
    |suffix| <= |s| && s[|s| - |suffix|..] == suffix
  }

  /** The index of the first character at or after `i` that is not white
      space, or |s|. */
  function SkipSpaces(s: string, i: nat): (n: nat)
    requires i <= |s|
    ensures i <= n <= |s|
    ensures forall k :: i <= k < n ==> IsSpace(s[k])
    ensures n < |s| ==> !IsSpace(s[n])
    decreases |s| - i
  {
    if i < |s| && IsSpace(s[i]) then SkipSpaces(s, i + 1) else i
  }

  /** Scanning down from `j` to `lo`: the end of the text once the white space
      before `j` is dropped. */
  function SkipSpacesBack(s: string, lo: nat, j: nat): (m: nat)
    requires lo <= j <= |s|
    ensures lo <= m <= j
    ensures forall k :: m <= k < j ==> IsSpace(s[k])
    ensures lo < m ==> !IsSpace(s[m - 1])
  {
    if lo < j && IsSpace(s[j - 1]) then SkipSpacesBack(s, lo, j - 1) else j
  }

  /** `s.strip()`: the part of `s` left once the white space at both ends is
      removed; it is empty exactly when `s` is all white space. */
  function Strip(s: string): (r: string)
    ensures r == [] <==> AllSpace(s)
    ensures r != [] ==> !IsSpace(r[0]) && !IsSpace(r[|r| - 1])
    ensures var lead := SkipSpaces(s, 0);
      && lead + |r| <= |s| && r == s[lead..lead + |r|]
      && (forall k :: 0 <= k < lead ==> IsSpace(s[k]))
      && (forall k :: lead + |r| <= k < |s| ==> IsSpace(s[k]))
  {
    var a := SkipSpaces(s, 0);
    var b := SkipSpacesBack(s, a, |s|);
    assert a < |s| ==> a < b;
    s[a..b]
  }

  /** Stripping a stripped string changes nothing. */
  lemma StripIdempotent(s: string)
    ensures Strip(Strip(s)) == Strip(s)
  {
    var r := Strip(s);
    if r != [] {
      assert SkipSpaces(r, 0) == 0;
      assert SkipSpacesBack(r, 0, |r|) == |r|;
      assert r[0..|r|] == r;
    }
  }

  /** `s.rfind(c)`: the index of the last occurrence of `c`, or -1. */
  function RFind(s: string, c: char): (i: int)
    ensures -1 <= i < |s|
    ensures i >= 0 ==> s[i] == c
  {
    if s == [] then -1
    else if s[|s| - 1] == c then |s| - 1
    else RFind(s[..|s| - 1], c)
  }

  /** `rfind` finds the occurrence after which `c` no longer occurs. */
  lemma {:induction false} RFindAt(s: string, c: char, i: nat)
    requires i < |s| && s[i] == c && Free(s[i + 1..], c)
    ensures RFind(s, c) == i
  {
    if i < |s| - 1 {
      assert s[|s| - 1] == s[i + 1..][|s| - i - 2];
      assert s[..|s| - 1][i + 1..] == s[i + 1..|s| - 1];
      RFindAt(s[..|s| - 1], c, i);
    }
  }

  /** `rfind` reports -1 when `c` does not occur. */
  lemma {:induction false} RFindAbsent(s: string, c: char)
    requires Free(s, c)
    ensures RFind(s, c) == -1
  {
    if s != [] {
      RFindAbsent(s[..|s| - 1], c);
    }
  }

  /** No occurrence of `c` follows the one `rfind` reports. */
  lemma {:induction false} RFindIsLast(s: string, c: char)
    ensures Free(s[RFind(s, c) + 1..], c)
  {
    if s != [] && s[|s| - 1] != c {
      var t := s[..|s| - 1];
      RFindIsLast(t, c);
      assert s[RFind(s, c) + 1..] == t[RFind(t, c) + 1..] + [s[|s| - 1]];
    }
  }

  /** Whether the character `c` does not occur in `s`. */
  predicate Free(s: string, c: char) {
    forall i :: 0 <= i < |s| ==> s[i] != c
  }

  /** A suffix of a suffix is a suffix. */
  lemma EndsWithTrans(s: string, longer: string, shorter: string)
    requires EndsWith(s, longer) && EndsWith(longer, shorter)
    ensures EndsWith(s, shorter)
  {
    assert s[|s| - |shorter|..] == s[|s| - |longer|..][|longer| - |shorter|..];
  }

  lemma EndsWithAppend(a: string, b: string)
    ensures EndsWith(a + b, b)
  {
    assert (a + b)[|a|..] == b;
  }

  lemma FreeAppend(a: string, b: string, c: char)
    requires Free(a, c) && Free(b, c)
    ensures Free(a + b, c)
  {
    forall i | 0 <= i < |a + b| ensures (a + b)[i] != c {
      if i >= |a| {
        assert (a + b)[i] == b[i - |a|];
      }
    }
  }

  /** What follows the last occurrence of `c` in `s`; all of `s` when `c`
      does not occur. */
  function AfterLast(s: string, c: char): (r: string)
    ensures EndsWith(s, r) && Free(r, c)
    ensures Free(s, c) ==> r == s
    ensures !Free(s, c) ==> EndsWith(s, [c] + r)
  {
    AfterRFind(s, c);
    s[RFind(s, c) + 1..]
  }

  lemma AfterRFind(s: string, c: char)
    ensures var i := RFind(s, c);
      && EndsWith(s, s[i + 1..])
      && Free(s[i + 1..], c)
      && (Free(s, c) ==> s[i + 1..] == s)
      && (!Free(s, c) ==> EndsWith(s, [c] + s[i + 1..]))
  {
    var i := RFind(s, c);
    var r := s[i + 1..];
    RFindIsLast(s, c);
    if !Free(s, c) {
      var j :| 0 <= j < |s| && s[j] == c;
      assert j <= i;
      assert s[i..] == [c] + r;
    }
  }

  /** `os.path.basename(p)`: what follows the last '/'. */
  function Basename(p: string): (r: string)
    ensures EndsWith(p, r) && Free(r, '/')
    ensures Free(p, '/') ==> r == p
    ensures !Free(p, '/') ==> EndsWith(p, "/" + r)
  {
    AfterLast(p, '/')
  }

  /** Whether `s` holds a character other than '.'. */
  predicate HasNonDot(s: string) {
    exists i :: 0 <= i < |s| && s[i] != '.'
  }

  /** `os.path.splitext(p)` (POSIX): the extension starts at the last '.' of
      the last path component, unless only dots precede it in that component
      (".bashrc" has no extension). Returns (root, ext). */
  function SplitExt(p: string): (r: (string, string))
    ensures r.0 + r.1 == p
    ensures r.1 == [] || (r.1[0] == '.' && Free(r.1[1..], '.') && Free(r.1, '/'))
  {
    var i := ExtensionStart(p);
    assert p[..i] + p[i..] == p;
    assert i < |p| ==> p[i..][1..] == p[i + 1..];
    (p[..i], p[i..])
  }

  /** Where `os.path.splitext` cuts `p`: at the last '.' when it lies in the
      last path component after some character other than '.', else at the
      end. */
  function ExtensionStart(p: string): (i: nat)
    ensures i <= |p|
    ensures i < |p| ==> p[i] == '.' && Free(p[i + 1..], '.') && Free(p[i..], '/')
  {
    var sep := RFind(p, '/');
    var dot := RFind(p, '.');
    if dot > sep && HasNonDot(p[sep + 1..dot]) then
      SplitAtDot(p);
      dot
    else
      |p|
  }

  /** A name without '/' that does not start with '.' and whose last '.' is
      at `n` splits there. */
  lemma SplitExtAt(p: string, n: nat)
    requires 0 < n < |p| && p[0] != '.' && p[n] == '.' && Free(p, '/')
    requires Free(p[n + 1..], '.')
    ensures SplitExt(p) == (p[..n], p[n..])
  {
    RFindAt(p, '.', n);
    RFindAbsent(p, '/');
    ExtensionStartAt(p, n);
  }

  lemma ExtensionStartAt(p: string, n: nat)
    requires 0 < n < |p| && RFind(p, '.') == n && RFind(p, '/') == -1 && p[0] != '.'
    ensures ExtensionStart(p) == n
  {
    assert p[0..n][0] != '.';
  }

  lemma SplitAtDot(p: string)
    requires RFind(p, '/') < RFind(p, '.')
    requires HasNonDot(p[RFind(p, '/') + 1..RFind(p, '.')])
    ensures var dot := RFind(p, '.');
      Free(p[dot + 1..], '.') && Free(p[dot..], '/')
  {
    var sep, dot := RFind(p, '/'), RFind(p, '.');
    var ext := p[dot..];
    RFindIsLast(p, '.');
    RFindIsLast(p, '/');
    forall k | 0 <= k < |ext| ensures ext[k] != '/' {
      if k > 0 {
        assert ext[k] == p[sep + 1..][dot + k - sep - 1];
      }
    }
  }

  /** `os.path.join(a, b)` (POSIX) for two components. */
  function Join(a: string, b: string): (r: string)
    ensures StartsWith(b, "/") ==> r == b
    ensures !StartsWith(b, "/") ==> EndsWith(r, b) && StartsWith(r, a)
    ensures !StartsWith(b, "/") && (a == [] || EndsWith(a, "/")) ==> r == a + b
    ensures !StartsWith(b, "/") && a != [] && !EndsWith(a, "/") ==> r == a + "/" + b
  {
    if StartsWith(b, "/") then b
    else if a == [] || EndsWith(a, "/") then a + b
    else a + "/" + b
  }

  /** Joining a directory with a plain file name puts the name after one '/',
      and `basename` gives the name back. */
  lemma JoinBasename(dir: string, name: string)
    requires dir != [] && dir[|dir| - 1] != '/' && Free(name, '/')
    ensures Join(dir, name) == dir + "/" + name
    ensures Basename(Join(dir, name)) == name
  {
    assert !StartsWith(name, "/") by {
      if name != [] {
        assert name[0] != '/';
      }
    }
    assert !EndsWith(dir, "/") by {
      assert dir[|dir| - 1..][0] == dir[|dir| - 1];
    }
    var full := dir + "/" + name;
    assert full[|dir|] == '/';
    assert full[|dir| + 1..] == name;
    RFindAt(full, '/', |dir|);
  }

  /** `s.split('.')[-1]`: the text after the last '.', or all of `s` when it
      has none. */
  function LastDotField(s: string): (r: string)
    ensures EndsWith(s, r) && Free(r, '.')
    ensures Free(s, '.') ==> r == s
    ensures !Free(s, '.') ==> EndsWith(s, "." + r)
  {
    AfterLast(s, '.')
  }
}
