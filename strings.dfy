/** The few Python `str` operations the core relies on: `split`, `join`,
    `startswith`, `strip`, `lower`, substring search, decimal formatting,
    code-point ordering and `os.path.basename`. Strings are sequences of
    characters; only the ASCII whitespace and ASCII letters are given the
    special meaning Python gives them. */
module Strings {
  import opened Wrappers

  /** The first position of `c` in `s`. */
  function IndexOf(s: string, c: char): (r: Option<nat>)
    ensures r.None? ==> c !in s
    ensures r.Some? ==> r.value < |s| && s[r.value] == c && c !in s[..r.value]
  {
    if s == [] then None
    else if s[0] == c then Some(0)
    else match IndexOf(s[1..], c)
      case None => None
      case Some(i) => assert s[..i + 1] == [s[0]] + s[1..][..i]; Some(i + 1)
  }

  /** Python's `s.split(sep, maxsplit)` for a one-character separator; a negative
      `maxsplit` (Python's default `-1`) splits at every separator. */
  function Split(s: string, sep: char, maxsplit: int): (parts: seq<string>)
    ensures |parts| >= 1
    ensures maxsplit >= 0 ==> |parts| <= maxsplit + 1
    ensures forall i :: 0 <= i < |parts| - 1 ==> sep !in parts[i]
    ensures maxsplit < 0 || |parts| < maxsplit + 1 ==> sep !in parts[|parts| - 1]
    decreases |s|
  {
    if maxsplit == 0 then [s]
    else match IndexOf(s, sep)
      case None => [s]
      case Some(i) => [s[..i]] + Split(s[i + 1..], sep, if maxsplit > 0 then maxsplit - 1 else maxsplit)
  }

  /** Python's `sep.join(parts)`. */
  function Join(parts: seq<string>, sep: string): string {
    if parts == [] then ""
    else if |parts| == 1 then parts[0]
    else parts[0] + sep + Join(parts[1..], sep)
  }

  /** Splitting and joining back with the same separator gives the original string. */
  lemma {:induction false} JoinSplit(s: string, sep: char, maxsplit: int)
    ensures Join(Split(s, sep, maxsplit), [sep]) == s
    decreases |s|
  {
    var idx := IndexOf(s, sep);
    if maxsplit != 0 && idx.Some? {
      var i := idx.value;
      var m := if maxsplit > 0 then maxsplit - 1 else maxsplit;
      var rest := Split(s[i + 1..], sep, m);
      JoinSplit(s[i + 1..], sep, m);
      JoinCons(s[..i], rest, [sep]);
      assert s == s[..i] + [sep] + s[i + 1..];
    }
  }

  /** The first separator of `a + rest` is the first one of `a`, or the one just
      after `a` when `a` has none and `rest` starts with one. */
  lemma IndexOfAppend(a: string, rest: string, c: char)
    ensures IndexOf(a, c).Some? ==> IndexOf(a + rest, c) == IndexOf(a, c)
    ensures IndexOf(a, c).None? && rest != [] && rest[0] == c ==> IndexOf(a + rest, c) == Some(|a|)
  {
    var s := a + rest;
    assert forall k :: 0 <= k < |a| ==> s[k] == a[k];
    if IndexOf(a, c).Some? {
      var i := IndexOf(a, c).value;
      assert s[i] == c;
      assert a[..i] == s[..i];
    } else if rest != [] && rest[0] == c {
      assert s[|a|] == c;
      assert s[..|a|] == a;
    }
  }

  /** Splitting at every separator distributes over a separator-joined concatenation. */
  lemma {:induction false} SplitConcat(a: string, b: string, sep: char)
    ensures Split(a + [sep] + b, sep, -1) == Split(a, sep, -1) + Split(b, sep, -1)
    decreases |a|
  {
    var s := a + [sep] + b;
    IndexOfAppend(a, [sep] + b, sep);
    assert s == a + ([sep] + b);
    match IndexOf(a, sep)
    case None =>
      assert s[|a| + 1..] == b;
      assert s[..|a|] == a;
    case Some(i) =>
      assert s[..i] == a[..i];
      assert s[i + 1..] == a[i + 1..] + [sep] + b;
      SplitConcat(a[i + 1..], b, sep);
  }

  /** Splitting at a separator that follows a separator-free prefix yields that
      prefix first, then the split of the rest with one split fewer. */
  lemma SplitAt(a: string, b: string, sep: char, maxsplit: int)
    requires sep !in a && maxsplit != 0
    ensures Split(a + [sep] + b, sep, maxsplit) == [a] + Split(b, sep, if maxsplit > 0 then maxsplit - 1 else maxsplit)
  {
    var s := a + [sep] + b;
    IndexOfAppend(a, [sep] + b, sep);
    assert s == a + ([sep] + b);
    assert s[..|a|] == a;
    assert s[|a| + 1..] == b;
  }

  lemma JoinCons(head: string, rest: seq<string>, sep: string)
    requires rest != []
    ensures Join([head] + rest, sep) == head + sep + Join(rest, sep)
  {
    assert ([head] + rest)[1..] == rest;
  }

  predicate StartsWith(s: string, prefix: string) {
    |prefix| <= |s| && s[..|prefix|] == prefix
  }

  // ---------------------------------------------------------------------
  // Whitespace and `strip`
  // ---------------------------------------------------------------------

  /** Python's `str.isspace` restricted to ASCII: space, \t, \n, \v, \f, \r and
      the four separators \x1c..\x1f. */
  predicate IsSpace(c: char) {
    c == ' ' || ('\t' <= c <= '\r') || ('\U{1C}' <= c <= '\U{1F}')
  }

  /** `s.strip()` is empty. */
  predicate IsBlank(s: string) {
    forall k :: 0 <= k < |s| ==> IsSpace(s[k])
  }

  /** The number of leading whitespace characters. */
  function LeadingSpace(s: string): (i: nat)
    ensures i <= |s|
    ensures forall k :: 0 <= k < i ==> IsSpace(s[k])
    ensures i == |s| || !IsSpace(s[i])
  {
    if s == [] || !IsSpace(s[0]) then 0 else 1 + LeadingSpace(s[1..])
  }

  /** The end of `s` once trailing whitespace is removed, never going below `lo`. */
  function TrailingSpaceStart(s: string, lo: nat): (j: nat)
    requires lo <= |s|
    ensures lo <= j <= |s|
    ensures forall k :: j <= k < |s| ==> IsSpace(s[k])
    ensures j == lo || !IsSpace(s[j - 1])
  {
    if |s| == lo || !IsSpace(s[|s| - 1]) then |s| else TrailingSpaceStart(s[..|s| - 1], lo)
  }

  /** Python's `s.strip()`: leading and trailing whitespace removed, nothing else. */
  function Strip(s: string): (r: string)
    ensures r == [] || (!IsSpace(r[0]) && !IsSpace(r[|r| - 1]))
    ensures r == [] <==> IsBlank(s)
    ensures exists i :: SliceAt(s, i, r)
  {
    var i := LeadingSpace(s);
    var j := TrailingSpaceStart(s, i);
    assert SliceAt(s, i, s[i..j]);
    assert i < j ==> s[i..j][0] == s[i];
    s[i..j]
  }

  // ---------------------------------------------------------------------
  // Case-insensitive search
  // ---------------------------------------------------------------------

  function LowerChar(c: char): char {
    if 'A' <= c <= 'Z' then (c as int + 32) as char else c
  }

  function Lower(s: string): (r: string)
    ensures |r| == |s| && forall k :: 0 <= k < |s| ==> r[k] == LowerChar(s[k])
  {
    seq(|s|, k requires 0 <= k < |s| => LowerChar(s[k]))
  }

  /** `part` occurs in `s` at position `i`. */
  predicate SliceAt(s: string, i: int, part: string) {
    0 <= i <= |s| - |part| && s[i..i + |part|] == part
  }

  /** `needle` occurs in `hay` as a contiguous substring. */
  predicate Contains(hay: string, needle: string) {
    exists i | 0 <= i <= |hay| - |needle| :: SliceAt(hay, i, needle)
  }

  /** `hay ILIKE '%needle%'` when `needle` holds no wildcard characters. */
  predicate ContainsIgnoringCase(hay: string, needle: string) {
    Contains(Lower(hay), Lower(needle))
  }

  // ---------------------------------------------------------------------
  // Decimal formatting and code-point ordering
  // ---------------------------------------------------------------------

  predicate IsDigit(c: char) { '0' <= c <= '9' }

  /** Python's `str(n)` (and `f"{n}"`) for a natural number. */
  function NatToString(n: nat): (r: string)
    ensures |r| >= 1 && forall k :: 0 <= k < |r| ==> IsDigit(r[k])
  {
    var d := ['0' + (n % 10) as char];
    if n < 10 then d else NatToString(n / 10) + d
  }

  /** Python's `a < b` on strings: code-point order, a proper prefix first. */
  predicate LexLess(a: string, b: string) {
    if a == [] then b != []
    else if b == [] then false
    else if a[0] != b[0] then a[0] < b[0]
    else LexLess(a[1..], b[1..])
  }

  lemma {:induction false} LexLessAsymmetric(a: string, b: string)
    ensures !(LexLess(a, b) && LexLess(b, a))
  {
    if a != [] && b != [] && a[0] == b[0] {
      LexLessAsymmetric(a[1..], b[1..]);
    }
  }

  // ---------------------------------------------------------------------
  // Paths
  // ---------------------------------------------------------------------

  /** `os.path.basename(p)`: everything after the last `/`. */
  function Basename(p: string): (r: string)
    ensures '/' !in r
    ensures |r| <= |p| && r == p[|p| - |r|..]
    ensures |r| < |p| ==> p[|p| - |r| - 1] == '/'
  {
    if p == [] || p[|p| - 1] == '/' then []
    else Basename(p[..|p| - 1]) + [p[|p| - 1]]
  }

  /** `os.path.join(a, b)` on POSIX for two parts. */
  function PathJoin(a: string, b: string): string {
    if b != [] && b[0] == '/' then b
    else if a == [] || a[|a| - 1] == '/' then a + b
    else a + "/" + b
  }

  /** A name without slashes joined under a directory is that path's basename. */
  lemma {:induction false} BasenameOfJoin(dir: string, name: string)
    requires name != [] && '/' !in name
    ensures Basename(PathJoin(dir, name)) == name
    decreases |name|
  {
    var p := PathJoin(dir, name);
    var pre := if dir == [] || dir[|dir| - 1] == '/' then dir else dir + "/";
    assert p == pre + name;
    assert pre == [] || pre[|pre| - 1] == '/';
    BasenameSuffix(pre, name);
  }

  lemma {:induction false} BasenameSuffix(pre: string, name: string)
    requires '/' !in name
    requires pre == [] || pre[|pre| - 1] == '/'
    ensures Basename(pre + name) == name
    decreases |name|
  {
    if name == [] {
      assert pre + name == pre;
    } else {
      var q := pre + name;
      var init, last := name[..|name| - 1], name[|name| - 1];
      assert last in name;
      assert q[|q| - 1] == last && q[..|q| - 1] == pre + init;
      assert Basename(q) == Basename(pre + init) + [last];
      BasenameSuffix(pre, init);
      assert init + [last] == name;
    }
  }
}
