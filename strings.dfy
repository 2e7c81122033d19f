/** String operations the Ruby source relies on: prefix and substring tests,
    the start-of-line anchor `^` of Ruby regular expressions, `Array#join`,
    `String#<=>`, `String#%` with a single `%{name}` key, `*` and `[0, n]`. */
module Strings {

  /** `s` contains `p` somewhere (an unanchored regular expression match of a
      pattern without metacharacters, as in `s =~ /#{p}/`). */
  predicate Contains(s: string, p: string) {
    exists i | 0 <= i <= |s| - |p| :: OccursAt(s, p, i)
  }

  /** `p` occurs in `s` starting at index `i`. */
  predicate OccursAt(s: string, p: string, i: int) {
    0 <= i <= |s| - |p| && s[i..i + |p|] == p
  }

  /** Index at which a line of `s` begins: the start of `s` or just after a
      newline (where Ruby's `^` matches). */
  predicate LineStart(s: string, i: int) {
    0 <= i <= |s| && (i == 0 || s[i - 1] == '\n')
  }

  /** `s =~ /^p/` for a pattern `p` without metacharacters: some line of `s`
      starts with `p`. */
  predicate LineStartsWith(s: string, p: string) {
    exists i | 0 <= i <= |s| :: LineStart(s, i) && p <= s[i..]
  }

  lemma PrefixLineStartsWith(s: string, p: string)
    requires p <= s
    ensures LineStartsWith(s, p)
  {
    assert LineStart(s, 0) && p <= s[0..];
  }

  /** A string without newlines has a single line, so `^` anchors at its start only. */
  lemma {:induction false} SingleLineAnchor(s: string, p: string)
    requires forall k | 0 <= k < |s| :: s[k] != '\n'
    ensures LineStartsWith(s, p) <==> p <= s
  {
    if LineStartsWith(s, p) {
      var i :| 0 <= i <= |s| && LineStart(s, i) && p <= s[i..];
      if i != 0 {
        assert false;
      }
      assert s[0..] == s;
    }
    if p <= s {
      PrefixLineStartsWith(s, p);
    }
  }

  /** A line that starts with `p + q` also starts with `p`. */
  lemma LineStartsWithLonger(s: string, p: string, q: string)
    requires LineStartsWith(s, p + q)
    ensures LineStartsWith(s, p)
  {
    var i :| 0 <= i <= |s| && LineStart(s, i) && p + q <= s[i..];
    assert (p + q)[..|p|] == p;
    assert p <= s[i..];
  }

  /** Regrouping a concatenation (stated once, so that longer proofs need
      not rediscover it). */
  lemma AppendAssoc<T>(x: seq<T>, y: seq<T>, z: seq<T>)
    ensures (x + y) + z == x + (y + z)
  {
  }

  /** Ruby's `Array#join(sep)` on strings. */
  function Join(parts: seq<string>, sep: string): (r: string)
    ensures parts == [] ==> r == []
    ensures |parts| == 1 ==> r == parts[0]
  {
    if |parts| == 0 then []
    else if |parts| == 1 then parts[0]
    else parts[0] + sep + Join(parts[1..], sep)
  }

  /** The length of a join: every part plus one separator between each two. */
  lemma {:induction false} JoinLength(parts: seq<string>, sep: string)
    requires |parts| > 0
    ensures |Join(parts, sep)| == SumLengths(parts) + (|parts| - 1) * |sep|
  {
    if |parts| > 1 {
      JoinLength(parts[1..], sep);
    }
  }

  function SumLengths(parts: seq<string>): nat {
    if parts == [] then 0 else |parts[0]| + SumLengths(parts[1..])
  }

  /** `c * n`: the string of `n` copies of `c`. */
  function Repeat(c: char, n: nat): (r: string)
    ensures |r| == n
    ensures forall k | 0 <= k < n :: r[k] == c
  {
    if n == 0 then [] else [c] + Repeat(c, n - 1)
  }

  /** `s[0, n]`: the first `n` characters, or all of `s` when it is shorter. */
  function Take(s: string, n: nat): (r: string)
    ensures r <= s
    ensures |r| == if |s| < n then |s| else n
  {
    if |s| < n then s else s[..n]
  }

  /** Ruby's `String#<=>` as "less than": lexicographic order on characters. */
  predicate Less(a: string, b: string)
    decreases |a|
  {
    if a == [] then b != []
    else if b == [] then false
    else if a[0] != b[0] then a[0] < b[0]
    else Less(a[1..], b[1..])
  }

  /** `a <=> b` is -1 or 0. */
  predicate LessEq(a: string, b: string) {
    a == b || Less(a, b)
  }

  lemma {:induction false} LessIrreflexive(a: string)
    ensures !Less(a, a)
  {
    if a != [] {
      LessIrreflexive(a[1..]);
    }
  }

  lemma {:induction false} LessAsymmetric(a: string, b: string)
    requires Less(a, b)
    ensures !Less(b, a)
  {
    if a != [] && b != [] && a[0] == b[0] {
      LessAsymmetric(a[1..], b[1..]);
    }
  }

  lemma {:induction false} LessTransitive(a: string, b: string, c: string)
    requires Less(a, b) && Less(b, c)
    ensures Less(a, c)
  {
    if a != [] && b != [] && c != [] && a[0] == b[0] && b[0] == c[0] {
      LessTransitive(a[1..], b[1..], c[1..]);
    }
  }

  /** Any two different strings are ordered one way or the other. */
  lemma {:induction false} LessTotal(a: string, b: string)
    requires a != b
    ensures Less(a, b) || Less(b, a)
  {
    if a != [] && b != [] && a[0] == b[0] {
      assert a == [a[0]] + a[1..] && b == [b[0]] + b[1..];
      LessTotal(a[1..], b[1..]);
    }
  }

  lemma LessEqTotal(a: string, b: string)
    ensures LessEq(a, b) || LessEq(b, a)
  {
    if a != b {
      LessTotal(a, b);
    }
  }

  lemma LessEqTransitive(a: string, b: string, c: string)
    requires LessEq(a, b) && LessEq(b, c)
    ensures LessEq(a, c)
  {
    if a != b && b != c {
      LessTransitive(a, b, c);
    }
  }

  lemma LessEqAntisymmetric(a: string, b: string)
    requires LessEq(a, b) && LessEq(b, a)
    ensures a == b
  {
    if a != b {
      LessAsymmetric(a, b);
    }
  }

  /** `s % { key: value }` for a template whose only format directive is
      `%{key}`: every occurrence of `pattern` becomes `value`. */
  function ReplaceAll(s: string, pattern: string, value: string): (r: string)
    requires |pattern| > 0
    decreases |s|
  {
    if |s| < |pattern| then s
    else if pattern <= s then value + ReplaceAll(s[|pattern|..], pattern, value)
    else [s[0]] + ReplaceAll(s[1..], pattern, value)
  }

  /** A template without the directive's first character is left as it is. */
  lemma {:induction false} ReplaceAllAbsent(s: string, pattern: string, value: string)
    requires |pattern| > 0 && pattern[0] !in s
    ensures ReplaceAll(s, pattern, value) == s
    decreases |s|
  {
    if |s| >= |pattern| {
      assert s[0] != pattern[0];
      ReplaceAllAbsent(s[1..], pattern, value);
      assert s == [s[0]] + s[1..];
    }
  }

  /** A template holding the directive once, with its first character nowhere
      else, has exactly that occurrence replaced. */
  lemma {:induction false} ReplaceAllSingle(before: string, pattern: string, after: string, value: string)
    requires |pattern| > 0 && pattern[0] !in before && pattern[0] !in after
    ensures ReplaceAll(before + pattern + after, pattern, value) == before + value + after
    decreases |before|
  {
    var s := before + pattern + after;
    assert |s| >= |pattern|;
    if before == [] {
      assert s == pattern + after;
      assert pattern <= s;
      assert s[|pattern|..] == after;
      ReplaceAllAbsent(after, pattern, value);
      assert ReplaceAll(s, pattern, value) == value + ReplaceAll(after, pattern, value);
    } else {
      assert s[0] == before[0];
      assert !(pattern <= s);
      var rest := s[1..];
      assert rest == before[1..] + pattern + after;
      ReplaceAllSingle(before[1..], pattern, after, value);
      assert ReplaceAll(s, pattern, value) == [s[0]] + ReplaceAll(rest, pattern, value);
      assert before == [before[0]] + before[1..];
    }
  }
}
