/** `DUP_MATCH_REGEX = /testing-worker-(\w+-\d+-\d+-\d+-\w+-\d+)-(\d+)/`,
    the pattern the duplicate finder reads worker host names with. Neither
    `\w` (`[A-Za-z0-9_]`) nor `\d` (`[0-9]`) matches `-`, so at a given
    start every `+` must take a whole run of its class up to the next dash,
    and the last group the whole run of digits: the match is found without
    backtracking by reading maximal runs. */
module DupMatch {
  import opened Wrappers
  import opened Strings

  /** The two captures of a match. */
  datatype Captures = Captures(group1: string, group2: string)

  predicate IsWord(c: char) {
    ('A' <= c <= 'Z') || ('a' <= c <= 'z') || ('0' <= c <= '9') || c == '_'
  }

  predicate IsDigit(c: char) {
    '0' <= c <= '9'
  }

  /** A character class of the pattern: `\w` when `word`, `\d` otherwise. */
  predicate InClass(c: char, word: bool) {
    if word then IsWord(c) else IsDigit(c)
  }

  predicate AllIn(t: string, word: bool) {
    forall k | 0 <= k < |t| :: InClass(t[k], word)
  }

  /** Every character of `s` from `from` to `to - 1` is in the class. */
  predicate AllInRange(s: string, from: nat, to: nat, word: bool)
    requires from <= to <= |s|
  {
    forall k | from <= k < to :: InClass(s[k], word)
  }

  /** `t` is written in `s` from index `j` on. */
  predicate Spells(s: string, j: nat, t: string) {
    j + |t| <= |s| && forall k | 0 <= k < |t| :: s[j + k] == t[k]
  }

  /** The literal part the pattern opens with. */
  const Prefix: string := "testing-" + "worker-"

  /** The classes of the six dash-separated parts of the first group. */
  const Group1Classes: seq<bool> := [true] + [false, false, false] + [true, false]

  /** Length of the run of class characters starting at `j`. */
  function Run(s: string, j: nat, word: bool): (n: nat)
    requires j <= |s|
    ensures j + n <= |s|
    decreases |s| - j
  {
    if j == |s| || !InClass(s[j], word) then 0 else 1 + Run(s, j + 1, word)
  }

  /** The run is made of class characters and cannot be extended. */
  lemma {:induction false} RunMaximal(s: string, j: nat, word: bool)
    requires j <= |s|
    ensures AllInRange(s, j, j + Run(s, j, word), word)
    ensures j + Run(s, j, word) == |s| || !InClass(s[j + Run(s, j, word)], word)
    decreases |s| - j
  {
    if j < |s| && InClass(s[j], word) {
      RunMaximal(s, j + 1, word);
    }
  }

  /** A concatenation is written where its two pieces are written one after the other. */
  lemma SpellsConcat(s: string, j: nat, a: string, b: string)
    ensures Spells(s, j, a + b) <==> Spells(s, j, a) && Spells(s, j + |a|, b)
  {
    if Spells(s, j, a) && Spells(s, j + |a|, b) {
      forall k | 0 <= k < |a + b|
        ensures s[j + k] == (a + b)[k]
      {
        if k >= |a| {
          assert s[j + |a| + (k - |a|)] == b[k - |a|];
        }
      }
    }
    if Spells(s, j, a + b) {
      forall k | 0 <= k < |a|
        ensures s[j + k] == a[k]
      {
        assert s[j + k] == (a + b)[k];
      }
      forall k | 0 <= k < |b|
        ensures s[j + |a| + k] == b[k]
      {
        assert s[j + (|a| + k)] == (a + b)[|a| + k];
      }
    }
  }

  /** Where a string of class characters is written, the range is all class characters. */
  lemma SpellsAllIn(s: string, j: nat, t: string, word: bool)
    requires Spells(s, j, t) && AllIn(t, word)
    ensures AllInRange(s, j, j + |t|, word)
  {
    forall k | j <= k < j + |t|
      ensures InClass(s[k], word)
    {
      assert s[j + (k - j)] == t[k - j];
    }
  }

  /** A run of class characters ended by a character outside the class (or
      by the end) is the maximal one. */
  lemma {:induction false} RunExact(s: string, j: nat, n: nat, word: bool)
    requires j + n <= |s|
    requires AllInRange(s, j, j + n, word)
    requires j + n == |s| || !InClass(s[j + n], word)
    ensures Run(s, j, word) == n
    decreases n
  {
    if n > 0 {
      RunExact(s, j + 1, n - 1, word);
    }
  }

  /** A run of class characters of length `n` at `j` is covered by the maximal run. */
  lemma {:induction false} RunAtLeast(s: string, j: nat, n: nat, word: bool)
    requires j + n <= |s|
    requires AllInRange(s, j, j + n, word)
    ensures Run(s, j, word) >= n
    decreases n
  {
    if n > 0 {
      RunAtLeast(s, j + 1, n - 1, word);
    }
  }

  /** Read one `class+-` part per class from `j`; the index after the last dash. */
  function ParseParts(s: string, j: nat, classes: seq<bool>): (r: Option<nat>)
    requires j <= |s|
    ensures r.Some? ==> j <= r.value <= |s|
    ensures r.Some? && classes != [] ==> j < r.value
    decreases |classes|
  {
    if classes == [] then Some(j)
    else
      var n := Run(s, j, classes[0]);
      if n > 0 && j + n < |s| && s[j + n] == '-' then ParseParts(s, j + n + 1, classes[1..])
      else None
  }

  /** The pattern tried at start `i`, its first group made of one part per
      class of `classes` (the pattern itself has `Group1Classes`). */
  function MatchAt(s: string, i: nat, classes: seq<bool>): (r: Option<Captures>)
    requires classes != []
  {
    if !OccursAt(s, Prefix, i) then None
    else
      match ParseParts(s, i + |Prefix|, classes)
      case None => None
      case Some(e) =>
        var n := Run(s, e, false);
        if n == 0 then None else Some(Captures(s[i + |Prefix|..e - 1], s[e..e + n]))
  }

  /** The first match at `i`, `i + 1`, ..., `|s|`: a regular expression
      search tries one start after the other. */
  function Search(s: string, i: nat, classes: seq<bool>): (r: Option<Captures>)
    requires classes != []
    decreases |s| + 1 - i
  {
    if i > |s| then None
    else if MatchAt(s, i, classes).Some? then MatchAt(s, i, classes)
    else Search(s, i + 1, classes)
  }

  /** `DUP_MATCH_REGEX.match(s)`: the leftmost match of the pattern. */
  function Match(s: string): Option<Captures> {
    Search(s, 0, Group1Classes)
  }

  /** Parts, each followed by a dash. */
  function Dashed(parts: seq<string>): (r: string)
    ensures parts != [] ==> |r| > 0 && r[|r| - 1] == '-'
  {
    if parts == [] then [] else parts[0] + "-" + Dashed(parts[1..])
  }

  /** The parts are non-empty runs of their classes. */
  predicate PartsShape(parts: seq<string>, classes: seq<bool>) {
    |parts| == |classes| && forall k | 0 <= k < |parts| :: |parts[k]| > 0 && AllIn(parts[k], classes[k])
  }

  lemma PartsShapeTail(parts: seq<string>, classes: seq<bool>)
    requires PartsShape(parts, classes) && parts != []
    ensures PartsShape(parts[1..], classes[1..])
  {
    forall k | 0 <= k < |parts| - 1
      ensures |parts[1..][k]| > 0 && AllIn(parts[1..][k], classes[1..][k])
    {
      assert parts[1..][k] == parts[k + 1];
    }
  }

  lemma PartsShapeCons(p: string, rest: seq<string>, classes: seq<bool>)
    requires classes != [] && |p| > 0 && AllIn(p, classes[0]) && PartsShape(rest, classes[1..])
    ensures PartsShape([p] + rest, classes)
  {
    forall k | 0 <= k < |rest| + 1
      ensures |([p] + rest)[k]| > 0 && AllIn(([p] + rest)[k], classes[k])
    {
      if k > 0 {
        assert ([p] + rest)[k] == rest[k - 1];
      }
    }
  }

  /** Whatever the parser reads is a sequence of parts of the right shape. */
  lemma {:induction false} ParsePartsSound(s: string, j: nat, classes: seq<bool>) returns (parts: seq<string>)
    requires j <= |s| && ParseParts(s, j, classes).Some?
    ensures PartsShape(parts, classes)
    ensures ParseParts(s, j, classes).value == j + |Dashed(parts)|
    ensures Spells(s, j, Dashed(parts))
    decreases |classes|
  {
    if classes == [] {
      parts := [];
    } else {
      var n := Run(s, j, classes[0]);
      RunMaximal(s, j, classes[0]);
      ParsePartsStep(s, j, classes, n);
      var rest := ParsePartsSound(s, j + n + 1, classes[1..]);
      var p := s[j..j + n];
      SliceSpells(s, j, n, classes[0]);
      PartsShapeCons(p, rest, classes);
      SpellsDashedCons(s, j, n, p, rest);
      parts := [p] + rest;
    }
  }

  /** The slice read at `j` is written there, and is of the class when the range is. */
  lemma SliceSpells(s: string, j: nat, n: nat, word: bool)
    requires j + n <= |s| && AllInRange(s, j, j + n, word)
    ensures Spells(s, j, s[j..j + n]) && AllIn(s[j..j + n], word) && |s[j..j + n]| == n
  {
  }

  /** A part, its dash, and the rest written after them spell the dashed parts. */
  lemma SpellsDashedCons(s: string, j: nat, n: nat, p: string, rest: seq<string>)
    requires Spells(s, j, p) && |p| == n && j + n < |s| && s[j + n] == '-'
    requires Spells(s, j + n + 1, Dashed(rest))
    ensures Spells(s, j, Dashed([p] + rest))
    ensures |Dashed([p] + rest)| == n + 1 + |Dashed(rest)|
  {
    assert ([p] + rest)[1..] == rest;
    assert Dashed([p] + rest) == p + ("-" + Dashed(rest));
    assert Spells(s, j + |p|, "-");
    SpellsConcat(s, j + |p|, "-", Dashed(rest));
    SpellsConcat(s, j, p, "-" + Dashed(rest));
  }

  /** One part read: the parser goes on after its dash. */
  lemma ParsePartsStep(s: string, j: nat, classes: seq<bool>, n: nat)
    requires classes != [] && j + n < |s|
    requires Run(s, j, classes[0]) == n && n > 0 && s[j + n] == '-'
    ensures ParseParts(s, j, classes) == ParseParts(s, j + n + 1, classes[1..])
  {
  }

  /** Dashed parts written at `j`: the first part, its dash, then the rest. */
  lemma SpellsDashedHead(s: string, j: nat, parts: seq<string>)
    requires parts != [] && Spells(s, j, Dashed(parts))
    ensures Spells(s, j, parts[0]) && j + |parts[0]| < |s| && s[j + |parts[0]|] == '-'
    ensures Spells(s, j + |parts[0]| + 1, Dashed(parts[1..]))
    ensures |Dashed(parts)| == |parts[0]| + 1 + |Dashed(parts[1..])|
  {
    var p := parts[0];
    var rest := Dashed(parts[1..]);
    assert Dashed(parts) == p + ("-" + rest);
    SpellsConcat(s, j, p, "-" + rest);
    SpellsConcat(s, j + |p|, "-", rest);
    assert s[j + |p| + 0] == "-"[0];
  }

  /** The first part of the right shape read: the parser goes on with the rest. */
  lemma ParsePartsHead(s: string, j: nat, classes: seq<bool>, parts: seq<string>)
    requires classes != [] && PartsShape(parts, classes)
    requires Spells(s, j, Dashed(parts))
    ensures j + |parts[0]| + 1 <= |s|
    ensures ParseParts(s, j, classes) == ParseParts(s, j + |parts[0]| + 1, classes[1..])
    ensures PartsShape(parts[1..], classes[1..]) && Spells(s, j + |parts[0]| + 1, Dashed(parts[1..]))
    ensures |Dashed(parts)| == |parts[0]| + 1 + |Dashed(parts[1..])|
  {
    var p := parts[0];
    SpellsDashedHead(s, j, parts);
    SpellsAllIn(s, j, p, classes[0]);
    RunExact(s, j, |p|, classes[0]);
    PartsShapeTail(parts, classes);
    ParsePartsStep(s, j, classes, |p|);
  }

  /** Parts of the right shape at `j` are read back whole. */
  lemma {:induction false} ParsePartsComplete(s: string, j: nat, classes: seq<bool>, parts: seq<string>)
    requires PartsShape(parts, classes)
    requires Spells(s, j, Dashed(parts))
    ensures ParseParts(s, j, classes) == Some(j + |Dashed(parts)|)
    decreases |classes|
  {
    if classes != [] {
      var next := j + |parts[0]| + 1;
      ParsePartsHead(s, j, classes, parts);
      ParsePartsComplete(s, next, classes[1..], parts[1..]);
      assert ParseParts(s, j, classes) == Some(next + |Dashed(parts[1..])|);
    } else {
      assert Dashed(parts) == [];
    }
  }

  /** What a match at `i` is made of. */
  lemma MatchAtSome(s: string, i: nat, classes: seq<bool>, c: Captures)
    requires classes != [] && MatchAt(s, i, classes) == Some(c)
    ensures OccursAt(s, Prefix, i) && ParseParts(s, i + |Prefix|, classes).Some?
    ensures var e := ParseParts(s, i + |Prefix|, classes).value;
      Run(s, e, false) > 0 && c == Captures(s[i + |Prefix|..e - 1], s[e..e + Run(s, e, false)])
  {
  }

  /** The pattern is written at `i` where the literal is. */
  lemma OccursSpells(s: string, p: string, i: nat)
    ensures OccursAt(s, p, i) <==> Spells(s, i, p)
  {
    if Spells(s, i, p) {
      assert s[i..i + |p|] == p by {
        forall k | 0 <= k < |p|
          ensures s[i..i + |p|][k] == p[k]
        {
          assert s[i + k] == p[k];
        }
      }
    }
  }

  /** The captures read off the text: the first group is the dashed parts
      without their last dash, the second the digits after it. */
  lemma CapturesOf(s: string, i: nat, parts: seq<string>, e: nat, n: nat, c: Captures)
    requires Spells(s, i, Prefix) && Spells(s, i + |Prefix|, Dashed(parts)) && parts != []
    requires e == i + |Prefix| + |Dashed(parts)| && e + n <= |s|
    requires AllInRange(s, e, e + n, false)
    requires c == Captures(s[i + |Prefix|..e - 1], s[e..e + n])
    ensures c.group1 + "-" == Dashed(parts)
    ensures AllIn(c.group2, false)
    ensures Spells(s, i, Prefix + Dashed(parts) + c.group2)
  {
    var j := i + |Prefix|;
    var d := Dashed(parts);
    assert c.group1 + "-" == d by {
      forall k | 0 <= k < |d|
        ensures (s[j..e - 1] + "-")[k] == d[k]
      {
        assert s[j + k] == d[k];
      }
    }
    assert Spells(s, e, c.group2);
    SpellsConcat(s, i, Prefix, d);
    SpellsConcat(s, i, Prefix + d, c.group2);
  }

  /** A match at `i` consists of the prefix, a first group of one part of
      the right class per class, a dash, and all the digits that follow. */
  lemma MatchAtSound(s: string, i: nat, classes: seq<bool>, c: Captures) returns (parts: seq<string>)
    requires classes != [] && MatchAt(s, i, classes) == Some(c)
    ensures var end := i + |Prefix| + |Dashed(parts)| + |c.group2|;
      && PartsShape(parts, classes)
      && c.group1 + "-" == Dashed(parts)
      && |c.group2| > 0 && AllIn(c.group2, false)
      && Spells(s, i, Prefix + Dashed(parts) + c.group2)
      && (end == |s| || !IsDigit(s[end]))
  {
    MatchAtSome(s, i, classes, c);
    var j := i + |Prefix|;
    var e := ParseParts(s, j, classes).value;
    var n := Run(s, e, false);
    parts := ParsePartsSound(s, j, classes);
    OccursSpells(s, Prefix, i);
    RunMaximal(s, e, false);
    CapturesOf(s, i, parts, e, n, c);
  }

  /** Wherever the prefix, parts of the right shape, and then digits stand,
      the pattern matches there, with the parts as the first group and at
      least those digits as the second. */
  lemma MatchAtComplete(s: string, i: nat, classes: seq<bool>, parts: seq<string>, digits: string)
    requires classes != [] && PartsShape(parts, classes)
    requires |digits| > 0 && AllIn(digits, false)
    requires Spells(s, i, Prefix + Dashed(parts) + digits)
    ensures MatchAt(s, i, classes).Some?
    ensures MatchAt(s, i, classes).value.group1 + "-" == Dashed(parts)
    ensures digits <= MatchAt(s, i, classes).value.group2
  {
    var j := i + |Prefix|;
    var d := Dashed(parts);
    var e := j + |d|;
    SpellsConcat(s, i, Prefix + d, digits);
    SpellsConcat(s, i, Prefix, d);
    OccursSpells(s, Prefix, i);
    ParsePartsComplete(s, j, classes, parts);
    SpellsAllIn(s, e, digits, false);
    RunAtLeast(s, e, |digits|, false);
    var n := Run(s, e, false);
    RunMaximal(s, e, false);
    MatchAtFound(s, i, classes, e, n);
    CapturesOf(s, i, parts, e, n, MatchAt(s, i, classes).value);
    DigitsPrefix(s, e, digits, n);
  }

  /** The digits written at `e` begin the run read there. */
  lemma DigitsPrefix(s: string, e: nat, digits: string, n: nat)
    requires Spells(s, e, digits) && |digits| <= n && e + n <= |s|
    ensures digits <= s[e..e + n]
  {
    forall k | 0 <= k < |digits|
      ensures s[e..e + n][k] == digits[k]
    {
      assert s[e + k] == digits[k];
    }
  }

  /** The match at `i` once its pieces are known. */
  lemma MatchAtFound(s: string, i: nat, classes: seq<bool>, e: nat, n: nat)
    requires classes != [] && OccursAt(s, Prefix, i) && ParseParts(s, i + |Prefix|, classes) == Some(e)
    requires Run(s, e, false) == n && n > 0
    ensures MatchAt(s, i, classes) == Some(Captures(s[i + |Prefix|..e - 1], s[e..e + n]))
  {
  }

  /** The search answers the match at the first start where there is one. */
  lemma {:induction false} SearchLeftmost(s: string, i: nat, classes: seq<bool>)
    requires classes != []
    ensures Search(s, i, classes).None? <==> forall k | i <= k <= |s| :: MatchAt(s, k, classes).None?
    ensures Search(s, i, classes).Some? ==> exists k | i <= k <= |s| ::
              Search(s, i, classes) == MatchAt(s, k, classes) && forall k' | i <= k' < k :: MatchAt(s, k', classes).None?
    decreases |s| + 1 - i
  {
    if i <= |s| && MatchAt(s, i, classes).None? {
      SearchLeftmost(s, i + 1, classes);
      if Search(s, i, classes).Some? {
        var k :| i + 1 <= k <= |s| && Search(s, i + 1, classes) == MatchAt(s, k, classes)
                 && forall k' | i + 1 <= k' < k :: MatchAt(s, k', classes).None?;
        assert forall k' | i <= k' < k :: MatchAt(s, k', classes).None?;
      }
    }
  }

  /** `Match` is the leftmost match of the pattern in the whole name. */
  lemma MatchLeftmost(s: string)
    ensures Match(s).None? <==> forall k | 0 <= k <= |s| :: MatchAt(s, k, Group1Classes).None?
    ensures Match(s).Some? ==> exists k | 0 <= k <= |s| ::
              Match(s) == MatchAt(s, k, Group1Classes) && forall k' | 0 <= k' < k :: MatchAt(s, k', Group1Classes).None?
  {
    SearchLeftmost(s, 0, Group1Classes);
  }
}
