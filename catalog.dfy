/** The list operations the drivers apply to their catalogs of templates and
    servers: `find_all`/`select`, `find`/`detect`, and "sort by a date field,
    newest first, then take `first`". */
module Catalog {
  import opened Wrappers
  import opened Strings

  /** `xs.find_all(&p)`: the elements satisfying `p`, in their order. */
  function Filter<T>(xs: seq<T>, p: T -> bool): (r: seq<T>)
    ensures |r| <= |xs|
    ensures forall x | x in r :: p(x)
    ensures forall x | x in xs && p(x) :: x in r
    ensures forall x | x in r :: x in xs
  {
    if xs == [] then []
    else if p(xs[0]) then [xs[0]] + Filter(xs[1..], p)
    else Filter(xs[1..], p)
  }

  /** A list whose every element satisfies `p` is kept whole, in order. */
  lemma {:induction false} FilterAll<T>(xs: seq<T>, p: T -> bool)
    requires forall i | 0 <= i < |xs| :: p(xs[i])
    ensures Filter(xs, p) == xs
  {
    if xs != [] {
      FilterAll(xs[1..], p);
      assert xs == [xs[0]] + xs[1..];
    }
  }

  /** Filtering by `p` and then by `q` is filtering by both. */
  lemma {:induction false} FilterFilter<T>(xs: seq<T>, p: T -> bool, q: T -> bool, pq: T -> bool)
    requires forall x :: pq(x) == (p(x) && q(x))
    ensures Filter(Filter(xs, p), q) == Filter(xs, pq)
  {
    if xs != [] {
      FilterFilter(xs[1..], p, q, pq);
      if p(xs[0]) {
        assert Filter(xs, p) == [xs[0]] + Filter(xs[1..], p);
        assert Filter(xs, p)[1..] == Filter(xs[1..], p);
      }
    }
  }

  /** `xs.find(&p)`: the first element satisfying `p`, or nil. */
  function Find<T(==)>(xs: seq<T>, p: T -> bool): (r: Option<T>)
    ensures r.None? <==> forall i | 0 <= i < |xs| :: !p(xs[i])
    ensures r.Some? ==> exists i | 0 <= i < |xs| :: xs[i] == r.value && p(xs[i]) &&
                          forall j | 0 <= j < i :: !p(xs[j])
  {
    if xs == [] then None
    else if p(xs[0]) then
      assert xs[0] == xs[0] && p(xs[0]);
      Some(xs[0])
    else
      var r := Find(xs[1..], p);
      if r.Some? then
        var i :| 0 <= i < |xs[1..]| && xs[1..][i] == r.value && p(xs[1..][i]) &&
                 forall j | 0 <= j < i :: !p(xs[1..][j]);
        assert xs[i + 1] == r.value && forall j | 0 <= j < i + 1 :: !p(xs[j]);
        r
      else r
  }

  /** `xs.sort { |a, b| key(b) <=> key(a) }.first`: an element with the
      greatest key. Ruby's sort is not stable, so among equal keys which
      one comes first is not determined; this picks one of them. */
  function Newest<T>(xs: seq<T>, key: T -> string): (r: Option<T>)
    ensures r.None? <==> xs == []
    ensures r.Some? ==> r.value in xs
    ensures r.Some? ==> forall x | x in xs :: LessEq(key(x), key(r.value))
  {
    if xs == [] then None
    else
      var rest := Newest(xs[1..], key);
      if rest.None? then
        assert xs == [xs[0]];
        Some(xs[0])
      else if Less(key(rest.value), key(xs[0])) then
        NewestStep(xs, key, rest.value);
        Some(xs[0])
      else
        LessEqTotal(key(rest.value), key(xs[0]));
        assert xs == [xs[0]] + xs[1..];
        Some(rest.value)
  }

  /** A first element with a greater key than the best of the rest is the
      best of all. */
  lemma NewestStep<T>(xs: seq<T>, key: T -> string, best: T)
    requires xs != []
    requires forall x | x in xs[1..] :: LessEq(key(x), key(best))
    requires Less(key(best), key(xs[0]))
    ensures forall x | x in xs :: LessEq(key(x), key(xs[0]))
  {
    forall x | x in xs
      ensures LessEq(key(x), key(xs[0]))
    {
      if x != xs[0] {
        assert x in xs[1..];
        if key(x) != key(best) {
          LessTransitive(key(x), key(best), key(xs[0]));
        }
      }
    }
  }
  /** Filtering a list grown by one element at the end: the element is kept
      exactly when it satisfies `p`. */
  lemma {:induction false} FilterSnoc<T>(xs: seq<T>, x: T, p: T -> bool)
    ensures Filter(xs + [x], p) == Filter(xs, p) + (if p(x) then [x] else [])
  {
    if xs == [] {
      assert [] + [x] == [x];
    } else {
      assert (xs + [x])[1..] == xs[1..] + [x];
      FilterSnoc(xs[1..], x, p);
    }
  }

  /** No two elements share a key (servers are told apart by their ids). */
  predicate UniqueKeys<T>(xs: seq<T>, key: T -> string) {
    forall i, j | 0 <= i < j < |xs| :: key(xs[i]) != key(xs[j])
  }

  /** With unique keys, an element's key is among the keys of the filtered
      list exactly when the element satisfies `p`. */
  lemma FilterKeys<T>(xs: seq<T>, p: T -> bool, key: T -> string, x: T)
    requires UniqueKeys(xs, key) && x in xs
    ensures (exists y | y in Filter(xs, p) :: key(y) == key(x)) <==> p(x)
  {
    if y :| y in Filter(xs, p) && key(y) == key(x) {
      var i :| 0 <= i < |xs| && xs[i] == y;
      var j :| 0 <= j < |xs| && xs[j] == x;
      assert i == j;
    }
    if p(x) {
      assert x in Filter(xs, p);
    }
  }

  /** `xs.map(&f)`: `f` of each element, in order. */
  function Map<T, U>(xs: seq<T>, f: T -> U): (r: seq<U>)
    ensures |r| == |xs|
    ensures forall i | 0 <= i < |xs| :: r[i] == f(xs[i])
  {
    if xs == [] then [] else [f(xs[0])] + Map(xs[1..], f)
  }

  /** Mapping a concatenation maps each part. */
  lemma MapConcat<T, U>(a: seq<T>, b: seq<T>, f: T -> U)
    ensures Map(a + b, f) == Map(a, f) + Map(b, f)
  {
    assert |Map(a + b, f)| == |Map(a, f) + Map(b, f)|;
    forall i | 0 <= i < |a + b|
      ensures Map(a + b, f)[i] == (Map(a, f) + Map(b, f))[i]
    {
      if i >= |a| {
        assert (a + b)[i] == b[i - |a|];
      }
    }
  }
}
