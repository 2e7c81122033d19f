/** The loosely typed documents the tool reads from YAML and writes as JSON
    (chef-solo attribute documents, role files), and ActiveSupport's
    `Hash#deep_merge` over them. */
module Values {

  /** A YAML/JSON value. Hash keys are strings; key order is not modelled. */
  datatype Value =
    | Null
    | Bool(b: bool)
    | Int(i: int)
    | Str(s: string)
    | List(items: seq<Value>)
    | Object(fields: map<string, Value>)

  type Hash = map<string, Value>

  /** `a.deep_merge(b)`: every key of either side; where both sides hold a
      hash the two are merged recursively, otherwise the value of `b` wins. */
  function DeepMerge(a: Hash, b: Hash): (r: Hash)
    ensures r.Keys == a.Keys + b.Keys
    ensures forall k | k in r && k in a && k in b && a[k].Object? && b[k].Object? ::
      r[k].Object? && r[k].fields.Keys == a[k].fields.Keys + b[k].fields.Keys
    decreases Object(a)
  {
    map k | k in a.Keys + b.Keys ::
      if k in b then
        if k in a && a[k].Object? && b[k].Object? then Object(DeepMerge(a[k].fields, b[k].fields))
        else b[k]
      else a[k]
  }

  /** Both sides hash-valued at `k`: the merge recurses there. */
  predicate BothHashes(a: Hash, b: Hash, k: string) {
    k in a && k in b && a[k].Object? && b[k].Object?
  }

  /** What a deep merge holds at each key: the left value where the right has
      none, the right value on any conflict that is not hash against hash. */
  lemma DeepMergeAt(a: Hash, b: Hash, k: string)
    requires k in a || k in b
    ensures k in DeepMerge(a, b)
    ensures k !in b ==> DeepMerge(a, b)[k] == a[k]
    ensures k in b && !BothHashes(a, b, k) ==> DeepMerge(a, b)[k] == b[k]
    ensures BothHashes(a, b, k) ==>
      DeepMerge(a, b)[k] == Object(DeepMerge(a[k].fields, b[k].fields))
  {
  }

  /** Merging in nothing, or into nothing, changes nothing. */
  lemma DeepMergeEmpty(a: Hash)
    ensures DeepMerge(a, map[]) == a
    ensures DeepMerge(map[], a) == a
  {
  }

  /** Merging a document with itself gives it back, at every depth. */
  lemma {:induction false} DeepMergeIdempotent(a: Hash)
    ensures DeepMerge(a, a) == a
    decreases Object(a)
  {
    forall k | k in a
      ensures DeepMerge(a, a)[k] == a[k]
    {
      if a[k].Object? {
        DeepMergeIdempotent(a[k].fields);
      }
    }
  }

  /** Right-biased at every depth: every leaf of `b` survives. A key whose
      values in `b` and in the result are both given is the same, unless both
      sides were hashes, where `b`'s hash is contained in the result. */
  predicate Covers(r: Hash, b: Hash)
    decreases Object(b)
  {
    forall k | k in b ::
      k in r && (if b[k].Object? && r[k].Object? then Covers(r[k].fields, b[k].fields) else r[k] == b[k])
  }

  lemma {:induction false} CoversReflexive(b: Hash)
    ensures Covers(b, b)
    decreases Object(b)
  {
    forall k | k in b && b[k].Object?
      ensures Covers(b[k].fields, b[k].fields)
    {
      CoversReflexive(b[k].fields);
    }
  }

  lemma {:induction false} DeepMergeCoversRight(a: Hash, b: Hash)
    ensures Covers(DeepMerge(a, b), b)
    decreases Object(b)
  {
    var r := DeepMerge(a, b);
    forall k | k in b
      ensures k in r && (if b[k].Object? && r[k].Object? then Covers(r[k].fields, b[k].fields) else r[k] == b[k])
    {
      DeepMergeAt(a, b, k);
      if BothHashes(a, b, k) {
        DeepMergeCoversRight(a[k].fields, b[k].fields);
      } else if b[k].Object? {
        CoversReflexive(b[k].fields);
      }
    }
  }

  /** Worked example: `{a: 1, list: [x]}` merged with
      `{a: 2, list: [y]}`: the later scalar wins and the later list REPLACES
      the earlier one (deep_merge does not concatenate arrays). */
  lemma DeepMergeReplacesLists(x: Value, y: Value)
    ensures DeepMerge(map["a" := Int(1), "list" := List([x])], map["a" := Int(2), "list" := List([y])])
         == map["a" := Int(2), "list" := List([y])]
  {
  }
}
