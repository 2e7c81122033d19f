/** `duplicates`: worker servers that share capture 1 of the duplicate
    pattern are copies of one worker; within each group of two or more,
    ordered by capture 2, every server but the last is the duplicate to
    report or destroy. */
module Duplicates {
  import opened Wrappers
  import opened Strings
  import DupMatch
  import opened CliServers

  /** The `group_by` key: capture 1 of the pattern in the host name, or nil. */
  function Key(vm: Vm): (r: Option<string>)
    ensures r.Some? <==> vm.hostname.Some? && DupMatch.Match(vm.hostname.value).Some?
  {
    if vm.hostname.None? then None
    else match DupMatch.Match(vm.hostname.value)
      case None => None
      case Some(c) => Some(c.group1)
  }

  /** Capture 2, what a group is sorted by; only matched servers are ever
      compared, and an unmatched one ranks as the empty string. */
  function Rank(vm: Vm): string {
    if vm.hostname.None? then []
    else match DupMatch.Match(vm.hostname.value)
      case None => []
      case Some(c) => c.group2
  }

  /** The distinct keys, in the order they first appear (the key order of
      the hash `group_by` builds). */
  function KeysOf<T(!new), K(==,!new)>(xs: seq<T>, key: T -> K): (r: seq<K>)
    ensures |r| <= |xs|
  {
    if xs == [] then []
    else
      var ks := KeysOf(xs[..|xs| - 1], key);
      var k := key(xs[|xs| - 1]);
      if k in ks then ks else ks + [k]
  }

  /** Each key is listed once. */
  lemma {:induction false} KeysOfDistinct<T(!new), K(!new)>(xs: seq<T>, key: T -> K)
    ensures forall i, j | 0 <= i < j < |KeysOf(xs, key)| :: KeysOf(xs, key)[i] != KeysOf(xs, key)[j]
  {
    if xs != [] {
      KeysOfDistinct(xs[..|xs| - 1], key);
    }
  }

  /** The keys listed are exactly the keys of the elements. */
  lemma {:induction false} KeysOfMembers<T(!new), K(!new)>(xs: seq<T>, key: T -> K, k: K)
    ensures k in KeysOf(xs, key) <==> exists v | v in xs :: key(v) == k
  {
    if xs != [] {
      var init := xs[..|xs| - 1];
      KeysOfMembers(init, key, k);
      assert forall v | v in xs :: v in init || v == xs[|xs| - 1];
      assert forall v | v in init :: v in xs;
    }
  }

  /** The elements of one key, in list order (a value of the `group_by` hash). */
  function GroupOf<T(!new), K(==)>(xs: seq<T>, key: T -> K, k: K): (r: seq<T>)
    ensures |r| <= |xs|
  {
    if xs == [] then []
    else
      var g := GroupOf(xs[..|xs| - 1], key, k);
      if key(xs[|xs| - 1]) == k then g + [xs[|xs| - 1]] else g
  }

  /** A group holds exactly the elements of its key. */
  lemma {:induction false} GroupOfMembers<T(!new), K>(xs: seq<T>, key: T -> K, k: K, v: T)
    ensures v in GroupOf(xs, key, k) <==> v in xs && key(v) == k
  {
    if xs != [] {
      var init := xs[..|xs| - 1];
      GroupOfMembers(init, key, k, v);
      assert v in xs <==> v in init || v == xs[|xs| - 1];
    }
  }

  /** Put in order by the rank. */
  predicate SortedBy<T>(xs: seq<T>, rank: T -> string) {
    forall i, j | 0 <= i < j < |xs| :: LessEq(rank(xs[i]), rank(xs[j]))
  }

  /** `v` put before the first element of higher rank. */
  function Insert<T>(v: T, xs: seq<T>, rank: T -> string): seq<T> {
    if xs == [] then [v]
    else if LessEq(rank(v), rank(xs[0])) then [v] + xs
    else [xs[0]] + Insert(v, xs[1..], rank)
  }

  /** Inserting into a sorted list keeps it sorted and adds exactly `v`. */
  lemma {:induction false} InsertSorted<T>(v: T, xs: seq<T>, rank: T -> string)
    requires SortedBy(xs, rank)
    ensures multiset(Insert(v, xs, rank)) == multiset(xs) + multiset{v}
    ensures SortedBy(Insert(v, xs, rank), rank)
  {
    if xs != [] {
      if LessEq(rank(v), rank(xs[0])) {
        InsertFront(v, xs, rank);
      } else {
        assert SortedBy(xs[1..], rank);
        InsertSorted(v, xs[1..], rank);
        var rest := Insert(v, xs[1..], rank);
        assert xs == [xs[0]] + xs[1..];
        LessEqTotal(rank(v), rank(xs[0]));
        InsertBehind(xs[0], rest, v, xs[1..], rank);
      }
    }
  }

  lemma InsertFront<T>(v: T, xs: seq<T>, rank: T -> string)
    requires SortedBy(xs, rank) && xs != [] && LessEq(rank(v), rank(xs[0]))
    ensures SortedBy([v] + xs, rank)
  {
    forall i, j | 0 <= i < j < |xs| + 1
      ensures LessEq(rank(([v] + xs)[i]), rank(([v] + xs)[j]))
    {
      if i == 0 && j > 1 {
        LessEqTransitive(rank(v), rank(xs[0]), rank(xs[j - 1]));
      }
    }
  }

  lemma InsertBehind<T>(x: T, rest: seq<T>, v: T, tail: seq<T>, rank: T -> string)
    requires SortedBy(rest, rank) && SortedBy([x] + tail, rank)
    requires multiset(rest) == multiset(tail) + multiset{v}
    requires LessEq(rank(x), rank(v))
    ensures SortedBy([x] + rest, rank)
  {
    forall j | 0 <= j < |rest|
      ensures LessEq(rank(x), rank(rest[j]))
    {
      assert rest[j] in multiset(rest);
      if rest[j] != v {
        assert rest[j] in multiset(tail);
        var t :| 0 <= t < |tail| && tail[t] == rest[j];
        var xt := [x] + tail;
        assert xt[0] == x && xt[t + 1] == rest[j];
        assert LessEq(rank(xt[0]), rank(xt[t + 1]));
      }
    }
    forall i, j | 0 <= i < j < |rest| + 1
      ensures LessEq(rank(([x] + rest)[i]), rank(([x] + rest)[j]))
    {
      if i > 0 {
        assert ([x] + rest)[i] == rest[i - 1] && ([x] + rest)[j] == rest[j - 1];
      } else {
        assert ([x] + rest)[j] == rest[j - 1];
      }
    }
  }

  /** `sort!` with a comparison of ranks, as an insertion sort. Ruby's
      sort is not stable; among elements of equal rank this takes one order
      of them. */
  function SortBy<T>(xs: seq<T>, rank: T -> string): seq<T> {
    if xs == [] then [] else Insert(xs[0], SortBy(xs[1..], rank), rank)
  }

  /** The sorted list is in rank order and holds the same elements. */
  lemma {:induction false} SortByCorrect<T>(xs: seq<T>, rank: T -> string)
    ensures SortedBy(SortBy(xs, rank), rank)
    ensures multiset(SortBy(xs, rank)) == multiset(xs)
  {
    if xs != [] {
      SortByCorrect(xs[1..], rank);
      InsertSorted(xs[0], SortBy(xs[1..], rank), rank);
      assert xs == [xs[0]] + xs[1..];
    }
  }

  /** `v[0...-1]` of a group that `delete(nil)` and `delete_if { v.size < 2 }`
      kept, after sorting, and nothing for a group they removed. */
  function ActedFor(xs: seq<Vm>, k: Option<string>): seq<Vm> {
    ActedOfGroup(GroupOf(xs, Key, k), k)
  }

  /** The same for the group itself. */
  function ActedOfGroup(g: seq<Vm>, k: Option<string>): seq<Vm> {
    if k.Some? && |g| >= 2 then
      var v := SortBy(g, Rank);
      v[..|v| - 1]
    else []
  }

  /** The servers acted upon for the given keys, read from the hash. */
  function ActedOverGroups(keys: seq<Option<string>>, groups: map<Option<string>, seq<Vm>>): seq<Vm> {
    if keys == [] then []
    else
      var k := keys[|keys| - 1];
      ActedOverGroups(keys[..|keys| - 1], groups) + (if k in groups then ActedOfGroup(groups[k], k) else [])
  }

  /** Reading the groups from the hash `group_by` built is reading them
      from the server list. */
  lemma {:induction false} ActedOverGroupsIsActed(xs: seq<Vm>, keys: seq<Option<string>>, groups: map<Option<string>, seq<Vm>>)
    requires forall k | k in keys :: k in groups && groups[k] == GroupOf(xs, Key, k)
    ensures ActedOverGroups(keys, groups) == ActedOver(xs, keys)
  {
    if keys != [] {
      ActedOverGroupsIsActed(xs, keys[..|keys| - 1], groups);
    }
  }

  /** One more key of the hash visited. */
  lemma ActedOverGroupsStep(keys: seq<Option<string>>, groups: map<Option<string>, seq<Vm>>, j: nat)
    requires j < |keys| && keys[j] in groups
    ensures ActedOverGroups(keys[..j + 1], groups) == ActedOverGroups(keys[..j], groups) + ActedOfGroup(groups[keys[j]], keys[j])
  {
    assert keys[..j + 1][..j] == keys[..j];
  }

  /** The servers acted upon for the given keys, key by key. */
  function ActedOver(xs: seq<Vm>, keys: seq<Option<string>>): seq<Vm> {
    if keys == [] then [] else ActedOver(xs, keys[..|keys| - 1]) + ActedFor(xs, keys[|keys| - 1])
  }

  /** Every server `duplicates` reports or destroys, in order. */
  function Acted(xs: seq<Vm>): seq<Vm> {
    ActedOver(xs, KeysOf(xs, Key))
  }

  /** Within a kept group, the server spared is one of greatest rank, and
      the servers acted upon are the group without it. */
  lemma SparesLatest(xs: seq<Vm>, k: string)
    requires |GroupOf(xs, Key, Some(k))| >= 2
    ensures var g := GroupOf(xs, Key, Some(k)); var v := SortBy(g, Rank); var spared := v[|v| - 1];
      && spared in g
      && (forall w | w in g :: LessEq(Rank(w), Rank(spared)))
      && multiset(ActedFor(xs, Some(k))) + multiset{spared} == multiset(g)
  {
    SortedLast(GroupOf(xs, Key, Some(k)), Rank);
  }

  /** The last of a sorted list is of greatest rank, and the list without
      it holds everything else. */
  lemma SortedLast<T>(g: seq<T>, rank: T -> string)
    requires |g| >= 1
    ensures |SortBy(g, rank)| == |g|
    ensures var v := SortBy(g, rank); var last := v[|v| - 1];
      && last in g
      && (forall w | w in g :: LessEq(rank(w), rank(last)))
      && multiset(v[..|v| - 1]) + multiset{last} == multiset(g)
  {
    var v := SortBy(g, rank);
    SortByCorrect(g, rank);
    assert |v| == |multiset(v)| == |g|;
    var last := v[|v| - 1];
    assert v == v[..|v| - 1] + [last];
    assert last in multiset(v);
    forall w | w in g
      ensures LessEq(rank(w), rank(last))
    {
      assert w in multiset(v);
      var i :| 0 <= i < |v| && v[i] == w;
      if i < |v| - 1 {
        assert LessEq(rank(v[i]), rank(v[|v| - 1]));
      }
    }
  }

  /** Only servers that share a key with at least one more server, the
      spared one excluded, are acted upon: an unmatched server and the only
      server of its key never are. */
  lemma {:induction false} ActedOverMembers(xs: seq<Vm>, keys: seq<Option<string>>, v: Vm)
    requires v in ActedOver(xs, keys)
    ensures Key(v).Some? && Key(v) in keys && v in xs && |GroupOf(xs, Key, Key(v))| >= 2
  {
    var last := keys[|keys| - 1];
    if v in ActedOver(xs, keys[..|keys| - 1]) {
      ActedOverMembers(xs, keys[..|keys| - 1], v);
    } else {
      var g := GroupOf(xs, Key, last);
      var s := SortBy(g, Rank);
      SortByCorrect(g, Rank);
      assert v in s[..|s| - 1];
      assert v in multiset(s);
      GroupOfMembers(xs, Key, last, v);
    }
  }

  /** Whole-list form of the above. */
  lemma ActedMembers(xs: seq<Vm>, v: Vm)
    requires v in Acted(xs)
    ensures v in xs && Key(v).Some? && |GroupOf(xs, Key, Key(v))| >= 2
  {
    ActedOverMembers(xs, KeysOf(xs, Key), v);
  }

  /** The hash `duplicates` iterates over: `group_by` on the key; read
      through it, the servers acted upon are those of `Acted`. */
  method GroupServers(xs: seq<Vm>) returns (keys: seq<Option<string>>, groups: map<Option<string>, seq<Vm>>)
    ensures forall k | k in keys :: k in groups
    ensures ActedOverGroups(keys, groups) == Acted(xs)
  {
    keys, groups := GroupBy(xs, Key);
    ActedOverGroupsIsActed(xs, keys, groups);
  }

  /** `group_by`: each element appended to the group of its key, a new key
      added at the end of the key order. */
  method GroupBy<T(!new), K(==,!new)>(xs: seq<T>, key: T -> K) returns (keys: seq<K>, groups: map<K, seq<T>>)
    ensures keys == KeysOf(xs, key)
    ensures groups.Keys == set k | k in keys
    ensures forall k | k in groups :: groups[k] == GroupOf(xs, key, k)
  {
    keys := [];
    groups := map[];
    var i := 0;
    while i < |xs|
      invariant 0 <= i <= |xs|
      invariant Grouped(xs, key, i, keys, groups)
    {
      var x := xs[i];
      var k := key(x);
      ghost var keys0, groups0 := keys, groups;
      if k in groups {
        groups := groups[k := groups[k] + [x]];
      } else {
        keys := keys + [k];
        groups := groups[k := [x]];
      }
      GroupByStep(xs, key, i, keys0, groups0, keys, groups);
      i := i + 1;
    }
    assert xs[..i] == xs;
    assert groups.Keys == set k | k in keys;
  }

  /** The hash `group_by` holds after `i` elements. */
  ghost predicate Grouped<T(!new), K(!new)>(xs: seq<T>, key: T -> K, i: nat, keys: seq<K>, groups: map<K, seq<T>>)
    requires i <= |xs|
  {
    && keys == KeysOf(xs[..i], key)
    && (forall k :: k in groups <==> k in keys)
    && forall k | k in groups :: groups[k] == GroupOf(xs[..i], key, k)
  }

  lemma GroupByStep<T(!new), K(!new)>(xs: seq<T>, key: T -> K, i: nat,
                                     keys: seq<K>, groups: map<K, seq<T>>, keys': seq<K>, groups': map<K, seq<T>>)
    requires i < |xs| && Grouped(xs, key, i, keys, groups)
    requires key(xs[i]) in groups ==> keys' == keys && groups' == groups[key(xs[i]) := groups[key(xs[i])] + [xs[i]]]
    requires key(xs[i]) !in groups ==> keys' == keys + [key(xs[i])] && groups' == groups[key(xs[i]) := [xs[i]]]
    ensures Grouped(xs, key, i + 1, keys', groups')
  {
    var k := key(xs[i]);
    KeysStep(xs, key, i);
    forall k' | k' in groups'
      ensures groups'[k'] == GroupOf(xs[..i + 1], key, k')
    {
      GroupOfStep(xs, key, i, k');
      if k' != k {
        assert groups'[k'] == groups[k'];
      } else if k !in groups {
        NewKeyEmptyGroup(xs, key, i);
      }
    }
  }

  /** One more element: its key is added to the key order if new. */
  lemma KeysStep<T(!new), K(!new)>(xs: seq<T>, key: T -> K, i: nat)
    requires i < |xs|
    ensures KeysOf(xs[..i + 1], key) == if key(xs[i]) in KeysOf(xs[..i], key) then KeysOf(xs[..i], key) else KeysOf(xs[..i], key) + [key(xs[i])]
  {
    assert xs[..i + 1][..i] == xs[..i];
  }

  /** One more element: it joins the end of its own group, the other groups
      unchanged. */
  lemma GroupOfStep<T(!new), K(!new)>(xs: seq<T>, key: T -> K, i: nat, k: K)
    requires i < |xs|
    ensures GroupOf(xs[..i + 1], key, k) == GroupOf(xs[..i], key, k) + (if key(xs[i]) == k then [xs[i]] else [])
  {
    assert xs[..i + 1][..i] == xs[..i];
  }

  /** A key not seen yet has no elements so far. */
  lemma NewKeyEmptyGroup<T(!new), K(!new)>(xs: seq<T>, key: T -> K, i: nat)
    requires i < |xs| && key(xs[i]) !in KeysOf(xs[..i], key)
    ensures GroupOf(xs[..i], key, key(xs[i])) == []
  {
    var g := GroupOf(xs[..i], key, key(xs[i]));
    if g != [] {
      GroupOfMembers(xs[..i], key, key(xs[i]), g[0]);
      KeysOfMembers(xs[..i], key, key(xs[i]));
      assert false;
    }
  }
}
