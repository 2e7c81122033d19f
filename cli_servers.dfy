/** The servers the command-line tool works with, the provider calls it
    makes on them, and `servers_with_name`, which selects servers by a
    pattern anchored at the start of a line of the host name. */
module CliServers {
  import opened Wrappers
  import opened Strings
  import Catalog

  /** A provider's server as the command-line tool uses it: an identity, a
      host name (absent on some Sauce Labs instances), an address and a state. */
  datatype Vm = Vm(id: string, hostname: Option<string>, ipAddress: Option<string>, state: string)

  /** What the tool asks of the provider. */
  datatype Action =
    | CreateServer(opts: map<string, string>)
    | SaveTemplate(server: string, description: string)
    | DestroyServer(server: string)

  /** One character of an interpolated pattern against one character of the
      text: `.` stands for any character but a newline, every other
      character for itself. */
  predicate CharMatches(p: char, c: char) {
    if p == '.' then c != '\n' else c == p
  }

  /** The pattern matches the text from index `i` on. */
  predicate PatternAt(s: string, i: nat, p: string) {
    i + |p| <= |s| && forall k | 0 <= k < |p| :: CharMatches(p[k], s[i + k])
  }

  /** `s =~ /^#{p}/`: the pattern matches at the start of some line. */
  predicate LineMatches(s: string, p: string) {
    exists i | 0 <= i <= |s| :: LineStart(s, i) && PatternAt(s, i, p)
  }

  /** A pattern without `.` is the literal line-prefix test. */
  lemma LiteralPattern(s: string, p: string)
    requires forall k | 0 <= k < |p| :: p[k] != '.'
    ensures LineMatches(s, p) <==> LineStartsWith(s, p)
  {
    if LineMatches(s, p) {
      var i :| 0 <= i <= |s| && LineStart(s, i) && PatternAt(s, i, p);
      assert p <= s[i..] by {
        forall k | 0 <= k < |p|
          ensures s[i..][k] == p[k]
        {
          assert CharMatches(p[k], s[i + k]);
        }
      }
    }
    if LineStartsWith(s, p) {
      var i :| 0 <= i <= |s| && LineStart(s, i) && p <= s[i..];
      forall k | 0 <= k < |p|
        ensures CharMatches(p[k], s[i + k])
      {
        assert s[i..][k] == p[k];
      }
      assert PatternAt(s, i, p);
    }
  }

  /** A trailing `.` is a wildcard: the pattern also matches a host name
      that has any other character (but a newline) in its place. */
  lemma DotWildcard(pre: string, c: char, rest: string)
    requires c != '\n'
    ensures LineMatches(pre + [c] + rest, pre + ".")
  {
    var s := pre + [c] + rest;
    var p := pre + ".";
    forall k | 0 <= k < |p|
      ensures CharMatches(p[k], s[k])
    {
      if k < |pre| {
        assert p[k] == pre[k] && s[k] == pre[k];
      } else {
        assert p[k] == '.' && s[k] == c;
      }
    }
    assert LineStart(s, 0) && PatternAt(s, 0, p);
  }

  /** A server without a host name matches no pattern (`nil =~ re` is nil). */
  predicate HostMatches(vm: Vm, p: string) {
    vm.hostname.Some? && LineMatches(vm.hostname.value, p)
  }

  /** `servers_with_name(name)`: the servers whose host name matches
      `/^#{name}/`, in the provider's order. */
  function ServersWithName(servers: seq<Vm>, name: string): (r: seq<Vm>)
    ensures forall v :: v in r <==> v in servers && HostMatches(v, name)
  {
    Catalog.Filter(servers, (v: Vm) => HostMatches(v, name))
  }

  /** The name `clean_up` looks for when no server is given. */
  const Provisioning: string := "provisioning."

  /** The calls destroying the given servers, in order. */
  function DestroyActions(list: seq<Vm>): (r: seq<Action>)
    ensures |r| == |list|
  {
    Catalog.Map(list, (v: Vm) => DestroyServer(v.id))
  }

  /** The `i`-th call destroys the `i`-th server. */
  lemma DestroyActionsAt(list: seq<Vm>, i: nat)
    requires i < |list|
    ensures DestroyActions(list)[i] == DestroyServer(list[i].id)
  {
  }

  lemma DestroyActionsConcat(a: seq<Vm>, b: seq<Vm>)
    ensures DestroyActions(a + b) == DestroyActions(a) + DestroyActions(b)
  {
    Catalog.MapConcat(a, b, (v: Vm) => DestroyServer(v.id));
  }

  /** No two servers of the list share an id. */
  predicate DistinctIds(list: seq<Vm>) {
    forall i, j | 0 <= i < j < |list| :: list[i].id != list[j].id
  }

  /** Destroying a list of distinct servers destroys each of them exactly
      once, and no other server. */
  lemma {:induction false} DestroyedOnce(list: seq<Vm>, id: string)
    requires DistinctIds(list)
    ensures multiset(DestroyActions(list))[DestroyServer(id)] == if exists v | v in list :: v.id == id then 1 else 0
  {
    if list != [] {
      var rest := list[1..];
      assert DistinctIds(rest) by {
        forall i, j | 0 <= i < j < |rest|
          ensures rest[i].id != rest[j].id
        {
          assert rest[i] == list[i + 1] && rest[j] == list[j + 1];
        }
      }
      DestroyedOnce(rest, id);
      assert DestroyActions(list) == [DestroyServer(list[0].id)] + DestroyActions(rest);
      if list[0].id == id {
        forall v | v in rest
          ensures v.id != id
        {
          var j :| 0 <= j < |rest| && rest[j] == v;
          assert list[j + 1] == v;
        }
      } else {
        assert (exists v | v in list :: v.id == id) <==> (exists v | v in rest :: v.id == id) by {
          if v :| v in list && v.id == id {
            assert v != list[0];
            var j :| 0 <= j < |list| && list[j] == v;
            assert rest[j - 1] == v;
          }
        }
      }
    }
  }
}
