/** The OpenStack driver: template lookup over the image catalog, the
    server-creation request with its boot script, saving a server as a
    template, and tearing servers down. Fog is replaced by its answers: the
    image list each successive catalog request returns, and the server list;
    the calls the driver makes on Fog are recorded in order. */
module OpenStack {
  import opened Wrappers
  import opened Strings
  import opened Timestamps
  import Catalog

  /** An entry of `connection.images`. */
  datatype Image = Image(id: string, name: string, state: string, createdAt: string)

  /** One entry of a server's address lists: its `OS-EXT-IPS:type` (absent
      on some entries) and its `addr`. */
  datatype Address = Address(kind: Option<string>, addr: string)

  /** A Fog server; `addresses` holds `addresses.values`, one list per network. */
  datatype Server = Server(id: string, name: string, state: string, addresses: seq<seq<Address>>)

  /** What the driver asks of Fog. */
  datatype Call =
    | CreateImage(server: string, name: string)
    | DisassociateAddress(server: string, ip: string)
    | DestroyServer(server: string)

  /** `t.name =~ /^travis-/`. */
  predicate IsTravisTemplate(t: Image) {
    LineStartsWith(t.name, "travis-")
  }

  /** `travis_templates`: the images named like a Travis template, in catalog order. */
  function TravisTemplates(images: seq<Image>): (r: seq<Image>)
    ensures forall t | t in r :: t in images && IsTravisTemplate(t)
    ensures forall t | t in images && IsTravisTemplate(t) :: t in r
  {
    Catalog.Filter(images, IsTravisTemplate)
  }

  /** Any image matching `/^travis-#{type}/` also matches `/^travis-/`, so the
      outer filter of `latest_template` never removes a candidate. */
  lemma TypedIsTravis(images: seq<Image>, imageType: string)
    ensures forall t | t in images && LineStartsWith(t.name, "travis-" + imageType) :: IsTravisTemplate(t)
  {
    forall t | t in images && LineStartsWith(t.name, "travis-" + imageType)
      ensures IsTravisTemplate(t)
    {
      LineStartsWithLonger(t.name, "travis-", imageType);
    }
  }

  /** The images `latest_template(type)` chooses among. */
  function Candidates(images: seq<Image>, imageType: string): (r: seq<Image>)
    ensures forall t :: t in r <==> t in images && LineStartsWith(t.name, "travis-" + imageType)
  {
    TypedIsTravis(images, imageType);
    Catalog.Filter(TravisTemplates(images), (t: Image) => LineStartsWith(t.name, "travis-" + imageType))
  }

  /** `latest_template(type)`: among the Travis templates whose name matches
      `/^travis-#{type}/`, one created last; None stands for the `{}` the
      driver answers when there is none. */
  function LatestTemplate(images: seq<Image>, imageType: string): (r: Option<Image>)
    ensures r.None? <==> forall t | t in images :: !LineStartsWith(t.name, "travis-" + imageType)
    ensures r.Some? ==> r.value in images && LineStartsWith(r.value.name, "travis-" + imageType)
    ensures r.Some? ==> forall t | t in images && LineStartsWith(t.name, "travis-" + imageType) ::
                          LessEq(t.createdAt, r.value.createdAt)
  {
    var c := Candidates(images, imageType);
    assert c == [] <==> forall t | t in images :: !LineStartsWith(t.name, "travis-" + imageType) by {
      if c != [] {
        assert c[0] in c;
      }
    }
    Catalog.Newest(c, (t: Image) => t.createdAt)
  }

  /** `find_active_template(name)`: the first image with exactly that name
      whose state is `ACTIVE`. */
  function FindActiveTemplate(images: seq<Image>, name: string): Option<Image> {
    if images == [] then None
    else if images[0].name == name && images[0].state == "ACTIVE" then Some(images[0])
    else FindActiveTemplate(images[1..], name)
  }

  /** The image found is a listed `ACTIVE` image of that name, and there is
      one exactly when some listed image has that name and is `ACTIVE`. */
  lemma {:induction false} FindActiveTemplateFound(images: seq<Image>, name: string)
    ensures var r := FindActiveTemplate(images, name);
      && (r.Some? ==> r.value in images && r.value.name == name && r.value.state == "ACTIVE")
      && (r.None? <==> forall t | t in images :: !(t.name == name && t.state == "ACTIVE"))
  {
    if images != [] {
      FindActiveTemplateFound(images[1..], name);
      assert images == [images[0]] + images[1..];
    }
  }

  /** `find_active_template` is Ruby's `find` with the name-and-state
      test: it picks the first such image. */
  lemma {:induction false} FindActiveTemplateIsFind(images: seq<Image>, name: string)
    ensures FindActiveTemplate(images, name) == Catalog.Find(images, (t: Image) => t.name == name && t.state == "ACTIVE")
  {
    if images != [] {
      FindActiveTemplateIsFind(images[1..], name);
    }
  }

  /** `addresses.values.flatten`. */
  function Flatten(lists: seq<seq<Address>>): (r: seq<Address>)
    ensures forall a | a in r :: exists l | l in lists :: a in l
    ensures forall l, a | l in lists && a in l :: a in r
  {
    if lists == [] then [] else lists[0] + Flatten(lists[1..])
  }

  /** Flattening keeps the order: the addresses of a last list come after
      all the others. */
  lemma {:induction false} FlattenSnoc(lists: seq<seq<Address>>, l: seq<Address>)
    ensures Flatten(lists + [l]) == Flatten(lists) + l
  {
    if lists == [] {
      assert [l][1..] == [];
    } else {
      assert (lists + [l])[1..] == lists[1..] + [l];
      FlattenSnoc(lists[1..], l);
      assert Flatten(lists + [l]) == lists[0] + (Flatten(lists[1..]) + l);
    }
  }

  predicate IsFloating(a: Address) {
    a.kind == Some("floating")
  }

  /** `ip_address`: the `addr` of the first floating address. None stands for
      the error Ruby raises (indexing nil) when the server has none. */
  function IpAddress(s: Server): (r: Option<string>)
    ensures r.None? <==> forall l, a | l in s.addresses && a in l :: !IsFloating(a)
    ensures r.Some? ==> exists l, a | l in s.addresses && a in l :: IsFloating(a) && a.addr == r.value
    ensures r.Some? ==> exists j | 0 <= j < |Flatten(s.addresses)| ::
              IsFloating(Flatten(s.addresses)[j]) && Flatten(s.addresses)[j].addr == r.value &&
              forall i | 0 <= i < j :: !IsFloating(Flatten(s.addresses)[i])
  {
    var all := Flatten(s.addresses);
    var found := Catalog.Find(all, IsFloating);
    if found.Some? then
      assert found.value in all;
      Some(found.value.addr)
    else
      assert forall a | a in all :: !IsFloating(a) by {
        forall a | a in all
          ensures !IsFloating(a)
        {
          var i :| 0 <= i < |all| && all[i] == a;
        }
      }
      None
  }

  /** The first line of the boot script. */
  const UserDataHead: string := "#! /bin/bash\n" + "sudo useradd travis -m" + " -s /bin/bash || true\n"

  /** The line that sets the `travis` password. */
  function PasswordLine(password: string): string {
    "echo travis:" + password + " | sudo chpasswd\n"
  }

  /** The last line, which gives `travis` password-less sudo. */
  const SudoersLine: string := "echo \"travis ALL=(ALL)" + " NOPASSWD:ALL\" | sudo" + " tee -a /etc/sudoers"

  /** The user data `create_server` builds: the password line is there only
      when a password is given (any string, the empty one included, as Ruby
      treats it as true). */
  function UserData(password: Option<string>): (r: string)
    ensures UserDataHead <= r
    ensures |r| >= |SudoersLine| && r[|r| - |SudoersLine|..] == SudoersLine
  {
    var middle := if password.Some? then PasswordLine(password.value) else "";
    assert (UserDataHead + middle + SudoersLine)[..|UserDataHead|] == UserDataHead;
    UserDataHead + middle + SudoersLine
  }

  /** Read the password back from a boot script built as above. */
  function PasswordOf(userData: string): Option<string> {
    var fixed := |UserDataHead| + |SudoersLine|;
    if |userData| >= fixed + 29 then
      Some(userData[|UserDataHead| + 12..|userData| - |SudoersLine| - 17])
    else None
  }

  /** The boot script records exactly whether a password was given, and which:
      without one it has no password line at all. */
  lemma UserDataPassword(password: Option<string>)
    ensures PasswordOf(UserData(password)) == password
  {
    var r := UserData(password);
    if password.Some? {
      var p := password.value;
      assert |PasswordLine(p)| == 29 + |p|;
      assert r == UserDataHead + ("echo travis:" + p + " | sudo chpasswd\n") + SudoersLine;
      assert r[|UserDataHead| + 12..|r| - |SudoersLine| - 17] == p;
    }
  }

  /** A password adds exactly its `chpasswd` line, right after the head;
      without one the script is the head and the sudoers line alone. */
  lemma UserDataPasswordLine(p: string)
    ensures UserData(None) == UserDataHead + SudoersLine
    ensures UserData(Some(p)) == UserData(None)[..|UserDataHead|] + PasswordLine(p) + UserData(None)[|UserDataHead|..]
  {
    var none := UserData(None);
    assert none == UserDataHead + "" + SudoersLine;
    assert none[..|UserDataHead|] == UserDataHead;
    assert none[|UserDataHead|..] == SudoersLine;
  }

  /** The options `create_server` reads. */
  datatype ServerOptions = ServerOptions(hostname: Option<string>, password: Option<string>, imageId: Option<string>)

  /** The account's configuration entries `create_server` reads. */
  datatype Config = Config(flavorId: string, imageId: string, keyName: string, internalNetworkId: string)

  /** The arguments of `connection.servers.create`. */
  datatype ServerRequest = ServerRequest(
    name: Option<string>, flavorRef: string, imageRef: string,
    keyName: string, nics: seq<string>, userData: string)

  /** The request `create_server` sends: the user data is built line by line,
      and the image is the one the options name, else the configured one. */
  method CreateServer(opts: ServerOptions, config: Config) returns (req: ServerRequest)
    ensures req.userData == UserData(opts.password)
    ensures opts.imageId.Some? ==> req.imageRef == opts.imageId.value
    ensures opts.imageId.None? ==> req.imageRef == config.imageId
    ensures req.name == opts.hostname && req.flavorRef == config.flavorId
    ensures req.keyName == config.keyName && req.nics == [config.internalNetworkId]
  {
    var userData := UserDataHead;
    if opts.password.Some? {
      userData := userData + PasswordLine(opts.password.value);
    }
    userData := userData + SudoersLine;
    req := ServerRequest(opts.hostname, config.flavorId, opts.imageId.GetOr(config.imageId),
                         config.keyName, [config.internalNetworkId], userData);
  }

  predicate IsActive(s: Server) {
    s.state == "ACTIVE"
  }

  /** The calls destroying the given servers, in order. */
  function DestroyCalls(servers: seq<Server>): (r: seq<Call>)
    ensures |r| == |servers|
    ensures forall i | 0 <= i < |servers| :: r[i] == DestroyServer(servers[i].id)
  {
    Catalog.Map(servers, (s: Server) => DestroyServer(s.id))
  }

  lemma DestroyCallsConcat(a: seq<Server>, b: seq<Server>)
    ensures DestroyCalls(a + b) == DestroyCalls(a) + DestroyCalls(b)
  {
    Catalog.MapConcat(a, b, (s: Server) => DestroyServer(s.id));
  }

  /** `clean_up` destroys a server exactly when it is `ACTIVE` (servers are
      told apart by their ids). */
  lemma CleanUpExactlyActive(servers: seq<Server>, s: Server)
    requires Catalog.UniqueKeys(servers, (x: Server) => x.id) && s in servers
    ensures DestroyServer(s.id) in DestroyCalls(Catalog.Filter(servers, IsActive)) <==> IsActive(s)
  {
    var active := Catalog.Filter(servers, IsActive);
    Catalog.FilterKeys(servers, IsActive, (x: Server) => x.id, s);
    if DestroyServer(s.id) in DestroyCalls(active) {
      var i :| 0 <= i < |active| && DestroyCalls(active)[i] == DestroyServer(s.id);
      assert active[i] in active;
    }
    if IsActive(s) {
      var i :| 0 <= i < |active| && active[i] == s;
      assert DestroyCalls(active)[i] == DestroyServer(s.id);
    }
  }

  /** One more server examined by `clean_up`: one more call exactly when it is `ACTIVE`. */
  lemma CleanUpStep(servers: seq<Server>, i: nat)
    requires i < |servers|
    ensures DestroyCalls(Catalog.Filter(servers[..i + 1], IsActive))
         == DestroyCalls(Catalog.Filter(servers[..i], IsActive)) + (if IsActive(servers[i]) then [DestroyServer(servers[i].id)] else [])
  {
    assert servers[..i + 1] == servers[..i] + [servers[i]];
    Catalog.FilterSnoc(servers[..i], servers[i], IsActive);
    DestroyCallsConcat(Catalog.Filter(servers[..i], IsActive), if IsActive(servers[i]) then [servers[i]] else []);
  }

  /** Requests `from` to `to - 1` were made, and the last of them is the
      first whose catalog lists `name` as `ACTIVE`. */
  ghost predicate FirstActive(catalog: nat -> seq<Image>, name: string, from: nat, to: nat) {
    from < to &&
    FindActiveTemplate(catalog(to - 1), name).Some? &&
    forall k | from <= k < to - 1 :: FindActiveTemplate(catalog(k), name).None?
  }

  /** The driver's view of one OpenStack account. */
  class Connection {
    /** The image list the n-th `connection.images` request answers (the
        catalog changes while an image is being saved). */
    const catalog: nat -> seq<Image>
    /** `connection.servers`. */
    const servers: seq<Server>
    /** How many catalog requests have been made. */
    var requests: nat
    /** The calls made on Fog so far, in order. */
    var calls: seq<Call>

    constructor (catalog: nat -> seq<Image>, servers: seq<Server>)
      ensures this.catalog == catalog && this.servers == servers
      ensures requests == 0 && calls == []
    {
      this.catalog := catalog;
      this.servers := servers;
      requests := 0;
      calls := [];
    }

    /** `templates`: one catalog request. */
    method Templates() returns (images: seq<Image>)
      modifies this`requests
      ensures images == catalog(old(requests)) && requests == old(requests) + 1
    {
      images := catalog(requests);
      requests := requests + 1;
    }

    /** `save_template(server, desc)`: ask for an image named after the
        description and the time, then wait until the catalog lists it. */
    method SaveTemplate(server: Server, desc: string, now: UtcTime) returns (fullDesc: string)
      requires Valid(now)
      requires exists k :: requests <= k && FindActiveTemplate(catalog(k), TemplateName(desc, now)).Some?
      modifies this`requests, this`calls
      ensures fullDesc == TemplateName(desc, now)
      ensures calls == old(calls) + [CreateImage(server.id, fullDesc)]
      ensures FirstActive(catalog, fullDesc, old(requests), requests)
    {
      fullDesc := TemplateName(desc, now);
      calls := calls + [CreateImage(server.id, fullDesc)];
      WaitActive(fullDesc);
    }

    /** The `while !find_active_template(name)` loop: request the catalog
        until it lists `name` as `ACTIVE`. The loop has no bound of its own;
        it ends because the image becomes active at some request. */
    method WaitActive(name: string)
      requires exists k :: requests <= k && FindActiveTemplate(catalog(k), name).Some?
      modifies this`requests
      ensures FirstActive(catalog, name, old(requests), requests)
    {
      ghost var target :| requests <= target && FindActiveTemplate(catalog(target), name).Some?;
      ghost var from := requests;
      var images := Templates();
      while FindActiveTemplate(images, name).None?
        invariant from < requests <= target + 1
        invariant images == catalog(requests - 1)
        invariant forall k | from <= k < requests - 1 :: FindActiveTemplate(catalog(k), name).None?
        decreases target + 1 - requests
      {
        images := Templates();
      }
    }

    /** `VirtualMachine#destroy`: release the floating address, then destroy
        the server; when the server has no floating address, looking it up
        fails and nothing is called. */
    method Destroy(vm: Server) returns (ok: bool)
      modifies this`calls
      ensures ok <==> IpAddress(vm).Some?
      ensures ok ==> calls == old(calls) + [DisassociateAddress(vm.id, IpAddress(vm).value), DestroyServer(vm.id)]
      ensures !ok ==> calls == old(calls)
    {
      var ip := IpAddress(vm);
      if ip.None? {
        return false;
      }
      calls := calls + [DisassociateAddress(vm.id, ip.value)];
      calls := calls + [DestroyServer(vm.id)];
      ok := true;
    }

    /** `clean_up`: destroy every `ACTIVE` server, in list order. */
    method CleanUp()
      modifies this`calls
      ensures calls == old(calls) + DestroyCalls(Catalog.Filter(servers, IsActive))
    {
      var i := 0;
      while i < |servers|
        invariant 0 <= i <= |servers|
        invariant calls == old(calls) + DestroyCalls(Catalog.Filter(servers[..i], IsActive))
      {
        CleanUpStep(servers, i);
        if IsActive(servers[i]) {
          calls := calls + [DestroyServer(servers[i].id)];
        }
        i := i + 1;
      }
      assert servers[..i] == servers;
    }
  }
}
