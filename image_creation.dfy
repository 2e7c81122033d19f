/** The `travis:images` command-line tool: how `create` builds the server
    request, provisions the server and then saves it as a template, destroys
    it or keeps it; `clean_up`, `destroy` and `duplicates` over the
    provider's servers; and the small rules these rely on (the base-image
    choice, the template description, the password filter, the provider
    table). The provider, the provisioning run and the GitHub API are
    inputs: the provider's server list, the outcome of each call, and an
    `api` function. The provider calls the tool makes are recorded in order. */
module ImageCreation {
  import opened Wrappers
  import opened Strings
  import opened CliServers
  import Dup = Duplicates
  import GitHub
  import VmProvisioner

  /** `custom_base_image?(image_type, custom_base_name)`: a truthy `--base`
      asks for a custom base image and an explicit `false` refuses one;
      without the option, every type but `standard` is built on one. */
  function CustomBaseImage(imageType: string, base: Option<bool>): (r: bool)
    ensures base == Some(true) ==> r
    ensures base == Some(false) ==> !r
    ensures base.None? ==> (r <==> imageType != "standard")
  {
    match base
    case Some(b) => b
    case None => imageType != "standard"
  }

  /** The tool never passes `:custom_base_name` to the provisioner, so
      without `--base` the provisioner skips its environment set-up exactly
      when the server starts from a custom base image. */
  lemma CustomBaseSkipsSetup(imageType: string, branch: Option<string>)
    ensures CustomBaseImage(imageType, None)
         == VmProvisioner.SkipSetup(VmProvisioner.RunOptions(None, Some(imageType), branch))
  {
  }

  /** With `--base false` the server starts from the stock image, yet the
      provisioner, which never sees the option, still skips the set-up for
      a type other than `standard`. */
  lemma BaseFalseStillSkipsSetup(imageType: string, branch: Option<string>)
    requires imageType != "standard"
    ensures !CustomBaseImage(imageType, Some(false))
    ensures VmProvisioner.SkipSetup(VmProvisioner.RunOptions(None, Some(imageType), branch))
  {
  }

  /** `compact`: the given values, in order, without the nils. */
  function Compact(xs: seq<Option<string>>): (r: seq<string>)
    ensures |r| <= |xs|
    ensures forall s :: s in r <==> Some(s) in xs
  {
    if xs == [] then []
    else
      assert forall o | o in xs :: o == xs[0] || o in xs[1..];
      if xs[0].Some? then [xs[0].value] + Compact(xs[1..]) else Compact(xs[1..])
  }

  /** `[options["name"], image_type, sha].compact.join('-')`. */
  function Description(name: Option<string>, imageType: string, sha: string): string {
    Join(Compact([name, Some(imageType), Some(sha)]), "-")
  }

  lemma CompactTwo(a: string, b: string)
    ensures Compact([Some(a), Some(b)]) == [a, b]
  {
    assert [Some(a), Some(b)][1..] == [Some(b)];
    assert [Some(b)][1..] == [];
  }

  lemma JoinTwo(a: string, b: string, sep: string)
    ensures Join([a, b], sep) == a + sep + b
  {
    assert [a, b][1..] == [b];
  }

  /** The description is the name (when given), the type and the revision,
      each two separated by one dash; a missing name leaves no empty part. */
  lemma DescriptionShape(name: Option<string>, imageType: string, sha: string)
    ensures name.Some? ==> Description(name, imageType, sha) == name.value + "-" + imageType + "-" + sha
    ensures name.None? ==> Description(name, imageType, sha) == imageType + "-" + sha
  {
    var tail: seq<Option<string>> := [Some(imageType), Some(sha)];
    assert [name, Some(imageType), Some(sha)][1..] == tail;
    CompactTwo(imageType, sha);
    JoinTwo(imageType, sha, "-");
    if name.Some? {
      var parts := [name.value, imageType, sha];
      assert Compact([name, Some(imageType), Some(sha)]) == parts;
      assert parts[1..] == [imageType, sha];
      AppendAssoc(name.value + "-", imageType + "-", sha);
    }
  }

  /** The description names the type and the cookbook revision last, after
      the optional prefix: different revisions never share a description. */
  lemma DescriptionInjective(name: Option<string>, imageType: string, sha1: string, sha2: string)
    requires |sha1| == |sha2|
    requires Description(name, imageType, sha1) == Description(name, imageType, sha2)
    ensures sha1 == sha2
  {
    DescriptionShape(name, imageType, sha1);
    DescriptionShape(name, imageType, sha2);
    var d1, d2 := Description(name, imageType, sha1), Description(name, imageType, sha2);
    var n := |d1| - |sha1|;
    assert d1[n..] == sha1 && d2[n..] == sha2;
  }

  /** The characters `gsub(/[\&\+\/\=\\]/, '')` removes. */
  predicate Forbidden(c: char) {
    c == '&' || c == '+' || c == '/' || c == '=' || c == '\\'
  }

  /** The string without its forbidden characters, the others in order. */
  function StripForbidden(s: string): (r: string)
    ensures |r| <= |s|
    ensures forall k | 0 <= k < |r| :: !Forbidden(r[k])
    ensures forall c :: c in r <==> c in s && !Forbidden(c)
  {
    if s == [] then []
    else
      assert forall c | c in s :: c == s[0] || c in s[1..];
      if Forbidden(s[0]) then StripForbidden(s[1..]) else [s[0]] + StripForbidden(s[1..])
  }

  /** The filter-and-cut step of `generate_password`, applied to the
      digest: at most 20 characters, none of them forbidden, the first
      allowed characters of the digest in order. */
  function SanitizePassword(digest: string): (r: string)
    ensures |r| <= 20
    ensures forall k | 0 <= k < |r| :: !Forbidden(r[k])
    ensures r <= StripForbidden(digest)
  {
    Take(StripForbidden(digest), 20)
  }

  /** A string without forbidden characters is left as it is. */
  lemma {:induction false} StripClean(s: string)
    requires forall k | 0 <= k < |s| :: !Forbidden(s[k])
    ensures StripForbidden(s) == s
  {
    if s != [] {
      StripClean(s[1..]);
      assert s == [s[0]] + s[1..];
    }
  }

  /** Sanitising a password again changes nothing. */
  lemma SanitizeIdempotent(digest: string)
    ensures SanitizePassword(SanitizePassword(digest)) == SanitizePassword(digest)
  {
    StripClean(SanitizePassword(digest));
  }

  /** The password has the full 20 characters exactly when the digest has
      at least 20 allowed ones. */
  lemma SanitizeLength(digest: string)
    ensures |SanitizePassword(digest)| == 20 <==> |StripForbidden(digest)| >= 20
  {
  }

  /** The three providers. */
  datatype Provider = BlueBoxProvider | SauceLabsProvider | OpenStackProvider

  /** `provider_class`: the provider named by `--provider`, or nil for any
      other name. */
  function ProviderClass(name: string): (r: Option<Provider>)
    ensures r == Some(BlueBoxProvider) <==> name == "blue_box"
    ensures r == Some(SauceLabsProvider) <==> name == "sauce_labs"
    ensures r == Some(OpenStackProvider) <==> name == "open_stack"
    ensures r.None? <==> name !in {"blue_box", "sauce_labs", "open_stack"}
  {
    if name == "blue_box" then Some(BlueBoxProvider)
    else if name == "sauce_labs" then Some(SauceLabsProvider)
    else if name == "open_stack" then Some(OpenStackProvider)
    else None
  }

  /** The host name `create` gives the server. */
  function ProvisioningHost(imageType: string): string {
    Provisioning + imageType
  }

  /** The repository whose branch head names the template. */
  const CookbooksSlug: string := "travis-ci/" + "travis-cookbooks"

  /** The template description `create` saves under: the optional name,
      the type and the first seven characters of the cookbooks branch head. */
  function TemplateDescription(name: Option<string>, imageType: string, api: string -> Option<string>, branch: string): string {
    Description(name, imageType, GitHub.ShaForRepo(api, CookbooksSlug, Some(branch), 7))
  }

  /** The saved description ends in the first seven characters of the
      cookbooks branch head, or in seven `f`s when the lookup fails. */
  lemma TemplateDescriptionSha(name: Option<string>, imageType: string, api: string -> Option<string>, branch: string)
    ensures var head := api(GitHub.RefsPath(CookbooksSlug, Some(branch)));
            var prefix := (if name.Some? then name.value + "-" else "") + imageType + "-";
            (head.None? ==> TemplateDescription(name, imageType, api, branch) == prefix + "fffffff") &&
            (head.Some? && |head.value| >= 7 ==> TemplateDescription(name, imageType, api, branch) == prefix + head.value[..7])
  {
    var head := api(GitHub.RefsPath(CookbooksSlug, Some(branch)));
    var sha := GitHub.ShaForRepo(api, CookbooksSlug, Some(branch), 7);
    DescriptionShape(name, imageType, sha);
    if head.None? {
      assert sha == "fffffff";
    } else if |head.value| >= 7 {
      assert sha == head.value[..7];
    }
  }

  /** What `create` does once it has asked for its server: if that raised,
      `clean_up(nil)`; otherwise provision the server and then, on success,
      save it under the description and destroy it; on a false result
      destroy it unless `--keep`; on an exception destroy it. */
  function AfterRequest(servers: seq<Vm>, created: Result<Vm, string>, provisioned: Result<bool, string>,
                        keep: bool, description: string): seq<Action>
  {
    match created
    case Err(_) => DestroyActions(ServersWithName(servers, Provisioning))
    case Ok(vm) =>
      match provisioned
      case Err(_) => DestroyActions([vm])
      case Ok(true) => [SaveTemplate(vm.id, description)] + DestroyActions([vm])
      case Ok(false) => if keep then [] else DestroyActions([vm])
  }

  /** The provider calls of `create`: the server request, then the rest. */
  function CreateSteps(request: map<string, string>, servers: seq<Vm>, created: Result<Vm, string>,
                       provisioned: Result<bool, string>, keep: bool, description: string): seq<Action>
  {
    [CreateServer(request)] + AfterRequest(servers, created, provisioned, keep, description)
  }

  /** A template is saved exactly when the server was created and
      provisioning returned true, and then under the given description,
      followed by the destruction of that server. */
  lemma SavesOnlyOnSuccess(request: map<string, string>, servers: seq<Vm>, created: Result<Vm, string>,
                           provisioned: Result<bool, string>, keep: bool, description: string)
    ensures var steps := CreateSteps(request, servers, created, provisioned, keep, description);
      (exists a | a in steps :: a.SaveTemplate?) <==> created.Ok? && provisioned == Ok(true)
    ensures created.Ok? && provisioned == Ok(true) ==>
      CreateSteps(request, servers, created, provisioned, keep, description)
        == [CreateServer(request), SaveTemplate(created.value.id, description), DestroyServer(created.value.id)]
  {
    var steps := CreateSteps(request, servers, created, provisioned, keep, description);
    if created.Err? {
      assert steps == [CreateServer(request)] + DestroyActions(ServersWithName(servers, Provisioning));
      forall a | a in steps
        ensures !a.SaveTemplate?
      {
        var i :| 0 <= i < |steps| && steps[i] == a;
        if i > 0 {
          DestroyActionsAt(ServersWithName(servers, Provisioning), i - 1);
          assert a == DestroyActions(ServersWithName(servers, Provisioning))[i - 1];
        }
      }
    } else if provisioned == Ok(true) {
      assert steps[1] == SaveTemplate(created.value.id, description);
    }
  }

  /** Every path that raised cleans up and saves nothing: a failed server
      request destroys every provisioning server, a failed provisioning run
      destroys exactly the server it was given. */
  lemma ExceptionsCleanUp(request: map<string, string>, servers: seq<Vm>, created: Result<Vm, string>,
                          provisioned: Result<bool, string>, keep: bool, description: string)
    ensures created.Err? ==> CreateSteps(request, servers, created, provisioned, keep, description)
                             == [CreateServer(request)] + DestroyActions(ServersWithName(servers, Provisioning))
    ensures created.Ok? && provisioned.Err? ==>
      CreateSteps(request, servers, created, provisioned, keep, description)
        == [CreateServer(request), DestroyServer(created.value.id)]
  {
  }

  /** A provisioning run that returned false destroys the server unless it
      is kept, and a kept server is left alone. */
  lemma FailureKeepsOnlyWhenAsked(request: map<string, string>, servers: seq<Vm>, vm: Vm,
                                  keep: bool, description: string)
    ensures var steps := CreateSteps(request, servers, Ok(vm), Ok(false), keep, description);
      (DestroyServer(vm.id) in steps <==> !keep) && steps[0] == CreateServer(request)
      && (keep ==> steps == [CreateServer(request)])
  {
  }

  /** The options `create` requests its server with, before the password
      is added: the provisioning host name, and the base image when a custom
      one is used. */
  function ShownOptions(imageType: string, base: Option<bool>, baseImageId: string): (r: map<string, string>)
    ensures "hostname" in r && r["hostname"] == Provisioning + imageType
    ensures "password" !in r
    ensures "image_id" in r <==> CustomBaseImage(imageType, base)
    ensures "image_id" in r ==> r["image_id"] == baseImageId
    ensures r.Keys <= {"hostname", "image_id"}
  {
    var opts := map["hostname" := ProvisioningHost(imageType)];
    if CustomBaseImage(imageType, base) then opts["image_id" := baseImageId] else opts
  }

  /** `VmProvisoner.new(...)`: the constant is not defined (the class is
      `VmProvisioner`, whose constructor also takes seven arguments, not
      four), so the step raises before any provisioning happens. */
  function ProvisionAsWritten(): Result<bool, string> {
    Err("uninitialized constant VmProvisoner")
  }

  /** As written, `create` never saves a template: once the server exists,
      the provisioner step raises and the server is destroyed. */
  lemma AsWrittenNeverSaves(request: map<string, string>, servers: seq<Vm>, vm: Vm, keep: bool, description: string)
    ensures var steps := CreateSteps(request, servers, Ok(vm), ProvisionAsWritten(), keep, description);
      (forall a | a in steps :: !a.SaveTemplate?) && steps == [CreateServer(request), DestroyServer(vm.id)]
  {
  }

  /** The tool's view of one provider account. */
  class Cli {
    /** `provider.servers`. */
    const servers: seq<Vm>
    /** The provider calls made so far, in order. */
    var actions: seq<Action>

    constructor (servers: seq<Vm>)
      ensures this.servers == servers && actions == []
    {
      this.servers := servers;
      actions := [];
    }

    /** `clean_up(servers = nil)`: destroy each given server, or every
        provisioning server when none is given, and count them. */
    method CleanUp(given: Option<seq<Vm>>) returns (count: nat)
      modifies this`actions
      ensures var list := if given.Some? then given.value else ServersWithName(servers, Provisioning);
        actions == old(actions) + DestroyActions(list) && count == |list|
    {
      var list := if given.Some? then given.value else ServersWithName(servers, Provisioning);
      var i := 0;
      while i < |list|
        invariant 0 <= i <= |list|
        invariant actions == old(actions) + DestroyActions(list[..i])
      {
        assert list[..i + 1] == list[..i] + [list[i]];
        DestroyActionsConcat(list[..i], [list[i]]);
        actions := actions + [DestroyServer(list[i].id)];
        i := i + 1;
      }
      assert list[..i] == list;
      count := i;
    }

    /** `destroy(name)`: destroy every server whose host name matches
        `/^#{name}/`; when there is none, the host names that contain the
        name anywhere are suggested and the tool exits with status 1. */
    method Destroy(name: string) returns (destroyed: bool, suggestions: seq<string>)
      modifies this`actions
      ensures actions == old(actions) + DestroyActions(ServersWithName(servers, name))
      ensures destroyed <==> ServersWithName(servers, name) != []
      ensures destroyed ==> suggestions == []
      ensures !destroyed ==> suggestions == Suggestions(servers, name)
    {
      var list := ServersWithName(servers, name);
      destroyed := false;
      var i := 0;
      while i < |list|
        invariant 0 <= i <= |list|
        invariant actions == old(actions) + DestroyActions(list[..i])
        invariant destroyed <==> i > 0
      {
        assert list[..i + 1] == list[..i] + [list[i]];
        DestroyActionsConcat(list[..i], [list[i]]);
        actions := actions + [DestroyServer(list[i].id)];
        destroyed := true;
        i := i + 1;
      }
      assert list[..i] == list;
      suggestions := [];
      if !destroyed {
        suggestions := Suggestions(servers, name);
      }
    }

    /** `create(image_type)`: build the request, then run `CreateSteps`
        with the outcomes the provider and the provisioner give; the
        description uses the short head of the cookbooks branch. Returns the
        options as printed, which hold no password. */
    method Create(imageType: string, base: Option<bool>, baseImageId: string, password: string,
                  name: Option<string>, branch: string, keep: bool, api: string -> Option<string>,
                  created: Result<Vm, string>, provisioned: Result<bool, string>)
      returns (shown: map<string, string>)
      modifies this`actions
      ensures shown == ShownOptions(imageType, base, baseImageId)
      ensures actions == old(actions) + CreateSteps(shown["password" := password], servers, created, provisioned, keep,
                                                    TemplateDescription(name, imageType, api, branch))
    {
      var opts;
      shown, opts := Request(imageType, base, baseImageId, password);
      actions := actions + [CreateServer(opts)];
      Provision(created, provisioned, keep, name, imageType, api, branch);
    }

    /** The options hash `create` builds: the host name, the base image
        when a custom one is used, and then the password. */
    static method Request(imageType: string, base: Option<bool>, baseImageId: string, password: string)
      returns (shown: map<string, string>, opts: map<string, string>)
      ensures shown == ShownOptions(imageType, base, baseImageId)
      ensures opts == shown["password" := password]
    {
      opts := map["hostname" := ProvisioningHost(imageType)];
      if CustomBaseImage(imageType, base) {
        opts := opts["image_id" := baseImageId];
      }
      shown := opts;
      opts := opts["password" := password];
    }

    /** The `begin ... rescue` part of `create` and what follows it, once
        the server has been asked for. */
    method Provision(created: Result<Vm, string>, provisioned: Result<bool, string>,
                     keep: bool, name: Option<string>, imageType: string, api: string -> Option<string>, branch: string)
      modifies this`actions
      ensures actions == old(actions) + AfterRequest(servers, created, provisioned, keep, TemplateDescription(name, imageType, api, branch))
    {
      match created
      case Err(_) =>
        var _ := CleanUp(None);
      case Ok(vm) =>
        match provisioned
        case Err(_) =>
          var _ := CleanUp(Some([vm]));
        case Ok(result) =>
          if result {
            var desc := Description(name, imageType, GitHub.ShaForRepo(api, CookbooksSlug, Some(branch), 7));
            actions := actions + [SaveTemplate(vm.id, desc)];
            var _ := CleanUp(Some([vm]));
          } else if !keep {
            var _ := CleanUp(Some([vm]));
          }
    }

    /** `duplicates`: the servers every duplicate group but its last,
        destroyed with `--destroy`, listed otherwise. */
    method Duplicates(destroy: bool) returns (listed: seq<Vm>)
      modifies this`actions
      ensures listed == Dup.Acted(servers)
      ensures actions == old(actions) + DestroyedIf(destroy, listed)
    {
      var keys, groups := Dup.GroupServers(servers);
      listed := ActOnGroups(keys, groups, destroy);
    }

    /** The loop over the pruned, sorted hash. */
    method ActOnGroups(keys: seq<Option<string>>, groups: map<Option<string>, seq<Vm>>, destroy: bool)
      returns (listed: seq<Vm>)
      requires forall k | k in keys :: k in groups
      modifies this`actions
      ensures listed == Dup.ActedOverGroups(keys, groups)
      ensures actions == old(actions) + DestroyedIf(destroy, listed)
    {
      ghost var a0 := actions;
      listed := [];
      var j := 0;
      while j < |keys|
        invariant 0 <= j <= |keys|
        invariant listed == Dup.ActedOverGroups(keys[..j], groups)
        invariant actions == a0 + DestroyedIf(destroy, listed)
      {
        ghost var before := DestroyedIf(destroy, listed);
        var acted := ActOnGroup(keys[j], groups[keys[j]], destroy);
        assert actions == (a0 + before) + DestroyedIf(destroy, acted);
        Dup.ActedOverGroupsStep(keys, groups, j);
        DestroyedIfConcat(destroy, listed, acted);
        AppendAssoc(a0, before, DestroyedIf(destroy, acted));
        listed := listed + acted;
        j := j + 1;
      }
      assert keys[..j] == keys;
    }

    /** One entry of the pruned, sorted hash: all but the last server of
        a kept group, destroyed with `--destroy`. */
    method ActOnGroup(k: Option<string>, g: seq<Vm>, destroy: bool) returns (acted: seq<Vm>)
      modifies this`actions
      ensures acted == Dup.ActedOfGroup(g, k)
      ensures actions == old(actions) + DestroyedIf(destroy, acted)
    {
      acted := [];
      if k.Some? && |g| >= 2 {
        var v := Dup.SortBy(g, Dup.Rank);
        acted := v[..|v| - 1];
      }
      if destroy {
        var _ := DestroyEach(acted);
      }
    }

    /** `server.destroy` for each server of the list, in order. */
    method DestroyEach(list: seq<Vm>) returns (count: nat)
      modifies this`actions
      ensures actions == old(actions) + DestroyActions(list) && count == |list|
    {
      count := CleanUp(Some(list));
    }
  }

  /** The calls `duplicates` makes for the listed servers: their
      destruction with `--destroy`, none otherwise. */
  function DestroyedIf(destroy: bool, list: seq<Vm>): (r: seq<Action>)
    ensures destroy ==> r == DestroyActions(list)
    ensures !destroy ==> r == []
  {
    if destroy then DestroyActions(list) else []
  }

  lemma DestroyedIfConcat(destroy: bool, a: seq<Vm>, b: seq<Vm>)
    ensures DestroyedIf(destroy, a + b) == DestroyedIf(destroy, a) + DestroyedIf(destroy, b)
  {
    DestroyActionsConcat(a, b);
  }

  /** The host names `destroy` suggests: those containing the name
      anywhere, in the provider's order. */
  function Suggestions(servers: seq<Vm>, name: string): (r: seq<string>)
    ensures forall h :: h in r <==> exists v | v in servers :: v.hostname == Some(h) && Contains(h, name)
  {
    if servers == [] then []
    else
      var rest := Suggestions(servers[1..], name);
      assert forall v | v in servers :: v == servers[0] || v in servers[1..];
      match servers[0].hostname
      case Some(h) => if Contains(h, name) then [h] + rest else rest
      case None => rest
  }
}
