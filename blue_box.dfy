/** The Blue Box driver: template lookup among the account's private
    templates, the server-creation request merged over its defaults, saving
    a server as a template, and tearing servers down. Fog is replaced by its
    answers (the template list of each successive request, the server list);
    the calls the driver makes are recorded in order. */
module BlueBox {
  import opened Wrappers
  import opened Strings
  import opened Timestamps
  import Catalog

  /** An entry of `connection.get_templates.body`; `public` is absent on
      entries that do not carry the field. */
  datatype Template = Template(id: string, description: string, public: Option<bool>, created: string)

  /** A Fog server. */
  datatype Server = Server(id: string, state: string)

  /** What the driver asks of Fog. */
  datatype Call =
    | CreateTemplate(server: string, description: string)
    | DestroyServer(server: string)

  /** `t['public'] == false`: only an explicit `false` counts as private. */
  predicate IsPrivate(t: Template) {
    t.public == Some(false)
  }

  /** `t['description'] =~ /^travis-/`. */
  predicate IsTravis(t: Template) {
    LineStartsWith(t.description, "travis-")
  }

  /** `private_templates`. */
  function PrivateTemplates(templates: seq<Template>): (r: seq<Template>)
    ensures forall t :: t in r <==> t in templates && IsPrivate(t)
  {
    Catalog.Filter(templates, IsPrivate)
  }

  /** `travis_templates`: the private templates described like a Travis template. */
  function TravisTemplates(templates: seq<Template>): (r: seq<Template>)
    ensures forall t :: t in r <==> t in templates && IsPrivate(t) && IsTravis(t)
  {
    Catalog.Filter(PrivateTemplates(templates), IsTravis)
  }

  /** The templates `latest_template(type)` chooses among: the type is
      matched anywhere in the description (`=~ /#{type}/` has no anchor). */
  function Candidates(templates: seq<Template>, imageType: string): (r: seq<Template>)
    ensures forall t :: t in r <==> t in templates && IsPrivate(t) && IsTravis(t) && Contains(t.description, imageType)
  {
    Catalog.Filter(TravisTemplates(templates), (t: Template) => Contains(t.description, imageType))
  }

  /** `latest_template(type)`: a private Travis template whose description
      contains the type and that was created last, or None (nil). A public
      template is never the answer. */
  function LatestTemplate(templates: seq<Template>, imageType: string): (r: Option<Template>)
    ensures r.None? <==> forall t | t in templates :: !(IsPrivate(t) && IsTravis(t) && Contains(t.description, imageType))
    ensures r.Some? ==> r.value in templates && IsPrivate(r.value) && IsTravis(r.value) && Contains(r.value.description, imageType)
    ensures r.Some? ==> forall t | t in templates && IsPrivate(t) && IsTravis(t) && Contains(t.description, imageType) ::
                          LessEq(t.created, r.value.created)
  {
    var c := Candidates(templates, imageType);
    assert c == [] <==> forall t | t in templates :: !(IsPrivate(t) && IsTravis(t) && Contains(t.description, imageType)) by {
      if c != [] {
        assert c[0] in c;
      }
    }
    Catalog.Newest(c, (t: Template) => t.created)
  }

  /** `find_template(description)`: the first private template with exactly
      that description. */
  function FindTemplate(templates: seq<Template>, description: string): Option<Template> {
    if templates == [] then None
    else if IsPrivate(templates[0]) && templates[0].description == description then Some(templates[0])
    else FindTemplate(templates[1..], description)
  }

  /** The template found is a listed private template with exactly that
      description, and there is one exactly when such a template is listed. */
  lemma {:induction false} FindTemplateFound(templates: seq<Template>, description: string)
    ensures var r := FindTemplate(templates, description);
      && (r.Some? ==> r.value in templates && IsPrivate(r.value) && r.value.description == description)
      && (r.None? <==> forall t | t in templates :: !(IsPrivate(t) && t.description == description))
  {
    if templates != [] {
      FindTemplateFound(templates[1..], description);
      assert templates == [templates[0]] + templates[1..];
    }
  }

  /** `find_template` is Ruby's `find` with the private-and-description
      test: it picks the first such template. */
  lemma {:induction false} FindTemplateIsFind(templates: seq<Template>, description: string)
    ensures FindTemplate(templates, description) == Catalog.Find(templates, (t: Template) => IsPrivate(t) && t.description == description)
  {
    if templates != [] {
      FindTemplateIsFind(templates[1..], description);
    }
  }

  /** `find_template` is `find` over `private_templates`: searching the
      private list gives the same answer as searching all of it, and is the
      first match there. */
  lemma {:induction false} FindTemplatePrivate(templates: seq<Template>, description: string)
    ensures FindTemplate(templates, description)
         == Catalog.Find(PrivateTemplates(templates), (t: Template) => t.description == description)
  {
    if templates != [] {
      FindTemplatePrivate(templates[1..], description);
      var p := PrivateTemplates(templates);
      if IsPrivate(templates[0]) {
        assert p == [templates[0]] + PrivateTemplates(templates[1..]);
        assert p[1..] == PrivateTemplates(templates[1..]);
      }
    }
  }

  /** The account's configuration entries `create_server` reads. */
  datatype Config = Config(imageId: string, flavorId: string, locationId: string)

  /** The defaults `create_server` starts from. */
  function Defaults(password: string, config: Config): map<string, string> {
    map["username" := "travis", "password" := password, "image_id" := config.imageId,
        "flavor_id" := config.flavorId, "location_id" := config.locationId]
  }

  /** The arguments of `connection.servers.create`: the options merged over
      the defaults, the options winning; the default image is dropped when
      the options name a template. An option key is present when the option
      is set (nil-valued options are not modelled). */
  method CreateServer(password: string, opts: map<string, string>, config: Config) returns (request: map<string, string>)
    ensures forall k | k in opts :: k in request && request[k] == opts[k]
    ensures forall k | k in Defaults(password, config) && k !in opts && !(k == "image_id" && "template_id" in opts) ::
              k in request && request[k] == Defaults(password, config)[k]
    ensures request.Keys == opts.Keys + Defaults(password, config).Keys - (if "template_id" in opts && "image_id" !in opts then {"image_id"} else {})
  {
    var defaults := map["username" := "travis", "password" := password, "image_id" := config.imageId,
                        "flavor_id" := config.flavorId, "location_id" := config.locationId];
    if "template_id" in opts {
      defaults := defaults - {"image_id"};
    }
    request := defaults + opts;
  }

  /** `['running', 'error'].include?(server.state)`. */
  predicate IsDisposable(s: Server) {
    s.state == "running" || s.state == "error"
  }

  /** The calls destroying the given servers, in order. */
  function DestroyCalls(servers: seq<Server>): (r: seq<Call>)
    ensures |r| == |servers|
    ensures forall i | 0 <= i < |servers| :: r[i] == DestroyServer(servers[i].id)
  {
    Catalog.Map(servers, (s: Server) => DestroyServer(s.id))
  }

  lemma DestroyCallsConcat(a: seq<Server>, b: seq<Server>)
    ensures DestroyCalls(a + b) == DestroyCalls(a) + DestroyCalls(b)
  {
    Catalog.MapConcat(a, b, (s: Server) => DestroyServer(s.id));
  }

  /** One more server examined by `clean_up`: one more call exactly when it
      is running or in error. */
  lemma CleanUpStep(servers: seq<Server>, i: nat)
    requires i < |servers|
    ensures DestroyCalls(Catalog.Filter(servers[..i + 1], IsDisposable))
         == DestroyCalls(Catalog.Filter(servers[..i], IsDisposable)) + (if IsDisposable(servers[i]) then [DestroyServer(servers[i].id)] else [])
  {
    assert servers[..i + 1] == servers[..i] + [servers[i]];
    Catalog.FilterSnoc(servers[..i], servers[i], IsDisposable);
    DestroyCallsConcat(Catalog.Filter(servers[..i], IsDisposable), if IsDisposable(servers[i]) then [servers[i]] else []);
  }

  /** `clean_up` destroys a server exactly when it is running or in error
      (servers are told apart by their ids). */
  lemma CleanUpExactlyDisposable(servers: seq<Server>, s: Server)
    requires Catalog.UniqueKeys(servers, (x: Server) => x.id) && s in servers
    ensures DestroyServer(s.id) in DestroyCalls(Catalog.Filter(servers, IsDisposable)) <==> IsDisposable(s)
  {
    var chosen := Catalog.Filter(servers, IsDisposable);
    Catalog.FilterKeys(servers, IsDisposable, (x: Server) => x.id, s);
    if DestroyServer(s.id) in DestroyCalls(chosen) {
      var i :| 0 <= i < |chosen| && DestroyCalls(chosen)[i] == DestroyServer(s.id);
      assert chosen[i] in chosen;
    }
    if IsDisposable(s) {
      var i :| 0 <= i < |chosen| && chosen[i] == s;
      assert DestroyCalls(chosen)[i] == DestroyServer(s.id);
    }
  }

  /** Requests `from` to `to - 1` were made, and the last of them is the
      first whose template list holds `description` among the private ones. */
  ghost predicate FirstListed(answers: nat -> seq<Template>, description: string, from: nat, to: nat) {
    from < to &&
    FindTemplate(answers(to - 1), description).Some? &&
    forall k | from <= k < to - 1 :: FindTemplate(answers(k), description).None?
  }

  /** The driver's view of one Blue Box account. */
  class Connection {
    /** The template list the n-th `get_templates` request answers. */
    const answers: nat -> seq<Template>
    /** `connection.servers`. */
    const servers: seq<Server>
    /** How many template requests have been made. */
    var requests: nat
    /** The calls made on Fog so far, in order. */
    var calls: seq<Call>

    constructor (answers: nat -> seq<Template>, servers: seq<Server>)
      ensures this.answers == answers && this.servers == servers
      ensures requests == 0 && calls == []
    {
      this.answers := answers;
      this.servers := servers;
      requests := 0;
      calls := [];
    }

    /** `templates`: one request. */
    method Templates() returns (templates: seq<Template>)
      modifies this`requests
      ensures templates == answers(old(requests)) && requests == old(requests) + 1
    {
      templates := answers(requests);
      requests := requests + 1;
    }

    /** `save_template(server, desc)`: ask for a template described after
        the description and the time, then wait until it is listed. */
    method SaveTemplate(server: Server, desc: string, now: UtcTime) returns (fullDesc: string)
      requires Valid(now)
      requires exists k :: requests <= k && FindTemplate(answers(k), TemplateName(desc, now)).Some?
      modifies this`requests, this`calls
      ensures fullDesc == TemplateName(desc, now)
      ensures calls == old(calls) + [CreateTemplate(server.id, fullDesc)]
      ensures FirstListed(answers, fullDesc, old(requests), requests)
    {
      fullDesc := TemplateName(desc, now);
      calls := calls + [CreateTemplate(server.id, fullDesc)];
      WaitListed(fullDesc);
    }

    /** The `while !find_template(full_desc)` loop. It has no bound of its
        own; it ends because the template is listed at some request. */
    method WaitListed(description: string)
      requires exists k :: requests <= k && FindTemplate(answers(k), description).Some?
      modifies this`requests
      ensures FirstListed(answers, description, old(requests), requests)
    {
      ghost var target :| requests <= target && FindTemplate(answers(target), description).Some?;
      ghost var from := requests;
      var templates := Templates();
      while FindTemplate(templates, description).None?
        invariant from < requests <= target + 1
        invariant templates == answers(requests - 1)
        invariant forall k | from <= k < requests - 1 :: FindTemplate(answers(k), description).None?
        decreases target + 1 - requests
      {
        templates := Templates();
      }
    }

    /** `clean_up`: destroy every running or failed server, in list order. */
    method CleanUp()
      modifies this`calls
      ensures calls == old(calls) + DestroyCalls(Catalog.Filter(servers, IsDisposable))
    {
      var i := 0;
      while i < |servers|
        invariant 0 <= i <= |servers|
        invariant calls == old(calls) + DestroyCalls(Catalog.Filter(servers[..i], IsDisposable))
      {
        CleanUpStep(servers, i);
        if IsDisposable(servers[i]) {
          calls := calls + [DestroyServer(servers[i].id)];
        }
        i := i + 1;
      }
      assert servers[..i] == servers;
    }
  }
}
