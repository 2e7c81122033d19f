/** The Sauce Labs driver: the accessors of its virtual machines, the
    start-up request of `create_server`, saving and killing instances, and
    its fixed template. The Sauce Labs API is replaced by its answers (the
    id `start_instance` hands out and what `instance_info` tells about an
    instance); the calls the driver makes are recorded in order. */
module SauceLabs {
  import opened Wrappers
  import opened Timestamps

  /** What `instance_info` answers about one instance: its `extra_info`
      hash (absent on some), `FQDN`, `public_ip`, `State` and `instance_id`. */
  datatype Instance = Instance(
    extraInfo: Option<map<string, string>>, fqdn: Option<string>,
    publicIp: Option<string>, state: Option<string>, instanceId: string)

  /** What the driver asks of the API. */
  datatype Call =
    | StartInstance(startupInfo: map<string, string>, imageName: string)
    | AllowOutgoing(instance: string)
    | KillInstance(instance: string)
    | SaveImage(instance: string, name: string)

  /** The image every server starts from unless told otherwise, and the
      only template the driver knows. */
  const DefaultImage: string := "ichef-osx8-10.8-working"

  /** `hostname`: the host name in `extra_info` when there is one, else the
      FQDN. */
  function Hostname(vm: Instance): (r: Option<string>)
    ensures vm.extraInfo.Some? && "hostname" in vm.extraInfo.value ==> r == Some(vm.extraInfo.value["hostname"])
    ensures !(vm.extraInfo.Some? && "hostname" in vm.extraInfo.value) ==> r == vm.fqdn
  {
    match vm.extraInfo
    case Some(extra) => if "hostname" in extra then Some(extra["hostname"]) else vm.fqdn
    case None => vm.fqdn
  }

  /** The host name always comes from one of the two fields, preferring
      `extra_info`: without an `extra_info` host name, no FQDN means no
      host name. */
  lemma HostnameSource(vm: Instance)
    ensures Hostname(vm).Some? <==> (vm.extraInfo.Some? && "hostname" in vm.extraInfo.value) || vm.fqdn.Some?
    ensures Hostname(vm).Some? ==> (vm.extraInfo.Some? && "hostname" in vm.extraInfo.value
                                      && Hostname(vm).value == vm.extraInfo.value["hostname"])
                                   || Hostname(vm) == vm.fqdn
  {
  }

  /** `ip_address`. */
  function IpAddress(vm: Instance): Option<string> {
    vm.publicIp
  }

  /** The options `create_server` reads. */
  datatype ServerOptions = ServerOptions(hostname: Option<string>, password: Option<string>, imageName: Option<string>)

  /** `startup_info`, built by setting each key only when its option is
      given: it holds those keys and no others. */
  method StartupInfo(opts: ServerOptions) returns (info: map<string, string>)
    ensures info.Keys == (if opts.hostname.Some? then {"hostname"} else {}) + (if opts.password.Some? then {"password"} else {})
    ensures opts.hostname.Some? ==> info["hostname"] == opts.hostname.value
    ensures opts.password.Some? ==> info["password"] == opts.password.value
  {
    info := map[];
    if opts.hostname.Some? {
      info := info["hostname" := opts.hostname.value];
    }
    if opts.password.Some? {
      info := info["password" := opts.password.value];
    }
  }

  /** `opts[:image_name] || 'ichef-osx8-10.8-working'`. */
  function ImageName(opts: ServerOptions): (r: string)
    ensures opts.imageName.Some? ==> r == opts.imageName.value
    ensures opts.imageName.None? ==> r == DefaultImage
  {
    opts.imageName.GetOr(DefaultImage)
  }

  /** `latest_template(type)`, whatever the type. */
  function LatestTemplate(imageType: string): (r: map<string, string>)
    ensures r.Keys == {"id"} && r["id"] == DefaultImage
  {
    map["id" := DefaultImage]
  }

  /** `templates`. */
  function Templates(): (r: seq<map<string, string>>)
    ensures |r| == 1
  {
    [map["id" := DefaultImage]]
  }

  /** The latest template of any type is the one template there is. */
  lemma LatestIsOnlyTemplate(imageType: string)
    ensures Templates() == [LatestTemplate(imageType)]
  {
  }

  /** The driver's view of one Sauce Labs account. */
  class Connection {
    /** The instance id `start_instance` answers. */
    const started: string
    /** What `instance_info` answers for each instance id. */
    const info: string -> Instance
    /** The calls made on the API so far, in order. */
    var calls: seq<Call>

    constructor (started: string, info: string -> Instance)
      ensures this.started == started && this.info == info && calls == []
    {
      this.started := started;
      this.info := info;
      calls := [];
    }

    /** `create_server(opts)`: start an instance with the start-up info and
        the image, open its outgoing traffic, and describe it. */
    method CreateServer(opts: ServerOptions) returns (vm: Instance)
      modifies this`calls
      ensures exists s :: calls == old(calls) + [StartInstance(s, ImageName(opts)), AllowOutgoing(started)]
                          && s.Keys == (if opts.hostname.Some? then {"hostname"} else {}) + (if opts.password.Some? then {"password"} else {})
                          && (opts.hostname.Some? ==> s["hostname"] == opts.hostname.value)
                          && (opts.password.Some? ==> s["password"] == opts.password.value)
      ensures vm == info(started)
    {
      var startup := StartupInfo(opts);
      calls := calls + [StartInstance(startup, opts.imageName.GetOr(DefaultImage))];
      calls := calls + [AllowOutgoing(started)];
      vm := info(started);
    }

    /** `VirtualMachine#destroy`, which is `destroy_server(self)`: kill
        exactly this machine's instance. */
    method Destroy(vm: Instance)
      modifies this`calls
      ensures calls == old(calls) + [KillInstance(vm.instanceId)]
    {
      calls := calls + [KillInstance(vm.instanceId)];
    }

    /** `save_template(server, desc)`: save the instance under the template
        name for the description and the time. The answer of `save_image`,
        which Ruby returns, is not modelled. */
    method SaveTemplate(vm: Instance, desc: string, now: UtcTime)
      requires Valid(now)
      modifies this`calls
      ensures calls == old(calls) + [SaveImage(vm.instanceId, TemplateName(desc, now))]
    {
      calls := calls + [SaveImage(vm.instanceId, TemplateName(desc, now))];
    }
  }
}
