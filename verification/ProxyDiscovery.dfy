/**
 * Routing of the HTTPS front (internal/proxy/proxy_discovery.go): which
 * upstream serves a host name. The base domain goes to the internal API, a
 * single label under it names a service or a proxy entry, and any other host
 * is looked up among the configured custom domains. The lookups are the
 * caches and repositories of the launcher, passed in as functions.
 */
module ProxyDiscovery {
  import opened Wrappers
  import opened Strs

  /** The outcome of a repository lookup: found, the repository's not-found error, or any other failure. */
  datatype Lookup<+T> = Found(value: T) | NotFound | Failed

  datatype RunningService = RunningService(ip: string, port: int)

  /** What a custom domain points at: a service, a proxy entry, or (in a broken record) neither. */
  datatype DomainTarget = DomainTarget(service: Option<string>, proxyEntry: Option<string>)

  /** The upstream a request is proxied to. */
  datatype Target = InternalApi(address: string) | ServiceAt(ip: string, port: int) | Upstream(url: string)

  datatype IdError = HostIsBaseDomain | EmptyPrefix | DottedPrefix

  datatype ResolveError =
    | InvalidId(reason: IdError)
    | NoTargetForDomain
    | ServiceNotFoundForId(id: string)
    | ProxyEntryNotFoundForId(id: string)
    | BadTargetUrl(url: string)
    | ServiceLookupFailed(id: string)
    | ProxyEntryLookupFailed(id: string)
    | NoTargetForHost(id: string)

  /**
   * extractID: the label in front of "." + apiDomain; "" for a host outside
   * the base domain; an error for the base domain itself, an empty label or
   * a label that contains '.'.
   */
  function ExtractId(host: string, apiDomain: string): (r: Result<string, IdError>)
    ensures host == apiDomain ==> r == Err(HostIsBaseDomain)
    ensures host != apiDomain && !HasSuffix(host, "." + apiDomain) ==> r == Ok("")
    ensures r.Ok? && r.value != "" ==> r.value + "." + apiDomain == host && '.' !in r.value
    ensures r.Err? && r.error != HostIsBaseDomain ==> HasSuffix(host, "." + apiDomain)
  {
    if host == apiDomain then Err(HostIsBaseDomain)
    else
      var suffix := "." + apiDomain;
      if !HasSuffix(host, suffix) then Ok("")
      else
        var id := TrimSuffix(host, suffix);
        if id == "" then Err(EmptyPrefix)
        else if '.' in id then Err(DottedPrefix)
        else Ok(id)
  }

  /** A single label under the base domain is extracted back: the inverse of building "id.apiDomain". */
  lemma ExtractIdRoundTrip(id: string, apiDomain: string)
    requires id != "" && '.' !in id
    ensures ExtractId(id + "." + apiDomain, apiDomain) == Ok(id)
  {
    var host := id + "." + apiDomain;
    assert |host| != |apiDomain|;
    assert host[|host| - |"." + apiDomain|..] == "." + apiDomain;
    assert host[..|host| - |"." + apiDomain|] == id;
  }

  /** Two labels under the base domain are refused, as is a bare dot in front of it. */
  lemma ExtractIdRefusesDeeperNames(a: string, b: string, apiDomain: string)
    requires a != "" && '.' !in a && b != "" && '.' !in b
    ensures ExtractId(a + "." + b + "." + apiDomain, apiDomain) == Err(DottedPrefix)
    ensures ExtractId("." + apiDomain, apiDomain) == Err(EmptyPrefix)
  {
    var host := a + "." + b + "." + apiDomain;
    var suffix := "." + apiDomain;
    assert host == (a + "." + b) + suffix;
    assert host[|host| - |suffix|..] == suffix;
    assert host[..|host| - |suffix|] == a + "." + b;
    assert (a + "." + b)[|a|] == '.';
    var bare := "." + apiDomain;
    assert |bare| != |apiDomain|;
    assert bare[|bare| - |suffix|..] == suffix;
  }

  /** The service's address as net.JoinHostPort(ip, strconv.Itoa(port)) would print it. */
  function ServiceTarget(s: RunningService): Target {
    ServiceAt(s.ip, s.port)
  }

  /** A proxy entry's target URL, if url.Parse accepts it. */
  function EntryTarget(url: string, parses: string -> bool): (r: Result<Target, ResolveError>)
    ensures parses(url) <==> r == Ok(Upstream(url))
    ensures !parses(url) ==> r == Err(BadTargetUrl(url))
  {
    if parses(url) then Ok(Upstream(url)) else Err(BadTargetUrl(url))
  }

  /** The custom-domain branch: the domain's service, else its proxy entry; any lookup failure is an error. */
  function ResolveByDomain(host: string,
                           findDomain: string -> Lookup<DomainTarget>,
                           findService: string -> Lookup<RunningService>,
                           findEntry: string -> Lookup<string>,
                           parses: string -> bool): (r: Result<Target, ResolveError>)
    ensures !findDomain(host).Found? ==> r == Err(NoTargetForDomain)
    ensures findDomain(host).Found? && findDomain(host).value.service.Some? ==>
      var sid := findDomain(host).value.service.value;
      (findService(sid).Found? <==> r.Ok?) && (r.Ok? ==> r.value == ServiceTarget(findService(sid).value))
    ensures findDomain(host).Found? && findDomain(host).value.service.Some? && !findService(findDomain(host).value.service.value).Found? ==>
      r == Err(ServiceNotFoundForId(findDomain(host).value.service.value))
    ensures findDomain(host).Found? && findDomain(host).value.service.None? && findDomain(host).value.proxyEntry.Some? ==>
      var eid := findDomain(host).value.proxyEntry.value;
      if findEntry(eid).Found? then r == EntryTarget(findEntry(eid).value, parses) else r == Err(ProxyEntryNotFoundForId(eid))
    ensures findDomain(host).Found? && findDomain(host).value.service.None? && findDomain(host).value.proxyEntry.None? ==>
      r == Err(NoTargetForDomain)
    ensures r.Ok? && r.value.Upstream? ==> findDomain(host).value.service.None? && findDomain(host).value.proxyEntry.Some?
  {
    match findDomain(host)
    case NotFound => Err(NoTargetForDomain)
    case Failed => Err(NoTargetForDomain)
    case Found(target) =>
      if target.service.Some? then
        match findService(target.service.value)
        case Found(s) => Ok(ServiceTarget(s))
        case _ => Err(ServiceNotFoundForId(target.service.value))
      else if target.proxyEntry.Some? then
        match findEntry(target.proxyEntry.value)
        case Found(url) => EntryTarget(url, parses)
        case _ => Err(ProxyEntryNotFoundForId(target.proxyEntry.value))
      else Err(NoTargetForDomain)
  }

  /** The label branch: a running service first, then an enabled proxy entry; only not-found falls through. */
  function ResolveById(id: string,
                       findService: string -> Lookup<RunningService>,
                       findEntry: string -> Lookup<string>,
                       parses: string -> bool): (r: Result<Target, ResolveError>)
    ensures findService(id).Found? ==> r == Ok(ServiceTarget(findService(id).value))
    ensures findService(id).Failed? ==> r == Err(ServiceLookupFailed(id))
    ensures findService(id).NotFound? && findEntry(id).Failed? ==> r == Err(ProxyEntryLookupFailed(id))
    ensures findService(id).NotFound? && findEntry(id).NotFound? ==> r == Err(NoTargetForHost(id))
    ensures findService(id).NotFound? && findEntry(id).Found? ==> r == EntryTarget(findEntry(id).value, parses)
    ensures r.Ok? && r.value.Upstream? ==> findService(id).NotFound? && findEntry(id) == Found(r.value.url)
  {
    match findService(id)
    case Found(s) => Ok(ServiceTarget(s))
    case Failed => Err(ServiceLookupFailed(id))
    case NotFound =>
      match findEntry(id)
      case Found(url) => EntryTarget(url, parses)
      case Failed => Err(ProxyEntryLookupFailed(id))
      case NotFound => Err(NoTargetForHost(id))
  }

  /** ResolveTarget: the base domain, then the label under it, then the custom domains. */
  function ResolveTarget(host: string, apiDomain: string, internalApiAddress: string,
                         findDomain: string -> Lookup<DomainTarget>,
                         findService: string -> Lookup<RunningService>,
                         findEntry: string -> Lookup<string>,
                         parses: string -> bool): (r: Result<Target, ResolveError>)
    ensures host == apiDomain ==> r == Ok(InternalApi(internalApiAddress))
    ensures r.Ok? && r.value.InternalApi? ==> host == apiDomain
    ensures host != apiDomain && ExtractId(host, apiDomain).Err? ==> r == Err(InvalidId(ExtractId(host, apiDomain).error))
  {
    if host == apiDomain then Ok(InternalApi(internalApiAddress))
    else
      match ExtractId(host, apiDomain)
      case Err(e) => Err(InvalidId(e))
      case Ok(id) =>
        if id == "" then ResolveByDomain(host, findDomain, findService, findEntry, parses)
        else ResolveById(id, findService, findEntry, parses)
  }

  /** A service label under the base domain wins over a proxy entry of the same id, whatever the entry lookup says. */
  lemma ServiceBeforeProxyEntry(id: string, apiDomain: string, internalApiAddress: string,
                                findDomain: string -> Lookup<DomainTarget>,
                                findService: string -> Lookup<RunningService>,
                                findEntry: string -> Lookup<string>,
                                parses: string -> bool)
    requires id != "" && '.' !in id && findService(id).Found?
    ensures ResolveTarget(id + "." + apiDomain, apiDomain, internalApiAddress, findDomain, findService, findEntry, parses)
         == Ok(ServiceTarget(findService(id).value))
  {
    ExtractIdRoundTrip(id, apiDomain);
    assert |id + "." + apiDomain| != |apiDomain|;
  }

  /** A failure other than not-found while looking up the service aborts: the proxy entry is never consulted. */
  lemma LookupFailureAborts(id: string, apiDomain: string, internalApiAddress: string,
                            findDomain: string -> Lookup<DomainTarget>,
                            findService: string -> Lookup<RunningService>,
                            findEntry: string -> Lookup<string>,
                            parses: string -> bool)
    requires id != "" && '.' !in id && findService(id).Failed?
    ensures ResolveTarget(id + "." + apiDomain, apiDomain, internalApiAddress, findDomain, findService, findEntry, parses)
         == Err(ServiceLookupFailed(id))
  {
    ExtractIdRoundTrip(id, apiDomain);
    assert |id + "." + apiDomain| != |apiDomain|;
  }

  /** A host outside the base domain is resolved through the custom-domain lookup alone. */
  lemma ForeignHostUsesDomainLookup(host: string, apiDomain: string, internalApiAddress: string,
                                    findDomain: string -> Lookup<DomainTarget>,
                                    findService: string -> Lookup<RunningService>,
                                    findEntry: string -> Lookup<string>,
                                    parses: string -> bool)
    requires host != apiDomain && !HasSuffix(host, "." + apiDomain)
    ensures ResolveTarget(host, apiDomain, internalApiAddress, findDomain, findService, findEntry, parses)
         == ResolveByDomain(host, findDomain, findService, findEntry, parses)
  {
  }
}
