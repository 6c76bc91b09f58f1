/**
 * The HTTP front (internal/proxy/reverse_proxy.go): it resolves the service
 * a host addresses, answers 400 when that fails, redirects plain requests to
 * HTTPS with status 308 when HTTPS is on, and otherwise proxies.
 */
module ReverseProxy {
  import opened Wrappers
  import opened Strs
  import NetTools
  import opened ProxyDiscovery

  const StatusBadRequest: int := 400
  const StatusPermanentRedirect: int := 308

  datatype ProxyConfig = ProxyConfig(
    apiDomain: string,
    apiAddress: string,
    useHttps: bool,
    skipHttpsRedirect: bool,
    httpsPort: string)

  datatype ServiceIdError = InvalidServiceId | ServiceIdNotFoundForDomain

  datatype TargetError = BadServiceId(cause: ServiceIdError) | ServiceNotFound

  datatype Response =
    | BadRequest(status: int, cause: TargetError)
    | Proxied(target: Target)
    | Redirect(status: int, location: string)

  /**
   * resolveServiceID: "" for the base domain; the label of "label.apiDomain"
   * when it is non-empty and has no '.'; otherwise the custom domain's service.
   */
  function ResolveServiceId(host: string, apiDomain: string,
                            findServiceIdByDomain: string -> Option<string>): (r: Result<string, ServiceIdError>)
    ensures host == apiDomain ==> r == Ok("")
    ensures host != apiDomain && HasSuffix(host, "." + apiDomain) ==>
      (r.Ok? <==> (var p := TrimSuffix(host, "." + apiDomain); p != "" && '.' !in p))
    ensures r.Ok? && r.value != "" && HasSuffix(host, "." + apiDomain) ==> r.value + "." + apiDomain == host
    ensures host != apiDomain && !HasSuffix(host, "." + apiDomain) ==>
      (r.Ok? <==> findServiceIdByDomain(host).Some?)
    // a custom domain resolves to the id the domain table holds for it
    ensures host != apiDomain && !HasSuffix(host, "." + apiDomain) ==>
      r == if findServiceIdByDomain(host).Some? then Ok(findServiceIdByDomain(host).value) else Err(ServiceIdNotFoundForDomain)
  {
    if host == apiDomain then Ok("")
    else if HasSuffix(host, "." + apiDomain) then
      var prefix := TrimSuffix(host, "." + apiDomain);
      if '.' in prefix || prefix == "" then Err(InvalidServiceId) else Ok(prefix)
    else
      match findServiceIdByDomain(host)
      case Some(id) => Ok(id)
      case None => Err(ServiceIdNotFoundForDomain)
  }

  /** Both routers read a label under the base domain the same way. */
  lemma ServiceIdAgreesWithExtractId(host: string, apiDomain: string, find: string -> Option<string>)
    requires host != apiDomain && HasSuffix(host, "." + apiDomain)
    ensures ResolveServiceId(host, apiDomain, find).Ok? <==> ExtractId(host, apiDomain).Ok?
    ensures ResolveServiceId(host, apiDomain, find).Ok? ==>
      ResolveServiceId(host, apiDomain, find).value == ExtractId(host, apiDomain).value
  {
  }

  /** resolveServiceTarget: the internal API for the base domain, else the running service. */
  function ResolveServiceTarget(host: string, cfg: ProxyConfig,
                                findServiceIdByDomain: string -> Option<string>,
                                findService: string -> Lookup<RunningService>): (r: Result<Target, TargetError>)
    ensures host == cfg.apiDomain ==> r == Ok(InternalApi(cfg.apiAddress))
    ensures ResolveServiceId(host, cfg.apiDomain, findServiceIdByDomain).Err? ==>
      r == Err(BadServiceId(ResolveServiceId(host, cfg.apiDomain, findServiceIdByDomain).error))
    ensures r.Ok? && r.value.ServiceAt? ==>
      var id := ResolveServiceId(host, cfg.apiDomain, findServiceIdByDomain).value;
      id != "" && findService(id) == Found(RunningService(r.value.ip, r.value.port))
    // an empty id (the base domain, or a custom domain mapped to "") goes to the internal API
    ensures ResolveServiceId(host, cfg.apiDomain, findServiceIdByDomain) == Ok("") ==> r == Ok(InternalApi(cfg.apiAddress))
    // any other id goes to its running service, or fails when that is not found
    ensures var id := ResolveServiceId(host, cfg.apiDomain, findServiceIdByDomain);
      id.Ok? && id.value != "" ==>
        if findService(id.value).Found? then r == Ok(ServiceTarget(findService(id.value).value))
        else r == Err(ServiceNotFound)
  {
    match ResolveServiceId(host, cfg.apiDomain, findServiceIdByDomain)
    case Err(e) => Err(BadServiceId(e))
    case Ok(id) =>
      if id == "" then Ok(InternalApi(cfg.apiAddress))
      else
        match findService(id)
        case Found(s) => Ok(ServiceTarget(s))
        case _ => Err(ServiceNotFound)
  }

  /** Whether ServeHTTP answers with a redirect instead of proxying. */
  function MustRedirect(secure: bool, cfg: ProxyConfig): (redirect: bool)
    ensures secure || !cfg.useHttps || cfg.skipHttpsRedirect ==> !redirect
    ensures !secure && cfg.useHttps && !cfg.skipHttpsRedirect ==> redirect
  {
    !secure && cfg.useHttps && !cfg.skipHttpsRedirect
  }

  /**
   * ServeHTTP: strip ":port" from the Host header, resolve the target (400 on
   * failure), then proxy a secure request, or any request when HTTPS is off or
   * its redirect is disabled; redirect every other request with 308 to the
   * same host and request URI on the HTTPS port.
   */
  method ServeHTTP(cfg: ProxyConfig, r: NetTools.Request, requestUri: string,
                   findServiceIdByDomain: string -> Option<string>,
                   findService: string -> Lookup<RunningService>,
                   parseHost: string -> Option<string>) returns (resp: Response)
    ensures ResolveServiceTarget(BeforeFirst(r.host, ':'), cfg, findServiceIdByDomain, findService).Err? ==>
      resp == BadRequest(StatusBadRequest, ResolveServiceTarget(BeforeFirst(r.host, ':'), cfg, findServiceIdByDomain, findService).error)
    ensures ResolveServiceTarget(BeforeFirst(r.host, ':'), cfg, findServiceIdByDomain, findService).Ok? ==>
      if MustRedirect(NetTools.IsRequestSecure(r.tls, r.header), cfg)
      then resp == Redirect(StatusPermanentRedirect, RedirectLocation(BeforeFirst(r.host, ':'), cfg, requestUri, parseHost))
      else resp == Proxied(ResolveServiceTarget(BeforeFirst(r.host, ':'), cfg, findServiceIdByDomain, findService).value)
  {
    var cleanHost := BeforeFirst(r.host, ':');
    var target := ResolveServiceTarget(cleanHost, cfg, findServiceIdByDomain, findService);
    if target.Err? {
      return BadRequest(StatusBadRequest, target.error);
    }
    var secure := NetTools.IsRequestSecure(r.tls, r.header);
    if secure || !cfg.useHttps || cfg.skipHttpsRedirect {
      return Proxied(target.value);
    }
    var location := NetTools.BuildHostURL("https", cleanHost, cfg.httpsPort, [requestUri], parseHost);
    resp := Redirect(StatusPermanentRedirect, location);
  }

  /** The redirect target: the same host on the HTTPS port, with the request URI as its path. */
  function RedirectLocation(host: string, cfg: ProxyConfig, requestUri: string,
                            parseHost: string -> Option<string>): string
  {
    "https" + "://" + NetTools.HostPart(host, cfg.httpsPort, parseHost) + NetTools.JoinPath([requestUri])
  }

  /**
   * The redirect carries the request URI with its surrounding slashes
   * trimmed and one "/" in front, so a trailing slash is lost: "/_/" is
   * redirected to "/_".
   */
  lemma RedirectPathDropsTrailingSlash(core: string)
    requires core != [] && core[0] != '/' && core[|core| - 1] != '/'
    ensures NetTools.JoinPath(["/" + core + "/"]) == "/" + core
  {
    NetTools.TrimSlashesAround("/", core, "/");
    NetTools.JoinPathSnoc([], "/" + core + "/");
    assert [] + ["/" + core + "/"] == ["/" + core + "/"];
  }
}
