/**
 * The PocketBase hooks on the services_domains and cert_requests
 * collections (internal/hooks/domains.go): the check that a domain points
 * at exactly one of a service or a proxy entry, the certificate columns
 * added to listed records, and the work done after a domain is created,
 * updated or deleted. Repository, store and planner calls are parameters
 * or named actions.
 */
module DomainHooks {
  import opened Wrappers
  import opened CertRequests
  import CertPlanner

  const Yes := "yes"

  /** The certificate columns a listed HTTPS domain gets. */
  datatype CertColumns = CertColumns(
    certRequestState: CertState,
    reachedMaxAttempt: bool,
    failedErrorMessage: Option<string>,
    hasValidSslCert: bool)

  datatype DomainRecord = DomainRecord(
    domain: string,
    useHttps: string,
    service: string,
    proxyEntry: string,
    cert: Option<CertColumns>)

  datatype ValidationResult = Proceed | BadRequest(message: string)

  /** validateServiceOrProxyEntry: exactly one of `service` and `proxy_entry` must be set. */
  function ValidateServiceOrProxyEntry(service: string, proxyEntry: string): (r: ValidationResult)
    ensures r == Proceed <==> (service == "") != (proxyEntry == "")
    ensures service == "" && proxyEntry == "" ==> r == BadRequest("either 'service' or 'proxy_entry' is required")
    ensures service != "" && proxyEntry != "" ==> r == BadRequest("only one of 'service' or 'proxy_entry' must be set")
  {
    if service == "" && proxyEntry == "" then BadRequest("either 'service' or 'proxy_entry' is required")
    else if service != "" && proxyEntry != "" then BadRequest("only one of 'service' or 'proxy_entry' must be set")
    else Proceed
  }

  /**
   * The columns for one record given its last certificate request and the
   * store's answer (the certificate's remaining lifetime, None when it
   * could not be resolved).
   */
  function Columns(last: CertRequest, message: Option<string>, maxAttempts: int, ttl: Option<int>): (c: CertColumns)
    ensures c.reachedMaxAttempt <==> last.attempt >= maxAttempts
    ensures c.hasValidSslCert <==> ttl.Some? && ttl.value > 0
    ensures c.certRequestState == last.status && c.failedErrorMessage == message
  {
    CertColumns(last.status, last.attempt >= maxAttempts, message, ttl.Some? && ttl.value > 0)
  }

  /** One record of a listing: only HTTPS domains with a last request get the columns. */
  function Decorate(r: DomainRecord, last: string -> Option<(CertRequest, Option<string>)>,
                    maxAttempts: int, ttl: string -> Option<int>): (d: DomainRecord)
    ensures d.(cert := r.cert) == r
    ensures r.useHttps != Yes || last(r.domain).None? ==> d == r
    ensures r.useHttps == Yes && last(r.domain).Some? ==>
              d.cert == Some(Columns(last(r.domain).value.0, last(r.domain).value.1, maxAttempts, ttl(r.domain)))
  {
    if r.useHttps != Yes then r
    else match last(r.domain)
      case None => r
      case Some((req, message)) => r.(cert := Some(Columns(req, message, maxAttempts, ttl(r.domain))))
  }

  /**
   * The list hook: when the collection is found, every record is decorated
   * in place; otherwise the listing is left alone.
   */
  method ListHook(records: array<DomainRecord>, collectionFound: bool,
                  last: string -> Option<(CertRequest, Option<string>)>,
                  maxAttempts: int, ttl: string -> Option<int>)
    modifies records
    ensures !collectionFound ==> records[..] == old(records[..])
    ensures collectionFound ==> forall k :: 0 <= k < records.Length ==>
              records[k] == Decorate(old(records[k]), last, maxAttempts, ttl)
  {
    if !collectionFound {
      return;
    }
    var idx := 0;
    while idx < records.Length
      invariant 0 <= idx <= records.Length
      invariant forall k :: 0 <= k < idx ==> records[k] == Decorate(old(records[k]), last, maxAttempts, ttl)
      invariant forall k :: idx <= k < records.Length ==> records[k] == old(records[k])
    {
      var record := records[idx];
      if record.useHttps == Yes {
        var found := last(record.domain);
        if found.Some? {
          var (req, message) := found.value;
          records[idx] := record.(cert := Some(Columns(req, message, maxAttempts, ttl(record.domain))));
        }
      }
      idx := idx + 1;
    }
  }

  /** Decorating twice gives what decorating once gives. */
  lemma DecorateIdempotent(r: DomainRecord, last: string -> Option<(CertRequest, Option<string>)>,
                           maxAttempts: int, ttl: string -> Option<int>)
    ensures Decorate(Decorate(r, last, maxAttempts, ttl), last, maxAttempts, ttl) == Decorate(r, last, maxAttempts, ttl)
  {
  }

  /** The follow-up work of a hook. */
  datatype Action =
    | PostSSLDomainRequest(domain: string, checkMaxAttempts: bool)
    | InvalidateDomain(domain: string)
    | DeletePendingByDomain(domain: string)

  /** After a domain record is created: request a certificate when it uses HTTPS. */
  function AfterCreate(r: DomainRecord): (acts: seq<Action>)
    ensures PostSSLDomainRequest(r.domain, false) in acts <==> r.useHttps == Yes
    ensures forall a :: a in acts ==> a.PostSSLDomainRequest? && !a.checkMaxAttempts
  {
    if r.useHttps == Yes then [PostSSLDomainRequest(r.domain, false)] else []
  }

  /** After an update: forget the cached routing of the domain, then as after a create. */
  function AfterUpdate(r: DomainRecord): (acts: seq<Action>)
    ensures acts != [] && acts[0] == InvalidateDomain(r.domain)
    ensures acts[1..] == AfterCreate(r)
  {
    [InvalidateDomain(r.domain)] + AfterCreate(r)
  }

  /** After a delete: forget the cached routing and drop the domain's pending requests. */
  function AfterDelete(r: DomainRecord): (acts: seq<Action>)
    ensures InvalidateDomain(r.domain) in acts && DeletePendingByDomain(r.domain) in acts
    ensures forall a :: a in acts ==> !a.PostSSLDomainRequest?
  {
    [InvalidateDomain(r.domain), DeletePendingByDomain(r.domain)]
  }

  /** A new cert_requests record asks the planner without the attempt limit. */
  function OnCertRequestCreate(domain: string): (a: Action)
    ensures a.PostSSLDomainRequest? && a.domain == domain && !a.checkMaxAttempts
  {
    PostSSLDomainRequest(domain, false)
  }

  /**
   * Every request the hooks trigger skips the attempt limit, so the planner
   * creates it, when it does, as a first attempt.
   */
  lemma HookRequestsAreFirstAttempts(r: DomainRecord, maxAttempts: int, minTtl: int,
                                     pending: Result<seq<CertRequest>, RepoError>,
                                     last: Option<CertRequest>, lastErr: Option<RepoError>,
                                     current: Result<int, StoreError>)
    ensures forall a :: a in AfterCreate(r) + AfterUpdate(r) && a.PostSSLDomainRequest? ==>
      var p := CertPlanner.PostSSLDomainRequest(a.domain, a.checkMaxAttempts, maxAttempts, minTtl,
                                                pending, last, lastErr, current);
      p.Create? ==> p.attempt == 1
  {
    forall a | a in AfterCreate(r) + AfterUpdate(r) && a.PostSSLDomainRequest?
      ensures !a.checkMaxAttempts
    {
      assert a in AfterCreate(r) || a in AfterUpdate(r);
    }
  }
}
