/**
 * The decision of CertRequestPlannerUsecase.PostSSLDomainRequest
 * (internal/certmanager/domain/request_planner.go): whether to queue a new
 * certificate request for a domain, and with which attempt number. The
 * repository and store answers are parameters; the call to CreatePending
 * that ends the function is the `Create` outcome, whose own error the
 * source returns unchanged.
 */
module CertPlanner {
  import opened Wrappers
  import opened CertRequests

  datatype PlanError = Repo(repoError: RepoError) | Store(storeError: StoreError)

  datatype Plan =
    | NoRequest                             // returns nil without creating anything
    | Abort(error: PlanError)               // returns the error
    | Create(domain: string, attempt: int)  // calls CreatePending(domain, attempt)

  /**
   * `pending` is PendingByDomain's answer; `last` and `lastErr` are
   * LastByDomain's, consulted only when `checkMaxAttempts`; `current` is the
   * store's Resolve, as the certificate's remaining lifetime.
   */
  function PostSSLDomainRequest(domain: string, checkMaxAttempts: bool, maxAttempts: int, minTtl: int,
                                pending: Result<seq<CertRequest>, RepoError>,
                                last: Option<CertRequest>, lastErr: Option<RepoError>,
                                current: Result<int, StoreError>): (p: Plan)
    ensures pending.Err? ==> p == Abort(Repo(pending.error))
    ensures pending.Ok? && pending.value != [] ==> p == NoRequest
    ensures p.Create? ==> p.domain == domain && pending == Ok([])
    ensures p.Create? && !checkMaxAttempts ==> p.attempt == 1
    ensures current.Ok? && current.value > minTtl ==> !p.Create?
    // a failed lookup of the last request aborts with that error
    ensures var n := NextAttempt(checkMaxAttempts, maxAttempts, last, lastErr);
      pending == Ok([]) && n.Err? ==> p == Abort(Repo(n.error))
    // an exhausted attempt limit ends the planning quietly
    ensures pending == Ok([]) && NextAttempt(checkMaxAttempts, maxAttempts, last, lastErr) == Ok(None) ==> p == NoRequest
    // once an attempt is allowed, a store error other than "no usable certificate" aborts
    ensures var n := NextAttempt(checkMaxAttempts, maxAttempts, last, lastErr);
      pending == Ok([]) && n.Ok? && n.value.Some? && current.Err? && !NeedsCertificate(current.error)
      ==> p == Abort(Store(current.error))
    // otherwise a request with the allowed attempt is created unless the certificate is still valid long enough
    ensures var n := NextAttempt(checkMaxAttempts, maxAttempts, last, lastErr);
      pending == Ok([]) && n.Ok? && n.value.Some? && (current.Err? ==> NeedsCertificate(current.error))
      ==> p == (if current.Ok? && current.value > minTtl then NoRequest else Create(domain, n.value.value))
  {
    if pending.Err? then Abort(Repo(pending.error))
    else if pending.value != [] then NoRequest
    else
      var attempt := NextAttempt(checkMaxAttempts, maxAttempts, last, lastErr);
      match attempt
      case Err(e) => Abort(Repo(e))
      case Ok(None) => NoRequest
      case Ok(Some(a)) =>
        if current.Err? && !NeedsCertificate(current.error) then Abort(Store(current.error))
        else if current.Ok? && current.value > minTtl then NoRequest
        else Create(domain, a)
  }

  /**
   * The attempt number of the next request: 1, or one more than a failed
   * last request when the limit is checked; None when that last request
   * already used the allowed attempts.
   */
  function NextAttempt(checkMaxAttempts: bool, maxAttempts: int,
                       last: Option<CertRequest>, lastErr: Option<RepoError>): (r: Result<Option<int>, RepoError>)
    ensures !checkMaxAttempts ==> r == Ok(Some(1))
    ensures checkMaxAttempts && lastErr.Some? && lastErr.value != CertRequestNotFound ==> r == Err(lastErr.value)
    ensures r.Ok? && r.value.Some? && checkMaxAttempts && last.Some? && last.value.status == Failed
            ==> r.value.value == last.value.attempt + 1 && r.value.value <= maxAttempts
    // with the limit checked, no lookup error and no failed last request, the attempt stays 1
    ensures (checkMaxAttempts && (lastErr.None? || lastErr == Some(CertRequestNotFound))
             && !(last.Some? && last.value.status == Failed)) ==> r == Ok(Some(1))
    // with the limit checked and attempts left, a failed last request is retried with the next attempt
    ensures (checkMaxAttempts && (lastErr.None? || lastErr == Some(CertRequestNotFound))
             && last.Some? && last.value.status == Failed && last.value.attempt < maxAttempts)
            ==> r == Ok(Some(last.value.attempt + 1))
    // only a lookup error other than "not found", and only when the limit is checked, is an error
    ensures r.Err? <==> checkMaxAttempts && lastErr.Some? && lastErr.value != CertRequestNotFound
    ensures r == Ok(None) <==> checkMaxAttempts && (lastErr.None? || lastErr == Some(CertRequestNotFound))
                               && last.Some? && last.value.status == Failed && last.value.attempt >= maxAttempts
  {
    if !checkMaxAttempts then Ok(Some(1))
    else if lastErr.Some? && lastErr.value != CertRequestNotFound then Err(lastErr.value)
    else if last.Some? && last.value.status == Failed then
      if last.value.attempt >= maxAttempts then Ok(None) else Ok(Some(last.value.attempt + 1))
    else Ok(Some(1))
  }

  /**
   * With the limit checked and a limit of at least 1 (what
   * GetMaxDomainCertAttempts guarantees), no request is ever created with an
   * attempt number above the limit.
   */
  lemma AttemptNeverExceedsMax(domain: string, maxAttempts: int, minTtl: int,
                               last: Option<CertRequest>, lastErr: Option<RepoError>,
                               current: Result<int, StoreError>)
    requires maxAttempts >= 1
    ensures var p := PostSSLDomainRequest(domain, true, maxAttempts, minTtl, Ok([]), last, lastErr, current);
            p.Create? ==> p.attempt <= maxAttempts
  {
    var r := NextAttempt(true, maxAttempts, last, lastErr);
    if r.Ok? && r.value.Some? && !(last.Some? && last.value.status == Failed) {
      assert r.value.value == 1;
    }
  }

  /**
   * A request is created exactly when nothing is pending, the attempt limit
   * allows it, the store error (if any) means "no usable certificate", and
   * any current certificate is within `minTtl` of expiring.
   */
  lemma CreateExactly(domain: string, checkMaxAttempts: bool, maxAttempts: int, minTtl: int,
                      last: Option<CertRequest>, lastErr: Option<RepoError>,
                      current: Result<int, StoreError>)
    ensures PostSSLDomainRequest(domain, checkMaxAttempts, maxAttempts, minTtl, Ok([]), last, lastErr, current).Create?
        <==> NextAttempt(checkMaxAttempts, maxAttempts, last, lastErr).Ok?
             && NextAttempt(checkMaxAttempts, maxAttempts, last, lastErr).value.Some?
             && (current.Err? ==> NeedsCertificate(current.error))
             && (current.Ok? ==> current.value <= minTtl)
  {
  }

  /**
   * Once a request is pending, planning again creates nothing: a domain
   * never has two requests queued by the planner.
   */
  lemma NoSecondPending(domain: string, checkMaxAttempts: bool, maxAttempts: int, minTtl: int,
                        queued: CertRequest,
                        last: Option<CertRequest>, lastErr: Option<RepoError>,
                        current: Result<int, StoreError>)
    ensures PostSSLDomainRequest(domain, checkMaxAttempts, maxAttempts, minTtl, Ok([queued]), last, lastErr, current) == NoRequest
  {
  }

  /**
   * With the limit checked, a domain whose last request did not fail (or
   * that has none) is renewed with the first attempt as well.
   */
  lemma RenewsBrokenCertificateChecked(domain: string, maxAttempts: int, minTtl: int,
                                                          last: Option<CertRequest>, e: StoreError)
    requires NeedsCertificate(e)
    requires !(last.Some? && last.value.status == Failed)
    ensures PostSSLDomainRequest(domain, true, maxAttempts, minTtl, Ok([]), last, None, Err(e)) == Create(domain, 1)
  {
  }

  /**
   * With the limit checked, a domain whose last request failed with
   * attempts left is renewed with the following attempt number.
   */
  lemma RetriesAfterFailure(domain: string, maxAttempts: int, minTtl: int, failed: CertRequest, e: StoreError)
    requires NeedsCertificate(e)
    requires failed.status == Failed && failed.attempt < maxAttempts
    ensures PostSSLDomainRequest(domain, true, maxAttempts, minTtl, Ok([]), Some(failed), None, Err(e))
            == Create(domain, failed.attempt + 1)
  {
  }

  /** An expired or unreadable certificate is renewed with the first attempt when the limit is not checked. */
  lemma RenewsBrokenCertificate(domain: string, maxAttempts: int, minTtl: int, e: StoreError)
    requires NeedsCertificate(e)
    ensures PostSSLDomainRequest(domain, false, maxAttempts, minTtl, Ok([]), None, None, Err(e)) == Create(domain, 1)
  {
  }
}
