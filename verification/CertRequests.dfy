/**
 * Certificate requests as the certificate manager stores them
 * (internal/certmanager/domain/models/cert_request.go) and the errors its
 * repository and certificate store report. Times are nanoseconds since the
 * epoch.
 */
module CertRequests {
  import opened Wrappers

  datatype CertState = Pending | Approved | Failed

  datatype CertRequest = CertRequest(
    id: string,
    domain: string,
    status: CertState,
    notBefore: Option<int>,
    attempt: int)

  /** Errors of the request repository; ErrCertRequestNotFound is the only one told apart. */
  datatype RepoError = CertRequestNotFound | RepoFailure(message: string)

  /** Errors of the certificate store; the first three mean "no usable certificate". */
  datatype StoreError = CertificateNotFound | InvalidPEM | CertificateExpired | StoreFailure(message: string)

  /** The store errors after which a new certificate is requested. */
  predicate NeedsCertificate(e: StoreError) {
    e.CertificateNotFound? || e.InvalidPEM? || e.CertificateExpired?
  }
}
