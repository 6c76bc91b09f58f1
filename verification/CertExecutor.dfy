/**
 * CertRequestExecutorUsecase (internal/certmanager/domain/request_executor.go):
 * picks the pending certificate requests that are due, asks the ACME
 * service for each certificate, stores it, and records the outcome in the
 * request repository. The repository's per-request status and failure
 * message are the state the executor changes; the ACME service, the store and the clock are
 * parameters.
 */
module CertExecutor {
  import opened Wrappers
  import opened CertRequests

  /** An issued certificate; its contents do not matter here. */
  datatype Certificate = Certificate(pem: seq<int>)

  /** A request is due when it has no NotBefore or its NotBefore is not after `now`. */
  function IsDue(r: CertRequest, now: int): (due: bool)
    ensures r.notBefore.None? ==> due
    ensures r.notBefore.Some? && now < r.notBefore.value ==> !due
    ensures r.notBefore.Some? && r.notBefore.value <= now ==> due
  {
    r.notBefore.None? || r.notBefore.value <= now
  }

  /** The due requests, in the repository's order. */
  function Due(requests: seq<CertRequest>, now: int): (d: seq<CertRequest>)
    ensures forall r :: r in d <==> r in requests && IsDue(r, now)
    ensures |d| <= |requests|
  {
    if requests == [] then []
    else
      var last := requests[|requests| - 1];
      assert requests == requests[..|requests| - 1] + [last];
      Due(requests[..|requests| - 1], now) + (if IsDue(last, now) then [last] else [])
  }

  /** pendingToExecute: filters the repository's pending requests by `IsDue`. */
  method PendingToExecute(pending: Option<seq<CertRequest>>, now: int) returns (r: Option<seq<CertRequest>>)
    ensures pending.None? ==> r.None?
    ensures pending.Some? ==> r == Some(Due(pending.value, now))
  {
    if pending.None? {
      return None;
    }
    var requests := pending.value;
    var due: seq<CertRequest> := [];
    var i := 0;
    while i < |requests|
      invariant 0 <= i <= |requests|
      invariant due == Due(requests[..i], now)
    {
      assert requests[..i + 1][..i] == requests[..i];
      if requests[i].notBefore.None? || requests[i].notBefore.value <= now {
        due := due + [requests[i]];
      }
      i := i + 1;
    }
    assert requests[..|requests|] == requests;
    r := Some(due);
  }

  datatype ProcessError = RequestFailed(domain: string, cause: string) | StoreFailed(domain: string, cause: string)

  /** What the repository holds about a processed request: its status and its failure message. */
  datatype Mark = Mark(status: CertState, message: Option<string>)

  /**
   * The mark a processed request ends with when its mark call succeeds: a
   * failure keeps the failing step's error text as the message, an approval
   * clears it.
   */
  function Outcome(req: CertRequest,
                   issue: string -> Result<Certificate, string>,
                   store: (string, Certificate) -> Option<string>): (m: Mark)
    ensures m.status == Approved <==> issue(req.domain).Ok? && store(req.domain, issue(req.domain).value).None?
    ensures m.status != Pending
    ensures m.status == Approved <==> m.message.None?
    ensures issue(req.domain).Err? ==> m.message == Some(issue(req.domain).error)
    ensures issue(req.domain).Ok? && store(req.domain, issue(req.domain).value).Some? ==>
              m.message == store(req.domain, issue(req.domain).value)
  {
    match issue(req.domain)
    case Err(e) => Mark(Failed, Some(e))
    case Ok(cert) => if store(req.domain, cert).Some? then Mark(Failed, store(req.domain, cert)) else Mark(Approved, None)
  }

  /** The marks after processing `reqs` in order; a failed mark call leaves a mark as it was. */
  function Apply(marks: map<string, Mark>, reqs: seq<CertRequest>,
                 issue: string -> Result<Certificate, string>,
                 store: (string, Certificate) -> Option<string>,
                 markOk: string -> bool): (m: map<string, Mark>)
    ensures m.Keys == marks.Keys + set r | r in reqs && markOk(r.id) :: r.id
  {
    if reqs == [] then marks
    else
      var req := reqs[|reqs| - 1];
      var before := Apply(marks, reqs[..|reqs| - 1], issue, store, markOk);
      assert forall r :: r in reqs <==> r in reqs[..|reqs| - 1] || r == req by {
        assert reqs == reqs[..|reqs| - 1] + [req];
      }
      if markOk(req.id) then before[req.id := Outcome(req, issue, store)] else before
  }

  /** The loop step of ExecutePlan: processing one more request. */
  lemma ApplyStep(marks: map<string, Mark>, reqs: seq<CertRequest>, i: nat,
                  issue: string -> Result<Certificate, string>,
                  store: (string, Certificate) -> Option<string>,
                  markOk: string -> bool)
    requires i < |reqs|
    ensures var before := Apply(marks, reqs[..i], issue, store, markOk);
      Apply(marks, reqs[..i + 1], issue, store, markOk)
        == if markOk(reqs[i].id) then before[reqs[i].id := Outcome(reqs[i], issue, store)] else before
  {
    assert reqs[..i + 1][..i] == reqs[..i];
  }

  /** The repository's record of each request's status and failure message. */
  class CertRequestRepository {
    var marks: map<string, Mark>

    constructor (marks: map<string, Mark>)
      ensures this.marks == marks
    {
      this.marks := marks;
    }

    /** MarkAsFailed: status failed, with `message`; `ok` is whether the database write succeeds. */
    method MarkAsFailed(id: string, message: string, ok: bool)
      modifies this
      ensures marks == if ok then old(marks)[id := Mark(Failed, Some(message))] else old(marks)
    {
      if ok {
        marks := marks[id := Mark(Failed, Some(message))];
      }
    }

    /** MarkAsApproved: status approved, message cleared; `ok` is whether the database write succeeds. */
    method MarkAsApproved(id: string, ok: bool)
      modifies this
      ensures marks == if ok then old(marks)[id := Mark(Approved, None)] else old(marks)
    {
      if ok {
        marks := marks[id := Mark(Approved, None)];
      }
    }
  }

  /**
   * processRequest: a failed issue or a failed store marks the request as
   * failed and returns an error; otherwise the request is marked approved
   * and nil is returned. A failing mark call is only logged.
   */
  method ProcessRequest(repo: CertRequestRepository, req: CertRequest,
                        issue: string -> Result<Certificate, string>,
                        store: (string, Certificate) -> Option<string>,
                        markOk: string -> bool)
    returns (err: Option<ProcessError>)
    modifies repo
    ensures repo.marks == if markOk(req.id) then old(repo.marks)[req.id := Outcome(req, issue, store)]
                             else old(repo.marks)
    ensures issue(req.domain).Err? ==> err == Some(RequestFailed(req.domain, issue(req.domain).error))
    ensures issue(req.domain).Ok? && store(req.domain, issue(req.domain).value).Some? ==>
              err == Some(StoreFailed(req.domain, store(req.domain, issue(req.domain).value).value))
    ensures err.None? <==> Outcome(req, issue, store).status == Approved
    // the message recorded with a failure is the cause the error carries
    ensures err.Some? ==> Outcome(req, issue, store).message == Some(err.value.cause)
  {
    var cert := issue(req.domain);
    if cert.Err? {
      repo.MarkAsFailed(req.id, cert.error, markOk(req.id));
      return Some(RequestFailed(req.domain, cert.error));
    }
    var stored := store(req.domain, cert.value);
    if stored.Some? {
      repo.MarkAsFailed(req.id, stored.value, markOk(req.id));
      return Some(StoreFailed(req.domain, stored.value));
    }
    repo.MarkAsApproved(req.id, markOk(req.id));
    err := None;
  }

  /**
   * ExecutePlan: processes every due request, whatever happens to the
   * others, and succeeds; only a failure to list the pending requests is
   * returned.
   */
  method ExecutePlan(repo: CertRequestRepository, pending: Option<seq<CertRequest>>, now: int,
                     issue: string -> Result<Certificate, string>,
                     store: (string, Certificate) -> Option<string>,
                     markOk: string -> bool)
    returns (ok: bool)
    modifies repo
    ensures ok <==> pending.Some?
    ensures !ok ==> repo.marks == old(repo.marks)
    ensures ok ==> repo.marks == Apply(old(repo.marks), Due(pending.value, now), issue, store, markOk)
  {
    var due := PendingToExecute(pending, now);
    if due.None? {
      return false;
    }
    var reqs := due.value;
    var i := 0;
    assert reqs[..0] == [];
    while i < |reqs|
      invariant 0 <= i <= |reqs|
      invariant repo.marks == Apply(old(repo.marks), reqs[..i], issue, store, markOk)
    {
      var _ := ProcessRequest(repo, reqs[i], issue, store, markOk);
      ApplyStep(old(repo.marks), reqs, i, issue, store, markOk);
      i := i + 1;
    }
    assert reqs[..|reqs|] == reqs;
    ok := true;
  }

  /**
   * A due request whose id occurs once among the due requests, and whose
   * mark call succeeds, ends with the mark its own outcome dictates: one
   * request's failure does not touch another's record.
   */
  lemma {:induction false} ApplyRecordsEach(marks: map<string, Mark>, reqs: seq<CertRequest>,
                                            issue: string -> Result<Certificate, string>,
                                            store: (string, Certificate) -> Option<string>,
                                            markOk: string -> bool, k: int)
    requires 0 <= k < |reqs| && markOk(reqs[k].id)
    requires forall j :: 0 <= j < |reqs| && j != k ==> reqs[j].id != reqs[k].id
    ensures reqs[k].id in Apply(marks, reqs, issue, store, markOk)
    ensures Apply(marks, reqs, issue, store, markOk)[reqs[k].id] == Outcome(reqs[k], issue, store)
  {
    var init := reqs[..|reqs| - 1];
    if k < |reqs| - 1 {
      ApplyRecordsEach(marks, init, issue, store, markOk, k);
    }
  }

  /** Requests that are not due, and ids no request carries, keep their mark. */
  lemma {:induction false} ApplyLeavesOthers(marks: map<string, Mark>, reqs: seq<CertRequest>,
                                             issue: string -> Result<Certificate, string>,
                                             store: (string, Certificate) -> Option<string>,
                                             markOk: string -> bool, id: string)
    requires id in marks
    requires forall r :: r in reqs ==> r.id != id
    ensures Apply(marks, reqs, issue, store, markOk)[id] == marks[id]
  {
    if reqs != [] {
      var init := reqs[..|reqs| - 1];
      assert forall r :: r in init ==> r in reqs;
      ApplyLeavesOthers(marks, init, issue, store, markOk, id);
    }
  }
}
