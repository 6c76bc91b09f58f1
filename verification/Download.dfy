/**
 * Release bookkeeping of the downloader (internal/download/domain/download.go):
 * which published releases are new, which stored releases still lack their
 * files, and the sync loop over all repositories. A version is modelled by
 * its canonical string form (what Version.String() prints); a release whose
 * version did not parse has none. Network, database and file-system calls
 * are passed in as their outcomes.
 */
module Download {
  import opened Wrappers
  import opened Seqs

  datatype Release = Release(repositoryId: string, version: Option<string>, releaseName: string)

  datatype Repository = Repository(id: string)

  /** The version strings of the releases that have one. */
  function VersionsOf(releases: seq<Release>): set<string> {
    set r | r in releases && r.version.Some? :: r.version.value
  }

  /** The releases of `a` that have a version outside `known`, in the order of `a`. */
  function Missing(a: seq<Release>, known: set<string>): (d: seq<Release>)
    ensures |d| <= |a|
  {
    if a == [] then []
    else
      var last := a[|a| - 1];
      Missing(a[..|a| - 1], known) + (if last.version.Some? && last.version.value !in known then [last] else [])
  }

  /** A release is missing exactly when it is in `a` and has a version outside `known`. */
  lemma {:induction false} MissingMembers(a: seq<Release>, known: set<string>)
    ensures forall r :: r in Missing(a, known) <==> r in a && r.version.Some? && r.version.value !in known
  {
    if a != [] {
      var init := a[..|a| - 1];
      MissingMembers(init, known);
      assert a == init + [a[|a| - 1]];
    }
  }

  /**
   * DiffReleases: the releases of `a` whose version is not among the versions
   * of `b`; releases without a version are ignored on both sides.
   */
  method DiffReleases(a: seq<Release>, b: seq<Release>) returns (diff: seq<Release>)
    ensures diff == Missing(a, VersionsOf(b))
  {
    var bVersions: set<string> := {};
    var i := 0;
    assert b[..0] == [];
    while i < |b|
      invariant 0 <= i <= |b|
      invariant bVersions == VersionsOf(b[..i])
    {
      VersionsOfStep(b, i);
      if b[i].version.Some? {
        bVersions := bVersions + {b[i].version.value};
      }
      i := i + 1;
    }
    assert b[..|b|] == b;
    diff := [];
    var j := 0;
    assert a[..0] == [];
    while j < |a|
      invariant 0 <= j <= |a|
      invariant diff == Missing(a[..j], bVersions)
    {
      assert a[..j + 1][..j] == a[..j];
      if a[j].version.Some? {
        if a[j].version.value !in bVersions {
          diff := diff + [a[j]];
        }
      }
      j := j + 1;
    }
    assert a[..|a|] == a;
  }

  /** The versions of one more release. */
  lemma VersionsOfStep(b: seq<Release>, i: nat)
    requires i < |b|
    ensures VersionsOf(b[..i + 1]) == VersionsOf(b[..i]) + (if b[i].version.Some? then {b[i].version.value} else {})
  {
    assert b[..i + 1] == b[..i] + [b[i]];
  }

  /** Missing of `init + [last]`: the missing releases of `init`, then `last` if it is missing. */
  lemma MissingSnoc(init: seq<Release>, last: Release, known: set<string>)
    ensures Missing(init + [last], known)
      == Missing(init, known) + (if last.version.Some? && last.version.value !in known then [last] else [])
  {
    assert (init + [last])[..|init|] == init;
  }

  /** The difference keeps the order of `a`: it is a subsequence of `a`. */
  lemma {:induction false} MissingIsSubsequence(a: seq<Release>, known: set<string>)
    ensures IsSubsequence(Missing(a, known), a)
  {
    if a != [] {
      var init := a[..|a| - 1];
      var last := a[|a| - 1];
      assert init + [last] == a;
      MissingIsSubsequence(init, known);
      MissingSnoc(init, last, known);
      if last.version.Some? && last.version.value !in known {
        assert Missing(a, known) == Missing(init, known) + [last];
        SubsequenceAppend(Missing(init, known), init, [last]);
      } else {
        assert Missing(a, known) == Missing(init, known);
        SubsequenceSnoc(Missing(init, known), init, last);
      }
    }
  }

  /** Once the new releases are saved, the next sync finds nothing new: the sync converges. */
  lemma SyncConverges(available: seq<Release>, existing: seq<Release>)
    ensures forall r :: r !in Missing(available, VersionsOf(existing + Missing(available, VersionsOf(existing))))
  {
    var missing := Missing(available, VersionsOf(existing));
    var after := existing + missing;
    MissingMembers(available, VersionsOf(existing));
    MissingMembers(available, VersionsOf(after));
    forall r | r in available && r.version.Some?
      ensures r.version.value in VersionsOf(after)
    {
      if r.version.value !in VersionsOf(existing) {
        assert r in missing;
        assert r in after;
      } else {
        var w :| w in existing && w.version == r.version;
        assert w in after;
      }
    }
  }

  /** A release already stored, or without a version, is never reported as new. */
  lemma DiffOfKnown(a: seq<Release>, b: seq<Release>, r: Release)
    requires r in b || r.version.None?
    ensures r !in Missing(a, VersionsOf(b))
  {
    MissingMembers(a, VersionsOf(b));
  }

  /**
   * The downloads resolveMissingReleases starts: the stored releases whose
   * version has no files yet. Stored releases always carry a version (the
   * repository drops the ones that do not parse).
   */
  method PendingDownloads(releases: seq<Release>, downloaded: set<string>) returns (pending: seq<Release>)
    requires forall r :: r in releases ==> r.version.Some?
    ensures pending == Missing(releases, downloaded)
    ensures forall r :: r in pending <==> r in releases && r.version.value !in downloaded
  {
    pending := [];
    var i := 0;
    while i < |releases|
      invariant 0 <= i <= |releases|
      invariant pending == Missing(releases[..i], downloaded)
    {
      assert releases[..i + 1][..i] == releases[..i];
      assert releases[i] in releases;
      if releases[i].version.value !in downloaded {
        pending := pending + [releases[i]];
      }
      i := i + 1;
    }
    assert releases[..|releases|] == releases;
    MissingMembers(releases, downloaded);
  }

  datatype ResolveError = ListReleasesFailed | VersionsFailed | DownloadFailed(release: Release)

  /**
   * resolveMissingReleases: list the stored releases and the downloaded
   * versions, then download the pending ones in order, stopping at the first
   * failure. `processOk` is the outcome of processDownload for a release.
   */
  method ResolveMissingReleases(stored: Option<seq<Release>>, downloaded: Option<set<string>>,
                                processOk: Release -> bool)
    returns (attempted: seq<Release>, err: Option<ResolveError>)
    requires stored.Some? ==> forall r :: r in stored.value ==> r.version.Some?
    ensures stored.None? ==> err == Some(ListReleasesFailed) && attempted == []
    ensures stored.Some? && downloaded.None? ==> err == Some(VersionsFailed) && attempted == []
    ensures stored.Some? && downloaded.Some? ==>
      var pending := Missing(stored.value, downloaded.value);
      && (err.None? ==> attempted == pending && forall r :: r in pending ==> processOk(r))
      && (err.Some? ==> attempted != [] && |attempted| <= |pending| && pending[..|attempted|] == attempted
                        && err == Some(DownloadFailed(attempted[|attempted| - 1]))
                        && !processOk(attempted[|attempted| - 1])
                        && forall k :: 0 <= k < |attempted| - 1 ==> processOk(attempted[k]))
  {
    if stored.None? {
      return [], Some(ListReleasesFailed);
    }
    if downloaded.None? {
      return [], Some(VersionsFailed);
    }
    var pending := PendingDownloads(stored.value, downloaded.value);
    attempted := [];
    var i := 0;
    while i < |pending|
      invariant 0 <= i <= |pending|
      invariant attempted == pending[..i]
      invariant forall k :: 0 <= k < i ==> processOk(pending[k])
    {
      attempted := attempted + [pending[i]];
      if !processOk(pending[i]) {
        return attempted, Some(DownloadFailed(pending[i]));
      }
      i := i + 1;
    }
    assert pending[..|pending|] == pending;
    err := None;
  }

  /** What went wrong for one repository during a sync. */
  datatype SyncError = FetchFailed(repo: string) | ListFailed(repo: string) | SaveFailed(repo: string) | ResolveFailed(repo: string)

  /** The outcome of syncing one repository, given the outcomes of its external calls. */
  function SyncRepo(repo: Repository,
                    fetch: Repository -> Option<seq<Release>>,
                    list: string -> Option<seq<Release>>,
                    saveOk: seq<Release> -> bool,
                    resolveOk: string -> bool): (e: Option<SyncError>)
    ensures fetch(repo).None? ==> e == Some(FetchFailed(repo.id))
    ensures fetch(repo).Some? && list(repo.id).None? ==> e == Some(ListFailed(repo.id))
    ensures fetch(repo).Some? && list(repo.id).Some? ==>
      var diff := Missing(fetch(repo).value, VersionsOf(list(repo.id).value));
      if diff != [] && !saveOk(diff) then e == Some(SaveFailed(repo.id))
      else e == (if resolveOk(repo.id) then None else Some(ResolveFailed(repo.id)))
    // a repository syncs exactly when fetch, list, the save of a non-empty diff and resolve all succeed
    ensures e.None? <==> fetch(repo).Some? && list(repo.id).Some? && resolveOk(repo.id)
                         && var diff := Missing(fetch(repo).value, VersionsOf(list(repo.id).value));
                            diff != [] ==> saveOk(diff)
  {
    match fetch(repo)
    case None => Some(FetchFailed(repo.id))
    case Some(available) =>
      match list(repo.id)
      case None => Some(ListFailed(repo.id))
      case Some(existing) =>
        var diff := Missing(available, VersionsOf(existing));
        if |diff| > 0 && !saveOk(diff) then Some(SaveFailed(repo.id))
        else if !resolveOk(repo.id) then Some(ResolveFailed(repo.id))
        else None
  }

  /** The errors of a sync over `repos`, in repository order (errors.Join keeps that order). */
  function SyncErrors(repos: seq<Repository>,
                      fetch: Repository -> Option<seq<Release>>,
                      list: string -> Option<seq<Release>>,
                      saveOk: seq<Release> -> bool,
                      resolveOk: string -> bool): (errs: seq<SyncError>)
    ensures |errs| <= |repos|
  {
    if repos == [] then []
    else
      var e := SyncRepo(repos[|repos| - 1], fetch, list, saveOk, resolveOk);
      SyncErrors(repos[..|repos| - 1], fetch, list, saveOk, resolveOk) + (if e.Some? then [e.value] else [])
  }

  /** Syncing one more repository appends its error, if any. */
  lemma SyncErrorsSnoc(init: seq<Repository>, repo: Repository,
                       fetch: Repository -> Option<seq<Release>>,
                       list: string -> Option<seq<Release>>,
                       saveOk: seq<Release> -> bool,
                       resolveOk: string -> bool)
    ensures var e := SyncRepo(repo, fetch, list, saveOk, resolveOk);
      SyncErrors(init + [repo], fetch, list, saveOk, resolveOk)
        == SyncErrors(init, fetch, list, saveOk, resolveOk) + (if e.Some? then [e.value] else [])
  {
    assert (init + [repo])[..|init|] == init;
  }

  /** The loop step of Run: the errors of one more repository. */
  lemma SyncErrorsStep(rs: seq<Repository>, i: nat, before: seq<SyncError>, e: Option<SyncError>,
                       fetch: Repository -> Option<seq<Release>>,
                       list: string -> Option<seq<Release>>,
                       saveOk: seq<Release> -> bool,
                       resolveOk: string -> bool)
    requires i < |rs|
    requires before == SyncErrors(rs[..i], fetch, list, saveOk, resolveOk)
    requires e == SyncRepo(rs[i], fetch, list, saveOk, resolveOk)
    ensures SyncErrors(rs[..i + 1], fetch, list, saveOk, resolveOk) == before + (if e.Some? then [e.value] else [])
  {
    assert rs[..i + 1] == rs[..i] + [rs[i]];
    SyncErrorsSnoc(rs[..i], rs[i], fetch, list, saveOk, resolveOk);
  }

  /** One repository's failure does not change what happens to the others. */
  lemma {:induction false} SyncErrorsSplit(a: seq<Repository>, b: seq<Repository>,
                                           fetch: Repository -> Option<seq<Release>>,
                                           list: string -> Option<seq<Release>>,
                                           saveOk: seq<Release> -> bool,
                                           resolveOk: string -> bool)
    ensures SyncErrors(a + b, fetch, list, saveOk, resolveOk)
         == SyncErrors(a, fetch, list, saveOk, resolveOk) + SyncErrors(b, fetch, list, saveOk, resolveOk)
  {
    if b == [] {
      assert a + b == a;
    } else {
      assert (a + b)[..|a + b| - 1] == a + b[..|b| - 1];
      SyncErrorsSplit(a, b[..|b| - 1], fetch, list, saveOk, resolveOk);
    }
  }

  /** The sync reports no error exactly when every repository synced. */
  lemma {:induction false} SyncErrorsEmpty(repos: seq<Repository>,
                                           fetch: Repository -> Option<seq<Release>>,
                                           list: string -> Option<seq<Release>>,
                                           saveOk: seq<Release> -> bool,
                                           resolveOk: string -> bool)
    ensures SyncErrors(repos, fetch, list, saveOk, resolveOk) == [] <==>
      forall k :: 0 <= k < |repos| ==> SyncRepo(repos[k], fetch, list, saveOk, resolveOk).None?
  {
    if repos != [] {
      var init := repos[..|repos| - 1];
      SyncErrorsEmpty(init, fetch, list, saveOk, resolveOk);
      assert forall k :: 0 <= k < |init| ==> init[k] == repos[k];
    }
  }

  /**
   * One iteration of Run's loop: fetch, diff, save a non-empty diff, then
   * resolve. `saved` is the diff handed to SaveReleases, if any.
   */
  method SyncOne(repo: Repository,
                 fetch: Repository -> Option<seq<Release>>,
                 list: string -> Option<seq<Release>>,
                 saveOk: seq<Release> -> bool,
                 resolveOk: string -> bool)
    returns (e: Option<SyncError>, saved: Option<seq<Release>>)
    ensures e == SyncRepo(repo, fetch, list, saveOk, resolveOk)
    ensures saved.Some? ==> saved.value != []
    ensures saved.Some? <==> fetch(repo).Some? && list(repo.id).Some?
                             && Missing(fetch(repo).value, VersionsOf(list(repo.id).value)) != []
    ensures saved == SavedDiff(repo, fetch, list)
  {
    saved := None;
    var available := fetch(repo);
    if available.None? {
      return Some(FetchFailed(repo.id)), None;
    }
    var existing := list(repo.id);
    if existing.None? {
      return Some(ListFailed(repo.id)), None;
    }
    var diff := DiffReleases(available.value, existing.value);
    if |diff| > 0 {
      saved := Some(diff);
      if !saveOk(diff) {
        return Some(SaveFailed(repo.id)), saved;
      }
    }
    if !resolveOk(repo.id) {
      return Some(ResolveFailed(repo.id)), saved;
    }
    e := None;
  }

  /** The diff a sync of `repo` hands to SaveReleases: the missing releases, when there are any. */
  function SavedDiff(repo: Repository,
                     fetch: Repository -> Option<seq<Release>>,
                     list: string -> Option<seq<Release>>): (d: Option<seq<Release>>)
    ensures d.Some? ==> d.value != [] && fetch(repo).Some? && list(repo.id).Some?
    ensures d.Some? ==> d.value == Missing(fetch(repo).value, VersionsOf(list(repo.id).value))
    ensures d.None? ==> fetch(repo).None? || list(repo.id).None? || Missing(fetch(repo).value, VersionsOf(list(repo.id).value)) == []
  {
    if fetch(repo).Some? && list(repo.id).Some? && Missing(fetch(repo).value, VersionsOf(list(repo.id).value)) != []
    then Some(Missing(fetch(repo).value, VersionsOf(list(repo.id).value)))
    else None
  }

  /** The diffs saved over `repos`, in repository order. */
  function SavedDiffs(repos: seq<Repository>,
                      fetch: Repository -> Option<seq<Release>>,
                      list: string -> Option<seq<Release>>): (ds: seq<seq<Release>>)
    ensures |ds| <= |repos|
    ensures forall d :: d in ds ==> d != []
  {
    if repos == [] then []
    else
      var d := SavedDiff(repos[|repos| - 1], fetch, list);
      SavedDiffs(repos[..|repos| - 1], fetch, list) + (if d.Some? then [d.value] else [])
  }

  lemma SavedDiffsStep(rs: seq<Repository>, i: nat,
                       fetch: Repository -> Option<seq<Release>>,
                       list: string -> Option<seq<Release>>)
    requires i < |rs|
    ensures var d := SavedDiff(rs[i], fetch, list);
      SavedDiffs(rs[..i + 1], fetch, list) == SavedDiffs(rs[..i], fetch, list) + (if d.Some? then [d.value] else [])
  {
    assert rs[..i + 1][..i] == rs[..i];
  }

  datatype RunError = ListRepositoriesFailed | Joined(errors: seq<SyncError>)

  /**
   * Run: sync every repository in turn; a failing step moves on to the next
   * repository and the errors are joined. `saves` are the diffs handed to
   * SaveReleases, none of them empty.
   */
  method Run(repos: Option<seq<Repository>>,
             fetch: Repository -> Option<seq<Release>>,
             list: string -> Option<seq<Release>>,
             saveOk: seq<Release> -> bool,
             resolveOk: string -> bool)
    returns (err: Option<RunError>, saves: seq<seq<Release>>)
    ensures repos.None? ==> err == Some(ListRepositoriesFailed) && saves == []
    ensures repos.Some? ==>
      var errs := SyncErrors(repos.value, fetch, list, saveOk, resolveOk);
      (errs == [] ==> err.None?) && (errs != [] ==> err == Some(Joined(errs)))
    ensures forall d :: d in saves ==> d != []
    ensures repos.Some? ==> saves == SavedDiffs(repos.value, fetch, list)
  {
    if repos.None? {
      return Some(ListRepositoriesFailed), [];
    }
    var rs := repos.value;
    var errs: seq<SyncError> := [];
    saves := [];
    var i := 0;
    assert rs[..0] == [];
    assert errs == SyncErrors(rs[..0], fetch, list, saveOk, resolveOk);
    while i < |rs|
      invariant 0 <= i <= |rs|
      invariant errs == SyncErrors(rs[..i], fetch, list, saveOk, resolveOk)
      invariant saves == SavedDiffs(rs[..i], fetch, list)
    {
      var e, saved := SyncOne(rs[i], fetch, list, saveOk, resolveOk);
      SavedDiffsStep(rs, i, fetch, list);
      if saved.Some? {
        saves := saves + [saved.value];
      }
      ghost var before := errs;
      if e.Some? {
        errs := errs + [e.value];
      }
      SyncErrorsStep(rs, i, before, e, fetch, list, saveOk, resolveOk);
      i := i + 1;
    }
    assert rs[..|rs|] == rs;
    if errs == [] {
      err := None;
    } else {
      err := Some(Joined(errs));
    }
  }
}
