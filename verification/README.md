# pb_launcher core, modelled in Dafny

pb_launcher runs many PocketBase instances ("services") on one host. A
downloader keeps the PocketBase releases of each repository on disk. The
launcher starts, stops and restarts one process per service and records the
address it listens on. A log store keeps the last lines each process wrote.
Two fronts route traffic: an HTTP front maps `<id>.<domain>` to the service
with that id, and an HTTPS front also serves custom domains. A certificate
planner and a certificate executor obtain TLS certificates for custom domains.
The web UI polls a service's log, joins URLs and validates forms.

This project models that core as Dafny modules, one per source file:

- `Wrappers`, `Strs`, `Seqs`: Option/Result, Go and JavaScript string
  helpers, and subsequences.
- `AppConfig`: the configuration getters and `LoadConfigs`.
- `Domains`, `Pointers`, `NetTools`: the utility packages.
- `LogStore`: the service log table, its writer and its query.
- `Process`: one child process as a state machine and as a class.
- `SerialExecutor`: the priority-ordered task runner.
- `Download`: the release diff, the downloads still pending and the sync loop.
- `InstallToken`: the installer-link scan of a process's stdout.
- `Launcher`: the LauncherManager class, its commands and its restart policy.
- `CertRequests`, `CertPlanner`, `CertExecutor`: certificate requests, the
  planner's decision and the executor's state changes.
- `ProxyDiscovery`, `ReverseProxy`: how the fronts pick an upstream.
- `DomainHooks`: the record hooks of the `services_domains` collection.
- `LogTail`, `UrlUtil`, `ModalStack`, `Validation`: the UI modules.

The model reaches the outside world through parameters. The database, the
file system, the clock, DNS and URL parsing, `time.ParseDuration`,
`net.ParseIP`, `path.Clean` and process spawning are all passed in, as
function-typed parameters or as outcome flags.

## Model

| member | source | states |
|---|---|---|
| AppConfig.GetProvider | configs/configs.go:56-63 | the TLS provider is never empty: the trimmed configured name, or "selfsigned" when that is blank |
| AppConfig.GetProp | configs/configs.go:65-71 | a property is found exactly when the map exists and holds the key; a missing one reads as "" |
| AppConfig.OrDefault | configs/configs.go:101-106 | an empty configured value is replaced by its default; any other value is kept |
| AppConfig.DefaultsOfEmptyConfigs | configs/configs.go:101-193 | an empty configuration yields bind 127.0.0.1, listen 0.0.0.0, ports 7080/8443, ./downloads, ./data, ./.certificates, domain pb.labenv.test, 1 attempt |
| AppConfig.GetDomain | configs/configs.go:160-165 | the domain never contains ':'; it is the configured text up to its first ':', or pb.labenv.test when unset |
| AppConfig.DomainDropsPort | configs/configs.go:164 | a configured "name:port" yields exactly the name |
| AppConfig.GetListenIPAddressAsWritten | configs/configs.go:167-172 | the listen address as written is read from bind_address (0.0.0.0 when that is unset) |
| AppConfig.ListenAddressIgnored | configs/configs.go:167-172 | with bind 127.0.0.1 and listen 0.0.0.0 configured, the getter as written returns 127.0.0.1 |
| AppConfig.GetListenIPAddress | configs/configs.go:84 | the corrected getter returns listen_address, or 0.0.0.0 when it is unset |
| AppConfig.ListenIndependentOfBind | configs/configs.go:84 | changing bind_address never changes the corrected listen address |
| AppConfig.ParseDurationWithMin | configs/configs.go:296-316 | the result is never below the minimum; an empty or unparsable value gives the minimum, a parsed one the larger of the two |
| AppConfig.GetReleaseSyncInterval | configs/configs.go:115-121 | the release sync interval is at least 5 minutes |
| AppConfig.GetCommandCheckInterval | configs/configs.go:123-129 | the command check interval is at least 10 seconds |
| AppConfig.GetCertificateCheckInterval | configs/configs.go:131-137 | the certificate check interval is at least one minute |
| AppConfig.GetMinCertificateTtl | configs/configs.go:195-201 | the minimum certificate TTL is at least 720 hours |
| AppConfig.GetCertRequestPlannerInterval | configs/configs.go:215-221 | the planner interval is at least 5 minutes |
| AppConfig.GetCertRequestExecutorInterval | configs/configs.go:223-229 | the executor interval is at least one minute |
| AppConfig.IntervalsPositive | configs/configs.go:108-137 | every scheduler interval is strictly positive, whatever is configured |
| AppConfig.GetMaxDomainCertAttempts | configs/configs.go:203-213 | the attempt limit is clamped into 1..5 and kept as configured inside that range |
| AppConfig.MaxAttemptsIdempotent | configs/configs.go:203-213 | clamping an already clamped limit changes nothing |
| AppConfig.Atoi | configs/configs.go:288 | an empty string never converts; a string of decimal digits converts to its value |
| AppConfig.PortCases | configs/configs.go:288-291 | "7080" is a valid port; "0", "" and "80a" are not |
| AppConfig.Trimmed | configs/configs.go:265-274 | each of the nine listed fields becomes its TrimSpace; certificates_dir, the TLS block, the attempt limit, command_check_interval, certificate_check_interval, min_certificate_ttl, cert_request_planner_interval, cert_request_executor_interval, https and disable_https_redirect stay as read |
| AppConfig.TrimmedIdempotent | configs/configs.go:265-274 | trimming an already trimmed configuration changes nothing |
| AppConfig.LoadConfigs | configs/configs.go:256-294 | no path gives the empty configuration; an unreadable file, a non-IP bind address, a listen address (as the getter returns it) that does not parse while the bind address does, or a bad HTTP port is an error, checked in that order; the listen check reads bind_address through the getter as written, so it refuses only an unset bind_address whose 0.0.0.0 default does not parse, and listen_address itself is never validated; otherwise the trimmed configuration |
| Domains.ToWildcardDomain | utils/domainutil/domain.go:5-8 | the result is a wildcard; a wildcard is returned as it is, any other name gets "*." in front |
| Domains.BaseDomain | utils/domainutil/domain.go:10-15 | one leading "*." is removed; a non-wildcard name is returned as it is |
| Domains.IsWildcardDomain | utils/domainutil/domain.go:17-19 | a domain is a wildcard exactly when it starts with '*' and '.' |
| Domains.SubdomainMatchesWildcard | utils/domainutil/domain.go:21-27 | a name matches exactly when the pattern is a wildcard and the name is its base or ends with "." and its base |
| Domains.NormalizeWildcardDomain | utils/domain.go:5-10 | the result is a wildcard and is the input when the input already was one |
| Domains.NormalizeAgreesWithToWildcard | utils/domain.go:5-10 | the two wildcard helpers of the code base compute the same name |
| Domains.ToWildcardIdempotent | utils/domainutil/domain.go:5-8 | converting twice is converting once |
| Domains.NormalizeIdempotent | utils/domain.go:5-10 | normalising twice is normalising once |
| Domains.BaseOfWildcard | utils/domainutil/domain.go:5-15 | BaseDomain undoes ToWildcardDomain, and ToWildcardDomain of the base gives the wildcard back |
| Domains.OneLevelOnly | utils/domainutil/domain.go:6-11 | only one "*." level is stripped: "*.*.x" has base "*.x" |
| Domains.WildcardMatchesItsBase | utils/domainutil/domain.go:21-27 | a wildcard matches its own base and every name below it |
| Domains.NonWildcardNeverMatches | utils/domainutil/domain.go:22-24 | a name that is not a wildcard matches nothing |
| Pointers.Ptr | utils/pointers.go:10-16 | the pointer is nil exactly for the zero value and otherwise points at the value |
| Pointers.StrPointer | utils/pointers.go:3-8 | the pointer is nil exactly for "" and otherwise points at the string |
| Pointers.PtrRoundTrip | utils/pointers.go:10-16 | dereferencing with the zero value as fallback gives the original value back |
| Pointers.StrPointerIsPtr | utils/pointers.go:3-16 | StrPointer is Ptr at type string |
| NetTools.SplitHostPort | utils/networktools/http.go:15 | a split port never contains ':', '[' or ']' |
| NetTools.SplitJoinHostPort | utils/networktools/http.go:15 | splitting "host:port" gives host and port back |
| NetTools.SplitBracketedAt | utils/networktools/http.go:15 | an address opening with '[' whose first ']' stands just before the last ':' splits into the bracketed host and the port |
| NetTools.SplitJoinBracketed | utils/networktools/http.go:15 | splitting "[host]:port" gives host and port back |
| NetTools.ForwardedFor | utils/networktools/http.go:18-22 | the chain ends with the client IP and appends it after ", " to an existing chain |
| NetTools.PrepareProxyHeaders | utils/networktools/http.go:11-29 | the request targets the new host; the four forwarding headers are set and every other header is unchanged |
| NetTools.GetRealIP | utils/networktools/http.go:31-40 | X-Real-IP wins, then X-Forwarded-For, then the host part of the remote address |
| NetTools.RealIpAfterRewrite | utils/networktools/http.go:11-40 | after the rewrite the upstream's real IP is the client IP the proxy saw |
| NetTools.ProtoAfterRewrite | utils/networktools/http.go:24-50 | the rewritten protocol header is read back as secure exactly when the request was secure |
| NetTools.SecureForProto | utils/networktools/http.go:42-50 | a single protocol value is secure exactly with TLS or with "https" |
| NetTools.IsRequestSecure | utils/networktools/http.go:42-50 | a TLS request is secure; without TLS and without X-Forwarded-Proto it is not |
| NetTools.SecureCases | utils/networktools/http.go:42-50 | TLS alone is secure; a missing or "http" header without TLS is not |
| NetTools.SecureForFirstProto | utils/networktools/http.go:44-47 | only the first comma-separated protocol is consulted |
| NetTools.FirstProtoDecides | utils/networktools/http.go:44-47 | a value starting "https," is secure and one starting "http," is secure only with TLS, whatever follows the comma |
| NetTools.ProtoCaseAndSpace | utils/networktools/http.go:47 | " HTTPS " is secure: spaces are trimmed and case is ignored |
| NetTools.HostPart | utils/networktools/http.go:53-66 | a port other than "", 80 or 443 is appended after ':' |
| NetTools.HostPartReplacesPort | utils/networktools/http.go:59-66 | a host's own port is replaced by the given one |
| NetTools.HostPartTrailingSlashes | utils/networktools/http.go:53 | trailing slashes of the host are dropped |
| NetTools.JoinPathLength | utils/networktools/http.go:68-71 | the path is one '/' per segment plus the trimmed segments |
| NetTools.JoinPath | utils/networktools/http.go:68-71 | no segments give the empty path; any segment makes the path start with '/' |
| NetTools.BuildHostURL | utils/networktools/http.go:52-74 | the loop builds schema, "://", the host part and the joined path |
| NetTools.JoinPathCases | utils/networktools/http.go:68-71 | "/one/", "two", "///three///" join to "/one/two/three" |
| ProxyDiscovery.ExtractId | internal/proxy/proxy_discovery.go:50-66 | the API domain itself is an error; a foreign host has no id; an id is a single label that rebuilds the host |
| ProxyDiscovery.ExtractIdRoundTrip | internal/proxy/proxy_discovery.go:50-66 | the id of "id.domain" is id, for every label without dots |
| ProxyDiscovery.ExtractIdRefusesDeeperNames | internal/proxy/proxy_discovery.go:58-63 | a dotted prefix and an empty prefix are both refused |
| ProxyDiscovery.EntryTarget | internal/proxy/proxy_discovery.go:150-158 | a proxy entry is a target exactly when its URL parses |
| ProxyDiscovery.ResolveByDomain | internal/proxy/proxy_discovery.go:111-137 | an unknown or unreadable domain is an error; a domain with a service gives that running service's address, or an error when it is not found; otherwise a domain with a proxy entry gives the entry's parsed target URL, or an error when the entry is not found; a domain with neither is an error |
| ProxyDiscovery.ResolveById | internal/proxy/proxy_discovery.go:140-162 | a running service wins and a failed service lookup aborts; otherwise a found proxy entry gives its parsed target URL, a failed entry lookup aborts, and no entry means no target |
| ProxyDiscovery.ResolveTarget | internal/proxy/proxy_discovery.go:98-163 | the API domain goes to the internal API; a malformed id is an error |
| ProxyDiscovery.ServiceBeforeProxyEntry | internal/proxy/proxy_discovery.go:140-149 | when both exist, "id.domain" routes to the service, not the proxy entry |
| ProxyDiscovery.LookupFailureAborts | internal/proxy/proxy_discovery.go:141-145 | a failing service lookup is reported and no proxy entry is tried |
| ProxyDiscovery.ForeignHostUsesDomainLookup | internal/proxy/proxy_discovery.go:106-116 | a host outside the API domain is resolved by the domain table |
| ReverseProxy.ResolveServiceId | internal/proxy/reverse_proxy.go:53-71 | the API domain has the empty id; a sub-domain's id rebuilds the host; any other host resolves to the id the domain table holds for it, and to ServiceIdNotFoundForDomain when the table has none |
| ReverseProxy.ServiceIdAgreesWithExtractId | internal/proxy/reverse_proxy.go:53-71 | for sub-domains of the API domain both fronts extract the same id |
| ReverseProxy.ResolveServiceTarget | internal/proxy/reverse_proxy.go:73-94 | an id error is passed on; an empty id (the API domain) goes to the internal API; any other id gives its running service's address, or a not-found error |
| ReverseProxy.ServeHTTP | internal/proxy/reverse_proxy.go:114-135 | the port is stripped from the host; an insecure request is redirected when HTTPS is on, otherwise it is proxied or refused |
| ReverseProxy.MustRedirect | internal/proxy/reverse_proxy.go:128 | a redirect happens exactly for an insecure request when HTTPS is on and its redirect is not disabled |
| ReverseProxy.RedirectPathDropsTrailingSlash | internal/proxy/reverse_proxy.go:128-134 | the redirect's path loses its trailing slash |
| LogStore.NormalizeLimit | helpers/logstore/collector.go:112-117 | a non-positive limit becomes 500; a positive one is kept |
| LogStore.OfService | helpers/logstore/collector.go:119-125 | exactly the service's own rows are kept |
| LogStore.Latest | helpers/logstore/collector.go:119-135 | exactly min(n, rows of the service) rows: the service's newest rows, oldest first |
| LogStore.OfServiceAscending | helpers/logstore/collector.go:119-125 | filtering keeps the id order |
| LogStore.LatestAscending | helpers/logstore/collector.go:119-135 | the query returns oldest first |
| LogStore.LatestAreNewest | helpers/logstore/collector.go:119-135 | every row of the service left out is older than every row returned |
| LogStore.OfServiceAppend | helpers/logstore/collector.go:91-109 | an inserted line joins its service's rows at the end |
| LogStore.InsertedLineIsRead | helpers/logstore/collector.go:91-137 | the line just inserted is the last line a query returns |
| LogStore.ServiceLogDB.InsertLog | helpers/logstore/collector.go:91-109 | an unknown stream or a database failure changes nothing; otherwise exactly one row with the next id is appended |
| LogStore.NewestFirstWindow | helpers/logstore/collector.go:111-137 | the first n rows newest first, reversed, are the last n rows in table order |
| LogStore.ServiceLogDB.GetLogsByService | helpers/logstore/collector.go:111-137 | returns the latest rows of the service up to the normalised limit, oldest first, or an error |
| LogStore.ServiceLogDB.NewWriter | helpers/logstore/collector.go:182-188 | a new writer bound to this store, the service and the stream |
| LogStore.ServiceLogger.Write | helpers/logstore/collector.go:168-180 | a written chunk becomes one row and reports its full length, or reports 0 and changes nothing |
| Process.Next | helpers/process/service_process.go:69-148 | an exit always stops; a start is a no-op unless stopped; a signal is a no-op unless running |
| Process.Run | helpers/process/service_process.go:69-148 | no events leave the state as it was; a sequence ending with the exit ends Stopped |
| Process.NeverLeftStarting | helpers/process/service_process.go:85-95 | no event leaves a process in Starting |
| Process.NeverStartingBetweenCalls | helpers/process/service_process.go:85-95 | no sequence of calls leaves a process in Starting |
| Process.EnteringStopping | helpers/process/service_process.go:129-134 | only a delivered signal to a running process enters Stopping |
| Process.EnteringRunning | helpers/process/service_process.go:85-95 | only a successful start of a stopped process enters Running |
| Process.StartStopExit | helpers/process/service_process.go:69-148 | start, stop, exit goes Running, Stopping, Stopped |
| Process.ExitReport | helpers/process/service_process.go:99-115 | an exit is reported unless it was clean or "signal: terminated"; the report carries the id and the error |
| Process.Process.constructor | helpers/process/service_process.go:50-64 | a new process is Stopped, has no command and has reported nothing |
| Process.Process.IsRunning | helpers/process/service_process.go:67 | true exactly in the Running state |
| Process.Process.Start | helpers/process/service_process.go:69-97 | follows Next; only a stopped process starts; a failed start reverts to Stopped |
| Process.Process.WaitForExit | helpers/process/service_process.go:99-115 | the process is Stopped and the exit report is sent when there is a channel |
| Process.Process.Stop | helpers/process/service_process.go:117-148 | follows Next; only a running process is signalled; a process not exiting in time is killed |
| SerialExecutor.CheckTask | helpers/serialexecutor/executor.go:27-36 | nil task, nil action and non-positive interval are refused in that order |
| SerialExecutor.ConsSorted | helpers/serialexecutor/executor.go:54-56 | a task with priority at least the rest's heads a sorted list |
| SerialExecutor.HeadIsHighest | helpers/serialexecutor/executor.go:54-56 | the head of a sorted list has the highest priority |
| SerialExecutor.Insert | helpers/serialexecutor/executor.go:54-56 | inserting keeps the list sorted and adds exactly the one task |
| SerialExecutor.SortByPriority | helpers/serialexecutor/executor.go:54-56 | the result is sorted by decreasing priority and is a permutation of the input |
| SerialExecutor.PriorityOrderExample | helpers/serialexecutor/executor_test.go:78-122 | priorities 2, 1, 3 run in the order 3, 2, 1 |
| SerialExecutor.StartQueuesEachOnce | helpers/serialexecutor/executor.go:57-60 | the queue holds every registered task exactly once, highest priority first |
| SerialExecutor.SequentialExecutor.constructor | helpers/serialexecutor/executor.go:20-24 | a new executor is idle with no tasks |
| SerialExecutor.SequentialExecutor.Add | helpers/serialexecutor/executor.go:26-45 | a valid task is appended while idle; otherwise the check's error or "running" and nothing changes |
| SerialExecutor.SequentialExecutor.Start | helpers/serialexecutor/executor.go:47-80 | a running executor is unchanged; otherwise the tasks are sorted and all queued |
| SerialExecutor.SequentialExecutor.Stop | helpers/serialexecutor/executor.go:82-94 | a running executor stops and closes; an idle one is unchanged |
| Download.Missing | internal/download/domain/download.go:49-58 | the diff is no longer than its input |
| Download.MissingMembers | internal/download/domain/download.go:49-58 | a release is missing exactly when it is in the input and has a version that is not known |
| Download.DiffReleases | internal/download/domain/download.go:41-59 | the loops return the releases of a whose version is not in b, in a's order |
| Download.MissingIsSubsequence | internal/download/domain/download.go:50-56 | the diff keeps a's order |
| Download.DiffOfKnown | internal/download/domain/download.go:41-59 | a release already stored, or without a version, is never reported as new |
| Download.SyncConverges | internal/download/domain/download.go:41-59 | after saving the diff a second diff is empty |
| Download.PendingDownloads | internal/download/domain/download.go:116-126 | exactly the stored releases whose version is not downloaded |
| Download.ResolveMissingReleases | internal/download/domain/download.go:103-136 | a list failure aborts; downloads follow the pending order and stop at the first failure |
| Download.SyncRepo | internal/download/domain/download.go:144-176 | a failed fetch, list, save of a non-empty diff or resolve gives that step's error, the first one in that order; a repository syncs exactly when all of them succeed (an empty diff is not saved) |
| Download.SyncErrors | internal/download/domain/download.go:144-176 | at most one error per repository |
| Download.SyncErrorsSplit | internal/download/domain/download.go:144-176 | the errors of two runs of repositories are the errors of each run, joined |
| Download.SyncErrorsEmpty | internal/download/domain/download.go:144-176 | no error exactly when every repository syncs |
| Download.SyncOne | internal/download/domain/download.go:145-175 | one repository's outcome, and the diff it saves is SavedDiff: the missing releases, only when there are any |
| Download.SavedDiffs | internal/download/domain/download.go:145-175 | at most one non-empty diff per repository, in repository order |
| Download.Run | internal/download/domain/download.go:138-177 | a listing failure aborts and saves nothing; otherwise every repository is visited, the errors are joined and the saved diffs are SavedDiffs of the repositories, in order |
| InstallToken.RunEnd | internal/launcher/domain/launcher_manager.go:139 | the end of the longest run of accepted characters |
| InstallToken.AfterScheme | internal/launcher/domain/launcher_manager.go:139 | a match starts with "http" and continues after "://" |
| InstallToken.MatchAt | internal/launcher/domain/launcher_manager.go:139 | a token is non-empty and made only of letters, digits, '.', '_' and '-' |
| InstallToken.FindToken | internal/launcher/domain/launcher_manager.go:151 | any token found is non-empty and made of token characters |
| InstallToken.StdoutToken | internal/launcher/domain/launcher_manager.go:141-158 | output without "/pbinstal/" yields nothing; a token is well formed |
| InstallToken.ScanStopsAt2048 | internal/launcher/domain/launcher_manager.go:147-150 | for a chunk that contains the installer marker, nothing after the first 2048 characters changes the token found |
| InstallToken.HttpsSchemeAt | internal/launcher/domain/launcher_manager.go:139 | "https://" is accepted as a scheme |
| InstallToken.FindTokenLeftmost | internal/launcher/domain/launcher_manager.go:151 | the leftmost match is the one returned |
| InstallToken.MatchAtLayout | internal/launcher/domain/launcher_manager.go:139 | "http://", a host without '/', the installer path and a maximal run of token characters match at the start, with that run as the token |
| InstallToken.InstallerLinkAtStart | internal/launcher/domain/launcher_manager.go:139-155 | an installer link "http://host/_/#/pbinstal/token" yields exactly its token |
| InstallToken.RunEndIs | internal/launcher/domain/launcher_manager.go:139 | a run bounded by a rejected character ends exactly there |
| Strs.NonEmptyConcat | internal/launcher/domain/launcher_manager.go:101 | filtering the path elements distributes over concatenation, so the kept elements keep their order |
| Launcher.BuildArgs | internal/launcher/domain/launcher_manager.go:100-108 | eight arguments: the four directory flags, each followed by its path |
| Launcher.ArgsUnderServiceDir | internal/launcher/domain/launcher_manager.go:100-108 | every directory is a child of the service's directory under the data dir |
| Launcher.Decimal | internal/launcher/domain/launcher_manager.go:184 | a port prints as a non-empty string of digits |
| Launcher.ServeArgs | internal/launcher/domain/launcher_manager.go:184-185 | "serve", the eight directory arguments, "--http" and the address |
| Launcher.RestartFor | internal/launcher/domain/launcher_manager.go:69-96 | a restart is published exactly for a marked failure of a found on-failure service |
| Launcher.Restarts | internal/launcher/domain/launcher_manager.go:61-98 | at most one restart per error |
| Launcher.RestartsAreOnFailure | internal/launcher/domain/launcher_manager.go:61-98 | every restarted id belongs to an on-failure service that one of the errors was about |
| Launcher.MarkedIdsMembers | internal/launcher/domain/launcher_manager.go:61-98 | an id gets a failure record exactly when one of the errors is about it and its write succeeded |
| Launcher.RestartsOnlyOnFailure | internal/launcher/domain/launcher_manager.go:87-89 | no restart is published when no failing service has the on-failure policy |
| Launcher.LauncherManager.constructor | internal/launcher/domain/launcher_manager.go:38-59 | a new manager has no processes, records, marks or published commands |
| Launcher.LauncherManager.IsRunning | internal/launcher/domain/launcher_manager.go:161-165 | the service has an entry and it is running |
| Launcher.StartOutcome | internal/launcher/domain/launcher_manager.go:160-223 | a running service is refused without effect; a start succeeds exactly when it is not running and the binary, a free port and the spawn are there, and then its entry is the launched process and its record the address; a failed spawn records the failure and changes nothing else; any other refusal changes nothing; no entry is left Starting |
| Launcher.LauncherManager.StartService | internal/launcher/domain/launcher_manager.go:160-223 | the error and the new table and records are those StartOutcome gives for the old ones; command marks and published restarts are unchanged |
| Launcher.StopOutcome | internal/launcher/domain/launcher_manager.go:225-245 | a missing or idle process is refused; a failed signal is refused; a stop succeeds exactly for a running process that takes the signal, and then it leaves the table and is recorded as stopped; a refusal changes nothing |
| Launcher.LauncherManager.StopService | internal/launcher/domain/launcher_manager.go:225-245 | the error and the new table and records are those StopOutcome gives for the old ones |
| Launcher.RestartOutcome | internal/launcher/domain/launcher_manager.go:247-262 | a running service whose signal fails is refused without effect; one that is not running is simply started; a restart succeeds exactly when the stop (if needed) and the start succeed, and then the table and records are those of a start from the old ones; a start that fails after a successful stop leaves the service out of the table and recorded as stopped, or as failed when the spawn failed |
| Launcher.LauncherManager.RestartService | internal/launcher/domain/launcher_manager.go:247-262 | the error and the new table and records are those RestartOutcome gives for the old ones |
| Launcher.EvaluateOutcome | internal/launcher/domain/launcher_manager.go:292-308 | an unknown service or action code is refused without effect; code 1 succeeds exactly when the service runs and takes the signal, and removes it; code 2 succeeds exactly when it is not running and can be spawned, and leaves it running at its new address; code 3 succeeds exactly when the stop (if running) and the spawn succeed, and leaves it running at its new address |
| Launcher.LauncherManager.EvaluateCommand | internal/launcher/domain/launcher_manager.go:292-308 | the error and the new table and records are those EvaluateOutcome gives for the old ones |
| Launcher.RunCommands | internal/launcher/domain/launcher_manager.go:310-328 | one mark per command, each command evaluated in the table the earlier ones left |
| Launcher.RunMarksAreOutcomes | internal/launcher/domain/launcher_manager.go:316-326 | mark k carries command k's id and is true exactly when that command's evaluation, after the commands before it, succeeded |
| Launcher.RunRejectedMarkedFalse | internal/launcher/domain/launcher_manager.go:316-326 | a command for an unknown service or with an unknown action is marked as an error |
| Launcher.LauncherManager.Run | internal/launcher/domain/launcher_manager.go:310-328 | a failed fetch of the commands changes nothing and is returned; otherwise the marks appended and the final table and records are those of RunCommands over the fetched commands |
| Launcher.MarkFailures | internal/launcher/domain/launcher_manager.go:61-98 | the services with records are the old ones plus those of the errors whose record write succeeded |
| Launcher.LastErrorOf | internal/launcher/domain/launcher_manager.go:61-98 | there is no message exactly when no error is about the service |
| Launcher.LastErrorOfIsLast | internal/launcher/domain/launcher_manager.go:61-98 | the message is that of the last error about the service |
| Launcher.MarkFailuresAt | internal/launcher/domain/launcher_manager.go:61-98 | a service whose write succeeds holds FailedWith of the last error about it; every other record is as before |
| Launcher.LauncherManager.HandleServiceErrors | internal/launcher/domain/launcher_manager.go:61-98 | the published restarts are exactly Restarts of the errors; the new records are MarkFailures of the old ones; the table and the command marks are unchanged |
| Launcher.LauncherManager.ProcessExited | helpers/process/service_process.go:99-115 | the exited service's entry is Stopped; nothing else changes |
| CertPlanner.PostSSLDomainRequest | internal/certmanager/domain/request_planner.go:39-75 | a pending-lookup error aborts with that error and a pending request blocks a new one; then a last-request lookup error aborts with it, an exhausted limit creates nothing, a store error other than "no usable certificate" aborts with it, a certificate valid for more than the minimum TTL is kept, and otherwise a request for the domain is created with the allowed attempt |
| CertPlanner.NextAttempt | internal/certmanager/domain/request_planner.go:48-60 | attempt 1 without the check, and with the check when the lookup succeeds or finds nothing and the last request did not fail; with the check, a failed last request below the limit is retried with its attempt plus one, and none is made at the limit; the result is an error exactly when the limit is checked and the lookup fails with something other than not found |
| CertPlanner.AttemptNeverExceedsMax | internal/certmanager/domain/request_planner.go:49-60 | with the check on, no request beyond the attempt limit is created |
| CertPlanner.CreateExactly | internal/certmanager/domain/request_planner.go:62-74 | no pending request and an absent, invalid or expired certificate create a request |
| CertPlanner.NoSecondPending | internal/certmanager/domain/request_planner.go:44-46 | a domain never gets a second pending request |
| CertPlanner.RenewsBrokenCertificate | internal/certmanager/domain/request_planner.go:62-74 | a missing, unparsable or expired certificate leads to a first-attempt request |
| CertPlanner.RenewsBrokenCertificateChecked | internal/certmanager/domain/request_planner.go:48-74 | with the limit checked, a domain whose last request did not fail is renewed with attempt 1 too |
| CertPlanner.RetriesAfterFailure | internal/certmanager/domain/request_planner.go:48-74 | with the limit checked, a domain without a valid certificate whose last request failed below the limit gets a request with the next attempt |
| CertExecutor.Due | internal/certmanager/domain/request_executor.go:38-44 | exactly the pending requests whose not-before time has passed or is unset |
| CertExecutor.IsDue | internal/certmanager/domain/request_executor.go:40 | a request without a not-before time is due; one with it is due exactly when that time is not after now |
| CertExecutor.PendingToExecute | internal/certmanager/domain/request_executor.go:32-45 | a listing error is passed on; otherwise the due requests |
| CertExecutor.Outcome | internal/certmanager/domain/request_executor.go:47-69 | a request is approved exactly when issuing and storing succeed, and failed otherwise; a failure carries the failing step's error text as its message, an approval none |
| CertExecutor.Apply | internal/certmanager/domain/request_executor.go:77-83 | the records gain the ids whose mark was written |
| CertExecutor.CertRequestRepository.MarkAsFailed | internal/certmanager/repos/cert_requests.go:66-75 | a written mark sets the request to failed with the given message; a failed write changes nothing |
| CertExecutor.CertRequestRepository.MarkAsApproved | internal/certmanager/repos/cert_requests.go:56-64 | a written mark sets the request to approved and clears its message; a failed write changes nothing |
| CertExecutor.ProcessRequest | internal/certmanager/domain/request_executor.go:47-69 | the request is marked with its outcome; the error names the failing step, and the message stored with a failure is the cause that error carries |
| CertExecutor.ExecutePlan | internal/certmanager/domain/request_executor.go:71-84 | a listing error changes nothing; otherwise each due request is processed in order |
| CertExecutor.ApplyRecordsEach | internal/certmanager/domain/request_executor.go:77-83 | each due request whose mark was written ends with its own outcome |
| CertExecutor.ApplyLeavesOthers | internal/certmanager/domain/request_executor.go:77-83 | requests not due keep their status and message |
| DomainHooks.ValidateServiceOrProxyEntry | internal/hooks/domains.go:116-126 | a domain proceeds exactly when one of service and proxy entry is set, else the matching message |
| DomainHooks.Columns | internal/hooks/domains.go:51-60 | max attempt reached exactly when attempt >= limit; valid certificate exactly when the TTL is positive |
| DomainHooks.Decorate | internal/hooks/domains.go:35-61 | only the extra columns change; an HTTPS domain with a last request gets exactly the columns of that request, its message and the store's TTL; any other record is returned unchanged |
| DomainHooks.ListHook | internal/hooks/domains.go:24-64 | without the collection nothing changes; otherwise each record is decorated in place |
| DomainHooks.DecorateIdempotent | internal/hooks/domains.go:35-61 | listing twice decorates as once |
| DomainHooks.AfterCreate | internal/hooks/domains.go:72-82 | an HTTPS domain requests a certificate without the attempt check, and nothing else |
| DomainHooks.AfterUpdate | internal/hooks/domains.go:84-95 | the cache entry is dropped first, then as after create |
| DomainHooks.AfterDelete | internal/hooks/domains.go:97-105 | the cache entry and pending requests are dropped and no certificate is requested |
| DomainHooks.OnCertRequestCreate | internal/hooks/domains.go:108-113 | a new cert_requests record asks the planner for its domain without the attempt limit |
| DomainHooks.HookRequestsAreFirstAttempts | internal/hooks/domains.go:72-113 | a request created from a hook is always attempt 1 |
| LogTail.Ids | ui/src/pages/internal/details_section/ServiceLogsSection.tsx:122 | exactly the ids of the buffer |
| LogTail.FilterNew | ui/src/pages/internal/details_section/ServiceLogsSection.tsx:123 | exactly the incoming entries whose id is not yet known |
| LogTail.MergeLogsUnique | ui/src/pages/internal/details_section/ServiceLogsSection.tsx:118-125 | the buffer is a prefix of the result; new ids are appended; known ids are dropped |
| LogTail.FilterNewIsSubsequence | ui/src/pages/internal/details_section/ServiceLogsSection.tsx:123 | filtering keeps the incoming order |
| LogTail.MergePreservesOrder | ui/src/pages/internal/details_section/ServiceLogsSection.tsx:118-125 | the merge is the buffer followed by a subsequence of the batch |
| LogTail.FilterNewOfKnown | ui/src/pages/internal/details_section/ServiceLogsSection.tsx:123 | a batch of known ids adds nothing |
| LogTail.MergeIdempotent | ui/src/pages/internal/details_section/ServiceLogsSection.tsx:118-125 | merging the same batch twice is merging it once |
| LogTail.FilterNewUnique | ui/src/pages/internal/details_section/ServiceLogsSection.tsx:123 | filtering keeps ids unique |
| LogTail.MergeKeepsIdsUnique | ui/src/pages/internal/details_section/ServiceLogsSection.tsx:118-125 | unique ids in buffer and batch stay unique after the merge |
| LogTail.DuplicatesWithinBatchSurvive | ui/src/pages/internal/details_section/ServiceLogsSection.tsx:122-123 | two entries with one id in one batch are both kept |
| LogTail.Window | ui/src/pages/internal/details_section/ServiceLogsSection.tsx:53-57 | consecutive ids lo..hi-1 |
| LogTail.FilterNewConcat | ui/src/pages/internal/details_section/ServiceLogsSection.tsx:123 | filtering distributes over concatenation |
| LogTail.FilterNewOfFresh | ui/src/pages/internal/details_section/ServiceLogsSection.tsx:123 | a batch of new ids is kept whole |
| LogTail.WindowSplit | ui/src/pages/internal/details_section/ServiceLogsSection.tsx:53-57 | a window splits at any midpoint |
| LogTail.IdsOfWindow | ui/src/pages/internal/details_section/ServiceLogsSection.tsx:53-57 | a window holds exactly the ids in its range |
| LogTail.MergeOverlappingWindows | ui/src/pages/internal/details_section/ServiceLogsSection.tsx:118-125 | merging overlapping windows of ids gives their union, without gaps or repeats |
| LogTail.InitialLoadThenPoll | ui/src/pages/internal/details_section/ServiceLogsSection.tsx:51-83 | 100 loaded lines and a poll of ids 95..104 give 104 lines |
| LogTail.IsScrolledToBottom | ui/src/pages/internal/details_section/ServiceLogsSection.tsx:59-65 | anchored exactly when the view ends within 5 pixels of the content |
| LogTail.AnchorBoundary | ui/src/pages/internal/details_section/ServiceLogsSection.tsx:61-64 | 5 pixels from the bottom is anchored, 6 is not |
| LogTail.LogsView.constructor | ui/src/pages/internal/details_section/ServiceLogsSection.tsx:42-96 | the buffer is the initial load, the mount effect leaves the container scrolled to its bottom, and the first poll is 2000 ms away |
| LogTail.LogsView.PollTimerFires | ui/src/pages/internal/details_section/ServiceLogsSection.tsx:51-57 | a fetch of the 10 latest lines is in flight and no timer is pending |
| LogTail.LogsView.FetchSucceeded | ui/src/pages/internal/details_section/ServiceLogsSection.tsx:58-82 | an active view merges the batch, schedules a re-pin if anchored and polls again in 1000 ms; an inactive one changes nothing |
| LogTail.LogsView.FetchFailed | ui/src/pages/internal/details_section/ServiceLogsSection.tsx:75-82 | the buffer is kept; an active view polls again in 1000 ms |
| LogTail.LogsView.Render | ui/src/pages/internal/details_section/ServiceLogsSection.tsx:98-115 | only the content height changes |
| LogTail.LogsView.RepinTimerFires | ui/src/pages/internal/details_section/ServiceLogsSection.tsx:67-74 | the view scrolls to the content's bottom |
| LogTail.LogsView.Cleanup | ui/src/pages/internal/details_section/ServiceLogsSection.tsx:85-89 | the loop is inactive, the fetch aborted and no timer pending |
| LogTail.AnchorScenario | ui/src/pages/internal/details_section/ServiceLogsSection.tsx:51-84 | an anchored view ends at the new bottom; one scrolled up keeps its offset |
| LogTail.CancelScenario | ui/src/pages/internal/details_section/ServiceLogsSection.tsx:58-89 | a fetch finishing after cleanup changes nothing and schedules nothing |
| UrlUtil.CleanPart | ui/src/utils/url.ts:2-8 | the result starts with no slash, and ends with none unless it is the last part, whose result is a suffix of it |
| UrlUtil.CleanPartLayout | ui/src/utils/url.ts:2-8 | the result follows the part's leading slashes and is followed by slashes only, none for the last part; with CleanPart's ends this fixes the result |
| UrlUtil.CleanPartOfSlashed | ui/src/utils/url.ts:2-8 | slashes, a core and slashes clean to the core, the last part keeping its trailing slashes after a non-empty core |
| UrlUtil.CleanParts | ui/src/utils/url.ts:1-10 | each part is cleaned, only the last as last |
| UrlUtil.JoinUrls | ui/src/utils/url.ts:1-12 | the result is empty exactly when no cleaned part is left; a single cleaned part is the result |
| UrlUtil.JoinUrlsOfSlashedParts | ui/src/utils/url.ts:1-12 | for any parts written as slashes, a core and slashes: the non-empty cores joined by single slashes, the last part's trailing slashes kept |
| Strs.NonEmpty | ui/src/utils/url.ts:11 | exactly the non-empty parts, as a subsequence of the parts |
| UrlUtil.JoinUrlsNoLeadingSlash | ui/src/utils/url.ts:1-12 | a joined URL never starts with '/' |
| UrlUtil.CleanPartOfClean | ui/src/utils/url.ts:1-12 | a part with no slash at either end is left unchanged |
| UrlUtil.JoinUrlsOfCleanParts | ui/src/utils/url.ts:1-12 | clean non-empty parts are joined with single slashes |
| UrlUtil.JoinUrlsCase | ui/src/utils/url.ts:1-12 | "api/" and "/users/" join to "api/users/" |
| UrlUtil.PortSegment | ui/src/utils/url.ts:23-27 | no port segment for a missing or default port; otherwise ":" and the port |
| UrlUtil.FormatUrl | ui/src/utils/url.ts:14-30 | empty without protocol or host; otherwise exactly the protocol with one ':', "//", the host and the port segment (prefix, suffix and length) |
| UrlUtil.FormatUrlColon | ui/src/utils/url.ts:21 | a protocol with or without its ':' formats alike |
| UrlUtil.ExtractParts | ui/src/utils/url.ts:32-39 | protocol and host as given; the port part is empty exactly for a missing or default port, and otherwise ":" and the port |
| UrlUtil.FormatAgreesWithExtract | ui/src/utils/url.ts:14-39 | formatting and extracting produce the same URL |
| ModalStack.Open | ui/src/components/modal/ModalProvider.tsx:20-25 | the modal is pushed on top of the unchanged stack |
| ModalStack.Close | ui/src/components/modal/ModalProvider.tsx:27 | the top modal is removed; an empty stack stays empty |
| ModalStack.CloseAll | ui/src/components/modal/ModalProvider.tsx:28 | the stack is empty |
| ModalStack.CloseUndoesOpen | ui/src/components/modal/ModalProvider.tsx:20-27 | closing undoes opening |
| ModalStack.CloseUndoesOpens | ui/src/components/modal/ModalProvider.tsx:20-27 | n closes undo n opens |
| ModalStack.SizeOrAuto | ui/src/components/modal/ModalProvider.tsx:50-53 | a missing or empty size becomes "auto" |
| ModalStack.ZIndexOrDefault | ui/src/components/modal/ModalProvider.tsx:55-57 | a missing z-index becomes 50 |
| ModalStack.RenderOne | ui/src/components/modal/ModalProvider.tsx:34-57 | a dialog keyed by its index with the modal's title, sizes ("auto" by default), z-index and close options; function content is called with the index |
| ModalStack.Render | ui/src/components/modal/ModalProvider.tsx:34-57 | one dialog per stacked modal, in stack order |
| ModalStack.OpenKeepsRenderedBelow | ui/src/components/modal/ModalProvider.tsx:20-57 | opening renders the same dialogs plus one on top |
| ModalStack.CloseKeepsBelow | ui/src/components/modal/ModalProvider.tsx:27 | closing keeps every modal below the top |
| Validation.SanitizeString | ui/src/utils/validation.ts:14-20 | null and undefined become null; non-strings pass; a blank string becomes null, others are trimmed |
| Validation.SanitizeIdempotent | ui/src/utils/validation.ts:14-20 | sanitising twice is sanitising once |
| Validation.TransformPhoneNumber | ui/src/utils/validation.ts:138-144 | null and undefined become null and non-strings pass; a string has all white space removed, becomes null exactly when blank, and otherwise is kept when it starts with '+' and gets "+51 " in front when it does not |
| Validation.CompactOfTrim | ui/src/utils/validation.ts:141 | trimming before removing whitespace changes nothing |
| Validation.RemoveAllConcat | ui/src/utils/validation.ts:141 | removing whitespace distributes over concatenation |
| Validation.GroupsOfDigits | ui/src/utils/validation.ts:136 | 3n digits form n groups of three |
| Validation.PeruNumberMatches | ui/src/utils/validation.ts:136 | "+51 " and nine digits match the phone pattern |
| Validation.PhoneTest | ui/src/utils/validation.ts:147-155 | null, undefined and the empty string pass; a non-string fails; a non-empty string passes exactly when it matches the Peru pattern, so it starts with "+51" |
| Validation.NineDigitsGetPrefix | ui/src/utils/validation.ts:138-144 | nine digits typed with any spacing become "+51 " and the digits |
| Validation.NineDigitsBecomeValid | ui/src/utils/validation.ts:136-153 | nine digits typed with any spacing pass the phone test |
| Validation.NumericIgnoresSurroundingSpace | ui/src/utils/validation.ts:40-47 | digits surrounded by whitespace pass the numeric test |
| Validation.NumericOnly | ui/src/utils/validation.ts:44-47 | no value or the empty string passes; a string passes exactly when all its characters are digits |
| Validation.PasswordIgnoresSurroundingSpace | ui/src/utils/validation.ts:168-176 | surrounding whitespace neither helps nor hurts a password |
| Validation.PasswordAccepted | ui/src/utils/validation.ts:168-176 | an accepted value is a string whose trimmed text has at least 8 characters; a non-string is refused |
| Validation.BlankPasswordRefused | ui/src/utils/validation.ts:168-176 | eight spaces are not a password |
| Validation.TrimmedPasswordRules | ui/src/utils/validation.ts:168-176 | a password without surrounding white space is accepted if and only if it has at least 8 characters, an upper-case letter, a lower-case letter and a digit |

## Left out

- The database, the file system, the network, the clock and process spawning are parameters: outcome flags or function-typed lookups.
- Goroutines, channels, mutexes and timers are not modelled. The worker loop of the serial executor and `Task.Exec`'s re-queueing are left out.
- LogStore: `Cleanup`'s SQL and `ServiceLog.MarshalJSON` are not modelled.
- LogStore.ServiceLogDB.GetLogsByService: the UI's initial load sends limit -1, which the store turns into 500, not "all".
- NetTools.IsRequestSecure lowers ASCII letters only; Go's `strings.ToLower` also lowers other scripts.
- NetTools.GetRealIP treats X-Forwarded-For as one value; only header maps with one value per key are modelled.
- NetTools.HostPart takes `url.Parse` as a parameter (`parseHost`).
- AppConfig: `time.ParseDuration`, `net.ParseIP` and reading the YAML file are parameters. Durations are whole nanoseconds.
- Launcher: `path.Clean` is the parameter `clean`.
- Launcher: processes are modelled by their state, not by object identity.
- Launcher: `RecoveryLastState`, `Dispose` and `UpsertInitialSuperuser` are not modelled.
- Launcher: failed status writes are only logged. The model assumes MarkServiceRunning, MarkServiceStoped and MarkServiceFailure succeed, except the `marked` outcome in the error handler.
- Launcher: the two "Restarting service" log lines of restartService are not modelled.
- Launcher.StartFailure: a failed spawn is recorded as the fixed text "failed to start process"; the source appends ": " and the spawn error's text (launcher_manager.go:204), which the model does not have because spawning is an outcome flag.
- Launcher.LauncherManager.StartService: the source returns nil when MarkServiceRunning fails, because that error is scoped to the `if`; the model agrees and does not report it.
- Process.Process.Stop: the branch for a running process without a command cannot occur while `Valid` holds, so it is not modelled. The wait for exit is the `exitedInTime` flag; the exit itself is the separate `WaitForExit` step.
- SerialExecutor.SortByPriority: Go's `slices.SortFunc` is not stable, but the model fixes one stable order. Priorities are unbounded integers, so the overflow of `b.priority - a.priority` is not modelled.
- Download: `processDownload` is reduced to its success flag. Versions are their canonical strings. Run's resolve step is one outcome per repository.
- Download.PendingDownloads requires every stored release to have a version, because the release repository drops records whose version does not parse (internal/download/repos/release.go:89-94).
- CertPlanner: a `Create` plan stands for the `CreatePending` call; that call's own error is not modelled.
- CertExecutor: issuing and storing certificates are parameters. Mark failures are the `markOk` parameter.
- CertExecutor.CertRequestRepository.MarkAsFailed: the `requested` timestamp both mark calls set is not modelled, since it comes from the clock; status and message are.
- DomainHooks: the store's `Resolve` is an optional TTL. Copying record fields into a new record is modelled as updating the extra columns.
- InstallToken: stdout bytes are modelled as characters. `SetInstallToken` runs in a goroutine and is not modelled.
- ReverseProxy.ServeHTTP: the redirect target's trailing slash is dropped, as `BuildHostURL` does.
- Validation.PasswordAccepted counts code points, not UTF-16 units, for the 8-character minimum.

## Findings

| source | as written | input that shows it | evidently intended | confidence | as-written member | corrected member |
|---|---|---|---|---|---|---|
| configs/configs.go:167-172 | `GetListenIPAddress` returns `bind_address`, and 0.0.0.0 when that is empty | bind_address "127.0.0.1" and listen_address "0.0.0.0" give a listen address of "127.0.0.1" | return `listen_address`, and 0.0.0.0 when it is empty (the field's documented default at line 84) | not executed | AppConfig.GetListenIPAddressAsWritten | AppConfig.GetListenIPAddress |

AppConfig.LoadConfigs keeps the as-written getter, since the source validates what that getter returns; the corrected getter is stated on its own.
