/**
 * The launcher's configuration (configs/configs.go): the YAML fields as
 * read, the getters that supply defaults and clamp values, and the loader
 * that trims and validates. Durations are nanoseconds, as Go's
 * time.Duration; time.ParseDuration and net.ParseIP are passed in.
 */
module AppConfig {
  import opened Wrappers
  import opened Strs

  type Duration = int

  const Second: Duration := 1_000_000_000
  const Minute: Duration := 60 * Second
  const Hour: Duration := 60 * Minute

  const MinSyncInterval: Duration := 5 * Minute
  const MinCommandCheckInterval: Duration := 10 * Second
  const MinCertificateCheckInterval: Duration := Minute
  const MinCertificateTtl: Duration := 30 * 24 * Hour
  const MinCertRequestPlannerInterval: Duration := 5 * Minute
  const MinCertRequestExecutorInterval: Duration := Minute

  const DefaultBindAddress: string := "127.0.0.1"
  const DefaultListenAddress: string := "0.0.0.0"
  const DefaultHttpPort: string := "7080"
  const DefaultHttpsPort: string := "8443"
  const DefaultDownloadDir: string := "./downloads"
  const DefaultDataDir: string := "./data"
  const DefaultCertificatesDir: string := "./.certificates"
  const DefaultDomain: string := "pb.labenv.test"
  const DefaultTlsProvider: string := "selfsigned"

  /** The `cert` section; a missing `props` map is None (a nil map). */
  datatype TlsConfigs = TlsConfigs(provider: string, props: Option<map<string, string>>)

  datatype Configs = Configs(
    bindAddress: string,
    releaseSyncInterval: string,
    commandCheckInterval: string,
    certificateCheckInterval: string,
    downloadDir: string,
    certificatesDir: string,
    dataDir: string,
    domain: string,
    listenAddress: string,
    httpPort: string,
    https: bool,
    disableHttpsRedirect: bool,
    httpsPort: string,
    minCertificateTtl: string,
    maxDomainCertAttempts: int,
    certRequestPlannerInterval: string,
    certRequestExecutorInterval: string,
    acmeEmail: string,
    tls: TlsConfigs)

  /** Go's zero value of the configuration: every string empty, every flag off. */
  const EmptyConfigs: Configs :=
    Configs("", "", "", "", "", "", "", "", "", "", false, false, "", "", 0, "", "", "", TlsConfigs("", None))

  /** GetProvider: the trimmed provider name, "selfsigned" when blank. */
  function GetProvider(t: TlsConfigs): (provider: string)
    ensures provider != ""
    ensures TrimSpace(t.provider) == "" ==> provider == DefaultTlsProvider
    ensures TrimSpace(t.provider) != "" ==> provider == TrimSpace(t.provider)
  {
    var p := TrimSpace(t.provider);
    if p == "" then DefaultTlsProvider else p
  }

  /** GetProp: ("", false) for a nil map or a missing key. */
  function GetProp(t: TlsConfigs, key: string): (r: (string, bool))
    ensures r.1 <==> t.props.Some? && key in t.props.value
    ensures r.1 ==> r.0 == t.props.value[key]
    ensures !r.1 ==> r.0 == ""
  {
    match t.props
    case None => ("", false)
    case Some(m) => if key in m then (m[key], true) else ("", false)
  }

  /** A string setting with its default for the empty string. */
  function OrDefault(value: string, default: string): (r: string)
    ensures value == "" ==> r == default
    ensures value != "" ==> r == value
  {
    if value == "" then default else value
  }

  function GetBindIPAddress(c: Configs): string { OrDefault(c.bindAddress, DefaultBindAddress) }
  function GetDownloadDir(c: Configs): string { OrDefault(c.downloadDir, DefaultDownloadDir) }
  function GetDataDir(c: Configs): string { OrDefault(c.dataDir, DefaultDataDir) }
  function GetCertificatesDir(c: Configs): string { OrDefault(c.certificatesDir, DefaultCertificatesDir) }
  function GetHttpPort(c: Configs): string { OrDefault(c.httpPort, DefaultHttpPort) }
  function GetHttpsPort(c: Configs): string { OrDefault(c.httpsPort, DefaultHttpsPort) }
  function GetAcmeEmail(c: Configs): string { TrimSpace(c.acmeEmail) }

  /** Every getter with a default returns a non-empty value, and the defaults are the documented ones. */
  lemma DefaultsOfEmptyConfigs()
    ensures GetBindIPAddress(EmptyConfigs) == "127.0.0.1"
    ensures GetListenIPAddress(EmptyConfigs) == "0.0.0.0"
    ensures GetHttpPort(EmptyConfigs) == "7080" && GetHttpsPort(EmptyConfigs) == "8443"
    ensures GetDownloadDir(EmptyConfigs) == "./downloads" && GetDataDir(EmptyConfigs) == "./data"
    ensures GetCertificatesDir(EmptyConfigs) == "./.certificates"
    ensures GetDomain(EmptyConfigs) == "pb.labenv.test"
    ensures GetMaxDomainCertAttempts(EmptyConfigs) == 1
    ensures GetProvider(EmptyConfigs.tls) == "selfsigned"
  {
  }

  /** GetDomain: "pb.labenv.test" when unset, otherwise the text before the first ':'. */
  function GetDomain(c: Configs): (domain: string)
    ensures ':' !in domain
    ensures c.domain == "" ==> domain == DefaultDomain
    ensures c.domain != "" ==> HasPrefix(c.domain, domain) && (|domain| < |c.domain| ==> c.domain[|domain|] == ':')
    ensures c.domain != "" && ':' !in c.domain ==> domain == c.domain
  {
    if c.domain == "" then DefaultDomain else BeforeFirst(c.domain, ':')
  }

  /** A port written after the domain is ignored. */
  lemma DomainDropsPort(name: string, port: string, c: Configs)
    requires name != "" && ':' !in name && c.domain == name + ":" + port
    ensures GetDomain(c) == name
  {
    var s := name + ":" + port;
    assert s[|name|] == ':';
    assert s[..|name|] == name;
  }

  /**
   * GetListenIPAddress as the code has it: it reads bind_address, so the
   * listen_address setting is never consulted.
   */
  function GetListenIPAddressAsWritten(c: Configs): (addr: string)
    ensures c.bindAddress == "" ==> addr == DefaultListenAddress
    ensures c.bindAddress != "" ==> addr == c.bindAddress
  {
    if c.bindAddress == "" then DefaultListenAddress else c.bindAddress
  }

  /** listen_address "0.0.0.0" with bind_address "127.0.0.1" listens on 127.0.0.1. */
  lemma ListenAddressIgnored()
    ensures var c := EmptyConfigs.(bindAddress := "127.0.0.1", listenAddress := "0.0.0.0");
      GetListenIPAddressAsWritten(c) == "127.0.0.1" && GetListenIPAddressAsWritten(c) != c.listenAddress
  {
  }

  /** GetListenIPAddress as evidently intended: listen_address, "0.0.0.0" when unset. */
  function GetListenIPAddress(c: Configs): (addr: string)
    ensures addr != ""
    ensures c.listenAddress != "" ==> addr == c.listenAddress
    ensures c.listenAddress == "" ==> addr == DefaultListenAddress
  {
    OrDefault(c.listenAddress, DefaultListenAddress)
  }

  /** The listen address no longer depends on bind_address. */
  lemma ListenIndependentOfBind(c: Configs, bind: string)
    ensures GetListenIPAddress(c.(bindAddress := bind)) == GetListenIPAddress(c)
  {
  }

  /**
   * parseDurationWithMin: the minimum for an empty, unparsable or too small
   * value, otherwise the parsed value.
   */
  function ParseDurationWithMin(raw: string, min: Duration, parseDuration: string -> Option<Duration>): (d: Duration)
    ensures d >= min
    ensures raw == "" || parseDuration(raw).None? ==> d == min
    ensures raw != "" && parseDuration(raw).Some? ==>
      (parseDuration(raw).value >= min ==> d == parseDuration(raw).value) &&
      (parseDuration(raw).value < min ==> d == min)
  {
    if raw == "" then min
    else match parseDuration(raw)
      case None => min
      case Some(duration) => if duration < min then min else duration
  }

  function GetReleaseSyncInterval(c: Configs, parseDuration: string -> Option<Duration>): (d: Duration)
    ensures d >= MinSyncInterval
  {
    ParseDurationWithMin(c.releaseSyncInterval, MinSyncInterval, parseDuration)
  }

  function GetCommandCheckInterval(c: Configs, parseDuration: string -> Option<Duration>): (d: Duration)
    ensures d >= MinCommandCheckInterval
  {
    ParseDurationWithMin(c.commandCheckInterval, MinCommandCheckInterval, parseDuration)
  }

  function GetCertificateCheckInterval(c: Configs, parseDuration: string -> Option<Duration>): (d: Duration)
    ensures d >= MinCertificateCheckInterval
  {
    ParseDurationWithMin(c.certificateCheckInterval, MinCertificateCheckInterval, parseDuration)
  }

  function GetMinCertificateTtl(c: Configs, parseDuration: string -> Option<Duration>): (d: Duration)
    ensures d >= MinCertificateTtl
  {
    ParseDurationWithMin(c.minCertificateTtl, MinCertificateTtl, parseDuration)
  }

  function GetCertRequestPlannerInterval(c: Configs, parseDuration: string -> Option<Duration>): (d: Duration)
    ensures d >= MinCertRequestPlannerInterval
  {
    ParseDurationWithMin(c.certRequestPlannerInterval, MinCertRequestPlannerInterval, parseDuration)
  }

  function GetCertRequestExecutorInterval(c: Configs, parseDuration: string -> Option<Duration>): (d: Duration)
    ensures d >= MinCertRequestExecutorInterval
  {
    ParseDurationWithMin(c.certRequestExecutorInterval, MinCertRequestExecutorInterval, parseDuration)
  }

  /** Every interval the scheduler uses is positive, whatever the file says. */
  lemma IntervalsPositive(c: Configs, parseDuration: string -> Option<Duration>)
    ensures GetReleaseSyncInterval(c, parseDuration) > 0
    ensures GetCommandCheckInterval(c, parseDuration) > 0
    ensures GetCertificateCheckInterval(c, parseDuration) > 0
    ensures GetCertRequestPlannerInterval(c, parseDuration) > 0
    ensures GetCertRequestExecutorInterval(c, parseDuration) > 0
  {
  }

  /** GetMaxDomainCertAttempts: clamped into 1..5; negative and 0 give 1. */
  function GetMaxDomainCertAttempts(c: Configs): (n: int)
    ensures 1 <= n <= 5
    ensures 1 <= c.maxDomainCertAttempts <= 5 ==> n == c.maxDomainCertAttempts
    ensures c.maxDomainCertAttempts < 1 ==> n == 1
    ensures c.maxDomainCertAttempts > 5 ==> n == 5
  {
    if c.maxDomainCertAttempts < 0 then 1
    else if c.maxDomainCertAttempts > 5 then 5
    else if c.maxDomainCertAttempts > 1 then c.maxDomainCertAttempts else 1
  }

  /** Clamping is idempotent. */
  lemma MaxAttemptsIdempotent(c: Configs)
    ensures GetMaxDomainCertAttempts(c.(maxDomainCertAttempts := GetMaxDomainCertAttempts(c))) == GetMaxDomainCertAttempts(c)
  {
  }

  function DigitValue(ch: char): int { ch as int - '0' as int }

  predicate AllDigits(s: string) { forall i :: 0 <= i < |s| ==> '0' <= s[i] <= '9' }

  function DigitsValue(s: string): (v: nat)
    requires AllDigits(s)
  {
    if s == [] then 0 else DigitsValue(s[..|s| - 1]) * 10 + DigitValue(s[|s| - 1])
  }

  /** strconv.Atoi: an optional sign and at least one decimal digit; None is the error. */
  function Atoi(s: string): (r: Option<int>)
    ensures r.Some? ==> s != []
    ensures s != [] && AllDigits(s) ==> r == Some(DigitsValue(s))
  {
    if s == [] then None
    else
      var sign := if s[0] == '-' then -1 else 1;
      var digits := if s[0] == '-' || s[0] == '+' then s[1..] else s;
      if digits == [] || !AllDigits(digits) then None
      else Some(sign * DigitsValue(digits))
  }

  /** A port number is accepted when it lies in 1..65535. */
  predicate ValidPort(port: string) {
    var n := Atoi(port);
    n.Some? && 1 <= n.value <= 65535
  }

  lemma PortCases()
    ensures ValidPort("7080")
    ensures !ValidPort("0")
    ensures !ValidPort("")
    ensures !ValidPort("80a")
  {
    assert DigitsValue("7") == 7;
    assert "7080"[..3] == "708" && "708"[..2] == "70" && "70"[..1] == "7";
    assert DigitsValue("7080") == 7080;
    assert DigitsValue("0") == 0;
    assert "80a"[2] == 'a';
  }

  /** Where the configuration file stands when it is read. */
  datatype ConfigFile = Missing | Unreadable | Parsed(cfg: Configs)

  datatype LoadError = ReadFailed | InvalidBindAddress | InvalidListenAddress | InvalidBindPort

  /** The fields LoadConfigs trims. */
  function Trimmed(c: Configs): (t: Configs)
    ensures t.certificatesDir == c.certificatesDir && t.tls == c.tls && t.maxDomainCertAttempts == c.maxDomainCertAttempts
    ensures t.releaseSyncInterval == TrimSpace(c.releaseSyncInterval) && t.downloadDir == TrimSpace(c.downloadDir)
    ensures t.dataDir == TrimSpace(c.dataDir) && t.domain == TrimSpace(c.domain)
    ensures t.bindAddress == TrimSpace(c.bindAddress) && t.listenAddress == TrimSpace(c.listenAddress)
    ensures t.httpPort == TrimSpace(c.httpPort) && t.httpsPort == TrimSpace(c.httpsPort)
    ensures t.acmeEmail == TrimSpace(c.acmeEmail)
    // every other field is left as read
    ensures t.commandCheckInterval == c.commandCheckInterval && t.certificateCheckInterval == c.certificateCheckInterval
    ensures t.minCertificateTtl == c.minCertificateTtl && t.https == c.https && t.disableHttpsRedirect == c.disableHttpsRedirect
    ensures t.certRequestPlannerInterval == c.certRequestPlannerInterval
    ensures t.certRequestExecutorInterval == c.certRequestExecutorInterval
  {
    c.(releaseSyncInterval := TrimSpace(c.releaseSyncInterval),
       downloadDir := TrimSpace(c.downloadDir),
       dataDir := TrimSpace(c.dataDir),
       domain := TrimSpace(c.domain),
       bindAddress := TrimSpace(c.bindAddress),
       listenAddress := TrimSpace(c.listenAddress),
       httpPort := TrimSpace(c.httpPort),
       httpsPort := TrimSpace(c.httpsPort),
       acmeEmail := TrimSpace(c.acmeEmail))
  }

  /** Loading an already trimmed configuration trims nothing more. */
  lemma TrimmedIdempotent(c: Configs)
    ensures Trimmed(Trimmed(c)) == Trimmed(c)
  {
    TrimIdempotent(c.releaseSyncInterval, IsGoSpace);
    TrimIdempotent(c.downloadDir, IsGoSpace);
    TrimIdempotent(c.dataDir, IsGoSpace);
    TrimIdempotent(c.domain, IsGoSpace);
    TrimIdempotent(c.bindAddress, IsGoSpace);
    TrimIdempotent(c.listenAddress, IsGoSpace);
    TrimIdempotent(c.httpPort, IsGoSpace);
    TrimIdempotent(c.httpsPort, IsGoSpace);
    TrimIdempotent(c.acmeEmail, IsGoSpace);
  }

  /**
   * LoadConfigs: no path gives the zero configuration untouched; a missing
   * file counts as empty; otherwise the listed fields are trimmed and the
   * bind address, listen address and HTTP port are checked in that order.
   * The listen check goes through the getter as written (see
   * GetListenIPAddressAsWritten), so it validates bind_address a second time.
   */
  method LoadConfigs(configPath: string, file: ConfigFile, parseIP: string -> bool) returns (r: Result<Configs, LoadError>)
    ensures configPath == "" ==> r == Ok(EmptyConfigs)
    ensures configPath != "" && file.Unreadable? ==> r == Err(ReadFailed)
    ensures r.Ok? && configPath != "" ==>
      r.value == Trimmed(if file.Parsed? then file.cfg else EmptyConfigs)
      && parseIP(GetBindIPAddress(r.value)) && parseIP(GetListenIPAddressAsWritten(r.value))
      && ValidPort(GetHttpPort(r.value))
    ensures configPath != "" && !file.Unreadable? ==>
      var t := Trimmed(if file.Parsed? then file.cfg else EmptyConfigs);
      (r.Ok? <==> parseIP(GetBindIPAddress(t)) && parseIP(GetListenIPAddressAsWritten(t)) && ValidPort(GetHttpPort(t)))
      && (!parseIP(GetBindIPAddress(t)) ==> r == Err(InvalidBindAddress))
      && (parseIP(GetBindIPAddress(t)) && !parseIP(GetListenIPAddressAsWritten(t)) ==> r == Err(InvalidListenAddress))
      && (parseIP(GetBindIPAddress(t)) && parseIP(GetListenIPAddressAsWritten(t)) && !ValidPort(GetHttpPort(t))
          ==> r == Err(InvalidBindPort))
    // The listen check re-reads bind_address, so it can only refuse the default
    // 0.0.0.0 of an unset bind_address; listen_address itself is never checked.
    ensures configPath != "" && r == Err(InvalidListenAddress) ==>
      var t := Trimmed(if file.Parsed? then file.cfg else EmptyConfigs);
      t.bindAddress == "" && !parseIP(DefaultListenAddress)
  {
    if configPath == "" {
      return Ok(EmptyConfigs);
    }
    var c: Configs;
    match file {
      case Unreadable => return Err(ReadFailed);
      case Missing => c := EmptyConfigs;
      case Parsed(parsed) => c := parsed;
    }
    c := c.(releaseSyncInterval := TrimSpace(c.releaseSyncInterval));
    c := c.(downloadDir := TrimSpace(c.downloadDir));
    c := c.(dataDir := TrimSpace(c.dataDir));
    c := c.(domain := TrimSpace(c.domain));
    c := c.(bindAddress := TrimSpace(c.bindAddress));
    c := c.(listenAddress := TrimSpace(c.listenAddress));
    c := c.(httpPort := TrimSpace(c.httpPort));
    c := c.(httpsPort := TrimSpace(c.httpsPort));
    c := c.(acmeEmail := TrimSpace(c.acmeEmail));
    if !parseIP(GetBindIPAddress(c)) {
      return Err(InvalidBindAddress);
    }
    if !parseIP(GetListenIPAddressAsWritten(c)) {
      return Err(InvalidListenAddress);
    }
    var portNum := Atoi(GetHttpPort(c));
    if portNum.None? || portNum.value < 1 || portNum.value > 65535 {
      return Err(InvalidBindPort);
    }
    r := Ok(c);
  }
}
