/**
 * Proxy header rewriting and host URL building (utils/networktools/http.go).
 * The request is a class whose host and header map the proxy rewrites in
 * place; a header map holds the first value of each canonical header name.
 */
module NetTools {
  import opened Wrappers
  import opened Strs

  const XForwardedHost: string := "X-Forwarded-Host"
  const XRealIp: string := "X-Real-Ip"
  const XForwardedFor: string := "X-Forwarded-For"
  const XForwardedProto: string := "X-Forwarded-Proto"

  type Header = map<string, string>

  /** http.Header.Get: the value, or "" when the header is absent. */
  function HeaderGet(h: Header, key: string): (v: string)
    ensures key !in h ==> v == ""
    ensures key in h ==> v == h[key]
  {
    if key in h then h[key] else ""
  }

  /** The index of the last `c` in `s`, or -1. */
  function LastIndex(s: string, c: char): (i: int)
    ensures -1 <= i < |s|
    ensures i >= 0 ==> s[i] == c && c !in s[i + 1..]
    ensures i < 0 ==> c !in s
  {
    if s == [] then -1
    else if s[|s| - 1] == c then |s| - 1
    else
      assert s == s[..|s| - 1] + [s[|s| - 1]];
      LastIndex(s[..|s| - 1], c)
  }

  /** The index of the first `c` in `s`, or -1. */
  function FirstIndex(s: string, c: char): (i: int)
    ensures -1 <= i < |s|
    ensures i >= 0 ==> s[i] == c && c !in s[..i]
    ensures i < 0 ==> c !in s
  {
    if s == [] then -1
    else if s[0] == c then 0
    else
      var j := FirstIndex(s[1..], c);
      if j < 0 then -1 else j + 1
  }

  /**
   * Go's net.SplitHostPort: the port follows the last ':'; a host starting
   * with '[' must end with the ']' just before that colon; an unbracketed
   * host may not contain ':'; stray brackets are refused. None is the error.
   */
  function SplitHostPort(hostport: string): (r: Option<(string, string)>)
    ensures r.Some? ==> ':' !in r.value.1 && '[' !in r.value.1 && ']' !in r.value.1
  {
    var i := LastIndex(hostport, ':');
    if i < 0 then None
    else if hostport[0] == '[' then
      var end := FirstIndex(hostport, ']');
      if end < 0 || end + 1 != i then None
      else CheckBrackets(hostport, 1, end + 1, hostport[1..end], i)
    else
      var host := hostport[..i];
      if ':' in host then None
      else CheckBrackets(hostport, 0, 0, host, i)
  }

  function CheckBrackets(hostport: string, j: nat, k: nat, host: string, i: nat): (r: Option<(string, string)>)
    requires j <= k <= i < |hostport| && hostport[i] == ':' && ':' !in hostport[i + 1..]
    ensures r.Some? ==> r.value.0 == host && ':' !in r.value.1 && '[' !in r.value.1 && ']' !in r.value.1
  {
    if '[' in hostport[j..] || ']' in hostport[k..] then None
    else
      assert forall t :: i + 1 <= t < |hostport| ==> hostport[t] in hostport[j..] && hostport[t] in hostport[k..];
      Some((host, hostport[i + 1..]))
  }

  predicate NoAddrDelims(s: string) {
    ':' !in s && '[' !in s && ']' !in s
  }

  /** Splitting "host:port" gives back the host and the port. */
  lemma SplitJoinHostPort(host: string, port: string)
    requires NoAddrDelims(host) && NoAddrDelims(port)
    ensures SplitHostPort(host + ":" + port) == Some((host, port))
  {
    var hp := host + ":" + port;
    assert hp[|host|] == ':';
    assert hp[|host| + 1..] == port;
    assert hp[..|host|] == host;
    LastIndexAfter(hp, |host|, ':');
    assert hp[0] != '[' by {
      if host != [] { assert hp[0] == host[0]; }
    }
    forall t | 0 <= t < |hp| ensures hp[t] != '[' && hp[t] != ']' {
      if t < |host| { assert hp[t] == host[t]; }
      else if t > |host| { assert hp[t] == port[t - |host| - 1]; }
    }
  }

  /**
   * An address that opens with '[', has its first ']' at `e` followed by the
   * last ':', and holds no other bracket splits into what the brackets
   * enclose and what follows the colon.
   */
  lemma SplitBracketedAt(hp: string, e: nat)
    requires 1 <= e && e + 1 < |hp| && hp[0] == '[' && hp[e] == ']' && hp[e + 1] == ':'
    requires forall t :: 1 <= t < |hp| ==> hp[t] != '['
    requires forall t :: 0 <= t < e ==> hp[t] != ']'
    requires forall t :: e + 1 < t < |hp| ==> hp[t] != ':' && hp[t] != ']'
    ensures SplitHostPort(hp) == Some((hp[1..e], hp[e + 2..]))
  {
    assert ':' !in hp[e + 2..];
    LastIndexAfter(hp, e + 1, ':');
    assert ']' !in hp[..e];
    FirstIndexAt(hp, e, ']');
    assert '[' !in hp[1..];
    assert ']' !in hp[e + 1..];
  }

  /** Splitting "[host]:port" gives back the host inside the brackets. */
  lemma SplitJoinBracketed(host: string, port: string)
    requires '[' !in host && ']' !in host && NoAddrDelims(port)
    ensures SplitHostPort("[" + host + "]:" + port) == Some((host, port))
  {
    var hp := "[" + host + "]:" + port;
    var e := |host| + 1;
    assert hp[0] == '[' && hp[e] == ']' && hp[e + 1] == ':';
    assert hp[e + 2..] == port;
    assert hp[1..e] == host;
    forall t | 1 <= t < |hp| ensures hp[t] != '[' {
      if t < e { assert hp[t] == host[t - 1]; }
      else if t > e + 1 { assert hp[t] == port[t - e - 2]; }
    }
    forall t | 0 <= t < e ensures hp[t] != ']' {
      if t > 0 { assert hp[t] == host[t - 1]; }
    }
    forall t | e + 1 < t < |hp| ensures hp[t] != ':' && hp[t] != ']' {
      assert hp[t] == port[t - e - 2];
    }
    SplitBracketedAt(hp, e);
  }

  lemma LastIndexAfter(s: string, i: nat, c: char)
    requires i < |s| && s[i] == c && c !in s[i + 1..]
    ensures LastIndex(s, c) == i
  {
  }

  lemma FirstIndexAt(s: string, i: nat, c: char)
    requires i < |s| && s[i] == c && c !in s[..i]
    ensures FirstIndex(s, c) == i
  {
  }

  /** The host part of the client address, "" when it has no port. */
  function ClientIP(remoteAddr: string): (ip: string)
    ensures ':' !in remoteAddr ==> ip == ""
  {
    match SplitHostPort(remoteAddr)
    case Some((host, _)) => host
    case None => ""
  }

  /** X-Forwarded-For: the client is appended to an existing chain, or starts one. */
  function ForwardedFor(existing: string, clientIP: string): (chain: string)
    ensures HasSuffix(chain, clientIP)
    ensures existing != "" ==> chain == existing + ", " + clientIP
    ensures existing == "" ==> chain == clientIP
  {
    if existing != "" then existing + ", " + clientIP else clientIP
  }

  /**
   * IsRequestSecure: a TLS connection, or an X-Forwarded-Proto whose first
   * comma-separated value, trimmed and lower-cased, is "https".
   */
  function IsRequestSecure(tls: bool, h: Header): (secure: bool)
    ensures tls ==> secure
    ensures !tls && HeaderGet(h, XForwardedProto) == "" ==> !secure
  {
    var proto := AsciiLower(TrimSpace(BeforeFirst(HeaderGet(h, XForwardedProto), ',')));
    tls || proto == "https"
  }

  /** GetRealIP: X-Real-IP, else X-Forwarded-For, else the host of the remote address. */
  function GetRealIP(h: Header, remoteAddr: string): (ip: string)
    ensures HeaderGet(h, XRealIp) != "" ==> ip == HeaderGet(h, XRealIp)
    ensures HeaderGet(h, XRealIp) == "" && HeaderGet(h, XForwardedFor) != "" ==> ip == HeaderGet(h, XForwardedFor)
    ensures HeaderGet(h, XRealIp) == "" && HeaderGet(h, XForwardedFor) == "" ==> ip == ClientIP(remoteAddr)
  {
    var realIp := HeaderGet(h, XRealIp);
    if realIp != "" then realIp
    else
      var forwarded := HeaderGet(h, XForwardedFor);
      if forwarded != "" then forwarded else ClientIP(remoteAddr)
  }

  class Request {
    var host: string
    var header: Header
    const remoteAddr: string
    const tls: bool

    constructor (host: string, header: Header, remoteAddr: string, tls: bool)
      ensures this.host == host && this.header == header && this.remoteAddr == remoteAddr && this.tls == tls
    {
      this.host := host;
      this.header := header;
      this.remoteAddr := remoteAddr;
      this.tls := tls;
    }
  }

  /**
   * PrepareProxyHeaders: the request now addresses the target host and
   * carries X-Forwarded-Host, X-Real-IP, X-Forwarded-For and
   * X-Forwarded-Proto; every other header is left as it was.
   */
  method PrepareProxyHeaders(req: Request, targetHost: string)
    modifies req
    ensures req.host == targetHost
    ensures req.header == old(req.header)
      [XForwardedHost := targetHost]
      [XRealIp := ClientIP(req.remoteAddr)]
      [XForwardedFor := ForwardedFor(HeaderGet(old(req.header), XForwardedFor), ClientIP(req.remoteAddr))]
      [XForwardedProto := if IsRequestSecure(req.tls, old(req.header)) then "https" else "http"]
  {
    ghost var h0 := req.header;
    req.host := targetHost;
    req.header := req.header[XForwardedHost := req.host];
    var clientIP := ClientIP(req.remoteAddr);
    req.header := req.header[XRealIp := clientIP];
    var existing := HeaderGet(req.header, XForwardedFor);
    assert existing == HeaderGet(h0, XForwardedFor);
    if existing != "" {
      req.header := req.header[XForwardedFor := existing + ", " + clientIP];
    } else {
      req.header := req.header[XForwardedFor := clientIP];
    }
    assert req.header == h0[XForwardedHost := targetHost][XRealIp := clientIP][XForwardedFor := ForwardedFor(existing, clientIP)];
    RewriteKeepsProto(req.tls, h0, targetHost, clientIP, ForwardedFor(existing, clientIP));
    var scheme := "http";
    if IsRequestSecure(req.tls, req.header) {
      scheme := "https";
    }
    req.header := req.header[XForwardedProto := scheme];
  }

  /** Setting the other three forwarding headers leaves the request's security as it was. */
  lemma RewriteKeepsProto(tls: bool, h: Header, host: string, ip: string, chain: string)
    ensures IsRequestSecure(tls, h[XForwardedHost := host][XRealIp := ip][XForwardedFor := chain]) == IsRequestSecure(tls, h)
  {
    assert HeaderGet(h[XForwardedHost := host][XRealIp := ip][XForwardedFor := chain], XForwardedProto)
      == HeaderGet(h, XForwardedProto);
  }

  /**
   * After the rewrite, the real IP seen by the upstream is the proxy's view of
   * the client, unless the client address had no port and a chain already existed.
   */
  lemma RealIpAfterRewrite(h: Header, targetHost: string, remoteAddr: string, tls: bool)
    requires ClientIP(remoteAddr) != "" || HeaderGet(h, XForwardedFor) == ""
    ensures var ip := ClientIP(remoteAddr);
      var h' := h[XForwardedHost := targetHost][XRealIp := ip]
                 [XForwardedFor := ForwardedFor(HeaderGet(h, XForwardedFor), ip)]
                 [XForwardedProto := if IsRequestSecure(tls, h) then "https" else "http"];
      GetRealIP(h', remoteAddr) == ip
  {
  }

  /** The rewrite's forwarded protocol is itself read back as secure exactly when the request was. */
  lemma ProtoAfterRewrite(h: Header, tls: bool)
    ensures var h' := h[XForwardedProto := if IsRequestSecure(tls, h) then "https" else "http"];
      IsRequestSecure(false, h') == IsRequestSecure(tls, h)
  {
    var h' := h[XForwardedProto := if IsRequestSecure(tls, h) then "https" else "http"];
    var v := HeaderGet(h', XForwardedProto);
    assert BeforeFirst(v, ',') == v by {
      assert HasPrefix(v, BeforeFirst(v, ','));
    }
    assert TrimSpace(v) == v by {
      TrimSpaceNoop(v);
    }
    if IsRequestSecure(tls, h) {
      assert AsciiLower(v) == "https";
    } else {
      assert AsciiLower(v) == "http";
    }
  }

  lemma TrimSpaceNoop(v: string)
    requires v == "https" || v == "http"
    ensures TrimSpace(v) == v
  {
    assert !IsGoSpace(v[0]) && !IsGoSpace(v[|v| - 1]);
    assert TrimLeft(v, IsGoSpace) == v;
    assert TrimRight(v, IsGoSpace) == v;
  }

  /** A plain "https" or "http" header value, as the rewrite itself writes it. */
  lemma SecureForProto(tls: bool, v: string)
    requires v == "https" || v == "http"
    ensures IsRequestSecure(tls, map[XForwardedProto := v]) == (tls || v == "https")
  {
    var h: Header := map[XForwardedProto := v];
    assert HeaderGet(h, XForwardedProto) == v;
    assert BeforeFirst(v, ',') == v;
    TrimSpaceNoop(v);
    assert AsciiLower(v) == v;
  }

  /** A TLS connection is secure whatever the headers say; without one, the header decides. */
  lemma SecureCases()
    ensures IsRequestSecure(true, map[])
    ensures !IsRequestSecure(false, map[])
    ensures IsRequestSecure(true, map[XForwardedProto := "http"])
    ensures IsRequestSecure(false, map[XForwardedProto := "https"])
    ensures !IsRequestSecure(false, map[XForwardedProto := "http"])
  {
    assert HeaderGet(map[], XForwardedProto) == "";
    SecureForProto(true, "http");
    SecureForProto(false, "https");
    SecureForProto(false, "http");
  }

  /** A header value whose first comma-separated part is a plain "https" or "http". */
  lemma SecureForFirstProto(tls: bool, v: string, first: string)
    requires BeforeFirst(v, ',') == first && (first == "https" || first == "http")
    ensures IsRequestSecure(tls, map[XForwardedProto := v]) == (tls || first == "https")
  {
    SecureOfValue(tls, v);
    TrimSpaceNoop(first);
    LowerOfPlain(first);
  }

  /** The security of a request whose X-Forwarded-Proto is `v`. */
  lemma SecureOfValue(tls: bool, v: string)
    ensures IsRequestSecure(tls, map[XForwardedProto := v])
      == (tls || AsciiLower(TrimSpace(BeforeFirst(v, ','))) == "https")
  {
    assert HeaderGet(map[XForwardedProto := v], XForwardedProto) == v;
  }

  lemma LowerOfPlain(v: string)
    requires v == "https" || v == "http"
    ensures AsciiLower(v) == v
  {
  }

  /**
   * Only the first value of a comma-separated X-Forwarded-Proto counts:
   * "https, ..." is secure and "http, ..." is not, whatever follows.
   */
  lemma FirstProtoDecides(tls: bool, first: string, rest: string)
    requires first == "https" || first == "http"
    ensures IsRequestSecure(tls, map[XForwardedProto := first + "," + rest]) == (tls || first == "https")
  {
    var v := first + "," + rest;
    assert v[|first|] == ',' && v[..|first|] == first;
    BeforeFirstAt(v, |first|, ',');
    SecureForFirstProto(tls, v, first);
  }

  /** Surrounding white space and letter case are ignored. */
  lemma ProtoCaseAndSpace()
    ensures IsRequestSecure(false, map[XForwardedProto := " HTTPS "])
  {
    SecureOfValue(false, " HTTPS ");
    assert " HTTPS "[..7] == " HTTPS ";
    BeforeFirstAt(" HTTPS ", 7, ',');
    TrimSpacedHttps();
    LowerHttps();
  }

  lemma TrimSpacedHttps()
    ensures TrimSpace(" HTTPS ") == "HTTPS"
  {
    TrimLeftSpacedHttps();
    TrimRightHttpsSpace();
  }

  lemma TrimLeftSpacedHttps()
    ensures TrimLeft(" HTTPS ", IsGoSpace) == "HTTPS "
  {
    assert IsGoSpace(' ') && !IsGoSpace('H');
    assert " HTTPS "[0] == ' ' && " HTTPS "[1..] == "HTTPS ";
    assert "HTTPS "[0] == 'H';
  }

  lemma TrimRightHttpsSpace()
    ensures TrimRight("HTTPS ", IsGoSpace) == "HTTPS"
  {
    assert IsGoSpace(' ') && !IsGoSpace('S');
    assert "HTTPS "[5] == ' ' && "HTTPS "[..5] == "HTTPS";
    assert "HTTPS"[4] == 'S';
  }

  lemma LowerHttps()
    ensures AsciiLower("HTTPS") == "https"
  {
  }

  predicate IsDefaultPort(port: string) {
    port == "" || port == "80" || port == "443"
  }

  /**
   * The host part of BuildHostURL: trailing slashes removed, the host of a
   * full URL taken when `parseHost` (url.Parse) yields a non-empty one, any
   * port dropped, and `port` appended unless it is empty, "80" or "443".
   */
  function HostPart(host: string, port: string, parseHost: string -> Option<string>): (hp: string)
    ensures !IsDefaultPort(port) ==> HasSuffix(hp, ":" + port)
  {
    var trimmed := TrimRight(host, IsSlash);
    var parsed := parseHost(trimmed);
    var h := if parsed.Some? && parsed.value != "" then parsed.value else trimmed;
    var clean := match SplitHostPort(h) case Some((name, _)) => name case None => h;
    if !IsDefaultPort(port) then clean + ":" + port else clean
  }

  /** url.Parse found no host in `s` (a bare name, or a parse error). */
  predicate NoParsedHost(parseHost: string -> Option<string>, s: string) {
    parseHost(s).None? || parseHost(s).value == ""
  }

  /**
   * A port already on the host is replaced by `port`, or dropped when `port`
   * is a default: "example.com:3000" gives "example.com:9090" for "9090" and
   * "example.com" for "80".
   */
  lemma HostPartReplacesPort(name: string, oldPort: string, port: string, parseHost: string -> Option<string>)
    requires NoAddrDelims(name) && NoAddrDelims(oldPort) && '/' !in oldPort
    requires NoParsedHost(parseHost, name + ":" + oldPort)
    ensures HostPart(name + ":" + oldPort, port, parseHost)
         == if IsDefaultPort(port) then name else name + ":" + port
  {
    var s := name + ":" + oldPort;
    assert s[|s| - 1] != '/';
    TrimRightAround(s, "", IsSlash);
    assert s + "" == s;
    SplitJoinHostPort(name, oldPort);
  }

  /** Trailing slashes on a bare host name are dropped and no port is added for a default. */
  lemma HostPartTrailingSlashes(name: string, slashes: string, port: string, parseHost: string -> Option<string>)
    requires NoAddrDelims(name) && name != [] && name[|name| - 1] != '/'
    requires forall i :: 0 <= i < |slashes| ==> slashes[i] == '/'
    requires NoParsedHost(parseHost, name)
    ensures HostPart(name + slashes, port, parseHost)
         == if IsDefaultPort(port) then name else name + ":" + port
  {
    TrimRightAround(name, slashes, IsSlash);
    assert LastIndex(name, ':') == -1;
  }

  /** JoinPath: each segment trimmed of slashes and preceded by one "/". */
  function JoinPath(paths: seq<string>): (p: string)
    ensures paths == [] ==> p == ""
    ensures paths != [] ==> p != [] && p[0] == '/'
  {
    if paths == [] then ""
    else JoinPath(paths[..|paths| - 1]) + "/" + Trim(paths[|paths| - 1], IsSlash)
  }

  /** Every segment contributes exactly one "/" and its text with the slashes at both ends trimmed. */
  lemma {:induction false} JoinPathLength(paths: seq<string>)
    ensures |JoinPath(paths)| == |paths| + SumTrimmed(paths)
  {
    if paths != [] {
      JoinPathLength(paths[..|paths| - 1]);
    }
  }

  function SumTrimmed(paths: seq<string>): nat {
    if paths == [] then 0 else SumTrimmed(paths[..|paths| - 1]) + |Trim(paths[|paths| - 1], IsSlash)|
  }

  /** BuildHostURL: schema, "://", the host part, then the joined paths. */
  method BuildHostURL(schema: string, host: string, port: string, paths: seq<string>,
                      parseHost: string -> Option<string>) returns (url: string)
    ensures url == schema + "://" + HostPart(host, port, parseHost) + JoinPath(paths)
  {
    var cleanHost := HostPart(host, port, parseHost);
    var fullPath := "";
    var i := 0;
    while i < |paths|
      invariant 0 <= i <= |paths|
      invariant fullPath == JoinPath(paths[..i])
    {
      assert paths[..i + 1][..i] == paths[..i];
      fullPath := fullPath + "/" + Trim(paths[i], IsSlash);
      i := i + 1;
    }
    assert paths[..|paths|] == paths;
    url := schema + "://" + cleanHost + fullPath;
  }

  lemma JoinPathSnoc(paths: seq<string>, p: string)
    ensures JoinPath(paths + [p]) == JoinPath(paths) + "/" + Trim(p, IsSlash)
  {
    assert (paths + [p])[..|paths|] == paths;
  }

  lemma TrimSlashesAround(pre: string, core: string, post: string)
    requires forall i :: 0 <= i < |pre| ==> pre[i] == '/'
    requires forall i :: 0 <= i < |post| ==> post[i] == '/'
    requires core != [] && core[0] != '/' && core[|core| - 1] != '/'
    ensures Trim(pre + core + post, IsSlash) == core
  {
    TrimAround(pre, core, post, IsSlash);
  }

  lemma JoinOneSegment()
    ensures JoinPath(["/one/"]) == "/one"
  {
    TrimOne();
    JoinPathSingle("/one/");
    assert "/" + "one" == "/one";
  }

  /** A single segment is one "/" and the segment's trimmed text. */
  lemma JoinPathSingle(p: string)
    ensures JoinPath([p]) == "/" + Trim(p, IsSlash)
  {
    assert [p][..0] == [];
    assert JoinPath([]) == "";
  }

  lemma TrimOne()
    ensures Trim("/one/", IsSlash) == "one"
  {
    assert "/one/"[1..] == "one/";
    assert TrimLeft("one/", IsSlash) == "one/";
    assert TrimLeft("/one/", IsSlash) == "one/";
    assert "one/"[..3] == "one";
    assert TrimRight("one", IsSlash) == "one";
  }

  lemma JoinTwoSegments()
    ensures JoinPath(["/one/", "two"]) == "/one/two"
  {
    JoinOneSegment();
    TrimTwo();
    JoinPathSnoc(["/one/"], "two");
    assert ["/one/"] + ["two"] == ["/one/", "two"];
    assert "/one" + "/" + "two" == "/one/two";
  }

  lemma TrimTwo()
    ensures Trim("two", IsSlash) == "two"
  {
    assert TrimLeft("two", IsSlash) == "two";
    assert TrimRight("two", IsSlash) == "two";
  }

  lemma TrimThree()
    ensures Trim("///three///", IsSlash) == "three"
  {
    TrimSlashesAround("///", "three", "///");
    assert "///" + "three" + "///" == "///three///";
  }

  /** Segments lose their surrounding slashes: ["/one/", "two", "///three///"] joins to "/one/two/three". */
  lemma JoinPathCases()
    ensures JoinPath(["/one/", "two", "///three///"]) == "/one/two/three"
  {
    JoinTwoSegments();
    TrimThree();
    JoinPathSnoc(["/one/", "two"], "///three///");
    assert ["/one/", "two"] + ["///three///"] == ["/one/", "two", "///three///"];
    LiteralJoin();
  }

  lemma LiteralJoin()
    ensures "/one/two" + "/" + "three" == "/one/two/three"
  {
  }
}
