/**
 * URL helpers of the web UI (ui/src/utils/url.ts): joining path pieces and
 * printing a protocol, host and port without a scheme-default port.
 * An optional argument that JavaScript would see as `undefined` is `None`.
 */
module UrlUtil {
  import opened Wrappers
  import opened Strs

  /** A run of slashes, possibly empty: what joinUrls' `^\/+` and `\/+$` match. */
  predicate AllSlashes(s: string) {
    forall i :: 0 <= i < |s| ==> s[i] == '/'
  }

  /** A part's text between its leading and trailing slashes: empty, or no slash at either end. */
  predicate Core(s: string) {
    s == [] || (s[0] != '/' && s[|s| - 1] != '/')
  }

  /** The number of slashes `s` starts with. */
  function LeadingSlashes(s: string): (n: nat)
    ensures n <= |s| && AllSlashes(s[..n])
    ensures n < |s| ==> s[n] != '/'
  {
    var r := TrimLeft(s, IsSlash);
    assert s[|s| - |r|..] == r;
    |s| - |r|
  }

  /** One part of joinUrls: leading slashes go; trailing ones too unless it is the last part. */
  function CleanPart(part: string, isLast: bool): (cleaned: string)
    ensures cleaned == [] || cleaned[0] != '/'
    ensures !isLast ==> cleaned == [] || cleaned[|cleaned| - 1] != '/'
    ensures isLast ==> HasSuffix(part, cleaned)
  {
    var noLeading := TrimLeft(part, IsSlash);
    if isLast then noLeading else TrimRight(noLeading, IsSlash)
  }

  /**
   * What CleanPart keeps follows the part's leading slashes and is followed
   * by slashes only, none for the last part: with the first two clauses of
   * CleanPart this fixes the cleaned text.
   */
  lemma CleanPartLayout(part: string, isLast: bool)
    ensures var k := LeadingSlashes(part); var cleaned := CleanPart(part, isLast);
      && k + |cleaned| <= |part| && part[k..k + |cleaned|] == cleaned
      && AllSlashes(part[k + |cleaned|..]) && (isLast ==> k + |cleaned| == |part|)
  {
    var k := LeadingSlashes(part);
    var noLeading := TrimLeft(part, IsSlash);
    assert noLeading == part[k..];
    if !isLast {
      TrimRightLayout(noLeading);
      var cleaned := TrimRight(noLeading, IsSlash);
      assert part[k + |cleaned|..] == noLeading[|cleaned|..];
    }
  }

  /** Trimming the trailing slashes keeps a prefix and removes only slashes. */
  lemma TrimRightLayout(s: string)
    ensures var r := TrimRight(s, IsSlash); s[..|r|] == r && AllSlashes(s[|r|..])
  {
  }

  function CleanParts(parts: seq<string>): (cleaned: seq<string>)
    ensures |cleaned| == |parts|
    ensures forall i :: 0 <= i < |parts| ==> cleaned[i] == CleanPart(parts[i], i == |parts| - 1)
  {
    seq(|parts|, i requires 0 <= i < |parts| => CleanPart(parts[i], i == |parts| - 1))
  }

  /** joinUrls: the cleaned, non-empty parts joined with "/". */
  function JoinUrls(parts: seq<string>): (url: string)
    ensures NonEmpty(CleanParts(parts)) == [] <==> url == []
    ensures |NonEmpty(CleanParts(parts))| == 1 ==> url == NonEmpty(CleanParts(parts))[0]
  {
    var kept := NonEmpty(CleanParts(parts));
    if kept != [] then
      assert kept[0] in kept;
      JoinWithStart(kept, "/");
      JoinWith(kept, "/")
    else JoinWith(kept, "/")
  }

  lemma {:induction false} JoinWithStart(parts: seq<string>, sep: string)
    requires parts != [] && parts[0] != []
    ensures JoinWith(parts, sep) != [] && JoinWith(parts, sep)[0] == parts[0][0]
  {
  }

  /** The joined URL never starts with a slash. */
  lemma JoinUrlsNoLeadingSlash(parts: seq<string>)
    ensures var url := JoinUrls(parts); url == [] || url[0] != '/'
  {
    var kept := NonEmpty(CleanParts(parts));
    if kept != [] {
      assert kept[0] in CleanParts(parts);
      JoinWithStart(kept, "/");
    }
  }

  /** Parts that are already clean (non-empty, no slash at either end) are joined unchanged with "/". */
  lemma {:induction false} JoinUrlsOfCleanParts(parts: seq<string>)
    requires forall i :: 0 <= i < |parts| ==> parts[i] != [] && parts[i][0] != '/' && parts[i][|parts[i]| - 1] != '/'
    ensures JoinUrls(parts) == JoinWith(parts, "/")
  {
    forall i | 0 <= i < |parts| ensures CleanParts(parts)[i] == parts[i] {
      CleanPartOfClean(parts[i], i == |parts| - 1);
    }
    assert CleanParts(parts) == parts;
    NonEmptyOfNonEmpty(parts);
  }

  /**
   * Every part is leading slashes, a core and trailing slashes. joinUrls
   * keeps each core, and the last part's trailing slashes after a non-empty
   * core, drops the empty ones and joins the rest with single slashes.
   */
  lemma {:induction false} JoinUrlsOfSlashedParts(pres: seq<string>, cores: seq<string>, posts: seq<string>)
    requires |pres| == |cores| == |posts| > 0
    requires forall i :: 0 <= i < |cores| ==> AllSlashes(pres[i]) && AllSlashes(posts[i]) && Core(cores[i])
    ensures var n := |cores|;
      var last := if cores[n - 1] == [] then [] else cores[n - 1] + posts[n - 1];
      JoinUrls(seq(n, i requires 0 <= i < n => pres[i] + cores[i] + posts[i]))
      == JoinWith(NonEmpty(cores[..n - 1] + [last]), "/")
  {
    var n := |cores|;
    var parts := seq(n, i requires 0 <= i < n => pres[i] + cores[i] + posts[i]);
    var last := if cores[n - 1] == [] then [] else cores[n - 1] + posts[n - 1];
    forall i | 0 <= i < n
      ensures CleanParts(parts)[i] == (cores[..n - 1] + [last])[i]
    {
      CleanPartOfSlashed(pres[i], cores[i], posts[i], i == n - 1);
    }
    assert CleanParts(parts) == cores[..n - 1] + [last];
  }

  /** Cleaning a part made of slashes, a core and slashes. */
  lemma CleanPartOfSlashed(pre: string, core: string, post: string, isLast: bool)
    requires AllSlashes(pre) && AllSlashes(post) && Core(core)
    ensures CleanPart(pre + core + post, isLast) == if core == [] then [] else if isLast then core + post else core
  {
    if core == [] {
      assert pre + core + post == (pre + post) + [];
      TrimLeftAround(pre + post, [], IsSlash);
    } else {
      assert pre + core + post == pre + (core + post);
      TrimLeftAround(pre, core + post, IsSlash);
      TrimRightAround(core, post, IsSlash);
    }
  }

  /** A part with no slash at either end is left as it is. */
  lemma CleanPartOfClean(part: string, isLast: bool)
    requires part != [] && part[0] != '/' && part[|part| - 1] != '/'
    ensures CleanPart(part, isLast) == part
  {
    assert [] + part == part;
    TrimLeftAround([], part, IsSlash);
    assert part + [] == part;
    TrimRightAround(part, [], IsSlash);
  }

  lemma CleanApi()
    ensures CleanPart("api/", false) == "api"
  {
    TrimLeftAround([], "api/", IsSlash);
    assert [] + "api/" == "api/";
    TrimRightAround("api", "/", IsSlash);
    assert "api" + "/" == "api/";
  }

  lemma CleanUsers()
    ensures CleanPart("/users/", true) == "users/"
  {
    TrimLeftAround("/", "users/", IsSlash);
    assert "/" + "users/" == "/users/";
  }

  /** Slashes between parts collapse to one and the last part keeps its trailing slash. */
  lemma JoinUrlsCase()
    ensures JoinUrls(["api/", "/users/"]) == "api/users/"
  {
    CleanApi();
    CleanUsers();
    JoinTwoParts("api/", "/users/");
    JoinLiteral();
  }

  /** Two parts whose cleaned forms are both non-empty are joined around one "/". */
  lemma JoinTwoParts(a: string, b: string)
    requires CleanPart(a, false) != [] && CleanPart(b, true) != []
    ensures JoinUrls([a, b]) == JoinWith([CleanPart(a, false), CleanPart(b, true)], "/")
  {
    var cleaned := [CleanPart(a, false), CleanPart(b, true)];
    assert CleanParts([a, b]) == cleaned;
    NonEmptyOfNonEmpty(cleaned);
  }

  lemma JoinLiteral()
    ensures JoinWith(["api", "users/"], "/") == "api/users/"
  {
    assert ["api", "users/"][1..] == ["users/"];
  }

  /** A missing argument and an empty string are both falsy. */
  predicate Present(s: Option<string>) {
    s.Some? && s.value != []
  }

  /** The default port of an "http:" or "https:" protocol. */
  predicate IsDefaultPortFor(protocol: string, port: string) {
    (protocol == "http:" && port == "80") || (protocol == "https:" && port == "443")
  }

  /** The ":port" suffix: absent for a missing or empty port and for the scheme's default. */
  function PortSegment(protocol: string, port: Option<string>): (segment: string)
    ensures segment == [] <==> !Present(port) || IsDefaultPortFor(protocol, port.value)
    ensures segment != [] ==> segment == ":" + port.value
  {
    if Present(port) && !IsDefaultPortFor(protocol, port.value) then ":" + port.value else ""
  }

  /** formatUrl. */
  function FormatUrl(protocol: Option<string>, hostname: Option<string>, port: Option<string>): (url: string)
    ensures !Present(protocol) || !Present(hostname) ==> url == ""
    ensures Present(protocol) && Present(hostname) ==>
      var p := if HasSuffix(protocol.value, ":") then protocol.value else protocol.value + ":";
      && HasPrefix(url, p + "//" + hostname.value) && HasSuffix(url, PortSegment(p, port))
      && |url| == |p| + 2 + |hostname.value| + |PortSegment(p, port)|
  {
    if !Present(protocol) || !Present(hostname) then ""
    else
      var normalized := if HasSuffix(protocol.value, ":") then protocol.value else protocol.value + ":";
      normalized + "//" + hostname.value + PortSegment(normalized, port)
  }

  /** The protocol gains a ':' only when it lacks one: "https" and "https:" format alike. */
  lemma FormatUrlColon(protocol: string, hostname: string, port: Option<string>)
    requires protocol != [] && hostname != [] && !HasSuffix(protocol, ":")
    ensures FormatUrl(Some(protocol), Some(hostname), port) == FormatUrl(Some(protocol + ":"), Some(hostname), port)
  {
    var p := protocol + ":";
    assert p[|p| - 1..] == ":";
  }

  datatype UrlParts = UrlParts(protocol: string, hostname: string, portPart: string)

  /** extractParts, over the protocol, hostname and port fields of a parsed URL. */
  function ExtractParts(protocol: string, hostname: string, port: string): (parts: UrlParts)
    ensures parts.protocol == protocol && parts.hostname == hostname
    ensures parts.portPart == [] <==> port == [] || IsDefaultPortFor(protocol, port)
    ensures parts.portPart != [] ==> parts.portPart == ":" + port
  {
    UrlParts(protocol, hostname, PortSegment(protocol, Some(port)))
  }

  /** formatUrl and extractParts apply the same default-port rule. */
  lemma FormatAgreesWithExtract(protocol: string, hostname: string, port: string)
    requires HasSuffix(protocol, ":") && hostname != []
    ensures var parts := ExtractParts(protocol, hostname, port);
      FormatUrl(Some(protocol), Some(hostname), Some(port)) == parts.protocol + "//" + parts.hostname + parts.portPart
  {
  }
}
