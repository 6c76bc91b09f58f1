/**
 * The stdout handler of a launched PocketBase instance
 * (internal/launcher/domain/launcher_manager.go:139-158): it watches the
 * output for the first-run installer link and extracts its token with
 * the pattern https?://[^/]+/_/#/pbinstal/([a-zA-Z0-9._\-]+). The output
 * chunk is a sequence of bytes, each held in a char. The pattern is
 * matched by hand: every part of it matches deterministically, so the
 * leftmost match is found by trying each start position in turn.
 */
module InstallToken {
  import opened Wrappers

  const Marker := "/pbinstal/"
  const InstallPath := "/_/#/pbinstal/"
  const MaxScan := 2048

  predicate OccursAt(s: string, i: nat, p: string) {
    i + |p| <= |s| && s[i..i + |p|] == p
  }

  /** bytes.Contains. */
  predicate Contains(s: string, p: string) {
    exists i: nat :: i <= |s| && OccursAt(s, i, p)
  }

  predicate IsTokenChar(c: char) {
    ('a' <= c <= 'z') || ('A' <= c <= 'Z') || ('0' <= c <= '9') || c == '.' || c == '_' || c == '-'
  }

  predicate NotSlash(c: char) { c != '/' }

  /** The end of the longest run of `ok` characters starting at `j`. */
  function RunEnd(s: string, j: nat, ok: char -> bool): (k: nat)
    requires j <= |s|
    ensures j <= k <= |s|
    ensures forall m :: j <= m < k ==> ok(s[m])
    ensures k == |s| || !ok(s[k])
    decreases |s| - j
  {
    if j < |s| && ok(s[j]) then RunEnd(s, j + 1, ok) else j
  }

  /** Where the host part starts when a scheme "http://" or "https://" begins at `i`. */
  function AfterScheme(s: string, i: nat): (j: Option<nat>)
    ensures j.Some? ==> j.value <= |s|
    ensures j.Some? ==> j.value >= 3 && OccursAt(s, i, "http") && OccursAt(s, j.value - 3, "://")
  {
    if OccursAt(s, i, "https://") then
      assert s[i..i + 4] == s[i..i + 8][..4];
      assert s[i + 5..i + 8] == s[i..i + 8][5..];
      Some(i + 8)
    else if OccursAt(s, i, "http://") then
      assert s[i..i + 4] == s[i..i + 7][..4];
      assert s[i + 4..i + 7] == s[i..i + 7][4..];
      Some(i + 7)
    else None
  }

  /** The token of a match of the pattern that starts at `i`, if one does. */
  function MatchAt(s: string, i: nat): (t: Option<string>)
    ensures t.Some? ==> t.value != [] && forall c :: c in t.value ==> IsTokenChar(c)
  {
    match AfterScheme(s, i)
    case None => None
    case Some(j) =>
      var k := RunEnd(s, j, NotSlash);
      if k > j && OccursAt(s, k, InstallPath) then
        var e := RunEnd(s, k + |InstallPath|, IsTokenChar);
        if e > k + |InstallPath| then Some(s[k + |InstallPath|..e]) else None
      else None
  }

  /** The token of the leftmost match at or after `from` (FindSubmatch's first group). */
  function FindToken(s: string, from: nat): (t: Option<string>)
    ensures t.Some? ==> t.value != [] && forall c :: c in t.value ==> IsTokenChar(c)
    decreases |s| - from
  {
    if from > |s| then None
    else if MatchAt(s, from).Some? then MatchAt(s, from)
    else FindToken(s, from + 1)
  }

  /**
   * The handler: chunks without "/pbinstal/" are ignored, and only the
   * first 2048 bytes of a chunk are searched. The token is passed to
   * SetInstallToken (strings.TrimSpace leaves it as it is, since a token
   * has no spaces).
   */
  function StdoutToken(data: string): (t: Option<string>)
    ensures !Contains(data, Marker) ==> t.None?
    ensures t.Some? ==> t.value != [] && forall c :: c in t.value ==> IsTokenChar(c)
  {
    if !Contains(data, Marker) then None
    else
      var searchData := if |data| > MaxScan then data[..MaxScan] else data;
      FindToken(searchData, 0)
  }

  /** Whatever follows the first 2048 bytes never changes the token found. */
  lemma ScanStopsAt2048(data: string, more: string)
    requires |data| >= MaxScan && Contains(data, Marker)
    ensures StdoutToken(data + more) == StdoutToken(data)
  {
    var i: nat :| i <= |data| && OccursAt(data, i, Marker);
    assert (data + more)[i..i + |Marker|] == data[i..i + |Marker|];
    assert OccursAt(data + more, i, Marker);
    assert (data + more)[..MaxScan] == data[..MaxScan];
    if |data| == MaxScan {
      assert data[..MaxScan] == data;
      if more == [] {
        assert data + more == data;
      }
    }
  }

  lemma HttpsSchemeAt(s: string, i: nat)
    requires OccursAt(s, i, "https://")
    ensures AfterScheme(s, i) == Some(i + 8)
  {
  }

  /** Once a token is found, nothing further right changes it. */
  lemma {:induction false} FindTokenLeftmost(s: string, from: nat, i: nat)
    requires from <= i <= |s| && MatchAt(s, i).Some?
    requires forall m: nat :: from <= m < i ==> MatchAt(s, m).None?
    ensures FindToken(s, from) == MatchAt(s, i)
    decreases i - from
  {
    if from < i {
      FindTokenLeftmost(s, from + 1, i);
    }
  }

  /**
   * The pattern matches at 0 when the chunk starts with "http://", a
   * non-empty host without '/', the installer path and a maximal non-empty
   * run of token characters.
   */
  lemma MatchAtLayout(s: string, k: nat, e: nat)
    requires OccursAt(s, 0, "http://") && 7 < k
    requires OccursAt(s, k, InstallPath)
    requires forall m :: 7 <= m < k ==> NotSlash(s[m])
    requires k + |InstallPath| < e <= |s|
    requires forall m :: k + |InstallPath| <= m < e ==> IsTokenChar(s[m])
    requires e == |s| || !IsTokenChar(s[e])
    ensures MatchAt(s, 0) == Some(s[k + |InstallPath|..e])
  {
    assert AfterScheme(s, 0) == Some(7) by {
      assert s[0..4] == s[..7][..4];
      assert s[4] == s[..7][4] == ':';
    }
    assert s[k] == s[k..k + |InstallPath|][0] == '/';
    RunEndIs(s, 7, k, NotSlash);
    RunEndIs(s, k + |InstallPath|, e, IsTokenChar);
  }

  /** An installer link at the start of a chunk yields its token. */
  lemma InstallerLinkAtStart(host: string, token: string, rest: string)
    requires host != [] && forall c :: c in host ==> c != '/'
    requires token != [] && forall c :: c in token ==> IsTokenChar(c)
    requires rest == [] || !IsTokenChar(rest[0])
    ensures MatchAt("http://" + host + InstallPath + token + rest, 0) == Some(token)
  {
    var s := "http://" + host + InstallPath + token + rest;
    var k := 7 + |host|;
    var t := k + |InstallPath|;
    var e := t + |token|;
    assert s[..7] == "http://";
    forall m | 7 <= m < k
      ensures NotSlash(s[m])
    {
      assert s[m] == host[m - 7];
      assert host[m - 7] in host;
    }
    assert s[k..t] == InstallPath;
    forall m | t <= m < e
      ensures IsTokenChar(s[m])
    {
      assert s[m] == token[m - t];
      assert token[m - t] in token;
    }
    assert e == |s| || s[e] == rest[0];
    assert s[t..e] == token;
    MatchAtLayout(s, k, e);
  }

  /** RunEnd stops exactly at the first character `ok` rejects. */
  lemma {:induction false} RunEndIs(s: string, j: nat, k: nat, ok: char -> bool)
    requires j <= k <= |s|
    requires forall m :: j <= m < k ==> ok(s[m])
    requires k == |s| || !ok(s[k])
    ensures RunEnd(s, j, ok) == k
    decreases k - j
  {
    if j < k {
      RunEndIs(s, j + 1, k, ok);
    }
  }
}
