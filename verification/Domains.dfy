/**
 * Wildcard-domain helpers (utils/domainutil/domain.go and utils/domain.go).
 * A wildcard domain is written "*." followed by its base domain.
 */
module Domains {
  import opened Strs

  const WildcardPrefix: string := "*."

  /** IsWildcardDomain: the domain starts with "*.". */
  function IsWildcardDomain(domain: string): (wild: bool)
    ensures wild <==> |domain| >= 2 && domain[0] == '*' && domain[1] == '.'
  {
    HasPrefix(domain, WildcardPrefix)
  }

  /** ToWildcardDomain: drop at most one leading "*.", then put one back. */
  function ToWildcardDomain(domain: string): (w: string)
    ensures IsWildcardDomain(w)
    ensures IsWildcardDomain(domain) ==> w == domain
    ensures !IsWildcardDomain(domain) ==> w == WildcardPrefix + domain
  {
    WildcardPrefix + TrimPrefix(domain, WildcardPrefix)
  }

  /** BaseDomain: remove exactly one leading "*." when present. */
  function BaseDomain(domain: string): (base: string)
    ensures IsWildcardDomain(domain) ==> WildcardPrefix + base == domain
    ensures !IsWildcardDomain(domain) ==> base == domain
  {
    if HasPrefix(domain, WildcardPrefix) then domain[|WildcardPrefix|..] else domain
  }

  /**
   * SubdomainMatchesWildcard: only a wildcard can match; a subdomain matches
   * when it is the base itself or ends with "." followed by the base.
   */
  function SubdomainMatchesWildcard(subdomain: string, wildcard: string): (m: bool)
    ensures m <==> IsWildcardDomain(wildcard)
                   && (subdomain == BaseDomain(wildcard) || HasSuffix(subdomain, "." + BaseDomain(wildcard)))
  {
    IsWildcardDomain(wildcard) &&
    var base := TrimPrefix(wildcard, WildcardPrefix);
    HasSuffix(subdomain, "." + base) || subdomain == base
  }

  /** NormalizeWildcardDomain: prepend "*." unless the domain already starts with it. */
  function NormalizeWildcardDomain(domain: string): (w: string)
    ensures IsWildcardDomain(w)
    ensures IsWildcardDomain(domain) ==> w == domain
    ensures !IsWildcardDomain(domain) ==> w == WildcardPrefix + domain
  {
    if !HasPrefix(domain, WildcardPrefix) then WildcardPrefix + domain else domain
  }

  /** The two ways of producing a wildcard in the code base agree on every input. */
  lemma NormalizeAgreesWithToWildcard(domain: string)
    ensures NormalizeWildcardDomain(domain) == ToWildcardDomain(domain)
  {
  }

  lemma ToWildcardIdempotent(domain: string)
    ensures ToWildcardDomain(ToWildcardDomain(domain)) == ToWildcardDomain(domain)
  {
  }

  lemma NormalizeIdempotent(domain: string)
    ensures NormalizeWildcardDomain(NormalizeWildcardDomain(domain)) == NormalizeWildcardDomain(domain)
  {
  }

  /**
   * BaseDomain undoes ToWildcardDomain on a domain that is not itself a
   * wildcard, and rebuilding the wildcard from a base gives back the same
   * wildcard as long as only one "*." level was present.
   */
  lemma BaseOfWildcard(domain: string)
    ensures !IsWildcardDomain(domain) ==> BaseDomain(ToWildcardDomain(domain)) == domain
    ensures !IsWildcardDomain(BaseDomain(domain)) ==> ToWildcardDomain(BaseDomain(domain)) == ToWildcardDomain(domain)
  {
    if !IsWildcardDomain(domain) {
      var w := ToWildcardDomain(domain);
      assert w[|WildcardPrefix|..] == domain;
    }
  }

  /** Only one "*." level is removed: "*.*.x" has base "*.x" and is its own wildcard. */
  lemma OneLevelOnly()
    ensures BaseDomain("*.*.x") == "*.x"
    ensures ToWildcardDomain("*.*.x") == "*.*.x"
  {
    assert HasPrefix("*.*.x", WildcardPrefix);
    assert "*.*.x"[2..] == "*.x";
  }

  /** A wildcard matches its own base domain and every name one or more labels below it. */
  lemma WildcardMatchesItsBase(base: string, host: string)
    ensures SubdomainMatchesWildcard(base, WildcardPrefix + base)
    ensures SubdomainMatchesWildcard(host + "." + base, WildcardPrefix + base)
  {
    var w := WildcardPrefix + base;
    assert HasPrefix(w, WildcardPrefix);
    assert TrimPrefix(w, WildcardPrefix) == base;
    var s := host + "." + base;
    assert s[|s| - |"." + base|..] == "." + base;
  }

  /** A non-wildcard never matches, whatever the subdomain. */
  lemma NonWildcardNeverMatches(subdomain: string, domain: string)
    requires !IsWildcardDomain(domain)
    ensures !SubdomainMatchesWildcard(subdomain, domain)
  {
  }
}
