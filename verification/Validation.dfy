/**
 * Form-value transforms and tests of the web UI (ui/src/utils/validation.ts).
 * A form value is JavaScript's null, undefined, a string, or anything else;
 * white space is ECMAScript's WhiteSpace and LineTerminator set, which both
 * `trim` and the `\s` class of regular expressions use.
 */
module Validation {
  import opened Wrappers
  import opened Strs

  datatype JsValue = Null | Undefined | Str(s: string) | Other(tag: int)

  /** sanitizeString: null stays null, non-strings pass, strings are trimmed and blank ones become null. */
  function SanitizeString(v: JsValue): (r: JsValue)
    ensures v.Null? || v.Undefined? ==> r == Null
    ensures v.Other? ==> r == v
    ensures v.Str? ==> (r == Null <==> JsTrim(v.s) == [])
    ensures v.Str? && r.Str? ==> r.s == JsTrim(v.s) && r.s != []
    ensures !r.Undefined?
  {
    match v
    case Null => Null
    case Undefined => Null
    case Other(_) => v
    case Str(s) =>
      var trimmed := JsTrim(s);
      if trimmed == [] then Null else Str(trimmed)
  }

  /** Sanitising twice is sanitising once. */
  lemma SanitizeIdempotent(v: JsValue)
    ensures SanitizeString(SanitizeString(v)) == SanitizeString(v)
  {
    if v.Str? {
      TrimIdempotent(v.s, IsJsSpace);
    }
  }

  predicate IsDigit(c: char) { '0' <= c <= '9' }

  const PeruPrefix: string := "+51"

  /** transformPhoneNumber: all white space removed; blank becomes null; "+51 " is added unless it starts with '+'. */
  function TransformPhoneNumber(v: JsValue): (r: JsValue)
    ensures v.Null? || v.Undefined? ==> r == Null
    ensures v.Other? ==> r == v
    ensures v.Str? && r.Str? ==> r.s != [] && r.s[0] == '+'
    ensures v.Str? && r.Str? && v.s != [] && v.s[0] == '+' ==> r.s == RemoveAll(v.s, IsJsSpace)
    ensures v.Str? ==> (r == Null <==> forall c :: c in v.s ==> IsJsSpace(c))
    // the white-space-free value, behind "+51 " unless it already starts with '+'
    ensures v.Str? && r.Str? ==>
      var compact := RemoveAll(v.s, IsJsSpace);
      compact != [] && r.s == if compact[0] == '+' then compact else PeruPrefix + " " + compact
  {
    match v
    case Null => Null
    case Undefined => Null
    case Other(_) => v
    case Str(s) =>
      var compact := RemoveAll(JsTrim(s), IsJsSpace);
      CompactOfTrim(s);
      CompactEmptyIffBlank(s);
      if compact == [] then Null
      else if compact[0] == '+' then Str(compact)
      else Str(PeruPrefix + " " + compact)
  }

  /** Nothing is left after removing white space exactly when there was only white space. */
  lemma CompactEmptyIffBlank(s: string)
    ensures RemoveAll(s, IsJsSpace) == [] <==> forall c :: c in s ==> IsJsSpace(c)
  {
    var r := RemoveAll(s, IsJsSpace);
    RemoveAllMembers(s, IsJsSpace);
    if r != [] {
      assert r[0] in r;
    }
  }

  /** Removing white space after trimming is the same as removing it from the raw string. */
  lemma CompactOfTrim(s: string)
    ensures RemoveAll(JsTrim(s), IsJsSpace) == RemoveAll(s, IsJsSpace)
  {
    var l := TrimLeft(s, IsJsSpace);
    RemoveAllOfCut(s, l);
    var r := TrimRight(l, IsJsSpace);
    RemoveAllOfCutRight(l, r);
  }

  lemma {:induction false} RemoveAllOfCut(s: string, l: string)
    requires HasSuffix(s, l) && forall i :: 0 <= i < |s| - |l| ==> IsJsSpace(s[i])
    ensures RemoveAll(l, IsJsSpace) == RemoveAll(s, IsJsSpace)
    decreases |s|
  {
    if |s| > |l| {
      assert IsJsSpace(s[0]);
      assert s[1..][|s| - 1 - |l|..] == s[|s| - |l|..];
      RemoveAllOfCut(s[1..], l);
    } else {
      assert s == s[|s| - |l|..];
    }
  }

  lemma {:induction false} RemoveAllConcat(a: string, b: string)
    ensures RemoveAll(a + b, IsJsSpace) == RemoveAll(a, IsJsSpace) + RemoveAll(b, IsJsSpace)
  {
    if a == [] {
      assert a + b == b;
    } else {
      assert (a + b)[1..] == a[1..] + b;
      RemoveAllConcat(a[1..], b);
    }
  }

  lemma {:induction false} RemoveAllSpaces(t: string)
    requires forall i :: 0 <= i < |t| ==> IsJsSpace(t[i])
    ensures RemoveAll(t, IsJsSpace) == []
  {
    if t != [] {
      RemoveAllSpaces(t[1..]);
    }
  }

  lemma RemoveAllOfCutRight(l: string, r: string)
    requires HasPrefix(l, r) && forall i :: |r| <= i < |l| ==> IsJsSpace(l[i])
    ensures RemoveAll(r, IsJsSpace) == RemoveAll(l, IsJsSpace)
  {
    assert l == r + l[|r|..];
    RemoveAllConcat(r, l[|r|..]);
    RemoveAllSpaces(l[|r|..]);
    assert RemoveAll(r, IsJsSpace) + [] == RemoveAll(r, IsJsSpace);
  }

  /** Three digits. */
  predicate Digits3(s: string) {
    |s| == 3 && IsDigit(s[0]) && IsDigit(s[1]) && IsDigit(s[2])
  }

  /** `(\s?[0-9]{3}){n}` matched against all of `s`. */
  predicate DigitGroups(s: string, n: nat) {
    if n == 0 then s == []
    else
      (|s| >= 3 && Digits3(s[..3]) && DigitGroups(s[3..], n - 1))
      || (|s| >= 4 && IsJsSpace(s[0]) && Digits3(s[1..4]) && DigitGroups(s[4..], n - 1))
  }

  /** The Peruvian phone pattern: "+51", then three groups of three digits, each optionally preceded by white space. */
  predicate MatchesPeruPhone(s: string) {
    HasPrefix(s, PeruPrefix) && DigitGroups(s[|PeruPrefix|..], 3)
  }

  /** The phone test: null or empty passes; anything else must match the pattern. */
  function PhoneTest(v: JsValue): (ok: bool)
    ensures v.Null? || v.Undefined? || v == Str([]) ==> ok
    ensures v.Other? ==> !ok
    ensures ok && v.Str? && v.s != [] ==> HasPrefix(v.s, PeruPrefix)
    ensures v.Str? && v.s != [] ==> (ok <==> MatchesPeruPhone(v.s))
  {
    v.Null? || v.Undefined? || (v.Str? && (v.s == [] || MatchesPeruPhone(v.s)))
  }

  lemma {:induction false} GroupsOfDigits(d: string, n: nat)
    requires |d| == 3 * n && forall i :: 0 <= i < |d| ==> IsDigit(d[i])
    ensures DigitGroups(d, n)
  {
    if n > 0 {
      assert Digits3(d[..3]);
      GroupsOfDigits(d[3..], n - 1);
    }
  }

  /** "+51 " followed by nine digits matches the pattern. */
  lemma PeruNumberMatches(d: string)
    requires |d| == 9 && forall i :: 0 <= i < 9 ==> IsDigit(d[i])
    ensures MatchesPeruPhone(PeruPrefix + " " + d)
  {
    var r := PeruPrefix + " " + d;
    assert r[..3] == PeruPrefix;
    var rest := r[3..];
    assert rest == " " + d;
    assert rest[1..4] == d[..3] && rest[4..] == d[3..];
    assert Digits3(d[..3]);
    GroupsOfDigits(d[3..], 2);
  }

  /** Nine local digits, typed with or without white space, get the "+51 " prefix. */
  lemma NineDigitsGetPrefix(typed: string, d: string)
    requires |d| == 9 && forall i :: 0 <= i < 9 ==> IsDigit(d[i])
    requires RemoveAll(typed, IsJsSpace) == d
    ensures TransformPhoneNumber(Str(typed)) == Str(PeruPrefix + " " + d)
  {
    CompactOfTrim(typed);
    assert IsDigit(d[0]);
  }

  /** ... and so pass the phone test. */
  lemma NineDigitsBecomeValid(typed: string, d: string)
    requires |d| == 9 && forall i :: 0 <= i < 9 ==> IsDigit(d[i])
    requires RemoveAll(typed, IsJsSpace) == d
    ensures PhoneTest(TransformPhoneNumber(Str(typed)))
  {
    NineDigitsGetPrefix(typed, d);
    PeruNumberMatches(d);
  }

  /** The numeric-only test: null or empty passes, otherwise every character is a digit 0-9. */
  function NumericOnly(value: Option<string>): (ok: bool)
    ensures value.None? || value == Some([]) ==> ok
    ensures value.Some? ==> (ok <==> forall c :: c in value.value ==> IsDigit(c))
  {
    match value
    case None => true
    case Some(s) => s == [] || forall i :: 0 <= i < |s| ==> IsDigit(s[i])
  }

  /** A numeric-only field: the sanitised value, if any, passes the numeric test. */
  predicate NumericFieldAccepts(v: JsValue)
    requires !v.Other?
  {
    var sanitized := SanitizeString(v);
    NumericOnly(if sanitized.Str? then Some(sanitized.s) else None)
  }

  /** Surrounding white space never makes a numeric field fail: " 123 " is accepted. */
  lemma NumericIgnoresSurroundingSpace(pre: string, digits: string, post: string)
    requires forall i :: 0 <= i < |pre| ==> IsJsSpace(pre[i])
    requires forall i :: 0 <= i < |post| ==> IsJsSpace(post[i])
    requires digits != [] && forall i :: 0 <= i < |digits| ==> IsDigit(digits[i])
    ensures NumericFieldAccepts(Str(pre + digits + post))
  {
    TrimAround(pre, digits, post, IsJsSpace);
  }

  const MinPasswordLength: nat := 8

  predicate HasUpper(s: string) { exists i :: 0 <= i < |s| && 'A' <= s[i] <= 'Z' }
  predicate HasLower(s: string) { exists i :: 0 <= i < |s| && 'a' <= s[i] <= 'z' }
  predicate HasDigit(s: string) { exists i :: 0 <= i < |s| && IsDigit(s[i]) }

  /** passwordRequired: the sanitised value is present, at least 8 long, with an upper, a lower and a digit. */
  function PasswordAccepted(v: JsValue): (accepted: bool)
    ensures accepted ==> v.Str? && |JsTrim(v.s)| >= MinPasswordLength
    ensures !v.Str? ==> !accepted
  {
    var p := SanitizeString(v);
    p.Str? && |p.s| >= MinPasswordLength && HasUpper(p.s) && HasLower(p.s) && HasDigit(p.s)
  }

  /** Only the trimmed password is judged, so surrounding white space neither helps nor hurts. */
  lemma PasswordIgnoresSurroundingSpace(s: string)
    ensures PasswordAccepted(Str(s)) == PasswordAccepted(Str(JsTrim(s)))
  {
    TrimIdempotent(s, IsJsSpace);
  }

  /** Blank input is refused as missing. */
  lemma BlankPasswordRefused()
    ensures !PasswordAccepted(Str("        "))
  {
    var blank := "        ";
    TrimLeftAround(blank, [], IsJsSpace);
    assert blank + [] == blank;
    assert JsTrim(blank) == [];
  }

  /**
   * A password without surrounding white space is accepted exactly when it
   * has at least eight characters, an upper-case letter, a lower-case letter
   * and a digit.
   */
  lemma {:induction false} TrimmedPasswordRules(s: string)
    requires s != [] && !IsJsSpace(s[0]) && !IsJsSpace(s[|s| - 1])
    ensures PasswordAccepted(Str(s)) <==> |s| >= MinPasswordLength && HasUpper(s) && HasLower(s) && HasDigit(s)
  {
    assert [] + s == s;
    TrimLeftAround([], s, IsJsSpace);
    assert s + [] == s;
    TrimRightAround(s, [], IsJsSpace);
    assert JsTrim(s) == s;
  }
}
