/**
 * String helpers used throughout the model: the prefix, suffix, trim and split
 * operations of Go's `strings` package and of JavaScript's `String.prototype`.
 * Strings are sequences of code points; every character these helpers search
 * for is ASCII, so searching bytes of UTF-8 (Go) and code points agree.
 */
module Strs {
  import opened Seqs

  predicate HasPrefix(s: string, p: string) {
    |p| <= |s| && s[..|p|] == p
  }

  predicate HasSuffix(s: string, p: string) {
    |p| <= |s| && s[|s| - |p|..] == p
  }

  /** strings.TrimPrefix: removes one leading copy of `p`, if there is one. */
  function TrimPrefix(s: string, p: string): (r: string)
    ensures HasPrefix(s, p) ==> p + r == s
    ensures !HasPrefix(s, p) ==> r == s
  {
    if HasPrefix(s, p) then s[|p|..] else s
  }

  /** strings.TrimSuffix: removes one trailing copy of `p`, if there is one. */
  function TrimSuffix(s: string, p: string): (r: string)
    ensures HasSuffix(s, p) ==> r + p == s
    ensures !HasSuffix(s, p) ==> r == s
  {
    if HasSuffix(s, p) then s[..|s| - |p|] else s
  }

  /** strings.Split(s, string(c))[0]: the text before the first `c`, or all of `s`. */
  function BeforeFirst(s: string, c: char): (r: string)
    ensures HasPrefix(s, r)
    ensures c !in r
    ensures |r| < |s| ==> s[|r|] == c
  {
    if s == [] || s[0] == c then [] else [s[0]] + BeforeFirst(s[1..], c)
  }

  /** The text before the first `c` ends at `i` when `c` stands there (or `i` is the end) and not before. */
  lemma {:induction false} BeforeFirstAt(s: string, i: nat, c: char)
    requires i <= |s| && (i == |s| || s[i] == c) && c !in s[..i]
    ensures BeforeFirst(s, c) == s[..i]
  {
    if i > 0 {
      assert s[0] == s[..i][0];
      assert s[1..][..i - 1] == s[1..i] && s[1..][..i - 1] == s[..i][1..];
      BeforeFirstAt(s[1..], i - 1, c);
      assert s[..i] == [s[0]] + s[1..i];
    }
  }

  /** Removes every leading character that `cut` selects. */
  function TrimLeft(s: string, cut: char -> bool): (r: string)
    ensures HasSuffix(s, r)
    ensures r == [] || !cut(r[0])
    ensures forall i :: 0 <= i < |s| - |r| ==> cut(s[i])
  {
    if s != [] && cut(s[0]) then TrimLeft(s[1..], cut) else s
  }

  /** Removes every trailing character that `cut` selects. */
  function TrimRight(s: string, cut: char -> bool): (r: string)
    ensures HasPrefix(s, r)
    ensures r == [] || !cut(r[|r| - 1])
    ensures forall i :: |r| <= i < |s| ==> cut(s[i])
  {
    if s != [] && cut(s[|s| - 1]) then TrimRight(s[..|s| - 1], cut) else s
  }

  /** Removes the characters `cut` selects from both ends. */
  function Trim(s: string, cut: char -> bool): (r: string)
    ensures r == [] || (!cut(r[0]) && !cut(r[|r| - 1]))
    ensures |r| <= |s|
  {
    TrimRight(TrimLeft(s, cut), cut)
  }

  predicate IsSlash(c: char) { c == '/' }

  /** unicode.IsSpace, the set Go's strings.TrimSpace removes. */
  predicate IsGoSpace(c: char) {
    c == '\t' || c == '\n' || c == '\U{000B}' || c == '\U{000C}' || c == '\r' || c == ' '
    || c == '\U{0085}' || c == '\U{00A0}' || c == '\U{1680}'
    || ('\U{2000}' <= c <= '\U{200A}')
    || c == '\U{2028}' || c == '\U{2029}' || c == '\U{202F}' || c == '\U{205F}' || c == '\U{3000}'
  }

  /** The WhiteSpace and LineTerminator characters of ECMAScript (`trim`, `\s`). */
  predicate IsJsSpace(c: char) {
    c == '\t' || c == '\n' || c == '\U{000B}' || c == '\U{000C}' || c == '\r' || c == ' '
    || c == '\U{00A0}' || c == '\U{1680}'
    || ('\U{2000}' <= c <= '\U{200A}')
    || c == '\U{2028}' || c == '\U{2029}' || c == '\U{202F}' || c == '\U{205F}' || c == '\U{3000}'
    || c == '\U{FEFF}'
  }

  /** strings.TrimSpace. */
  function TrimSpace(s: string): (r: string)
    ensures r == [] || (!IsGoSpace(r[0]) && !IsGoSpace(r[|r| - 1]))
  {
    Trim(s, IsGoSpace)
  }

  /** String.prototype.trim. */
  function JsTrim(s: string): (r: string)
    ensures r == [] || (!IsJsSpace(r[0]) && !IsJsSpace(r[|r| - 1]))
  {
    Trim(s, IsJsSpace)
  }

  /** Removes every character `drop` selects, wherever it stands. */
  function RemoveAll(s: string, drop: char -> bool): (r: string)
    ensures |r| <= |s|
  {
    if s == [] then []
    else (if drop(s[0]) then [] else [s[0]]) + RemoveAll(s[1..], drop)
  }

  /** What is left is exactly the characters of `s` that `drop` does not select. */
  lemma {:induction false} RemoveAllMembers(s: string, drop: char -> bool)
    ensures forall c :: c in RemoveAll(s, drop) <==> c in s && !drop(c)
  {
    if s != [] {
      RemoveAllMembers(s[1..], drop);
      assert s == [s[0]] + s[1..];
    }
  }

  function LowerChar(c: char): char {
    if 'A' <= c <= 'Z' then (c as int + 32) as char else c
  }

  /** Lower-cases the ASCII letters and leaves every other character as it is. */
  function AsciiLower(s: string): (r: string)
    ensures |r| == |s|
    ensures forall i :: 0 <= i < |s| ==> r[i] == LowerChar(s[i])
  {
    seq(|s|, i requires 0 <= i < |s| => LowerChar(s[i]))
  }

  /** Joins `parts` with `sep` between consecutive elements (Array.prototype.join). */
  function JoinWith(parts: seq<string>, sep: string): string {
    if parts == [] then []
    else if |parts| == 1 then parts[0]
    else parts[0] + sep + JoinWith(parts[1..], sep)
  }

  /**
   * The non-empty strings of `parts`, in their order: `filter(Boolean)` in
   * JavaScript, and the filtering path.Join does before joining.
   */
  function NonEmpty(parts: seq<string>): (kept: seq<string>)
    ensures forall p :: p in kept <==> p in parts && p != []
    ensures IsSubsequence(kept, parts)
  {
    if parts == [] then []
    else
      var rest := NonEmpty(parts[1..]);
      if parts[0] == [] then
        SubsequenceDropsHead(rest, parts);
        rest
      else
        assert ([parts[0]] + rest)[1..] == rest;
        [parts[0]] + rest
  }

  /** Filtering distributes over concatenation, so it keeps the relative order of every two parts. */
  lemma {:induction false} NonEmptyConcat(a: seq<string>, b: seq<string>)
    ensures NonEmpty(a + b) == NonEmpty(a) + NonEmpty(b)
  {
    if a == [] {
      assert a + b == b;
    } else {
      assert (a + b)[1..] == a[1..] + b;
      NonEmptyConcat(a[1..], b);
    }
  }

  /** Parts that are all non-empty are kept whole. */
  lemma {:induction false} NonEmptyOfNonEmpty(parts: seq<string>)
    requires forall i :: 0 <= i < |parts| ==> parts[i] != []
    ensures NonEmpty(parts) == parts
  {
    if parts != [] {
      NonEmptyOfNonEmpty(parts[1..]);
    }
  }

  /** Trimming is idempotent. */
  lemma TrimIdempotent(s: string, cut: char -> bool)
    ensures Trim(Trim(s, cut), cut) == Trim(s, cut)
  {
    var r := Trim(s, cut);
    assert r == [] || !cut(r[0]);
    assert TrimLeft(r, cut) == r;
    assert r == [] || !cut(r[|r| - 1]);
  }

  /** Trimming the left end of `pre + x` removes exactly `pre` when `x` starts with a kept character. */
  lemma {:induction false} TrimLeftAround(pre: string, x: string, cut: char -> bool)
    requires forall i :: 0 <= i < |pre| ==> cut(pre[i])
    requires x == [] || !cut(x[0])
    ensures TrimLeft(pre + x, cut) == x
  {
    if pre == [] {
      assert pre + x == x;
    } else {
      assert (pre + x)[1..] == pre[1..] + x;
      TrimLeftAround(pre[1..], x, cut);
    }
  }

  /** Trimming the right end of `x + post` removes exactly `post` when `x` ends with a kept character. */
  lemma {:induction false} TrimRightAround(x: string, post: string, cut: char -> bool)
    requires forall i :: 0 <= i < |post| ==> cut(post[i])
    requires x == [] || !cut(x[|x| - 1])
    ensures TrimRight(x + post, cut) == x
  {
    if post == [] {
      assert x + post == x;
    } else {
      assert (x + post)[..|x + post| - 1] == x + post[..|post| - 1];
      TrimRightAround(x, post[..|post| - 1], cut);
    }
  }

  /** Trim removes exactly the cut characters around a core that starts and ends with kept ones. */
  lemma TrimAround(pre: string, core: string, post: string, cut: char -> bool)
    requires forall i :: 0 <= i < |pre| ==> cut(pre[i])
    requires forall i :: 0 <= i < |post| ==> cut(post[i])
    requires core != [] && !cut(core[0]) && !cut(core[|core| - 1])
    ensures Trim(pre + core + post, cut) == core
  {
    assert pre + core + post == pre + (core + post);
    TrimLeftAround(pre, core + post, cut);
    TrimRightAround(core, post, cut);
  }
}
