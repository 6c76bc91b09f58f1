/** Generic facts about sequences shared by the models. */
module Seqs {

  /** `a` is `b` with some elements left out, the rest in the same order. */
  predicate IsSubsequence<T(==)>(a: seq<T>, b: seq<T>) {
    if a == [] then true
    else if b == [] then false
    else if a[0] == b[0] then IsSubsequence(a[1..], b[1..])
    else IsSubsequence(a, b[1..])
  }

  /** Dropping the head of `b` keeps a subsequence of the tail a subsequence. */
  lemma {:induction false} SubsequenceDropsHead<T>(a: seq<T>, b: seq<T>)
    requires b != [] && IsSubsequence(a, b[1..])
    ensures IsSubsequence(a, b)
    decreases |b|, 1
  {
    if a != [] && a[0] == b[0] {
      SubsequenceTail(a, b[1..]);
    }
  }

  /** The tail of a subsequence is a subsequence. */
  lemma {:induction false} SubsequenceTail<T>(a: seq<T>, c: seq<T>)
    requires a != [] && IsSubsequence(a, c)
    ensures IsSubsequence(a[1..], c)
    decreases |c|, 2
  {
    assert c != [];
    if a[0] == c[0] {
      SubsequenceDropsHead(a[1..], c);
    } else {
      SubsequenceTail(a, c[1..]);
      SubsequenceDropsHead(a[1..], c);
    }
  }

  /** Every sequence is a subsequence of itself. */
  lemma {:induction false} SubsequenceSelf<T>(s: seq<T>)
    ensures IsSubsequence(s, s)
  {
    if s != [] {
      SubsequenceSelf(s[1..]);
    }
  }

  /** Putting elements in front of `t` keeps its subsequences. */
  lemma {:induction false} SubsequencePrepend<T>(s: seq<T>, head: seq<T>, t: seq<T>)
    requires IsSubsequence(s, t)
    ensures IsSubsequence(s, head + t)
  {
    if head == [] {
      assert head + t == t;
    } else {
      SubsequencePrepend(s, head[1..], t);
      assert (head + t)[1..] == head[1..] + t;
      SubsequenceDropsHead(s, head + t);
    }
  }

  /** Putting an element after `t` keeps its subsequences. */
  lemma {:induction false} SubsequenceSnoc<T>(s: seq<T>, t: seq<T>, x: T)
    requires IsSubsequence(s, t)
    ensures IsSubsequence(s, t + [x])
    decreases |t|
  {
    if s != [] {
      assert (t + [x])[1..] == t[1..] + [x];
      if s[0] == t[0] {
        SubsequenceSnoc(s[1..], t[1..], x);
      } else {
        SubsequenceSnoc(s, t[1..], x);
        SubsequenceDropsHead(s, t + [x]);
      }
    }
  }

  /** Appending the same elements to both sides keeps a subsequence. */
  lemma {:induction false} SubsequenceAppend<T>(s: seq<T>, t: seq<T>, tail: seq<T>)
    requires IsSubsequence(s, t)
    ensures IsSubsequence(s + tail, t + tail)
    decreases |t|
  {
    if s == [] {
      assert s + tail == tail;
      SubsequenceSelf(tail);
      SubsequencePrepend(tail, t, tail);
    } else {
      assert (s + tail)[1..] == s[1..] + tail;
      assert (t + tail)[1..] == t[1..] + tail;
      if s[0] == t[0] {
        SubsequenceAppend(s[1..], t[1..], tail);
      } else {
        SubsequenceAppend(s, t[1..], tail);
        SubsequenceDropsHead(s + tail, t + tail);
      }
    }
  }
}
