/**
 * Optional pointers for zero values (utils/pointers.go). A Go pointer that is
 * nil or points to a value is an Option; Go's zero value of a type parameter
 * is passed explicitly as `zero`.
 */
module Pointers {
  import opened Wrappers

  /** Ptr: nil for the zero value, otherwise a pointer to `v`. */
  function Ptr<T(==)>(v: T, zero: T): (p: Option<T>)
    ensures p.None? <==> v == zero
    ensures p.Some? ==> p.value == v
  {
    if v == zero then None else Some(v)
  }

  /** StrPointer: nil for the empty string, otherwise a pointer to it. */
  function StrPointer(s: string): (p: Option<string>)
    ensures p.None? <==> s == ""
    ensures p.Some? ==> p.value == s
  {
    if s == "" then None else Some(s)
  }

  /** Reading a pointer back, with nil read as the zero value. */
  function ValueOr<T>(p: Option<T>, zero: T): T {
    match p
    case Some(v) => v
    case None => zero
  }

  /** Dereferencing with the zero value as fallback gives back every value: nothing is lost. */
  lemma PtrRoundTrip<T>(v: T, zero: T)
    ensures ValueOr(Ptr(v, zero), zero) == v
  {
  }

  /** StrPointer is Ptr at type string, whose zero value is "". */
  lemma StrPointerIsPtr(s: string)
    ensures StrPointer(s) == Ptr(s, "")
  {
  }
}
