/** Python's prefix slice `s[:n]` on lists and strings. */
module Slices {

  /** `s[:n]`: the first `n` elements, or for a negative `n` everything but the last `-n`
      elements; never out of range. */
  function Take<T>(s: seq<T>, n: int): (r: seq<T>)
    ensures |r| <= |s| && r == s[..|r|]
    ensures n >= 0 ==> |r| == (if n < |s| then n else |s|)
    ensures n < 0 ==> |r| == (if |s| + n > 0 then |s| + n else 0)
  {
    if n >= 0 then
      (if n < |s| then s[..n] else s)
    else
      (if |s| + n > 0 then s[..|s| + n] else [])
  }

  /** Concatenation is associative. */
  lemma ConcatAssoc<T>(a: seq<T>, b: seq<T>, c: seq<T>)
    ensures (a + b) + c == a + (b + c)
  {
  }
}
