/** Bytes, and the few facts about byte strings several components share. */
module Bytes {

  type Byte = b: int | 0 <= b < 256

  type Bytes = seq<Byte>

  const LF: Byte := 10
  const CR: Byte := 13

  function Min(a: nat, b: nat): nat { if a < b then a else b }

  function Take<T>(s: seq<T>, n: nat): (r: seq<T>)
    ensures |r| == Min(|s|, n)
  {
    if |s| <= n then s else s[..n]
  }

  predicate IsPrefix<T(==)>(a: seq<T>, b: seq<T>) { |a| <= |b| && b[..|a|] == a }

  /** b[i..j) reappears in c, d further on. */
  predicate Moved(b: Bytes, c: Bytes, i: nat, j: nat, d: int) {
    && i <= j <= |b| && 0 <= i + d && j + d <= |c|
    && forall p :: i <= p < j ==> b[p] == c[p + d]
  }

  lemma MovedSlice(b: Bytes, c: Bytes, i: nat, j: nat, d: int)
    requires Moved(b, c, i, j, d)
    ensures b[i..j] == c[i + d..j + d]
  {
    forall p | 0 <= p < j - i
      ensures b[i..j][p] == c[i + d..j + d][p]
    {
      assert b[i + p] == c[i + p + d];
    }
  }

  lemma Assoc<T>(a: seq<T>, b: seq<T>, c: seq<T>)
    ensures (a + b) + c == a + (b + c)
  {
  }

  lemma SliceOfAppend<T>(a: seq<T>, b: seq<T>, i: nat, j: nat)
    requires i <= j <= |a|
    ensures (a + b)[i..j] == a[i..j]
  {
  }

  lemma SplitSlice<T>(a: seq<T>, i: nat, j: nat, k: nat)
    requires i <= j <= k <= |a|
    ensures a[i..j] + a[j..k] == a[i..k]
  {
  }
}
