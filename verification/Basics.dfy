/** Small vocabulary shared by every module of the model. */
module Basics {

  datatype Option<+T> = None | Some(value: T)

  datatype Result<+T, +E> = Ok(value: T) | Err(error: E)

  newtype byte = x: int | 0 <= x < 256

  /** The last n elements of s, or all of s when it is shorter. */
  function LastN<T>(s: seq<T>, n: nat): (r: seq<T>)
    ensures |r| <= n && |r| <= |s|
  {
    if |s| <= n then s else s[|s| - n..]
  }

  function Reverse<T>(s: seq<T>): (r: seq<T>)
    ensures |r| == |s|
    ensures forall i :: 0 <= i < |s| ==> r[i] == s[|s| - 1 - i]
  {
    seq(|s|, i requires 0 <= i < |s| => s[|s| - 1 - i])
  }

  ghost predicate Distinct<T>(s: seq<T>) {
    forall i, j :: 0 <= i < j < |s| ==> s[i] != s[j]
  }

  lemma AddBoth<T>(a: multiset<T>, x: multiset<T>, b: multiset<T>, y: multiset<T>, c: multiset<T>)
    requires a + x == b + y
    ensures (a + c) + x == (b + c) + y
  {
    assert (a + c) + x == (a + x) + c && (b + c) + y == (b + y) + c;
  }

  function MinInt(a: int, b: int): int {
    if a < b then a else b
  }

  function MaxInt(a: int, b: int): int {
    if a < b then b else a
  }
}
