/** Searches over sequences shared by the page alignment and the template store. */
module Sequences {

  /** The index of the last element whose key is `k`, or -1 when there is none. */
  function LastMatch<T, K(==)>(s: seq<T>, key: T -> K, k: K): (i: int)
    ensures -1 <= i < |s|
    ensures i >= 0 ==> key(s[i]) == k
    ensures forall j :: i < j < |s| ==> key(s[j]) != k
    decreases |s|
  {
    if |s| == 0 then -1
    else if key(s[|s| - 1]) == k then |s| - 1
    else LastMatch(s[..|s| - 1], key, k)
  }
}
