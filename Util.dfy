/** Small shared helpers: an optional value and a first-match search over a
    sequence, the loop shape `for (i = 0; i < s.length; i++) if (p(s[i])) return i; return -1`
    the game uses for collision lookup and for spawn-point sampling. */
module Util {

  datatype Option<T> = None | Some(value: T)

  /** Index of the first element of `s[from..]` satisfying `p`, or -1. */
  function FirstIndex<T>(s: seq<T>, p: T -> bool, from: nat): (k: int)
    requires from <= |s|
    decreases |s| - from
    ensures k == -1 <==> forall j :: from <= j < |s| ==> !p(s[j])
    ensures k != -1 ==> from <= k < |s| && p(s[k])
    ensures k != -1 ==> forall j :: from <= j < k ==> !p(s[j])
  {
    if from == |s| then -1
    else if p(s[from]) then from
    else FirstIndex(s, p, from + 1)
  }
}
