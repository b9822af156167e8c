/** The random generator: some rearrangement, about which callers know nothing more. */
module Randomness {

  /** np.random.shuffle / np.random.permutation: arbitrarily many swaps of arbitrary positions. */
  method Shuffle<T>(s: seq<T>) returns (r: seq<T>)
    ensures multiset(r) == multiset(s) && |r| == |s|
  {
    r := s;
    var swaps: int := *;
    while swaps > 0
      invariant multiset(r) == multiset(s) && |r| == |s|
    {
      var i: int := *;
      var j: int := *;
      if 0 <= i < |r| && 0 <= j < |r| {
        SwapKeepsElements(r, i, j);
        r := r[i := r[j]][j := r[i]];
      }
      swaps := swaps - 1;
    }
  }

  lemma SwapKeepsElements<T>(s: seq<T>, i: nat, j: nat)
    requires i < |s| && j < |s|
    ensures multiset(s[i := s[j]][j := s[i]]) == multiset(s)
  {
  }
}
