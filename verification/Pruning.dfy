/** Structural pruning: dropping local positions, and what it does to the global picture. */
module Pruning {
  import opened Seqs
  import opened Tensors

  function IndexAt(oldIndices: seq<int>, p: nat): int {
    if p < |oldIndices| then oldIndices[p] else 0
  }

  /** Order of local positions by their global index. */
  function ByIndex(oldIndices: seq<int>): (nat, nat) -> bool {
    (p: nat, q: nat) => IndexAt(oldIndices, p) <= IndexAt(oldIndices, q)
  }

  ghost predicate KeepOk(oldIndices: seq<int>, keep: seq<nat>) {
    && Distinct(oldIndices) && Distinct(keep)
    && forall i :: 0 <= i < |keep| ==> keep[i] < |oldIndices|
  }

  /** The kept positions, sorted by global index. */
  function ReorderMap(oldIndices: seq<int>, keep: seq<nat>): (r: seq<nat>)
    requires forall i :: 0 <= i < |keep| ==> keep[i] < |oldIndices|
    ensures |r| == |keep|
    ensures forall i :: 0 <= i < |r| ==> r[i] < |oldIndices|
  {
    var r := Sort(keep, ByIndex(oldIndices));
    SortElements(keep, ByIndex(oldIndices));
    assert forall i :: 0 <= i < |r| ==> r[i] in r;
    r
  }

  function NewIndices(oldIndices: seq<int>, keep: seq<nat>): (r: seq<int>)
    requires forall i :: 0 <= i < |keep| ==> keep[i] < |oldIndices|
    ensures |r| == |keep|
    ensures forall i :: 0 <= i < |r| ==> r[i] == oldIndices[ReorderMap(oldIndices, keep)[i]]
  {
    var order := ReorderMap(oldIndices, keep);
    seq(|keep|, i requires 0 <= i < |keep| => oldIndices[order[i]])
  }

  /** slice_update_by_keep_positions (and reorder_lora_by_keep_positions, tensor by tensor): whatever a
      tensor holds beyond its indices, the result has one slice per kept position. */
  function SliceByKeep(state: Dict, oldIndices: seq<int>, keep: seq<nat>): (r: Dict)
    requires ReachesRank(state, |oldIndices|)
    requires forall i :: 0 <= i < |keep| ==> keep[i] < |oldIndices|
    ensures r.Keys == state.Keys && FitsRank(r, |keep|)
    ensures forall k :: k in state ==>
                          r[k] == if Has(state, k)
                                  then Tensor(Select(state[k].slices, ReorderMap(oldIndices, keep)), state[k].width)
                                  else state[k]
  {
    map k | k in state ::
      if Has(state, k) then Tensor(Select(state[k].slices, ReorderMap(oldIndices, keep)), state[k].width)
      else state[k]
  }

  lemma NewMembers(oldIndices: seq<int>, keep: seq<nat>, g: int)
    requires forall i :: 0 <= i < |keep| ==> keep[i] < |oldIndices|
    ensures g in NewIndices(oldIndices, keep) <==> exists i :: 0 <= i < |keep| && oldIndices[keep[i]] == g
  {
    var order := ReorderMap(oldIndices, keep);
    SortElements(keep, ByIndex(oldIndices));
    if i :| 0 <= i < |keep| && oldIndices[keep[i]] == g {
      assert keep[i] in keep && keep[i] in order;
      var j :| 0 <= j < |order| && order[j] == keep[i];
      assert NewIndices(oldIndices, keep)[j] == g;
    }
    if g in NewIndices(oldIndices, keep) {
      var j :| 0 <= j < |order| && NewIndices(oldIndices, keep)[j] == g;
      assert order[j] in order && order[j] in keep;
    }
  }

  /** The new index list is strictly ascending. */
  lemma NewIndicesAscending(oldIndices: seq<int>, keep: seq<nat>)
    requires KeepOk(oldIndices, keep)
    ensures Ascending(NewIndices(oldIndices, keep))
  {
    var order := ReorderMap(oldIndices, keep);
    var le := ByIndex(oldIndices);
    SortSorted(keep, le);
    SortDistinct(keep, le);
    forall i, j | 0 <= i < j < |order|
      ensures oldIndices[order[i]] < oldIndices[order[j]]
    {
      assert le(order[i], order[j]) && order[i] != order[j];
    }
  }

  /** Pruning commutes with global expansion: expanding the sliced tensor at the new indices is
      expanding the old one and zeroing what was dropped. */
  lemma PruneCommutesWithExpansion(state: Dict, oldIndices: seq<int>, keep: seq<nat>, maxRank: nat, k: Key, g: int)
    requires KeepOk(oldIndices, keep) && ReachesRank(state, |oldIndices|) && Has(state, k) && 0 <= g < maxRank
    ensures var newIndices := NewIndices(oldIndices, keep);
            var pruned := ExpandDict(SliceByKeep(state, oldIndices, keep), newIndices, maxRank);
            var full := ExpandDict(state, oldIndices, maxRank);
            && Has(pruned, k) && Has(full, k)
            && pruned[k].slices[g] == if g in newIndices then full[k].slices[g] else Zeros(state[k].width)
  {
    var newIndices := NewIndices(oldIndices, keep);
    var sliced := SliceByKeep(state, oldIndices, keep);
    assert newIndices[..|newIndices|] == newIndices;
    assert oldIndices[..|oldIndices|] == oldIndices;
    if g in newIndices {
      var q := LastIndex(newIndices, g);
      LastIndexDistinct(oldIndices, ReorderMap(oldIndices, keep)[q]);
    }
  }

  /** Slicing and reindexing depend only on the set of kept positions. */
  lemma OnlyTheKeptSetMatters(state: Dict, oldIndices: seq<int>, keep: seq<nat>, keep': seq<nat>)
    requires KeepOk(oldIndices, keep) && KeepOk(oldIndices, keep') && ReachesRank(state, |oldIndices|)
    requires forall i :: 0 <= i < |keep| ==> keep[i] in keep'
    requires forall i :: 0 <= i < |keep'| ==> keep'[i] in keep
    ensures NewIndices(oldIndices, keep) == NewIndices(oldIndices, keep')
    ensures SliceByKeep(state, oldIndices, keep) == SliceByKeep(state, oldIndices, keep')
  {
    var a, b := NewIndices(oldIndices, keep), NewIndices(oldIndices, keep');
    KeptIndicesContained(oldIndices, keep, keep');
    KeptIndicesContained(oldIndices, keep', keep);
    NewIndicesAscending(oldIndices, keep);
    NewIndicesAscending(oldIndices, keep');
    AscendingUnique(a, b);
    assert ReorderMap(oldIndices, keep) == ReorderMap(oldIndices, keep') by {
      forall i | 0 <= i < |a|
        ensures ReorderMap(oldIndices, keep)[i] == ReorderMap(oldIndices, keep')[i]
      {
        assert oldIndices[ReorderMap(oldIndices, keep)[i]] == oldIndices[ReorderMap(oldIndices, keep')[i]];
      }
    }
  }

  lemma KeptIndicesContained(oldIndices: seq<int>, keep: seq<nat>, keep': seq<nat>)
    requires KeepOk(oldIndices, keep) && KeepOk(oldIndices, keep')
    requires forall i :: 0 <= i < |keep| ==> keep[i] in keep'
    ensures forall i :: 0 <= i < |keep| ==> NewIndices(oldIndices, keep)[i] in NewIndices(oldIndices, keep')
  {
    SortElements(keep, ByIndex(oldIndices));
    forall i | 0 <= i < |keep|
      ensures NewIndices(oldIndices, keep)[i] in NewIndices(oldIndices, keep')
    {
      var p := ReorderMap(oldIndices, keep)[i];
      assert p in ReorderMap(oldIndices, keep) && p in keep;
      var j :| 0 <= j < |keep| && keep[j] == p;
      assert keep[j] in keep';
      var n :| 0 <= n < |keep'| && keep'[n] == p;
      NewMembers(oldIndices, keep', oldIndices[p]);
    }
  }
}
