/** LoRA tensors and state dicts.

    A `lora_A` tensor has shape (rank, in_features) and a `lora_B` tensor (out_features, rank).
    Both are kept as their component slices: one row of A, or one column of B, per local
    position. `width` is the other dimension, so that a tensor without slices still has it. */
module Tensors {
  import opened Seqs

  type Vec = seq<real>

  function At(v: Vec, i: nat): real {
    if i < |v| then v[i] else 0.0
  }

  /** Elementwise `u += v`; shapes agree wherever the runs below add a residual. */
  function Plus(u: Vec, v: Vec): (w: Vec)
    ensures |w| == |u|
    ensures forall i: nat :: i < |u| ==> w[i] == u[i] + At(v, i)
  {
    seq(|u|, i requires 0 <= i < |u| => u[i] + At(v, i))
  }

  function Zeros(n: nat): (z: Vec)
    ensures |z| == n && forall i: nat :: At(z, i) == 0.0
  {
    seq(n, _ => 0.0)
  }

  /** A state-dict key, by the substring tests of the source: 'lora_A' without 'lora_B',
      'lora_B', or neither. The layer is the canonical layer key. */
  datatype Key = LoraA(layer: string) | LoraB(layer: string) | Other(name: string)

  datatype Value = Tensor(slices: seq<Vec>, width: nat) | NonTensor(tag: int)

  type Dict = map<Key, Value>

  /** `k` names a LoRA tensor of the dict. */
  predicate Has(d: Dict, k: Key) {
    k in d && d[k].Tensor? && !k.Other?
  }

  /** Every LoRA tensor of the dict has one slice per local position. */
  ghost predicate FitsRank(d: Dict, rank: nat) {
    forall k :: Has(d, k) ==> |d[k].slices| == rank
  }

  /** Every LoRA tensor of the dict has at least one slice per local position. Clients keep their
      tensors at the model's rank while their survivor list shrinks. */
  ghost predicate ReachesRank(d: Dict, rank: nat) {
    forall k :: Has(d, k) ==> |d[k].slices| >= rank
  }

  /** torch.index_select over component slices. */
  function Select(slices: seq<Vec>, positions: seq<nat>): (r: seq<Vec>)
    requires forall i :: 0 <= i < |positions| ==> positions[i] < |slices|
    ensures |r| == |positions|
    ensures forall i :: 0 <= i < |positions| ==> r[i] == slices[positions[i]]
  {
    seq(|positions|, i requires 0 <= i < |positions| => slices[positions[i]])
  }

  /** `[local[g] for g in selected if g in local]`, where local maps a global index to its
      (last) position among the survivors. */
  function LocalPositions(survivors: seq<int>, selected: seq<int>): (r: seq<nat>)
    ensures |r| <= |selected|
    ensures forall i :: 0 <= i < |r| ==> r[i] < |survivors|
  {
    if selected == [] then []
    else
      (if selected[0] in survivors then [LastIndex(survivors, selected[0])] else [])
      + LocalPositions(survivors, selected[1..])
  }

  /** The positions are those of the selected survivors. */
  lemma {:induction false} LocalPositionsMembers(survivors: seq<int>, selected: seq<int>, p: nat)
    ensures p in LocalPositions(survivors, selected) <==>
              exists i :: 0 <= i < |selected| && selected[i] in survivors && LastIndex(survivors, selected[i]) == p
  {
    if selected != [] {
      LocalPositionsMembers(survivors, selected[1..], p);
      if i :| 0 <= i < |selected| && selected[i] in survivors && LastIndex(survivors, selected[i]) == p {
        assert i > 0 ==> selected[1..][i - 1] == selected[i];
      }
    }
  }

  lemma {:induction false} SomeLocalPosition(survivors: seq<int>, selected: seq<int>)
    ensures LocalPositions(survivors, selected) != [] <==>
              exists i :: 0 <= i < |selected| && selected[i] in survivors
  {
    if selected != [] {
      SomeLocalPosition(survivors, selected[1..]);
      if i :| 0 <= i < |selected| && selected[i] in survivors {
        assert i > 0 ==> selected[1..][i - 1] == selected[i];
      }
    }
  }

  lemma {:induction false} LocalPositionsOfSurvivors(survivors: seq<int>, selected: seq<int>)
    requires forall i :: 0 <= i < |selected| ==> selected[i] in survivors
    ensures |LocalPositions(survivors, selected)| == |selected|
    ensures forall i :: 0 <= i < |selected| ==>
                          LocalPositions(survivors, selected)[i] == LastIndex(survivors, selected[i])
  {
    if selected != [] {
      LocalPositionsOfSurvivors(survivors, selected[1..]);
    }
  }

  /** What position `g` of a max-rank tensor holds after the first `n` writes of the expansion
      loop: the slice written last, or zeros. */
  function ExpandedAt(t: Value, indices: seq<int>, n: nat, g: int): Vec
    requires t.Tensor? && n <= |indices| && n <= |t.slices|
  {
    var p := LastIndex(indices[..n], g);
    if p >= 0 then t.slices[p] else Zeros(t.width)
  }

  function Writes(t: Value, indices: seq<int>): (n: nat)
    requires t.Tensor?
    ensures n <= |indices| && n <= |t.slices|
  {
    if |indices| < |t.slices| then |indices| else |t.slices|
  }

  function Expand(t: Value, indices: seq<int>, maxRank: nat): (r: Value)
    requires t.Tensor?
    ensures r.Tensor? && r.width == t.width && |r.slices| == maxRank
    ensures forall g :: 0 <= g < maxRank ==> r.slices[g] == ExpandedAt(t, indices, Writes(t, indices), g)
  {
    Tensor(seq(maxRank, g requires 0 <= g < maxRank => ExpandedAt(t, indices, Writes(t, indices), g)), t.width)
  }

  /** expand_client_update_to_global, one tensor: a zero tensor of max_rank slices whose rows
      (columns) are overwritten in place. */
  method ExpandTensor(t: Value, indices: seq<int>, maxRank: nat) returns (expanded: array<Vec>)
    requires t.Tensor?
    requires forall i :: 0 <= i < |indices| ==> 0 <= indices[i] < maxRank
    ensures fresh(expanded) && expanded[..] == Expand(t, indices, maxRank).slices
  {
    expanded := new Vec[maxRank](_ => Zeros(t.width));
    ghost var written := 0;
    for localPos := 0 to |indices|
      invariant written == if localPos < |t.slices| then localPos else |t.slices|
      invariant forall g :: 0 <= g < maxRank ==> expanded[g] == ExpandedAt(t, indices, written, g)
    {
      if localPos < |t.slices| {
        expanded[indices[localPos]] := t.slices[localPos];
        assert indices[..localPos + 1][..localPos] == indices[..localPos];
        written := localPos + 1;
      }
    }
  }

  /** expand_client_update_to_global over a whole dict. */
  function ExpandDict(d: Dict, indices: seq<int>, maxRank: nat): (r: Dict)
    ensures r.Keys == d.Keys
    ensures forall k :: k in d ==> r[k] == if Has(d, k) then Expand(d[k], indices, maxRank) else d[k]
  {
    map k | k in d :: if Has(d, k) then Expand(d[k], indices, maxRank) else d[k]
  }

  method ExpandClientUpdateToGlobal(clientState: Dict, clientIndices: seq<int>, maxRank: nat)
    returns (result: Dict)
    requires forall i :: 0 <= i < |clientIndices| ==> 0 <= clientIndices[i] < maxRank
    ensures result == ExpandDict(clientState, clientIndices, maxRank)
  {
    result := map[];
    var todo := clientState.Keys;
    while todo != {}
      invariant todo <= clientState.Keys && result.Keys == clientState.Keys - todo
      invariant forall k :: k in result ==> result[k] == ExpandDict(clientState, clientIndices, maxRank)[k]
    {
      var key :| key in todo;
      if Has(clientState, key) {
        var expanded := ExpandTensor(clientState[key], clientIndices, maxRank);
        result := result[key := Tensor(expanded[..], clientState[key].width)];
      } else {
        result := result[key := clientState[key]];
      }
      todo := todo - {key};
    }
  }

  /** Slicing a tensor at the positions of `selected` and placing the result at `selected` puts
      each selected component's own slice at its global index, and zeros elsewhere. */
  lemma SliceThenExpand(t: Value, survivors: seq<int>, selected: seq<int>, maxRank: nat, g: int)
    requires t.Tensor? && |survivors| <= |t.slices| && 0 <= g < maxRank
    requires forall i :: 0 <= i < |selected| ==> selected[i] in survivors
    ensures var sent := Tensor(Select(t.slices, LocalPositions(survivors, selected)), t.width);
            Expand(sent, selected, maxRank).slices[g]
            == if g in selected then t.slices[LastIndex(survivors, g)] else Zeros(t.width)
  {
    LocalPositionsOfSurvivors(survivors, selected);
    var sent := Tensor(Select(t.slices, LocalPositions(survivors, selected)), t.width);
    assert selected[..Writes(sent, selected)] == selected;
  }

  /** Expansion in terms of the writes: of several slices for one index the last stays, and an index that
      gets none is zero. */
  lemma ExpandLastWriter(t: Value, indices: seq<int>, maxRank: nat, n: nat, g: int)
    requires t.Tensor? && n < |indices| && n < |t.slices| && 0 <= indices[n] < maxRank && 0 <= g < maxRank
    requires forall m :: n < m < |indices| && m < |t.slices| ==> indices[m] != indices[n]
    ensures Expand(t, indices, maxRank).slices[indices[n]] == t.slices[n]
    ensures (forall m :: 0 <= m < |indices| && m < |t.slices| ==> indices[m] != g) ==>
              Expand(t, indices, maxRank).slices[g] == Zeros(t.width)
  {
    var written := indices[..Writes(t, indices)];
    LastOccurrence(written, n);
  }

  /** A selection may name components the tensor does not have: they are skipped. */
  lemma {:induction false} LocalPositionsSkip(survivors: seq<int>, selected: seq<int>)
    ensures LocalPositions(survivors, selected) == LocalPositions(survivors, Filter(selected, Inside(survivors)))
  {
    if selected != [] {
      LocalPositionsSkip(survivors, selected[1..]);
      var kept, rest := Filter(selected, Inside(survivors)), Filter(selected[1..], Inside(survivors));
      if selected[0] in survivors {
        assert kept == [selected[0]] + rest && kept[1..] == rest;
      } else {
        assert kept == rest;
      }
    }
  }
}
