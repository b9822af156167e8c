/** Slicing a model for a component list and applying the slice to another model. */
module SparseApply {
  import opened Seqs
  import opened Tensors
  import opened Components
  import V2 = AdaSparseV2
  import opened AdaSparseV3

  // ---- one tensor ----

  /** Position `p` after the write loop: overwritten when it is the position of a downloaded
      component whose sparse slice exists. */
  function AppliedAt(model: Value, sparse: Value, download: seq<int>, survivors: seq<int>, p: nat): Vec
    requires model.Tensor? && sparse.Tensor? && p < |model.slices|
  {
    if p < |survivors| && LastIndex(survivors, survivors[p]) == p
       && 0 <= LastIndex(download, survivors[p]) < |sparse.slices|
    then sparse.slices[LastIndex(download, survivors[p])] else model.slices[p]
  }

  function ApplyTensor(model: Value, sparse: Value, download: seq<int>, survivors: seq<int>): (r: Value)
    requires model.Tensor? && sparse.Tensor?
    ensures r.Tensor? && |r.slices| == |model.slices| && r.width == model.width
    ensures forall p :: 0 <= p < |r.slices| ==> r.slices[p] == AppliedAt(model, sparse, download, survivors, p)
  {
    Tensor(seq(|model.slices|, p requires 0 <= p < |model.slices| => AppliedAt(model, sparse, download, survivors, p)),
           model.width)
  }

  /** Position `p` after the first `n` downloaded components. */
  function RowAfter(model: Value, sparse: Value, download: seq<int>, survivors: seq<int>, n: nat, p: nat): Vec
    requires model.Tensor? && sparse.Tensor? && p < |model.slices| && n <= |download|
  {
    if p < |survivors| && survivors[p] in download[..n] then AppliedAt(model, sparse, download, survivors, p)
    else model.slices[p]
  }

  /** One more component: it is written at its position, if there is one and it has a slice. */
  lemma NextRow(model: Value, sparse: Value, download: seq<int>, survivors: seq<int>, n: nat, p: nat)
    requires model.Tensor? && sparse.Tensor? && p < |model.slices| && n < |download|
    ensures var at, sparsePos := LastIndex(survivors, download[n]), LastIndex(download, download[n]);
            RowAfter(model, sparse, download, survivors, n + 1, p)
            == if p == at && sparsePos < |sparse.slices| then sparse.slices[sparsePos]
               else RowAfter(model, sparse, download, survivors, n, p)
  {
    assert download[..n + 1] == download[..n] + [download[n]];
  }

  /** The write loop: clone, then overwrite one slice per downloaded component. */
  method WriteDownloaded(model: Value, sparse: Value, download: seq<int>, survivors: seq<int>)
    returns (rows: array<Vec>)
    requires model.Tensor? && sparse.Tensor?
    ensures fresh(rows) && rows[..] == ApplyTensor(model, sparse, download, survivors).slices
  {
    rows := new Vec[|model.slices|](p requires 0 <= p < |model.slices| => model.slices[p]);
    for n := 0 to |download|
      invariant forall p :: 0 <= p < rows.Length ==> rows[p] == RowAfter(model, sparse, download, survivors, n, p)
    {
      var g := download[n];
      var modelPos, sparsePos := LastIndex(survivors, g), LastIndex(download, g);
      forall p | 0 <= p < rows.Length
        ensures RowAfter(model, sparse, download, survivors, n + 1, p)
                == if p == modelPos && sparsePos < |sparse.slices| then sparse.slices[sparsePos] else rows[p]
      {
        NextRow(model, sparse, download, survivors, n, p);
      }
      if 0 <= modelPos && 0 <= sparsePos && modelPos < rows.Length && sparsePos < |sparse.slices| {
        rows[modelPos] := sparse.slices[sparsePos];
      }
    }
    assert download[..|download|] == download;
  }

  /** Applying to one model the slice of another moves exactly the listed components. */
  lemma SliceThenApply(source: Value, sourceSurvivors: seq<int>, model: Value, survivors: seq<int>,
                       selected: seq<int>, p: nat)
    requires source.Tensor? && |source.slices| >= |sourceSurvivors|
    requires model.Tensor? && p < |model.slices| && Distinct(survivors)
    requires forall i :: 0 <= i < |selected| ==> selected[i] in sourceSurvivors
    ensures var sparse := Tensor(Select(source.slices, LocalPositions(sourceSurvivors, selected)), source.width);
            ApplyTensor(model, sparse, selected, survivors).slices[p]
            == if p < |survivors| && survivors[p] in selected
               then source.slices[LastIndex(sourceSurvivors, survivors[p])] else model.slices[p]
  {
    LocalPositionsOfSurvivors(sourceSurvivors, selected);
  }

  // ---- v2: apply_sparse_update_to_model ----

  function ApplyFlat(model: Dict, sparse: Dict, download: seq<int>, survivors: seq<int>): (r: Dict)
    ensures r.Keys == model.Keys
  {
    map k | k in model ::
      if Has(model, k) && Has(sparse, k) then ApplyTensor(model[k], sparse[k], download, survivors) else model[k]
  }

  /** v2 round trip: exactly the selected components the client also has take the source's slices. */
  lemma FlatRoundTrip(source: Dict, sourceSurvivors: seq<int>, model: Dict, survivors: seq<int>,
                      selected: seq<int>, k: Key, p: nat)
    requires ReachesRank(source, |sourceSurvivors|) && Distinct(survivors)
    requires forall i :: 0 <= i < |selected| ==> selected[i] in sourceSurvivors
    requires Has(model, k) && Has(source, k) && p < |model[k].slices|
    ensures var result := ApplyFlat(model, V2.SliceByIndices(source, sourceSurvivors, selected), selected, survivors);
            && Has(result, k) && |result[k].slices| == |model[k].slices|
            && result[k].slices[p] == if p < |survivors| && survivors[p] in selected
                                      then source[k].slices[LastIndex(sourceSurvivors, survivors[p])]
                                      else model[k].slices[p]
  {
    LocalPositionsOfSurvivors(sourceSurvivors, selected);
    SliceThenApply(source[k], sourceSurvivors, model[k], survivors, selected, p);
  }

  /** Everything that is not a LoRA tensor of both dicts stays as it is, and so does every tensor if nothing
      the client has is listed; no key comes or goes. */
  lemma FlatTouchesOnlyListed(source: Dict, sourceSurvivors: seq<int>, model: Dict, survivors: seq<int>,
                              selected: seq<int>, k: Key)
    requires k in model
    ensures var result := ApplyFlat(model, V2.SliceByIndices(source, sourceSurvivors, selected), selected, survivors);
            && result.Keys == model.Keys
            && (!Has(model, k) || !Has(source, k) ==> result[k] == model[k])
            && ((forall i :: 0 <= i < |selected| ==> selected[i] !in survivors) ==> result[k] == model[k])
  {
    var sparse := V2.SliceByIndices(source, sourceSurvivors, selected);
    if Has(model, k) && Has(sparse, k) && forall i :: 0 <= i < |selected| ==> selected[i] !in survivors {
      forall p | 0 <= p < |model[k].slices|
        ensures AppliedAt(model[k], sparse[k], selected, survivors, p) == model[k].slices[p]
      {
        assert p < |survivors| ==> survivors[p] in survivors && survivors[p] !in selected;
      }
      assert ApplyTensor(model[k], sparse[k], selected, survivors).slices == model[k].slices;
    }
  }

  // ---- v3: apply_sparse_update_to_model_grouped ----

  /** The source tests only for the A tensors; a listed layer then without a B tensor is a KeyError. */
  predicate Raises(model: Dict, sparse: Dict, download: seq<Cid>, byLayer: Grouped) {
    exists layer :: layer in byLayer && SortedIndices(download, layer) != [] && LacksB(model, sparse, layer)
  }

  predicate LacksB(model: Dict, sparse: Dict, layer: string) {
    Has(model, LoraA(layer)) && Has(sparse, LoraA(layer)) && !(HasLayer(model, layer) && HasLayer(sparse, layer))
  }

  /** None is the KeyError. */
  function ApplyGrouped(model: Dict, sparse: Dict, download: seq<Cid>, byLayer: Grouped): (r: Option<Dict>)
    ensures r.Some? ==> r.value.Keys == model.Keys
  {
    if Raises(model, sparse, download, byLayer) then None
    else
      Some(map k | k in model :: AppliedValue(model, sparse, download, byLayer, k))
  }

  function AppliedValue(model: Dict, sparse: Dict, download: seq<Cid>, byLayer: Grouped, k: Key): Value
    requires k in model
  {
    if Routed(model, byLayer, k) && HasLayer(sparse, k.layer) && SortedIndices(download, k.layer) != []
    then ApplyTensor(model[k], sparse[k], SortedIndices(download, k.layer), byLayer[k.layer]) else model[k]
  }

  /** The components are among the source's, in layers with both tensors. */
  ghost predicate Listed(source: Dict, sourceByLayer: Grouped, ids: seq<Cid>) {
    forall i :: 0 <= i < |ids| ==> Survives(sourceByLayer, ids[i]) && HasLayer(source, ids[i].0)
  }

  /** What the slice holds of a layer: both tensors if the layer is listed, else neither. */
  lemma SlicedLayers(source: Dict, sourceByLayer: Grouped, ids: seq<Cid>, layer: string)
    requires ReachesLayers(source, sourceByLayer) && Listed(source, sourceByLayer, ids)
    ensures var sparse := SliceByComponents(source, sourceByLayer, ids);
            && (SortedIndices(ids, layer) != [] ==> HasLayer(sparse, layer))
            && (Has(sparse, LoraA(layer)) ==> HasLayer(sparse, layer))
  {
    var selected := SortedIndices(ids, layer);
    SelectedInSource(ids, layer, source, sourceByLayer);
    if selected != [] {
      LocalPositionsOfSurvivors(sourceByLayer[layer], selected);
      var sparse := SliceByComponents(source, sourceByLayer, ids);
      assert LoraA(layer) in sparse && LoraB(layer) in sparse;
    }
  }

  /** Whatever the update holds, applying it raises exactly if a listed component's layer has A tensors here and
      in the update, and lacks a B tensor in one of them. */
  lemma RaisesForListedOnly(model: Dict, sparse: Dict, ids: seq<Cid>, byLayer: Grouped)
    ensures ApplyGrouped(model, sparse, ids, byLayer) == None
            <==> exists i :: 0 <= i < |ids| && ids[i].0 in byLayer
                             && Has(model, LoraA(ids[i].0)) && Has(sparse, LoraA(ids[i].0))
                             && !(Has(model, LoraB(ids[i].0)) && Has(sparse, LoraB(ids[i].0)))
  {
    if layer :| layer in byLayer && SortedIndices(ids, layer) != [] && LacksB(model, sparse, layer) {
      var i := SomeOfLayer(ids, layer);
      assert ids[i].0 == layer;
    }
    forall i | 0 <= i < |ids|
      ensures SortedIndices(ids, ids[i].0) != []
    {
      LayerOfSome(ids, i);
    }
  }

  /** Applying a slice raises exactly if a listed component's layer has its A tensor in the model and not
      its B tensor. */
  lemma GroupedRaisesIff(source: Dict, sourceByLayer: Grouped, model: Dict, byLayer: Grouped, ids: seq<Cid>)
    requires ReachesLayers(source, sourceByLayer) && Listed(source, sourceByLayer, ids)
    ensures ApplyGrouped(model, SliceByComponents(source, sourceByLayer, ids), ids, byLayer) == None
            <==> exists i :: 0 <= i < |ids| && ids[i].0 in byLayer
                             && Has(model, LoraA(ids[i].0)) && !Has(model, LoraB(ids[i].0))
  {
    var sparse := SliceByComponents(source, sourceByLayer, ids);
    if Raises(model, sparse, ids, byLayer) {
      var layer :| layer in byLayer && SortedIndices(ids, layer) != [] && LacksB(model, sparse, layer);
      SlicedLayers(source, sourceByLayer, ids, layer);
      var i := SomeOfLayer(ids, layer);
      assert ids[i].0 == layer;
    }
    if i :| 0 <= i < |ids| && ids[i].0 in byLayer && Has(model, LoraA(ids[i].0)) && !Has(model, LoraB(ids[i].0)) {
      LayerOfSome(ids, i);
      SlicedLayers(source, sourceByLayer, ids, ids[i].0);
      assert LacksB(model, sparse, ids[i].0);
    }
  }

  /** At a concrete input: the source has both tensors, the client only A, and the listed component makes
      applying the slice raise. */
  lemma HalfLayerRaises(layer: string)
    ensures var tensor, byLayer, ids := Tensor([[1.0]], 1), map[layer := [0]], [(layer, 0)];
            var source, model := map[LoraA(layer) := tensor, LoraB(layer) := tensor], map[LoraA(layer) := tensor];
            && ReachesLayers(source, byLayer)
            && ApplyGrouped(model, SliceByComponents(source, byLayer, ids), ids, byLayer) == None
  {
    var tensor, byLayer, ids := Tensor([[1.0]], 1), map[layer := [0]], [(layer, 0)];
    var source, model := map[LoraA(layer) := tensor, LoraB(layer) := tensor], map[LoraA(layer) := tensor];
    assert Listed(source, byLayer, ids);
    GroupedRaisesIff(source, byLayer, model, byLayer, ids);
    assert ids[0].0 in byLayer && Has(model, LoraA(ids[0].0)) && !Has(model, LoraB(ids[0].0));
  }

  lemma SomeOfLayer(ids: seq<Cid>, layer: string) returns (i: nat)
    requires SortedIndices(ids, layer) != []
    ensures i < |ids| && ids[i].0 == layer
  {
    SortedMembers(ids, layer);
    var g := SortedIndices(ids, layer)[0];
    assert (layer, g) in ids;
    i :| i < |ids| && ids[i] == (layer, g);
  }

  lemma LayerOfSome(ids: seq<Cid>, i: nat)
    requires i < |ids|
    ensures SortedIndices(ids, ids[i].0) != []
  {
    var (layer, g) := ids[i];
    SortedMembers(ids, layer);
    assert (layer, g) in ids;
    assert g in SortedIndices(ids, layer);
  }

  /** v3 round trip: position `p` of tensor `k` takes the source's slice of its own component when
      that component is listed, and keeps its value otherwise; survivor lists may differ. */
  lemma GroupedRoundTrip(source: Dict, sourceByLayer: Grouped, model: Dict, byLayer: Grouped,
                         ids: seq<Cid>, k: Key, p: nat)
    requires ReachesLayers(source, sourceByLayer) && Listed(source, sourceByLayer, ids)
    requires Routed(model, byLayer, k) && Distinct(byLayer[k.layer]) && p < |model[k].slices|
    ensures var result := ApplyGrouped(model, SliceByComponents(source, sourceByLayer, ids), ids, byLayer);
            var survivors := byLayer[k.layer];
            result.Some? ==>
              && Has(result.value, k) && |result.value[k].slices| == |model[k].slices|
              && (p < |survivors| && (k.layer, survivors[p]) in ids ==>
                    Routed(source, sourceByLayer, k) && Survives(sourceByLayer, (k.layer, survivors[p])))
              && result.value[k].slices[p] == if p < |survivors| && (k.layer, survivors[p]) in ids
                                              then source[k].slices[LastIndex(sourceByLayer[k.layer], survivors[p])]
                                              else model[k].slices[p]
  {
    SortedMembers(ids, k.layer);
    SelectedInSource(ids, k.layer, source, sourceByLayer);
    if SortedIndices(ids, k.layer) == [] {
      assert AppliedValue(model, SliceByComponents(source, sourceByLayer, ids), ids, byLayer, k) == model[k];
    } else {
      ListedValue(source, sourceByLayer, model, byLayer, ids, k, p);
    }
    if p < |byLayer[k.layer]| {
      var g := byLayer[k.layer][p];
      assert g in SortedIndices(ids, k.layer) <==> (k.layer, g) in ids;
    }
  }

  /** A tensor of a listed layer. */
  lemma ListedValue(source: Dict, sourceByLayer: Grouped, model: Dict, byLayer: Grouped, ids: seq<Cid>, k: Key, p: nat)
    requires ReachesLayers(source, sourceByLayer) && Listed(source, sourceByLayer, ids)
    requires Routed(model, byLayer, k) && Distinct(byLayer[k.layer]) && p < |model[k].slices|
    requires SortedIndices(ids, k.layer) != []
    ensures k.layer in sourceByLayer && HasLayer(source, k.layer)
    ensures forall g :: g in SortedIndices(ids, k.layer) ==> g in sourceByLayer[k.layer]
    ensures var r := AppliedValue(model, SliceByComponents(source, sourceByLayer, ids), ids, byLayer, k);
            var survivors, selected := byLayer[k.layer], SortedIndices(ids, k.layer);
            && r.Tensor? && |r.slices| == |model[k].slices|
            && r.slices[p] == if p < |survivors| && survivors[p] in selected
                              then source[k].slices[LastIndex(sourceByLayer[k.layer], survivors[p])]
                              else model[k].slices[p]
  {
    var selected := SortedIndices(ids, k.layer);
    SelectedInSource(ids, k.layer, source, sourceByLayer);
    SlicedLayers(source, sourceByLayer, ids, k.layer);
    SliceThenApply(source[k], sourceByLayer[k.layer], model[k], byLayer[k.layer], selected, p);
  }

  lemma SelectedInSource(ids: seq<Cid>, layer: string, source: Dict, sourceByLayer: Grouped)
    requires Listed(source, sourceByLayer, ids)
    ensures SortedIndices(ids, layer) != [] ==> layer in sourceByLayer && HasLayer(source, layer)
    ensures layer in sourceByLayer ==>
              forall i :: 0 <= i < |SortedIndices(ids, layer)| ==> SortedIndices(ids, layer)[i] in sourceByLayer[layer]
  {
    SortedMembers(ids, layer);
    var selected := SortedIndices(ids, layer);
    if selected != [] {
      var g := selected[0];
      assert (layer, g) in ids;
      var n :| 0 <= n < |ids| && ids[n] == (layer, g);
      assert Survives(sourceByLayer, ids[n]);
    }
    forall i | layer in sourceByLayer && 0 <= i < |selected|
      ensures selected[i] in sourceByLayer[layer]
    {
      var g := selected[i];
      assert (layer, g) in ids;
      var n :| 0 <= n < |ids| && ids[n] == (layer, g);
      assert Survives(sourceByLayer, ids[n]);
    }
  }

  /** Unless a layer raises, everything that is not a tensor of a listed layer is left alone. */
  lemma GroupedTouchesOnlyListed(source: Dict, sourceByLayer: Grouped, model: Dict, byLayer: Grouped,
                                 ids: seq<Cid>, k: Key)
    requires ReachesLayers(source, sourceByLayer) && k in model
    requires !Routed(model, byLayer, k) || IndicesIn(ids, k.layer) == []
    ensures var result := ApplyGrouped(model, SliceByComponents(source, sourceByLayer, ids), ids, byLayer);
            result.Some? ==> result.value[k] == model[k]
  {
    if !k.Other? && IndicesIn(ids, k.layer) == [] {
      assert SortedIndices(ids, k.layer) == [];
    }
  }

  lemma SameSlices(source: Dict, sourceByLayer: Grouped, ids: seq<Cid>, ids': seq<Cid>)
    requires ReachesLayers(source, sourceByLayer)
    requires forall layer :: SortedIndices(ids, layer) == SortedIndices(ids', layer)
    ensures SliceByComponents(source, sourceByLayer, ids) == SliceByComponents(source, sourceByLayer, ids')
  {
    var x, y := SliceByComponents(source, sourceByLayer, ids), SliceByComponents(source, sourceByLayer, ids');
    forall k
      ensures k in x <==> k in y
      ensures k in x ==> x[k] == y[k]
    {
      if !k.Other? {
        assert SortedIndices(ids, k.layer) == SortedIndices(ids', k.layer);
      }
    }
  }

  lemma SameApplied(model: Dict, sparse: Dict, byLayer: Grouped, ids: seq<Cid>, ids': seq<Cid>)
    requires forall layer :: SortedIndices(ids, layer) == SortedIndices(ids', layer)
    ensures ApplyGrouped(model, sparse, ids, byLayer) == ApplyGrouped(model, sparse, ids', byLayer)
  {
    assert Raises(model, sparse, ids, byLayer) <==> Raises(model, sparse, ids', byLayer) by {
      forall layer
        ensures SortedIndices(ids, layer) == SortedIndices(ids', layer)
      {
      }
    }
    if !Raises(model, sparse, ids, byLayer) {
      var x, y := ApplyGrouped(model, sparse, ids, byLayer).value, ApplyGrouped(model, sparse, ids', byLayer).value;
      forall k | k in model
        ensures x[k] == y[k]
      {
        if !k.Other? {
          assert SortedIndices(ids, k.layer) == SortedIndices(ids', k.layer);
        }
      }
      assert x == y;
    }
  }

  /** The ordering of the component list does not matter. */
  lemma GroupedOrderIrrelevant(source: Dict, sourceByLayer: Grouped, model: Dict, byLayer: Grouped,
                               ids: seq<Cid>, ids': seq<Cid>)
    requires ReachesLayers(source, sourceByLayer) && Distinct(ids) && Distinct(ids')
    requires forall i :: 0 <= i < |ids| ==> ids[i] in ids'
    requires forall i :: 0 <= i < |ids'| ==> ids'[i] in ids
    ensures ApplyGrouped(model, SliceByComponents(source, sourceByLayer, ids), ids, byLayer)
            == ApplyGrouped(model, SliceByComponents(source, sourceByLayer, ids'), ids', byLayer)
  {
    assert forall layer :: SortedIndices(ids, layer) == SortedIndices(ids', layer) by {
      forall layer
        ensures SortedIndices(ids, layer) == SortedIndices(ids', layer)
      {
        SortedIndicesOfSameSet(ids, ids', layer);
      }
    }
    SameSlices(source, sourceByLayer, ids, ids');
    SameApplied(model, SliceByComponents(source, sourceByLayer, ids), byLayer, ids, ids');
  }
}
