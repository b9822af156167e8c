/** AdaSparse-LoRAv3: components are (layer, index) pairs and every layer has its own survivors. */
module AdaSparseV3 {
  import opened Seqs
  import opened Tensors
  import opened Components
  import Ledger
  import V2 = AdaSparseV2

  type Residuals = map<Cid, map<Key, Vec>>

  function Entry(residuals: Residuals, c: Cid, k: Key): Option<Vec> {
    if c in residuals && k in residuals[c] then Some(residuals[c][k]) else None
  }

  /** get_lora_keys_for_layer finds both tensors of the layer. */
  predicate HasLayer(d: Dict, layer: string) {
    Has(d, LoraA(layer)) && Has(d, LoraB(layer))
  }

  /** `k` is a tensor of a listed layer that has both its tensors. */
  predicate Routed(d: Dict, byLayer: Grouped, k: Key) {
    !k.Other? && k.layer in byLayer && HasLayer(d, k.layer)
  }

  /** Every routed tensor has at least one slice per survivor of its layer. */
  ghost predicate ReachesLayers(d: Dict, byLayer: Grouped) {
    forall k :: Routed(d, byLayer, k) ==> |d[k].slices| >= |byLayer[k.layer]|
  }

  // ---- delta + residual ----

  function EffectiveSlice(t: Value, k: Key, residuals: Residuals, survivors: seq<int>, p: nat): (v: Vec)
    requires t.Tensor? && !k.Other? && p < |t.slices|
    ensures |v| == |t.slices[p]|
  {
    if p < |survivors| then Ledger.Effective(Entry(residuals, (k.layer, survivors[p]), k), t.slices[p])
    else t.slices[p]
  }

  function EffectiveTensor(t: Value, k: Key, residuals: Residuals, survivors: seq<int>): (r: Value)
    requires t.Tensor? && !k.Other?
    ensures r.Tensor? && |r.slices| == |t.slices| && r.width == t.width
    ensures forall p :: 0 <= p < |t.slices| ==> r.slices[p] == EffectiveSlice(t, k, residuals, survivors, p)
  {
    Tensor(seq(|t.slices|, p requires 0 <= p < |t.slices| => EffectiveSlice(t, k, residuals, survivors, p)),
           t.width)
  }

  function Effective(delta: Dict, residuals: Residuals, byLayer: Grouped): (r: Dict)
    ensures forall k :: k in r <==> Routed(delta, byLayer, k)
    ensures forall k :: k in r && !k.Other? && k in delta && delta[k].Tensor? && k.layer in byLayer ==>
                          r[k] == EffectiveTensor(delta[k], k, residuals, byLayer[k.layer])
  {
    map k | k in delta && Routed(delta, byLayer, k) ::
      EffectiveTensor(delta[k], k, residuals, byLayer[k.layer])
  }

  /** Entry by entry: the tensors of listed layers that have both are kept, a slice of one gets what is stored
      for its layer and the survivor at its position, and beyond the survivors it stays as it is. */
  lemma EffectiveEntries(delta: Dict, residuals: Residuals, byLayer: Grouped, k: Key, p: nat, i: nat)
    ensures var effective := Effective(delta, residuals, byLayer);
            && (k in effective <==>
                  !k.Other? && k.layer in byLayer && Has(delta, LoraA(k.layer)) && Has(delta, LoraB(k.layer)))
            && (k in effective ==> Has(delta, k) && Has(effective, k) && |effective[k].slices| == |delta[k].slices|)
            && (k in effective && p < |delta[k].slices| && i < |delta[k].slices[p]| ==>
                  var c := (k.layer, if p < |byLayer[k.layer]| then byLayer[k.layer][p] else 0);
                  At(effective[k].slices[p], i)
                  == At(delta[k].slices[p], i)
                     + if p < |byLayer[k.layer]| && c in residuals && k in residuals[c]
                       then At(residuals[c][k], i) else 0.0)
  {
    assert !k.Other? ==> k == LoraA(k.layer) || k == LoraB(k.layer);
    if Routed(delta, byLayer, k) && p < |byLayer[k.layer]| && p < |delta[k].slices| && i < |delta[k].slices[p]| {
      Ledger.EffectiveAmount(Entry(residuals, (k.layer, byLayer[k.layer][p]), k), delta[k].slices[p], i);
    }
  }

  method AddResiduals(t: Value, k: Key, residuals: Residuals, survivors: seq<int>)
    returns (effective: array<Vec>)
    requires t.Tensor? && !k.Other?
    ensures fresh(effective) && effective[..] == EffectiveTensor(t, k, residuals, survivors).slices
  {
    effective := new Vec[|t.slices|](p requires 0 <= p < |t.slices| => t.slices[p]);
    for localPos := 0 to |survivors|
      invariant forall p :: 0 <= p < |t.slices| ==>
                              effective[p] == if p < localPos then EffectiveSlice(t, k, residuals, survivors, p)
                                              else t.slices[p]
    {
      var componentId := (k.layer, survivors[localPos]);
      if componentId in residuals {
        if k in residuals[componentId] && localPos < effective.Length {
          effective[localPos] := Plus(effective[localPos], residuals[componentId][k]);
        }
      }
    }
  }

  /** One layer, A then B. */
  method ApplyToLayer(before: Dict, delta: Dict, residuals: Residuals, byLayer: Grouped, layer: string)
    returns (effective: Dict)
    requires layer in byLayer && HasLayer(delta, layer)
    ensures effective == before[LoraA(layer) := EffectiveTensor(delta[LoraA(layer)], LoraA(layer), residuals,
                                                                byLayer[layer])]
                               [LoraB(layer) := EffectiveTensor(delta[LoraB(layer)], LoraB(layer), residuals,
                                                                byLayer[layer])]
  {
    var a, b := LoraA(layer), LoraB(layer);
    var effectiveA := AddResiduals(delta[a], a, residuals, byLayer[layer]);
    var effectiveB := AddResiduals(delta[b], b, residuals, byLayer[layer]);
    effective := before[a := Tensor(effectiveA[..], delta[a].width)];
    effective := effective[b := Tensor(effectiveB[..], delta[b].width)];
  }

  /** apply_residual_to_update_grouped: layer by layer. */
  method ApplyResidualToUpdateGrouped(delta: Dict, residuals: Residuals, byLayer: Grouped)
    returns (effective: Dict)
    ensures effective == Effective(delta, residuals, byLayer)
  {
    effective := map[];
    ghost var goal := Effective(delta, residuals, byLayer);
    var todo := byLayer.Keys;
    while todo != {}
      invariant todo <= byLayer.Keys
      invariant forall k :: k in effective <==> k in goal && !k.Other? && k.layer !in todo
      invariant forall k :: k in effective ==> k in goal && effective[k] == goal[k]
    {
      var layer :| layer in todo;
      if HasLayer(delta, layer) {
        effective := ApplyToLayer(effective, delta, residuals, byLayer, layer);
      }
      todo := todo - {layer};
    }
  }

  // ---- upload ----

  /** slice_model_update_by_component_ids: each layer is sliced at the sorted positions of its
      selected components. */
  function SliceByComponents(update: Dict, byLayer: Grouped, selected: seq<Cid>): (r: Dict)
    requires ReachesLayers(update, byLayer)
    ensures forall k :: k in r ==> Routed(update, byLayer, k) && Has(r, k) && r[k].width == update[k].width
  {
    map k | k in update && Routed(update, byLayer, k)
            && LocalPositions(byLayer[k.layer], SortedIndices(selected, k.layer)) != [] ::
      Tensor(Select(update[k].slices, LocalPositions(byLayer[k.layer], SortedIndices(selected, k.layer))),
             update[k].width)
  }

  /** Which tensors a slice holds: both of every complete layer with a selected survivor. */
  lemma TensorsOfASlice(update: Dict, byLayer: Grouped, selected: seq<Cid>, k: Key)
    requires ReachesLayers(update, byLayer)
    ensures k in SliceByComponents(update, byLayer, selected) <==>
              && Routed(update, byLayer, k)
              && exists g :: g in byLayer[k.layer] && (k.layer, g) in selected
  {
    if Routed(update, byLayer, k) {
      SomePositionIff(byLayer[k.layer], selected, k.layer);
    }
  }

  lemma SomePositionIff(survivors: seq<int>, selected: seq<Cid>, layer: string)
    ensures LocalPositions(survivors, SortedIndices(selected, layer)) != [] <==>
              exists g :: g in survivors && (layer, g) in selected
  {
    var indices := SortedIndices(selected, layer);
    SortedMembers(selected, layer);
    SomeLocalPosition(survivors, indices);
    if i :| 0 <= i < |indices| && indices[i] in survivors {
      var g := indices[i];
      assert g in indices;
      assert (layer, g) in selected;
    }
    if g :| g in survivors && (layer, g) in selected {
      assert g in indices;
      var i :| 0 <= i < |indices| && indices[i] == g;
    }
  }

  // ---- residual bookkeeping ----

  function LayerSlices(effective: Dict, layer: string, localPos: nat): (r: map<Key, Vec>)
    requires HasLayer(effective, layer)
    ensures forall k :: k in r <==>
                          (k == LoraA(layer) || k == LoraB(layer)) && localPos < |effective[k].slices|
    ensures forall k :: k in r && k in effective && effective[k].Tensor? && localPos < |effective[k].slices| ==>
                          r[k] == effective[k].slices[localPos]
  {
    map k | k in {LoraA(layer), LoraB(layer)} && localPos < |effective[k].slices| ::
      effective[k].slices[localPos]
  }

  function Stored(effective: Dict, upload: seq<Cid>, byLayer: Grouped, c: Cid): map<Key, Vec> {
    if c.0 in byLayer && c.1 in byLayer[c.0] && c !in upload && HasLayer(effective, c.0)
    then LayerSlices(effective, c.0, LastIndex(byLayer[c.0], c.1)) else map[]
  }

  function AfterUpload(effective: Dict, upload: seq<Cid>, byLayer: Grouped): (r: Residuals)
    ensures forall c :: c in r <==> Stored(effective, upload, byLayer, c) != map[]
    ensures forall c :: c in r ==> r[c] == Stored(effective, upload, byLayer, c)
  {
    map l, g | l in byLayer && g in byLayer[l] && Stored(effective, upload, byLayer, (l, g)) != map[] ::
      (l, g) := Stored(effective, upload, byLayer, (l, g))
  }

  /** update_residual_buffers_after_upload_grouped: rebuilt from scratch, layer by layer. */
  method UpdateResidualBuffersAfterUploadGrouped(effective: Dict, upload: seq<Cid>, byLayer: Grouped)
    returns (residuals: Residuals)
    requires forall l :: l in byLayer ==> Distinct(byLayer[l])
    ensures residuals == AfterUpload(effective, upload, byLayer)
  {
    residuals := map[];
    ghost var goal := AfterUpload(effective, upload, byLayer);
    assert forall c :: c in goal ==> c.0 in byLayer.Keys;
    var todo := byLayer.Keys;
    while todo != {}
      invariant todo <= byLayer.Keys
      invariant forall c :: c in residuals <==> c in goal && c.0 !in todo
      invariant forall c :: c in residuals ==> residuals[c] == goal[c]
    {
      var layer :| layer in todo;
      residuals := StoreLayer(residuals, effective, upload, byLayer, layer, goal);
      todo := todo - {layer};
    }
  }

  method StoreLayer(before: Residuals, effective: Dict, upload: seq<Cid>, byLayer: Grouped, layer: string,
                    ghost goal: Residuals)
    returns (residuals: Residuals)
    requires layer in byLayer && Distinct(byLayer[layer]) && goal == AfterUpload(effective, upload, byLayer)
    ensures forall c :: c in residuals <==> c in before || (c.0 == layer && c in goal)
    ensures forall c :: c in residuals ==> residuals[c] == if c.0 == layer && c in goal then goal[c] else before[c]
  {
    residuals := before;
    ghost var held := StoredOf(effective, upload, byLayer, layer);
    StoredOfLayer(effective, upload, byLayer, layer, held);
    if HasLayer(effective, layer) {
      HeldByPlace(effective, upload, byLayer, layer, held);
      residuals := PutLayer(before, effective, upload, layer, byLayer[layer], held);
    }
  }

  /** The specification per index of one layer. */
  ghost function StoredOf(effective: Dict, upload: seq<Cid>, byLayer: Grouped, layer: string): int -> map<Key, Vec> {
    (g: int) => Stored(effective, upload, byLayer, (layer, g))
  }

  lemma StoredOfLayer(effective: Dict, upload: seq<Cid>, byLayer: Grouped, layer: string, held: int -> map<Key, Vec>)
    requires layer in byLayer && held == StoredOf(effective, upload, byLayer, layer)
    ensures var goal := AfterUpload(effective, upload, byLayer);
            && (forall c: Cid :: c.0 == layer ==> (c in goal <==> c.1 in byLayer[layer] && held(c.1) != map[]))
            && (forall c: Cid :: c.0 == layer && c in goal ==> HasLayer(effective, layer) && goal[c] == held(c.1))
  {
    forall c: Cid | c.0 == layer
      ensures held(c.1) == Stored(effective, upload, byLayer, c)
    {
      assert c == (layer, c.1);
    }
  }

  /** What position `n` of a layer holds back: nothing if its component was uploaded. */
  function HeldAt(effective: Dict, upload: seq<Cid>, layer: string, survivors: seq<int>, n: nat): map<Key, Vec>
    requires HasLayer(effective, layer) && n < |survivors|
  {
    if (layer, survivors[n]) in upload then map[] else LayerSlices(effective, layer, n)
  }

  lemma HeldByPlace(effective: Dict, upload: seq<Cid>, byLayer: Grouped, layer: string, held: int -> map<Key, Vec>)
    requires layer in byLayer && Distinct(byLayer[layer]) && HasLayer(effective, layer)
    requires held == StoredOf(effective, upload, byLayer, layer)
    ensures forall n :: 0 <= n < |byLayer[layer]| ==>
              held(byLayer[layer][n]) == HeldAt(effective, upload, layer, byLayer[layer], n)
  {
    forall n | 0 <= n < |byLayer[layer]|
      ensures held(byLayer[layer][n]) == HeldAt(effective, upload, layer, byLayer[layer], n)
    {
      StoredByPlace(effective, upload, byLayer, layer, n);
    }
  }

  lemma StoredByPlace(effective: Dict, upload: seq<Cid>, byLayer: Grouped, layer: string, n: nat)
    requires layer in byLayer && Distinct(byLayer[layer]) && HasLayer(effective, layer) && n < |byLayer[layer]|
    ensures Stored(effective, upload, byLayer, (layer, byLayer[layer][n]))
            == HeldAt(effective, upload, layer, byLayer[layer], n)
  {
    LastIndexDistinct(byLayer[layer], n);
    assert byLayer[layer][n] in byLayer[layer];
  }

  /** The row of A and the column of B at one local position, where the tensors reach it. */
  method SliceAt(effective: Dict, layer: string, localPos: nat) returns (slices: map<Key, Vec>)
    requires HasLayer(effective, layer)
    ensures slices == LayerSlices(effective, layer, localPos)
  {
    var a, b := LoraA(layer), LoraB(layer);
    slices := map[];
    if localPos < |effective[a].slices| {
      slices := slices[a := effective[a].slices[localPos]];
    }
    if localPos < |effective[b].slices| {
      slices := slices[b := effective[b].slices[localPos]];
    }
  }

  /** One layer's pass over its survivors: each that was not uploaded is sliced at its position, and
      entered if a tensor reaches it. `held` names the outcome per index. */
  method PutLayer(before: Residuals, effective: Dict, upload: seq<Cid>, layer: string, survivors: seq<int>,
                  ghost held: int -> map<Key, Vec>)
    returns (residuals: Residuals)
    requires HasLayer(effective, layer)
    requires forall n :: 0 <= n < |survivors| ==> held(survivors[n]) == HeldAt(effective, upload, layer, survivors, n)
    ensures forall c :: c in residuals <==> c in before || (c.0 == layer && c.1 in survivors && held(c.1) != map[])
    ensures forall c :: c in residuals ==>
              residuals[c] == if c.0 == layer && c.1 in survivors && held(c.1) != map[] then held(c.1) else before[c]
  {
    residuals := before;
    for n := 0 to |survivors|
      invariant forall c :: c in residuals <==>
                  c in before || (c.0 == layer && c.1 in survivors[..n] && held(c.1) != map[])
      invariant forall c :: c in residuals ==>
                  residuals[c] == if c.0 == layer && c.1 in survivors[..n] && held(c.1) != map[] then held(c.1)
                                  else before[c]
    {
      assert survivors[..n + 1] == survivors[..n] + [survivors[n]];
      var componentId := (layer, survivors[n]);
      if componentId !in upload {
        var slices := SliceAt(effective, layer, n);
        if slices != map[] {
          residuals := residuals[componentId := slices];
        }
      }
    }
    assert survivors[..|survivors|] == survivors;
  }

  function PruneResiduals(residuals: Residuals, pruned: set<Cid>): (r: Residuals)
    ensures forall c :: c in r <==> c in residuals && c !in pruned
    ensures forall c :: c in r ==> r[c] == residuals[c]
  {
    map c | c in residuals && c !in pruned :: residuals[c]
  }

  // ---- rounds ----

  datatype Client = Client(survivors: Grouped, residuals: Residuals)
  datatype Round = Round(survivors: Grouped, delta: Dict, upload: seq<Cid>)

  predicate Survives(byLayer: Grouped, c: Cid) {
    c.0 in byLayer && c.1 in byLayer[c.0]
  }

  function Pruned(c: Client, r: Round): (s: set<Cid>)
    ensures forall l, g :: (l, g) in s <==> Survives(c.survivors, (l, g)) && !Survives(r.survivors, (l, g))
  {
    set l, g | l in c.survivors && g in c.survivors[l] && !Survives(r.survivors, (l, g)) :: (l, g)
  }

  function RoundEffective(c: Client, r: Round): Dict {
    Effective(r.delta, PruneResiduals(c.residuals, Pruned(c, r)), r.survivors)
  }

  function Step(c: Client, r: Round): Client {
    Client(r.survivors, AfterUpload(RoundEffective(c, r), r.upload, r.survivors))
  }

  function Run(c: Client, rounds: seq<Round>): Client
    decreases |rounds|
  {
    if rounds == [] then c else Run(Step(c, rounds[0]), rounds[1..])
  }

  ghost predicate RoundOk(c: Client, r: Round, maxRank: nat) {
    && (forall l :: l in r.survivors ==> Distinct(r.survivors[l]))
    && (forall l, g :: l in r.survivors && g in r.survivors[l] ==> Survives(c.survivors, (l, g)) && 0 <= g < maxRank)
    && ReachesLayers(r.delta, r.survivors)
    && (forall i :: 0 <= i < |r.upload| ==> Survives(r.survivors, r.upload[i]))
  }

  ghost predicate RunOk(c: Client, rounds: seq<Round>, maxRank: nat)
    decreases |rounds|
  {
    rounds != [] ==> RoundOk(c, rounds[0], maxRank) && RunOk(Step(c, rounds[0]), rounds[1..], maxRank)
  }

  /** The uploaded tensors placed, layer by layer, at the grouped (sorted) upload indices; nothing
      where slicing raises because a tensor does not reach the survivors. */
  ghost function Received(c: Client, r: Round, maxRank: nat, id: Cid, k: Key, i: nat): real {
    if !ReachesLayers(RoundEffective(c, r), r.survivors) then 0.0
    else
      var sent := SliceByComponents(RoundEffective(c, r), r.survivors, r.upload);
      if Has(sent, k) && 0 <= id.1 < maxRank
      then At(Expand(sent[k], SortedIndices(r.upload, k.layer), maxRank).slices[id.1], i) else 0.0
  }

  lemma EffectiveReaches(c: Client, r: Round)
    requires ReachesLayers(r.delta, r.survivors)
    ensures ReachesLayers(RoundEffective(c, r), r.survivors)
  {
  }

  ghost function ReceivedTotal(c: Client, rounds: seq<Round>, maxRank: nat, id: Cid, k: Key, i: nat): real
    decreases |rounds|
  {
    if rounds == [] then 0.0
    else
      Received(c, rounds[0], maxRank, id, k, i)
      + ReceivedTotal(Step(c, rounds[0]), rounds[1..], maxRank, id, k, i)
  }

  /** Where a component stands in its layer's list; -1 if it does not. */
  function Place(byLayer: Grouped, id: Cid): int {
    if id.0 in byLayer then LastIndex(byLayer[id.0], id.1) else -1
  }

  /** The slice of tensor `k` that a dict holds at the component's place. */
  function SliceOf(delta: Dict, byLayer: Grouped, id: Cid, k: Key): Option<Vec> {
    var p := Place(byLayer, id);
    if Has(delta, k) && k.layer == id.0 && 0 <= p < |delta[k].slices| then Some(delta[k].slices[p]) else None
  }

  function FreshDelta(r: Round, id: Cid, k: Key): Option<Vec> {
    SliceOf(r.delta, r.survivors, id, k)
  }

  /** A round drops what its dict holds of a layer that lacks one of its tensors. */
  function TurnOf(r: Round, id: Cid, k: Key): Ledger.Turn {
    Ledger.Turn(FreshDelta(r, id, k), id in r.upload, !HasLayer(r.delta, id.0))
  }

  function Turns(rounds: seq<Round>, id: Cid, k: Key): (t: seq<Ledger.Turn>)
    ensures |t| == |rounds|
    ensures forall n :: 0 <= n < |t| ==> t[n] == TurnOf(rounds[n], id, k)
  {
    seq(|rounds|, n requires 0 <= n < |rounds| => TurnOf(rounds[n], id, k))
  }

  lemma UploadPlaced(effective: Dict, r: Round, maxRank: nat, id: Cid, k: Key)
    requires ReachesLayers(effective, r.survivors) && Routed(effective, r.survivors, k)
    requires k.layer == id.0 && id.1 in r.survivors[id.0] && 0 <= id.1 < maxRank
    requires forall n :: 0 <= n < |r.upload| ==> Survives(r.survivors, r.upload[n])
    ensures var sent := SliceByComponents(effective, r.survivors, r.upload);
            && (id in r.upload ==> Has(sent, k))
            && (Has(sent, k) ==>
                  Expand(sent[k], SortedIndices(r.upload, k.layer), maxRank).slices[id.1]
                  == if id in r.upload then effective[k].slices[LastIndex(r.survivors[id.0], id.1)]
                     else Zeros(effective[k].width))
  {
    var selected := SortedIndices(r.upload, id.0);
    SortedMembers(r.upload, id.0);
    forall i | 0 <= i < |selected|
      ensures selected[i] in r.survivors[id.0]
    {
      var g := SortedIndices(r.upload, id.0)[i];
      assert (id.0, g) in r.upload;
    }
    LocalPositionsOfSurvivors(r.survivors[id.0], selected);
    SliceThenExpand(effective[k], r.survivors[id.0], selected, maxRank, id.1);
  }

  lemma EffectiveAtComponent(c: Client, r: Round, id: Cid, k: Key)
    requires ReachesLayers(r.delta, r.survivors) && Survives(r.survivors, id) && Survives(c.survivors, id)
    requires Distinct(r.survivors[id.0]) && Routed(r.delta, r.survivors, k) && k.layer == id.0
    ensures var effective := RoundEffective(c, r);
            && HasLayer(effective, id.0)
            && |effective[k].slices| >= |r.survivors[id.0]|
            && effective[k].slices[LastIndex(r.survivors[id.0], id.1)]
               == Ledger.Effective(Entry(c.residuals, id, k), FreshDelta(r, id, k).value)
  {
    var kept := PruneResiduals(c.residuals, Pruned(c, r));
    var p := LastIndex(r.survivors[id.0], id.1);
    assert id == (id.0, id.1);
    assert Entry(kept, id, k) == Entry(c.residuals, id, k);
    assert RoundEffective(c, r)[k].slices[p] == EffectiveSlice(r.delta[k], k, kept, r.survivors[id.0], p);
  }

  lemma StoredAtComponent(effective: Dict, upload: seq<Cid>, byLayer: Grouped, id: Cid, k: Key)
    requires HasLayer(effective, id.0) && Survives(byLayer, id) && (k == LoraA(id.0) || k == LoraB(id.0))
    requires |effective[k].slices| >= |byLayer[id.0]|
    ensures Entry(AfterUpload(effective, upload, byLayer), id, k)
            == if id in upload then None else Some(effective[k].slices[LastIndex(byLayer[id.0], id.1)])
  {
    if id !in upload {
      assert k in Stored(effective, upload, byLayer, id);
      assert Stored(effective, upload, byLayer, id) != map[];
    }
  }

  /** What a turn of the account says of the next state and of what the server receives. */
  ghost predicate IsTurn(c: Client, r: Round, maxRank: nat, id: Cid, k: Key, i: nat) {
    var turn := TurnOf(r, id, k);
    var entry := Entry(c.residuals, id, k);
    && Entry(Step(c, r).residuals, id, k) == Ledger.Next(entry, turn)
    && Received(c, r, maxRank, id, k, i) == Ledger.Amount(Ledger.Sent(entry, turn), i)
  }

  /** One v3 round, seen from one (layer, index) component, is one ledger turn; it is a dropped one if
      the layer is incomplete. */
  lemma StepRefinesLedger(c: Client, r: Round, maxRank: nat, id: Cid, k: Key, i: nat)
    requires RoundOk(c, r, maxRank) && Survives(r.survivors, id) && !k.Other? && k.layer == id.0
    ensures IsTurn(c, r, maxRank, id, k, i)
  {
    assert id == (id.0, id.1);
    EffectiveReaches(c, r);
    SurvivedBefore(c, r, maxRank, id.0, id.1);
    if Routed(r.delta, r.survivors, k) {
      RoutedStores(c, r, maxRank, id, k);
      RoutedSends(c, r, maxRank, id, k, i);
    } else {
      AbsentTurn(c, r, maxRank, id, k, i);
    }
  }

  lemma SurvivedBefore(c: Client, r: Round, maxRank: nat, l: string, g: int)
    requires RoundOk(c, r, maxRank) && l in r.survivors && g in r.survivors[l]
    ensures Survives(c.survivors, (l, g)) && 0 <= g < maxRank
  {
  }

  ghost predicate RoutedOk(c: Client, r: Round, maxRank: nat, id: Cid, k: Key) {
    && Survives(r.survivors, id) && Survives(c.survivors, id) && !k.Other? && k.layer == id.0
    && 0 <= id.1 < maxRank && Distinct(r.survivors[id.0])
    && (forall n :: 0 <= n < |r.upload| ==> Survives(r.survivors, r.upload[n]))
    && ReachesLayers(r.delta, r.survivors) && ReachesLayers(RoundEffective(c, r), r.survivors)
    && Routed(r.delta, r.survivors, k)
  }

  lemma RoutedStores(c: Client, r: Round, maxRank: nat, id: Cid, k: Key)
    requires RoutedOk(c, r, maxRank, id, k)
    ensures Entry(Step(c, r).residuals, id, k) == Ledger.Next(Entry(c.residuals, id, k), TurnOf(r, id, k))
  {
    EffectiveAtComponent(c, r, id, k);
    StoredAtComponent(RoundEffective(c, r), r.upload, r.survivors, id, k);
  }

  lemma RoutedSends(c: Client, r: Round, maxRank: nat, id: Cid, k: Key, i: nat)
    requires RoutedOk(c, r, maxRank, id, k)
    ensures Received(c, r, maxRank, id, k, i)
            == Ledger.Amount(Ledger.Sent(Entry(c.residuals, id, k), TurnOf(r, id, k)), i)
  {
    EffectiveAtComponent(c, r, id, k);
    UploadPlaced(RoundEffective(c, r), r, maxRank, id, k);
  }

  lemma AbsentTurn(c: Client, r: Round, maxRank: nat, id: Cid, k: Key, i: nat)
    requires !k.Other? && k.layer == id.0 && Survives(r.survivors, id) && !Routed(r.delta, r.survivors, k)
    requires ReachesLayers(RoundEffective(c, r), r.survivors)
    ensures IsTurn(c, r, maxRank, id, k, i)
  {
  }

  lemma TurnsUnfold(entry: Option<Vec>, rounds: seq<Round>, id: Cid, k: Key, i: nat)
    requires rounds != []
    ensures var turn := TurnOf(rounds[0], id, k);
            var turns, rest := Turns(rounds, id, k), Turns(rounds[1..], id, k);
            && Ledger.Final(entry, turns) == Ledger.Final(Ledger.Next(entry, turn), rest)
            && Ledger.SentTotal(entry, turns, i)
               == Ledger.Amount(Ledger.Sent(entry, turn), i) + Ledger.SentTotal(Ledger.Next(entry, turn), rest, i)
  {
    assert Turns(rounds, id, k)[1..] == Turns(rounds[1..], id, k);
  }

  /** Survivors are never added: what survives a run was there at its start. */
  lemma {:induction false} SurvivedRun(c: Client, rounds: seq<Round>, maxRank: nat, id: Cid)
    requires RunOk(c, rounds, maxRank) && Survives(Run(c, rounds).survivors, id)
    ensures Survives(c.survivors, id)
    decreases |rounds|
  {
    if rounds != [] {
      SurvivedRun(Step(c, rounds[0]), rounds[1..], maxRank, id);
      SurvivedBefore(c, rounds[0], maxRank, id.0, id.1);
    }
  }

  lemma {:induction false} RunRefinesLedger(c: Client, rounds: seq<Round>, maxRank: nat, id: Cid, k: Key, i: nat)
    requires RunOk(c, rounds, maxRank) && !k.Other? && k.layer == id.0
    requires Survives(Run(c, rounds).survivors, id)
    ensures Entry(Run(c, rounds).residuals, id, k)
            == Ledger.Final(Entry(c.residuals, id, k), Turns(rounds, id, k))
    ensures ReceivedTotal(c, rounds, maxRank, id, k, i)
            == Ledger.SentTotal(Entry(c.residuals, id, k), Turns(rounds, id, k), i)
    decreases |rounds|
  {
    if rounds != [] {
      SurvivedRun(Step(c, rounds[0]), rounds[1..], maxRank, id);
      RunRefinesLedger(Step(c, rounds[0]), rounds[1..], maxRank, id, k, i);
      StepRefinesLedger(c, rounds[0], maxRank, id, k, i);
      TurnsUnfold(Entry(c.residuals, id, k), rounds, id, k, i);
    }
  }

  /** Error-feedback conservation per (layer, index) component never pruned: what the server received,
      what is stored and what rounds with an incomplete layer lost, residuals and deltas, is what there
      was and what the deltas held. */
  lemma Conservation(c: Client, rounds: seq<Round>, maxRank: nat, id: Cid, k: Key, i: nat)
    requires RunOk(c, rounds, maxRank) && !k.Other? && k.layer == id.0
    requires Survives(Run(c, rounds).survivors, id) && Ledger.Covers(Turns(rounds, id, k), i)
    ensures var turns := Turns(rounds, id, k);
            var start := Entry(c.residuals, id, k);
            ReceivedTotal(c, rounds, maxRank, id, k, i)
            + Ledger.Amount(Entry(Run(c, rounds).residuals, id, k), i)
            + Ledger.LostTotal(start, turns, i)
            == Ledger.Amount(start, i) + Ledger.DeltaTotal(turns, i)
  {
    RunRefinesLedger(c, rounds, maxRank, id, k, i);
    Ledger.RunConserves(Entry(c.residuals, id, k), Turns(rounds, id, k), i);
  }

  /** The documented law of one round, update = sent + kept, holds exactly when the layer has both its
      tensors in the round's dict or there was nothing to lose. */
  lemma RoundConservesIffComplete(c: Client, r: Round, maxRank: nat, id: Cid, k: Key, i: nat)
    requires RoundOk(c, r, maxRank) && Survives(r.survivors, id) && !k.Other? && k.layer == id.0
    requires FreshDelta(r, id, k).Some? ==> i < |FreshDelta(r, id, k).value|
    ensures var there := Ledger.Amount(Entry(c.residuals, id, k), i) + Ledger.Amount(FreshDelta(r, id, k), i);
            (Received(c, r, maxRank, id, k, i) + Ledger.Amount(Entry(Step(c, r).residuals, id, k), i) == there)
            <==> (HasLayer(r.delta, id.0) || there == 0.0)
  {
    StepRefinesLedger(c, r, maxRank, id, k, i);
    if HasLayer(r.delta, id.0) {
      CompleteIsRead(c, r, maxRank, id, k);
    }
  }

  /** A survivor's slice of a complete layer is read. */
  lemma CompleteIsRead(c: Client, r: Round, maxRank: nat, id: Cid, k: Key)
    requires RoundOk(c, r, maxRank) && Survives(r.survivors, id) && !k.Other? && k.layer == id.0
    requires HasLayer(r.delta, id.0)
    ensures Ledger.Reads(TurnOf(r, id, k))
  {
    assert Routed(r.delta, r.survivors, k);
  }

  /** At a concrete input: the round's dict holds 7 for the uploaded component, in an A tensor without
      its B tensor; the server receives nothing and nothing is stored. */
  lemma IncompleteLayerLosesUpdate(layer: string)
    ensures var k, id := LoraA(layer), (layer, 0);
            var c := Client(map[layer := [0]], map[]);
            var r := Round(map[layer := [0]], map[k := Tensor([[7.0]], 1)], [id]);
            && RoundOk(c, r, 1) && FreshDelta(r, id, k) == Some([7.0])
            && Received(c, r, 1, id, k, 0) == 0.0 && Entry(Step(c, r).residuals, id, k) == None
  {
    var k, id := LoraA(layer), (layer, 0);
    var c := Client(map[layer := [0]], map[]);
    var r := Round(map[layer := [0]], map[k := Tensor([[7.0]], 1)], [id]);
    assert LoraB(layer) !in r.delta;
    assert RoundOk(c, r, 1);
    StepRefinesLedger(c, r, 1, id, k, 0);
  }

  /** With both tensors of the layer in every round, a component that survives the run is read in every
      round. */
  lemma {:induction false} CompleteRunIsRead(c: Client, rounds: seq<Round>, maxRank: nat, id: Cid, k: Key)
    requires RunOk(c, rounds, maxRank) && !k.Other? && k.layer == id.0
    requires Survives(Run(c, rounds).survivors, id)
    requires forall n :: 0 <= n < |rounds| ==> HasLayer(rounds[n].delta, id.0)
    ensures forall n :: 0 <= n < |rounds| ==> Ledger.Reads(TurnOf(rounds[n], id, k))
    decreases |rounds|
  {
    if rounds != [] {
      CompleteRunIsRead(Step(c, rounds[0]), rounds[1..], maxRank, id, k);
      SurvivedRun(Step(c, rounds[0]), rounds[1..], maxRank, id);
      CompleteIsRead(c, rounds[0], maxRank, id, k);
      assert forall n :: 0 < n < |rounds| ==> rounds[n] == rounds[1..][n - 1];
    }
  }

  /** With both tensors of the layer in every round, from empty buffers: uploads + residual = deltas. */
  lemma ConservationSameLayers(c: Client, rounds: seq<Round>, maxRank: nat, id: Cid, k: Key, i: nat)
    requires RunOk(c, rounds, maxRank) && !k.Other? && k.layer == id.0
    requires Survives(Run(c, rounds).survivors, id) && Ledger.Covers(Turns(rounds, id, k), i)
    requires c.residuals == map[]
    requires forall n :: 0 <= n < |rounds| ==> HasLayer(rounds[n].delta, id.0)
    ensures ReceivedTotal(c, rounds, maxRank, id, k, i)
            + Ledger.Amount(Entry(Run(c, rounds).residuals, id, k), i)
            == Ledger.DeltaTotal(Turns(rounds, id, k), i)
  {
    Conservation(c, rounds, maxRank, id, k, i);
    CompleteRunIsRead(c, rounds, maxRank, id, k);
    Ledger.NothingLost(Entry(c.residuals, id, k), Turns(rounds, id, k), i);
  }
}
