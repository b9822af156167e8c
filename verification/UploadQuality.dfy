/** How good the clients' uploads are: with the scores and costs they compute, what FlatUpload and
    GroupedUpload send scores at least as much as any choice their budget allows. */
module UploadQuality {
  import opened Seqs
  import opened Tensors
  import opened Components
  import opened Greedy
  import opened GreedyGrouped
  import opened LayerSum
  import opened ClientUpload
  import Upload = UploadSelection
  import V3 = AdaSparseV3

  function ScoreIn<T(==)>(scores: map<T, real>): T -> real {
    (id: T) => Lookup(scores, id, 0.0)
  }

  /** The total score of some components; what has no score counts nothing. */
  function Gain<T(==)>(scores: map<T, real>, ids: seq<T>): real {
    Sum(ids, ScoreIn(scores))
  }

  lemma {:induction false} TotalIsGain<T>(scores: map<T, real>, costs: map<T, real>, ids: seq<T>)
    ensures TotalScore(scores, costs, ids) == Gain(scores, ids)
  {
    if ids != [] {
      TotalIsGain(scores, costs, ids[1..]);
      assert ItemsOf(scores, costs, ids)[1..] == ItemsOf(scores, costs, ids[1..]);
    }
  }

  lemma {:induction false} GainNonNegative<T>(scores: map<T, real>, ids: seq<T>)
    requires forall id :: id in scores ==> scores[id] >= 0.0
    ensures Gain(scores, ids) >= 0.0
  {
    if ids != [] {
      GainNonNegative(scores, ids[1..]);
    }
  }

  // ---- v2 ----

  /** v2: with stage 2 enabled and a positive budget, no choice of survivors within the budget scores more
      than what the client uploads, and the upload has as many survivors as fit. */
  lemma FlatUploadIsBest(update: Dict, items: seq<Key>, layers: seq<string>, survivors: seq<int>, norm: Vec -> real,
                         qBits: nat, cmetaBits: nat, costs: map<int, real>, budget: real, choice: seq<int>)
    requires Upload.IsNorm(norm) && budget > 0.0 && FlatCost(update, items, qBits, cmetaBits) > 0.0
    requires forall g :: g in costs <==> g in survivors
    requires forall g :: g in costs ==> costs[g] == FlatCost(update, items, qBits, cmetaBits)
    requires Distinct(choice) && (forall i :: 0 <= i < |choice| ==> choice[i] in survivors)
    requires Used(costs, choice) <= budget
    ensures var scores := LayerSums(survivors, layers, ExpandedScores(update, layers, survivors, norm));
            var upload := FlatUpload(true, Some(budget), scores, costs, survivors);
            && Gain(scores, choice) <= Gain(scores, upload)
            && FitCount(|upload|, |survivors|, FlatCost(update, items, qBits, cmetaBits), budget)
  {
    var scores := LayerSums(survivors, layers, ExpandedScores(update, layers, survivors, norm));
    Upload.FlatUploadIsOptimal(update, items, layers, survivors, norm, qBits, cmetaBits, costs, budget, choice);
    TotalIsUsed(scores, costs, choice);
    TotalIsGain(scores, costs, choice);
    TotalIsGain(scores, costs, Selected(scores, costs, budget, survivors));
  }

  /** Without a budget in force, or with stage 2 disabled, v2 uploads every survivor; v3 then uploads every
      survivor or, with stage 2 enabled, everything that is scored. */
  lemma UnlimitedUploads(enabled: bool, cached: Option<real>, scores2: map<int, real>, costs2: map<int, real>,
                         survivors2: seq<int>, scores: Reals, costs: Reals, keys: seq<Cid>, globally: bool,
                         survivors: seq<Cid>)
    requires !enabled || cached.None? || cached.value == 0.0
    ensures FlatUpload(enabled, cached, scores2, costs2, survivors2) == survivors2
    ensures GroupedUpload(enabled, cached, scores, costs, keys, globally, survivors)
            == if enabled && keys != [] then keys else survivors
  {
  }

  // ---- v3, layer by layer ----

  /** What an upload holds of one layer. */
  function OfLayer(layer: string): Cid -> bool {
    (c: Cid) => c.0 == layer
  }

  function LayerPart(ids: seq<Cid>, layer: string): seq<Cid> {
    Filter(ids, OfLayer(layer))
  }

  lemma {:induction false} PartOfOneLayer(ids: seq<Cid>, layer: string, l: string)
    requires forall c :: c in ids ==> c.0 == layer
    ensures LayerPart(ids, l) == if l == layer then ids else []
  {
    if ids != [] {
      assert ids[0] in ids;
      PartOfOneLayer(ids[1..], layer, l);
    }
  }

  lemma LayerTakenOfLayer(keys: seq<Cid>, scores: Reals, costs: Reals, budget: real, layer: string)
    requires keys != []
    ensures forall x :: x in LayerTaken(keys, scores, costs, budget, layer) ==>
              x.id.0 == layer && x == ItemOf(scores, costs, x.id)
  {
    var ids := LayerIds(keys, layer);
    var items := ItemsOf(scores, costs, ids);
    forall x | x in LayerTaken(keys, scores, costs, budget, layer)
      ensures x.id.0 == layer && x == ItemOf(scores, costs, x.id)
    {
      TakenInside(Sort(items, ByRatio()), Share(|ids|, |keys|, budget), x);
      SortElement(items, ByRatio(), x);
      var i :| 0 <= i < |items| && items[i] == x;
      assert ids[i].0 == layer;
    }
  }

  lemma LayerTakenIds(keys: seq<Cid>, scores: Reals, costs: Reals, budget: real, layer: string)
    requires keys != []
    ensures forall c :: c in Ids(LayerTaken(keys, scores, costs, budget, layer)) ==> c.0 == layer
  {
    var taken := LayerTaken(keys, scores, costs, budget, layer);
    LayerTakenOfLayer(keys, scores, costs, budget, layer);
    forall c: Cid | c in Ids(taken)
      ensures c.0 == layer
    {
      var i :| 0 <= i < |taken| && Ids(taken)[i] == c;
      assert taken[i] in taken;
    }
  }

  /** The part of a layer in the per-layer selection is that layer's own selection. */
  lemma {:induction false} PartOfTakenOver(keys: seq<Cid>, scores: Reals, costs: Reals, budget: real,
                                           layers: seq<string>, layer: string)
    requires keys != [] && Distinct(layers)
    ensures LayerPart(Ids(TakenOver(keys, scores, costs, budget, layers)), layer)
            == if layer in layers then Ids(LayerTaken(keys, scores, costs, budget, layer)) else []
    decreases |layers|
  {
    if layers != [] {
      var init, last := layers[..|layers| - 1], layers[|layers| - 1];
      assert layers == init + [last];
      PartOfTakenOver(keys, scores, costs, budget, init, layer);
      LayerTakenIds(keys, scores, costs, budget, last);
      PartOfOneLayer(Ids(LayerTaken(keys, scores, costs, budget, last)), last, layer);
      PartsAppend(keys, scores, costs, budget, init, last, layer);
    }
  }

  lemma PartsAppend(keys: seq<Cid>, scores: Reals, costs: Reals, budget: real, init: seq<string>, last: string,
                    layer: string)
    requires keys != []
    ensures LayerPart(Ids(TakenOver(keys, scores, costs, budget, init + [last])), layer)
            == LayerPart(Ids(TakenOver(keys, scores, costs, budget, init)), layer)
               + LayerPart(Ids(LayerTaken(keys, scores, costs, budget, last)), layer)
  {
    assert (init + [last])[..|init|] == init;
    IdsAppend(TakenOver(keys, scores, costs, budget, init), LayerTaken(keys, scores, costs, budget, last));
    FilterAppend(Ids(TakenOver(keys, scores, costs, budget, init)),
                 Ids(LayerTaken(keys, scores, costs, budget, last)), OfLayer(layer));
  }

  lemma {:induction false} GainOfItems(items: seq<Item<Cid>>, scores: Reals, costs: Reals)
    requires forall x :: x in items ==> x == ItemOf(scores, costs, x.id)
    ensures Gain(scores, Ids(items)) == Sum(items, Greedy.ScoreOf())
  {
    if items != [] {
      GainOfItems(items[1..], scores, costs);
      assert items[0] in items;
      assert Ids(items)[1..] == Ids(items[1..]);
    }
  }

  /** The gain of a layer's part of the upload is that of its own selection, if the layer has scored
      components and anything is selected at all. */
  lemma LayerGain(keys: seq<Cid>, scores: Reals, costs: Reals, budget: real, layer: string, selected: seq<Cid>)
    requires keys != [] && budget > 0.0 && LayerIds(keys, layer) != []
    requires selected == GroupedSelection(scores, costs, budget, keys, false)
    ensures Gain(scores, LayerPart(selected, layer))
            == Sum(LayerTaken(keys, scores, costs, budget, layer), Greedy.ScoreOf())
  {
    var c := LayerIds(keys, layer)[0];
    assert c in LayerIds(keys, layer);
    LayerIdsMembers(keys, layer, c);
    PartOfTakenOver(keys, scores, costs, budget, LayerOrder(keys), layer);
    LayerTakenOfLayer(keys, scores, costs, budget, layer);
    GainOfItems(LayerTaken(keys, scores, costs, budget, layer), scores, costs);
  }

  /** With nothing selected in any layer, nothing of this layer is affordable. */
  lemma NothingAffordable(keys: seq<Cid>, scores: Reals, costs: Reals, budget: real, layer: string, cost: real,
                          choice: seq<Cid>)
    requires keys != [] && budget > 0.0 && cost > 0.0
    requires GroupedSelection(scores, costs, budget, keys, false) == []
    requires forall i :: 0 <= i < |choice| ==> choice[i] in LayerIds(keys, layer)
    requires forall i :: 0 <= i < |choice| ==> choice[i] in costs && costs[choice[i]] == cost
    requires Used(costs, choice) <= Share(|LayerIds(keys, layer)|, |keys|, budget)
    ensures choice == []
  {
    if choice != [] {
      var c := choice[0];
      SelectionEmptyIff(scores, costs, budget, keys, false);
      LayerIdsMembers(keys, layer, c);
      var i :| 0 <= i < |keys| && keys[i] == c;
      assert Lookup(costs, keys[i], 1.0) > Room(budget, keys, keys[i].0, false);
      UsedAtLeast(costs, choice, cost);
    }
  }

  lemma {:induction false} UsedAtLeast(costs: Reals, choice: seq<Cid>, cost: real)
    requires cost > 0.0
    requires forall i :: 0 <= i < |choice| ==> choice[i] in costs && costs[choice[i]] == cost
    ensures Used(costs, choice) >= if choice == [] then 0.0 else cost
  {
    if choice != [] {
      UsedAtLeast(costs, choice[1..], cost);
    }
  }

  /** v3 layer by layer: with stage 2 enabled, a positive budget and the grouped scores and costs, no choice
      among a layer's scored components within its share scores more than what the client uploads of that
      layer, also when the empty selection makes it upload everything. */
  lemma GroupedUploadIsBest(update: Dict, byLayer: Grouped, norm: Vec -> real, qBits: nat, cmetaBits: nat,
                            keys: seq<Cid>, layer: string, budget: real, survivors: seq<Cid>, choice: seq<Cid>)
    requires Upload.IsNorm(norm) && budget > 0.0 && LayerCost(update, qBits, cmetaBits)(layer) > 0.0
    requires forall c :: c in keys <==> c in GroupedScores(update, byLayer, norm)
    requires LayerIds(keys, layer) != [] && keys != []
    requires Distinct(choice) && (forall i :: 0 <= i < |choice| ==> choice[i] in LayerIds(keys, layer))
    requires Used(GroupedCosts(update, byLayer, qBits, cmetaBits), choice)
             <= Share(|LayerIds(keys, layer)|, |keys|, budget)
    ensures var scores := GroupedScores(update, byLayer, norm);
            var costs := GroupedCosts(update, byLayer, qBits, cmetaBits);
            var upload := GroupedUpload(true, Some(budget), scores, costs, keys, false, survivors);
            Gain(scores, choice) <= Gain(scores, LayerPart(upload, layer))
  {
    var scores := GroupedScores(update, byLayer, norm);
    var costs := GroupedCosts(update, byLayer, qBits, cmetaBits);
    ChoicePriced(update, byLayer, norm, qBits, cmetaBits, keys, layer, choice);
    ScoresNonNegative(update, byLayer, norm);
    TotalIsUsed(scores, costs, choice);
    TotalIsGain(scores, costs, choice);
    Upload.LayerUploadIsOptimal(update, byLayer, norm, qBits, cmetaBits, keys, layer, budget, choice);
    var selected := GroupedSelection(scores, costs, budget, keys, false);
    SelectedOrAll(budget, scores, costs, keys, false, survivors, selected);
    if selected == [] {
      NothingAffordable(keys, scores, costs, budget, layer, LayerCost(update, qBits, cmetaBits)(layer), choice);
      GainNonNegative(scores, LayerPart(survivors, layer));
    } else {
      LayerGain(keys, scores, costs, budget, layer, selected);
    }
  }

  lemma SelectedOrAll(budget: real, scores: Reals, costs: Reals, keys: seq<Cid>, globally: bool, survivors: seq<Cid>,
                      selected: seq<Cid>)
    requires budget != 0.0 && selected == GroupedSelection(scores, costs, budget, keys, globally)
    ensures GroupedUpload(true, Some(budget), scores, costs, keys, globally, survivors)
            == if selected == [] then survivors else selected
  {
  }

  lemma ChoicePriced(update: Dict, byLayer: Grouped, norm: Vec -> real, qBits: nat, cmetaBits: nat, keys: seq<Cid>,
                     layer: string, choice: seq<Cid>)
    requires forall c :: c in keys <==> c in GroupedScores(update, byLayer, norm)
    requires forall i :: 0 <= i < |choice| ==> choice[i] in LayerIds(keys, layer)
    ensures forall i :: 0 <= i < |choice| ==>
              var costs := GroupedCosts(update, byLayer, qBits, cmetaBits);
              choice[i] in costs && costs[choice[i]] == LayerCost(update, qBits, cmetaBits)(layer)
  {
    forall i | 0 <= i < |choice|
      ensures var costs := GroupedCosts(update, byLayer, qBits, cmetaBits);
              choice[i] in costs && costs[choice[i]] == LayerCost(update, qBits, cmetaBits)(layer)
    {
      LayerIdsMembers(keys, layer, choice[i]);
      ScoredIsPriced(update, byLayer, norm, qBits, cmetaBits, choice[i]);
    }
  }

  lemma ScoredIsPriced(update: Dict, byLayer: Grouped, norm: Vec -> real, qBits: nat, cmetaBits: nat, c: Cid)
    requires c in GroupedScores(update, byLayer, norm)
    ensures c in GroupedCosts(update, byLayer, qBits, cmetaBits)
    ensures GroupedCosts(update, byLayer, qBits, cmetaBits)[c] == LayerCost(update, qBits, cmetaBits)(c.0)
  {
    assert c == (c.0, c.1);
    assert Scored(update, byLayer, c.0, c.1);
    GroupedCostsOf(update, byLayer, qBits, cmetaBits, c.0);
  }

  // ---- v3, all layers in one competition ----

  /** v3 in global mode: no choice of scored components within the budget scores more than what the client
      uploads and one more component together. */
  lemma GlobalUploadBound(update: Dict, byLayer: Grouped, norm: Vec -> real, qBits: nat, cmetaBits: nat,
                          keys: seq<Cid>, budget: real, survivors: seq<Cid>, choice: seq<Cid>)
    requires Upload.IsNorm(norm) && budget > 0.0
    requires forall c :: c in keys <==> c in GroupedScores(update, byLayer, norm)
    requires Distinct(choice) && (forall i :: 0 <= i < |choice| ==> choice[i] in keys)
    requires Used(GroupedCosts(update, byLayer, qBits, cmetaBits), choice) <= budget
    ensures var scores := GroupedScores(update, byLayer, norm);
            var costs := GroupedCosts(update, byLayer, qBits, cmetaBits);
            var upload := GroupedUpload(true, Some(budget), scores, costs, keys, true, survivors);
            || Gain(scores, choice) <= Gain(scores, upload)
            || exists c :: c in scores && Gain(scores, choice) <= Gain(scores, upload) + scores[c]
  {
    var scores := GroupedScores(update, byLayer, norm);
    var costs := GroupedCosts(update, byLayer, qBits, cmetaBits);
    KeysPriced(update, byLayer, norm, qBits, cmetaBits, keys);
    forall i | 0 <= i < |choice|
      ensures choice[i] in costs
    {
      ScoredIsPriced(update, byLayer, norm, qBits, cmetaBits, choice[i]);
    }
    ScoresNonNegative(update, byLayer, norm);
    TotalIsUsed(scores, costs, choice);
    TotalIsGain(scores, costs, choice);
    TotalIsGain(scores, costs, Selected(scores, costs, budget, keys));
    SelectionBound(scores, costs, budget, keys, choice);
    MisfitIsKey(scores, costs, budget, keys);
    GainNonNegative(scores, survivors);
  }

  lemma MisfitIsKey(scores: Reals, costs: Reals, budget: real, keys: seq<Cid>)
    ensures var misfit := Misfit(Sort(ItemsOf(scores, costs, keys), ByRatio()), budget);
            misfit.Some? ==> misfit.value.id in keys && misfit.value.score == Lookup(scores, misfit.value.id, 0.0)
  {
    var items := ItemsOf(scores, costs, keys);
    var misfit := Misfit(Sort(items, ByRatio()), budget);
    if misfit.Some? {
      MisfitInside(Sort(items, ByRatio()), budget);
      SortElement(items, ByRatio(), misfit.value);
      var i :| 0 <= i < |items| && items[i] == misfit.value;
      assert keys[i] in keys;
    }
  }

  lemma {:induction false} MisfitInside<T>(items: seq<Item<T>>, budget: real)
    ensures Misfit(items, budget).Some? ==> Misfit(items, budget).value in items
    decreases |items|
  {
    if items != [] && items[0].cost <= budget {
      MisfitInside(items[1..], budget - items[0].cost);
    }
  }

  lemma KeysPriced(update: Dict, byLayer: Grouped, norm: Vec -> real, qBits: nat, cmetaBits: nat, keys: seq<Cid>)
    requires Upload.IsNorm(norm)
    requires forall c :: c in keys <==> c in GroupedScores(update, byLayer, norm)
    ensures PricedIds(GroupedScores(update, byLayer, norm), GroupedCosts(update, byLayer, qBits, cmetaBits), keys)
  {
    var scores := GroupedScores(update, byLayer, norm);
    var costs := GroupedCosts(update, byLayer, qBits, cmetaBits);
    ScoresNonNegative(update, byLayer, norm);
    forall i | 0 <= i < |keys|
      ensures ItemOf(scores, costs, keys[i]).score >= 0.0 && ItemOf(scores, costs, keys[i]).cost >= 0.0
    {
      assert keys[i] in keys;
      ScoredIsPriced(update, byLayer, norm, qBits, cmetaBits, keys[i]);
      LayerCostNonNegative(update, qBits, cmetaBits, keys[i].0);
    }
  }

  lemma LayerCostNonNegative(update: Dict, qBits: nat, cmetaBits: nat, layer: string)
    ensures LayerCost(update, qBits, cmetaBits)(layer) >= 0.0
  {
    assert Width(update)(LoraA(layer)) >= 0.0 && Width(update)(LoraB(layer)) >= 0.0;
    TimesNonNegative(qBits, PairWidth(update)(layer));
  }
}
