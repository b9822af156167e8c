/** What a client finally uploads: the selection under its cached uplink budget, and the fallbacks to
    everything that the two clients put around it. */
module ClientUpload {
  import opened Seqs
  import opened Components
  import opened Greedy
  import opened GreedyGrouped

  function CostIn<T(==)>(costs: map<T, real>): T -> real {
    (id: T) => Lookup(costs, id, 0.0)
  }

  /** The bits an upload uses; what has no cost counts nothing. */
  function Used<T(==)>(costs: map<T, real>, ids: seq<T>): real {
    Sum(ids, CostIn(costs))
  }

  /** The budget in force; None is infinite. A cached budget of zero is falsy and counts as none. */
  function InForce(cached: Option<real>): Option<real> {
    if cached == Some(0.0) then None else cached
  }

  function Cap(budget: real): real {
    if budget > 0.0 then budget else 0.0
  }

  lemma {:induction false} TotalIsUsed<T>(scores: map<T, real>, costs: map<T, real>, ids: seq<T>)
    requires forall i :: 0 <= i < |ids| ==> ids[i] in costs
    ensures TotalCost(scores, costs, ids) == Used(costs, ids)
  {
    if ids != [] {
      TotalIsUsed(scores, costs, ids[1..]);
      assert ItemsOf(scores, costs, ids)[1..] == ItemsOf(scores, costs, ids[1..]);
    }
  }

  lemma SelectedWithinBudget<T(!new)>(scores: map<T, real>, costs: map<T, real>, budget: real, ids: seq<T>)
    requires Distinct(ids) && forall i :: 0 <= i < |ids| ==> ids[i] in costs
    ensures Used(costs, Selected(scores, costs, budget, ids)) <= Cap(budget)
  {
    SelectionIsAffordable(scores, costs, budget, ids);
    var selected := Selected(scores, costs, budget, ids);
    forall i | 0 <= i < |selected|
      ensures selected[i] in costs
    {
      assert selected[i] in ids;
    }
    TotalIsUsed(scores, costs, selected);
  }

  // ---- v2 ----

  /** The v2 client: without a budget in force, or with stage 2 disabled, every survivor. */
  function FlatUpload(enabled: bool, cached: Option<real>, scores: map<int, real>, costs: map<int, real>,
                      survivors: seq<int>): seq<int> {
    match InForce(cached)
    case None => survivors
    case Some(budget) => if enabled then Selected(scores, costs, budget, survivors) else survivors
  }

  /** A v2 upload keeps within its cached budget exactly if stage 2 is enabled and the budget is not
      zero, or everything fits anyway. */
  lemma FlatWithinBudgetIff(enabled: bool, budget: real, scores: map<int, real>, costs: map<int, real>,
                            survivors: seq<int>)
    requires Distinct(survivors) && forall i :: 0 <= i < |survivors| ==> survivors[i] in costs
    ensures Used(costs, FlatUpload(enabled, Some(budget), scores, costs, survivors)) <= Cap(budget)
            <==> (enabled && budget != 0.0) || Used(costs, survivors) <= Cap(budget)
  {
    SelectedWithinBudget(scores, costs, budget, survivors);
  }

  // ---- v3 ----

  /** Both modes of greedy_select_by_score_cost_ratio_grouped; `keys` is the score dict's order. */
  function GroupedSelection(scores: Reals, costs: Reals, budget: real, keys: seq<Cid>, globally: bool): seq<Cid> {
    if globally then Selected(scores, costs, budget, keys)
    else if budget <= 0.0 || keys == [] then []
    else Ids(TakenOver(keys, scores, costs, budget, LayerOrder(keys)))
  }

  /** With stage 2 disabled or nothing selected, every survivor. */
  function OrEverything(enabled: bool, selected: seq<Cid>, survivors: seq<Cid>): seq<Cid> {
    if !enabled || selected == [] then survivors else selected
  }

  lemma EverythingUnless(enabled: bool, selected: seq<Cid>, survivors: seq<Cid>, fits: bool)
    requires selected == [] <==> !fits
    ensures OrEverything(enabled, selected, survivors) == if enabled && fits then selected else survivors
  {
  }

  /** The v3 client: with stage 2 disabled, every survivor; an infinite budget takes every scored
      component (in some order), and an empty selection stands for every survivor. */
  function GroupedUpload(enabled: bool, cached: Option<real>, scores: Reals, costs: Reals, keys: seq<Cid>,
                         globally: bool, survivors: seq<Cid>): seq<Cid> {
    match InForce(cached)
    case None => OrEverything(enabled, keys, survivors)
    case Some(budget) => OrEverything(enabled, GroupedSelection(scores, costs, budget, keys, globally), survivors)
  }

  /** What the components of a layer have to fit into. */
  function Room(budget: real, keys: seq<Cid>, layer: string, globally: bool): real
    requires keys != []
  {
    if globally then budget else Share(|LayerIds(keys, layer)|, |keys|, budget)
  }

  /** Some scored component on its own fits. */
  ghost predicate SomethingFits(costs: Reals, budget: real, keys: seq<Cid>, globally: bool) {
    budget > 0.0
    && exists i :: 0 <= i < |keys| && Lookup(costs, keys[i], 1.0) <= Room(budget, keys, keys[i].0, globally)
  }

  lemma {:induction false} TakenEmptyIff<T>(items: seq<Item<T>>, budget: real)
    ensures Taken(items, budget) == [] <==> forall x :: x in items ==> x.cost > budget
    decreases |items|
  {
    if items != [] {
      TakenEmptyIff(items[1..], budget);
      assert items == [items[0]] + items[1..];
    }
  }

  /** Nothing is selected of a list exactly if nothing on it fits. */
  lemma NothingTakenIff<T(!new)>(scores: map<T, real>, costs: map<T, real>, budget: real, ids: seq<T>)
    ensures Taken(Sort(ItemsOf(scores, costs, ids), ByRatio()), budget) == []
            <==> forall i :: 0 <= i < |ids| ==> Lookup(costs, ids[i], 1.0) > budget
  {
    var items := ItemsOf(scores, costs, ids);
    TakenEmptyIff(Sort(items, ByRatio()), budget);
    SortElements(items, ByRatio());
    forall i | 0 <= i < |ids|
      ensures items[i] in items && items[i].cost == Lookup(costs, ids[i], 1.0)
    {
    }
  }

  lemma {:induction false} NoneOverIsNoneOf(keys: seq<Cid>, scores: Reals, costs: Reals, budget: real,
                                            layers: seq<string>, n: nat)
    requires keys != [] && n < |layers| && TakenOver(keys, scores, costs, budget, layers) == []
    ensures LayerTaken(keys, scores, costs, budget, layers[n]) == []
    decreases |layers|
  {
    if n < |layers| - 1 {
      NoneOverIsNoneOf(keys, scores, costs, budget, layers[..|layers| - 1], n);
    }
  }

  lemma {:induction false} NoneOfIsNoneOver(keys: seq<Cid>, scores: Reals, costs: Reals, budget: real,
                                            layers: seq<string>)
    requires keys != []
    requires forall n :: 0 <= n < |layers| ==> LayerTaken(keys, scores, costs, budget, layers[n]) == []
    ensures TakenOver(keys, scores, costs, budget, layers) == []
    decreases |layers|
  {
    if layers != [] {
      NoneOfIsNoneOver(keys, scores, costs, budget, layers[..|layers| - 1]);
    }
  }

  lemma LayerTakenIff(keys: seq<Cid>, scores: Reals, costs: Reals, budget: real, layer: string)
    requires keys != []
    ensures LayerTaken(keys, scores, costs, budget, layer) == []
            <==> forall c :: c in keys && c.0 == layer ==> Lookup(costs, c, 1.0) > Room(budget, keys, layer, false)
  {
    var ids := LayerIds(keys, layer);
    NothingTakenIff(scores, costs, Share(|ids|, |keys|, budget), ids);
    forall c
      ensures c in ids <==> c in keys && c.0 == layer
    {
      LayerIdsMembers(keys, layer, c);
    }
    forall i | 0 <= i < |ids|
      ensures ids[i] in ids
    {
    }
  }

  lemma SelectionEmptyIff(scores: Reals, costs: Reals, budget: real, keys: seq<Cid>, globally: bool)
    ensures GroupedSelection(scores, costs, budget, keys, globally) == []
            <==> !SomethingFits(costs, budget, keys, globally)
  {
    if globally {
      NothingTakenIff(scores, costs, budget, keys);
    } else if budget > 0.0 && keys != [] {
      LayersEmptyIff(scores, costs, budget, keys);
    }
  }

  lemma LayersEmptyIff(scores: Reals, costs: Reals, budget: real, keys: seq<Cid>)
    requires budget > 0.0 && keys != []
    ensures TakenOver(keys, scores, costs, budget, LayerOrder(keys)) == []
            <==> !SomethingFits(costs, budget, keys, false)
  {
    var layers := LayerOrder(keys);
    if TakenOver(keys, scores, costs, budget, layers) == [] {
      forall i | 0 <= i < |keys|
        ensures Lookup(costs, keys[i], 1.0) > Room(budget, keys, keys[i].0, false)
      {
        var n :| 0 <= n < |layers| && layers[n] == keys[i].0;
        NoneOverIsNoneOf(keys, scores, costs, budget, layers, n);
        LayerTakenIff(keys, scores, costs, budget, layers[n]);
        assert keys[i] in keys;
      }
    }
    if !SomethingFits(costs, budget, keys, false) {
      forall n | 0 <= n < |layers|
        ensures LayerTaken(keys, scores, costs, budget, layers[n]) == []
      {
        LayerTakenIff(keys, scores, costs, budget, layers[n]);
      }
      NoneOfIsNoneOver(keys, scores, costs, budget, layers);
    }
  }

  // ---- what the per-layer selection uses ----

  /** Items as the selection makes them, for components that have a cost. */
  ghost predicate Priced(items: seq<Item<Cid>>, scores: Reals, costs: Reals) {
    forall x :: x in items ==> x == ItemOf(scores, costs, x.id) && x.id in costs
  }

  lemma {:induction false} UsedOfItems(items: seq<Item<Cid>>, scores: Reals, costs: Reals)
    requires Priced(items, scores, costs)
    ensures Used(costs, Ids(items)) == Sum(items, CostOf())
  {
    if items != [] {
      UsedOfItems(items[1..], scores, costs);
      assert items[0] in items;
      assert Ids(items)[1..] == Ids(items[1..]);
    }
  }

  lemma LayerTakenPriced(keys: seq<Cid>, scores: Reals, costs: Reals, budget: real, layer: string)
    requires keys != [] && forall c :: c in keys ==> c in costs
    ensures Priced(LayerTaken(keys, scores, costs, budget, layer), scores, costs)
  {
    var ids := LayerIds(keys, layer);
    var items := ItemsOf(scores, costs, ids);
    forall x | x in LayerTaken(keys, scores, costs, budget, layer)
      ensures x == ItemOf(scores, costs, x.id) && x.id in costs
    {
      TakenInside(Sort(items, ByRatio()), Share(|ids|, |keys|, budget), x);
      SortElement(items, ByRatio(), x);
      var i :| 0 <= i < |items| && items[i] == x;
      LayerIdsMembers(keys, layer, ids[i]);
    }
  }

  lemma {:induction false} TakenOverPriced(keys: seq<Cid>, scores: Reals, costs: Reals, budget: real,
                                           layers: seq<string>)
    requires keys != [] && forall c :: c in keys ==> c in costs
    ensures Priced(TakenOver(keys, scores, costs, budget, layers), scores, costs)
    decreases |layers|
  {
    if layers != [] {
      TakenOverPriced(keys, scores, costs, budget, layers[..|layers| - 1]);
      LayerTakenPriced(keys, scores, costs, budget, layers[|layers| - 1]);
    }
  }

  lemma SelectionWithinCap(scores: Reals, costs: Reals, budget: real, keys: seq<Cid>, globally: bool)
    requires Distinct(keys) && forall i :: 0 <= i < |keys| ==> keys[i] in costs
    ensures Used(costs, GroupedSelection(scores, costs, budget, keys, globally)) <= Cap(budget)
  {
    if globally {
      SelectedWithinBudget(scores, costs, budget, keys);
    } else if budget > 0.0 && keys != [] {
      PerLayerWithinBudget(keys, scores, costs, budget);
      TakenOverPriced(keys, scores, costs, budget, LayerOrder(keys));
      UsedOfItems(TakenOver(keys, scores, costs, budget, LayerOrder(keys)), scores, costs);
    }
  }

  /** What the v3 client's tests come to under a budget. */
  lemma UploadUnderBudget(enabled: bool, budget: real, scores: Reals, costs: Reals, keys: seq<Cid>,
                          globally: bool, survivors: seq<Cid>)
    requires budget != 0.0
    ensures GroupedUpload(enabled, Some(budget), scores, costs, keys, globally, survivors)
            == if enabled && SomethingFits(costs, budget, keys, globally)
               then GroupedSelection(scores, costs, budget, keys, globally) else survivors
  {
    SelectionEmptyIff(scores, costs, budget, keys, globally);
    EverythingUnless(enabled, GroupedSelection(scores, costs, budget, keys, globally), survivors,
                     SomethingFits(costs, budget, keys, globally));
  }

  /** And under a cached zero. */
  lemma UploadUnderZero(enabled: bool, scores: Reals, costs: Reals, keys: seq<Cid>, globally: bool, survivors: seq<Cid>)
    ensures GroupedUpload(enabled, Some(0.0), scores, costs, keys, globally, survivors)
            == if enabled && keys != [] then keys else survivors
  {
  }

  /** A v3 upload keeps within its cached budget exactly if stage 2 is enabled and some scored component
      on its own fits, into the budget or into its layer's share, or everything does; under a cached
      budget of zero, exactly if all scored components use nothing. */
  lemma GroupedWithinBudgetIff(enabled: bool, budget: real, scores: Reals, costs: Reals, keys: seq<Cid>,
                               globally: bool, survivors: seq<Cid>)
    requires Distinct(keys) && forall i :: 0 <= i < |keys| ==> keys[i] in costs
    ensures Used(costs, GroupedUpload(enabled, Some(budget), scores, costs, keys, globally, survivors)) <= Cap(budget)
            <==> if enabled && budget == 0.0 && keys != [] then Used(costs, keys) <= 0.0
                 else (enabled && SomethingFits(costs, budget, keys, globally))
                      || Used(costs, survivors) <= Cap(budget)
  {
    if budget == 0.0 {
      UploadUnderZero(enabled, scores, costs, keys, globally, survivors);
    } else {
      SelectionWithinCap(scores, costs, budget, keys, globally);
      UploadUnderBudget(enabled, budget, scores, costs, keys, globally, survivors);
    }
  }

  // ---- budgets that are exceeded ----

  lemma OnlyOfLayer(id: Cid)
    ensures LayerIds([id], id.0) == [id]
  {
    assert IndicesIn([id], id.0) == [id.1];
    assert SortedIndices([id], id.0) == [id.1];
  }

  lemma OneDoesNotFit(id: Cid, costs: Reals, budget: real, globally: bool)
    requires id in costs && costs[id] > budget
    ensures !SomethingFits(costs, budget, [id], globally)
  {
    OnlyOfLayer(id);
    WholeShare(1, budget);
  }

  lemma UsedByOne<T>(costs: map<T, real>, id: T)
    requires id in costs
    ensures Used(costs, [id]) == costs[id]
  {
    assert Sum([id][1..], CostIn(costs)) == 0.0;
  }

  /** At a concrete input, in both modes: a component of cost 2 under a budget of 1 is uploaded. */
  lemma TooSmallBudgetUploadsAll(layer: string, globally: bool)
    ensures var id := (layer, 0);
            var scores, costs := map[id := 1.0], map[id := 2.0];
            && GroupedUpload(true, Some(1.0), scores, costs, [id], globally, [id]) == [id]
            && Used(costs, [id]) == 2.0
  {
    var id := (layer, 0);
    var scores, costs := map[id := 1.0], map[id := 2.0];
    OneDoesNotFit(id, costs, 1.0, globally);
    UploadUnderBudget(true, 1.0, scores, costs, [id], globally, [id]);
    UsedByOne(costs, id);
  }

  /** At a concrete input, with stage 2 enabled in both versions: a component of cost 2 under a cached
      budget of zero is uploaded. */
  lemma ZeroBudgetUploadsAll(layer: string, globally: bool)
    ensures var id := (layer, 0);
            && FlatUpload(true, Some(0.0), map[0 := 1.0], map[0 := 2.0], [0]) == [0]
            && Used(map[0 := 2.0], [0]) == 2.0
            && GroupedUpload(true, Some(0.0), map[id := 1.0], map[id := 2.0], [id], globally, [id]) == [id]
            && Used(map[id := 2.0], [id]) == 2.0
  {
    var id := (layer, 0);
    UsedByOne(map[0 := 2.0], 0);
    UsedByOne(map[id := 2.0], id);
    UploadUnderZero(true, map[id := 1.0], map[id := 2.0], [id], globally, [id]);
  }
}
