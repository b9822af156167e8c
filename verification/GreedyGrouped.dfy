/** v3's per-layer selection: the budget is split over the layers in proportion to their sizes and
    each layer spends its own share greedily. */
module GreedyGrouped {
  import opened Seqs
  import opened Components
  import opened Greedy

  type Reals = map<Cid, real>

  /** A layer's budget, proportional to its size: ShareIsProportional gives it as the source does. */
  function Share(n: nat, total: nat, budget: real): real
    requires total > 0
  {
    Times(n, budget / total as real)
  }

  lemma ShareIsProportional(n: nat, total: nat, budget: real)
    requires total > 0
    ensures Share(n, total, budget) == budget * (n as real / total as real)
  {
    TimesIsProduct(n, budget / total as real);
  }

  function LayerTaken(keys: seq<Cid>, scores: Reals, costs: Reals, budget: real, layer: string): seq<Item<Cid>>
    requires keys != []
  {
    var ids := LayerIds(keys, layer);
    Taken(Sort(ItemsOf(scores, costs, ids), ByRatio()), Share(|ids|, |keys|, budget))
  }

  function TakenOver(keys: seq<Cid>, scores: Reals, costs: Reals, budget: real, layers: seq<string>): seq<Item<Cid>>
    requires keys != []
    decreases |layers|
  {
    if layers == [] then []
    else
      TakenOver(keys, scores, costs, budget, layers[..|layers| - 1])
      + LayerTaken(keys, scores, costs, budget, layers[|layers| - 1])
  }

  /** The per-layer mode of greedy_select_by_score_cost_ratio_grouped. */
  method GreedySelectPerLayer(keys: seq<Cid>, scores: Reals, costs: Reals, budget: real) returns (selected: seq<Cid>)
    ensures budget <= 0.0 || keys == [] ==> selected == []
    ensures budget > 0.0 && keys != [] ==>
              selected == Ids(TakenOver(keys, scores, costs, budget, LayerOrder(keys)))
  {
    if budget <= 0.0 || keys == [] {
      return [];
    }
    selected := SpendShares(keys, scores, costs, budget, LayerOrder(keys));
  }

  /** The loop over the layers. */
  method SpendShares(keys: seq<Cid>, scores: Reals, costs: Reals, budget: real, layers: seq<string>)
    returns (selected: seq<Cid>)
    requires keys != []
    ensures selected == Ids(TakenOver(keys, scores, costs, budget, layers))
  {
    selected := [];
    for n := 0 to |layers|
      invariant selected == Ids(TakenOver(keys, scores, costs, budget, layers[..n]))
    {
      var layerSelected := SpendLayer(keys, scores, costs, budget, layers[n]);
      TakenOverNext(keys, scores, costs, budget, layers, n);
      selected := selected + layerSelected;
    }
    assert layers[..|layers|] == layers;
  }

  /** One layer: its ratios sorted, its share spent. */
  method SpendLayer(keys: seq<Cid>, scores: Reals, costs: Reals, budget: real, layer: string)
    returns (selected: seq<Cid>)
    requires keys != []
    ensures selected == Ids(LayerTaken(keys, scores, costs, budget, layer))
  {
    var ids := LayerIds(keys, layer);
    selected := SpendShare(Sort(ItemsOf(scores, costs, ids), ByRatio()), Share(|ids|, |keys|, budget));
  }

  lemma TakenOverNext(keys: seq<Cid>, scores: Reals, costs: Reals, budget: real, layers: seq<string>, n: nat)
    requires keys != [] && n < |layers|
    ensures Ids(TakenOver(keys, scores, costs, budget, layers[..n + 1]))
            == Ids(TakenOver(keys, scores, costs, budget, layers[..n]))
               + Ids(LayerTaken(keys, scores, costs, budget, layers[n]))
  {
    assert layers[..n + 1][..n] == layers[..n];
    IdsAppend(TakenOver(keys, scores, costs, budget, layers[..n]), LayerTaken(keys, scores, costs, budget, layers[n]));
  }

  /** The inner loop over one layer's sorted ratios. */
  method SpendShare(ratios: seq<Item<Cid>>, share: real) returns (selected: seq<Cid>)
    ensures selected == Ids(Taken(ratios, share))
  {
    selected := [];
    var remaining := share;
    ghost var taken: seq<Item<Cid>> := [];
    for n := 0 to |ratios|
      invariant Taken(ratios, share) == taken + Taken(ratios[n..], remaining)
      invariant selected == Ids(taken)
    {
      assert ratios[n..][1..] == ratios[n + 1..];
      if ratios[n].cost <= remaining {
        selected := selected + [ratios[n].id];
        remaining := remaining - ratios[n].cost;
        taken := taken + [ratios[n]];
      }
    }
    assert taken == Taken(ratios, share);
  }

  function ShareTotal(keys: seq<Cid>, budget: real, layers: seq<string>): real
    requires keys != []
    decreases |layers|
  {
    if layers == [] then 0.0
    else
      ShareTotal(keys, budget, layers[..|layers| - 1])
      + Share(|LayerIds(keys, layers[|layers| - 1])|, |keys|, budget)
  }

  lemma ShareOfLast(keys: seq<Cid>, budget: real, unit: real, layers: seq<string>)
    requires keys != [] && layers != [] && unit == budget / |keys| as real
    ensures ShareTotal(keys, budget, layers)
            == ShareTotal(keys, budget, layers[..|layers| - 1])
               + Times(|IndicesIn(keys, layers[|layers| - 1])|, unit)
  {
  }

  lemma CountsOfLast(keys: seq<Cid>, unit: real, layers: seq<string>)
    requires layers != []
    ensures Times(CountIn(keys, layers), unit)
            == Times(CountIn(keys, layers[..|layers| - 1]), unit)
               + Times(|IndicesIn(keys, layers[|layers| - 1])|, unit)
  {
    var before, layer := layers[..|layers| - 1], layers[|layers| - 1];
    assert layers == before + [layer];
    CountAppend(keys, before, layer);
    TimesAdd(CountIn(keys, before), |IndicesIn(keys, layer)|, unit);
  }

  /** `unit` is the part of the budget that one component stands for. */
  lemma {:induction false} ShareOfCounts(keys: seq<Cid>, budget: real, unit: real, layers: seq<string>)
    requires keys != [] && unit == budget / |keys| as real
    ensures ShareTotal(keys, budget, layers) == Times(CountIn(keys, layers), unit)
    decreases |layers|
  {
    if layers != [] {
      ShareOfCounts(keys, budget, unit, layers[..|layers| - 1]);
      ShareOfLast(keys, budget, unit, layers);
      CountsOfLast(keys, unit, layers);
    }
  }

  lemma WholeShare(n: nat, budget: real)
    requires n > 0
    ensures Share(n, n, budget) == budget
  {
    TimesIsProduct(n, budget / n as real);
  }

  /** The layer shares sum to the budget. */
  lemma SharesSumToBudget(keys: seq<Cid>, budget: real)
    requires keys != []
    ensures ShareTotal(keys, budget, LayerOrder(keys)) == budget
  {
    LayerSizes(keys);
    ShareOfCounts(keys, budget, budget / |keys| as real, LayerOrder(keys));
    WholeShare(|keys|, budget);
  }

  lemma {:induction false} TimesNonNegative(n: nat, x: real)
    requires x >= 0.0
    ensures Times(n, x) >= 0.0
  {
    if n > 0 {
      TimesNonNegative(n - 1, x);
    }
  }

  lemma LayerWithinShare(keys: seq<Cid>, scores: Reals, costs: Reals, budget: real, layer: string)
    requires keys != [] && budget > 0.0
    ensures Sum(LayerTaken(keys, scores, costs, budget, layer), CostOf())
            <= Share(|LayerIds(keys, layer)|, |keys|, budget)
  {
    var ids := LayerIds(keys, layer);
    TimesNonNegative(|ids|, budget / |keys| as real);
    TakenWithinBudget(Sort(ItemsOf(scores, costs, ids), ByRatio()), Share(|ids|, |keys|, budget));
  }

  lemma {:induction false} CostWithinShares(keys: seq<Cid>, scores: Reals, costs: Reals, budget: real,
                                            layers: seq<string>)
    requires keys != [] && budget > 0.0
    ensures Sum(TakenOver(keys, scores, costs, budget, layers), CostOf()) <= ShareTotal(keys, budget, layers)
    decreases |layers|
  {
    if layers != [] {
      var before, layer := layers[..|layers| - 1], layers[|layers| - 1];
      CostWithinShares(keys, scores, costs, budget, before);
      LayerWithinShare(keys, scores, costs, budget, layer);
      SumAppend(TakenOver(keys, scores, costs, budget, before),
                LayerTaken(keys, scores, costs, budget, layer), CostOf());
    }
  }

  /** The total cost over all layers is within the whole budget. */
  lemma PerLayerWithinBudget(keys: seq<Cid>, scores: Reals, costs: Reals, budget: real)
    requires keys != [] && budget > 0.0
    ensures Sum(TakenOver(keys, scores, costs, budget, LayerOrder(keys)), CostOf()) <= budget
  {
    CostWithinShares(keys, scores, costs, budget, LayerOrder(keys));
    SharesSumToBudget(keys, budget);
  }

  /** Costs are equal inside a layer, so each layer's selection is the best its share affords. */
  lemma LayerSelectionIsOptimal(keys: seq<Cid>, scores: Reals, costs: Reals, budget: real, layer: string, cost: real,
                                choice: seq<Cid>)
    requires budget > 0.0 && cost > 0.0 && LayerIds(keys, layer) != []
    requires PricedIds(scores, costs, LayerIds(keys, layer))
    requires forall i :: 0 <= i < |LayerIds(keys, layer)| ==> Lookup(costs, LayerIds(keys, layer)[i], 1.0) == cost
    requires Distinct(choice)
    requires forall i :: 0 <= i < |choice| ==> choice[i] in LayerIds(keys, layer)
    requires TotalCost(scores, costs, choice) <= Share(|LayerIds(keys, layer)|, |keys|, budget)
    ensures var taken := LayerTaken(keys, scores, costs, budget, layer);
            && FitCount(|taken|, |LayerIds(keys, layer)|, cost, Share(|LayerIds(keys, layer)|, |keys|, budget))
            && TotalScore(scores, costs, choice) <= Sum(taken, ScoreOf())
  {
    var ids := LayerIds(keys, layer);
    var share := Share(|ids|, |keys|, budget);
    TimesNonNegative(|ids| - 1, budget / |keys| as real);
    assert budget / |keys| as real > 0.0;
    ItemsInside(scores, costs, choice, ids);
    UniformGreedyIsOptimal(ItemsOf(scores, costs, ids), cost, share, ItemsOf(scores, costs, choice));
  }
}
