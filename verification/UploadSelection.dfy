/** The upload scores and costs of an effective update, handed to the greedy selection under a budget.
    Under any non-negative norm they meet what its optimality needs. ClientUpload has the clients'
    fallbacks for a budget that is missing, zero or too small. */
module UploadSelection {
  import opened Seqs
  import opened Tensors
  import opened Components
  import opened Greedy
  import opened GreedyGrouped
  import opened LayerSum
  import V3 = AdaSparseV3

  ghost predicate IsNorm(norm: Vec -> real) {
    forall v :: norm(v) >= 0.0
  }

  lemma {:induction false} SumNonNegative<T>(s: seq<T>, f: T -> real)
    requires forall i :: 0 <= i < |s| ==> f(s[i]) >= 0.0
    ensures Sum(s, f) >= 0.0
  {
    if s != [] {
      SumNonNegative(s[1..], f);
    }
  }

  lemma FlatScoresNonNegative(update: Dict, layers: seq<string>, survivors: seq<int>, norm: Vec -> real, g: int)
    requires IsNorm(norm)
    ensures Lookup(LayerSums(survivors, layers, ExpandedScores(update, layers, survivors, norm)), g, 0.0) >= 0.0
  {
    var v3 := ExpandedScores(update, layers, survivors, norm);
    ScoresNonNegative(update, Normalize(Flat(survivors), layers), norm);
    forall i | 0 <= i < |layers|
      ensures ScoreTerm(v3, g)(layers[i]) >= 0.0
    {
    }
    SumNonNegative(layers, ScoreTerm(v3, g));
  }

  /** Metadata bits make every cost positive. */
  lemma CostsPositive(update: Dict, items: seq<Key>, layer: string, qBits: nat, cmetaBits: nat)
    requires cmetaBits > 0
    ensures FlatCost(update, items, qBits, cmetaBits) > 0.0
    ensures LayerCost(update, qBits, cmetaBits)(layer) > 0.0
  {
    SumNonNegative(items, Width(update));
    TimesNonNegative(qBits, Sum(items, Width(update)));
    TimesNonNegative(qBits, PairWidth(update)(layer));
  }

  /** v2: with the scores and costs of compute_stage2_upload_scores and
      compute_component_upload_cost, the greedy selection takes min(n, floor(budget / cost))
      survivors and no affordable choice has a larger total score. */
  lemma FlatUploadIsOptimal(update: Dict, items: seq<Key>, layers: seq<string>, survivors: seq<int>, norm: Vec -> real,
                            qBits: nat, cmetaBits: nat, costs: map<int, real>, budget: real, choice: seq<int>)
    requires IsNorm(norm) && budget > 0.0 && FlatCost(update, items, qBits, cmetaBits) > 0.0
    requires forall g :: g in costs <==> g in survivors
    requires forall g :: g in costs ==> costs[g] == FlatCost(update, items, qBits, cmetaBits)
    requires Distinct(choice) && (forall i :: 0 <= i < |choice| ==> choice[i] in survivors)
    ensures var scores := LayerSums(survivors, layers, ExpandedScores(update, layers, survivors, norm));
            var selected := Selected(scores, costs, budget, survivors);
            && FitCount(|selected|, |survivors|, FlatCost(update, items, qBits, cmetaBits), budget)
            && (TotalCost(scores, costs, choice) <= budget ==>
                  TotalScore(scores, costs, choice) <= TotalScore(scores, costs, selected))
  {
    var cost := FlatCost(update, items, qBits, cmetaBits);
    var scores := LayerSums(survivors, layers, ExpandedScores(update, layers, survivors, norm));
    forall i | 0 <= i < |survivors|
      ensures Lookup(costs, survivors[i], 1.0) == cost && Lookup(scores, survivors[i], 0.0) >= 0.0
    {
      var g := survivors[i];
      assert g in survivors && g in costs;
      FlatScoresNonNegative(update, layers, survivors, norm, survivors[i]);
    }
    UniformSelectionIsOptimal(scores, costs, cost, budget, survivors, []);
    if TotalCost(scores, costs, choice) <= budget {
      UniformSelectionIsOptimal(scores, costs, cost, budget, survivors, choice);
    }
  }

  /** Every scored component of a layer has that layer's cost. */
  lemma LayerIsUniform(update: Dict, byLayer: Grouped, norm: Vec -> real, qBits: nat, cmetaBits: nat,
                       keys: seq<Cid>, layer: string, i: nat)
    requires forall c :: c in keys <==> c in GroupedScores(update, byLayer, norm)
    requires IsNorm(norm) && i < |LayerIds(keys, layer)|
    ensures var id := LayerIds(keys, layer)[i];
            && Lookup(GroupedCosts(update, byLayer, qBits, cmetaBits), id, 1.0)
               == LayerCost(update, qBits, cmetaBits)(layer)
            && Lookup(GroupedScores(update, byLayer, norm), id, 0.0) >= 0.0
  {
    var id := LayerIds(keys, layer)[i];
    LayerIdsMembers(keys, layer, id);
    ScoresNonNegative(update, byLayer, norm);
    assert id in keys && id == (id.0, id.1);
    assert Scored(update, byLayer, id.0, id.1);
    GroupedCostsOf(update, byLayer, qBits, cmetaBits, layer);
  }

  /** One layer, for any scores and a uniform positive cost. */
  lemma UniformLayer(keys: seq<Cid>, scores: Reals, costs: Reals, budget: real, layer: string, cost: real,
                     choice: seq<Cid>)
    requires budget > 0.0 && cost > 0.0 && LayerIds(keys, layer) != []
    requires forall i :: 0 <= i < |LayerIds(keys, layer)| ==>
               && Lookup(costs, LayerIds(keys, layer)[i], 1.0) == cost
               && Lookup(scores, LayerIds(keys, layer)[i], 0.0) >= 0.0
    requires Distinct(choice) && (forall i :: 0 <= i < |choice| ==> choice[i] in LayerIds(keys, layer))
    ensures keys != []
    ensures var share := Share(|LayerIds(keys, layer)|, |keys|, budget);
            var taken := LayerTaken(keys, scores, costs, budget, layer);
            && FitCount(|taken|, |LayerIds(keys, layer)|, cost, share)
            && (TotalCost(scores, costs, choice) <= share ==>
                  TotalScore(scores, costs, choice) <= Sum(taken, Greedy.ScoreOf()))
  {
    var ids := LayerIds(keys, layer);
    TimesNonNegative(|ids|, budget / |keys| as real);
    LayerSelectionIsOptimal(keys, scores, costs, budget, layer, cost, []);
    if TotalCost(scores, costs, choice) <= Share(|ids|, |keys|, budget) {
      LayerSelectionIsOptimal(keys, scores, costs, budget, layer, cost, choice);
    }
  }

  /** v3 per layer: with the grouped scores and costs, each layer's selection takes as many of its
      components as its share of the budget holds, and no choice within that share scores more.
      `keys` is the insertion order of the score dict. */
  lemma LayerUploadIsOptimal(update: Dict, byLayer: Grouped, norm: Vec -> real, qBits: nat, cmetaBits: nat,
                             keys: seq<Cid>, layer: string, budget: real, choice: seq<Cid>)
    requires IsNorm(norm) && budget > 0.0 && LayerCost(update, qBits, cmetaBits)(layer) > 0.0
    requires forall c :: c in keys <==> c in GroupedScores(update, byLayer, norm)
    requires LayerIds(keys, layer) != []
    requires Distinct(choice) && (forall i :: 0 <= i < |choice| ==> choice[i] in LayerIds(keys, layer))
    ensures keys != []
    ensures var scores := GroupedScores(update, byLayer, norm);
            var costs := GroupedCosts(update, byLayer, qBits, cmetaBits);
            var share := Share(|LayerIds(keys, layer)|, |keys|, budget);
            var taken := LayerTaken(keys, scores, costs, budget, layer);
            && FitCount(|taken|, |LayerIds(keys, layer)|, LayerCost(update, qBits, cmetaBits)(layer), share)
            && (TotalCost(scores, costs, choice) <= share ==>
                  TotalScore(scores, costs, choice) <= Sum(taken, Greedy.ScoreOf()))
  {
    forall i | 0 <= i < |LayerIds(keys, layer)|
      ensures var id := LayerIds(keys, layer)[i];
              && Lookup(GroupedCosts(update, byLayer, qBits, cmetaBits), id, 1.0)
                 == LayerCost(update, qBits, cmetaBits)(layer)
              && Lookup(GroupedScores(update, byLayer, norm), id, 0.0) >= 0.0
    {
      LayerIsUniform(update, byLayer, norm, qBits, cmetaBits, keys, layer, i);
    }
    UniformLayer(keys, GroupedScores(update, byLayer, norm), GroupedCosts(update, byLayer, qBits, cmetaBits), budget,
                 layer, LayerCost(update, qBits, cmetaBits)(layer), choice);
  }
}
