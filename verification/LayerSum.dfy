/** v2 is the layer-sum of v3: with one survivor list shared by all layers, v2's scores are sums of
    v3's, its costs are sums up to shared metadata, and the residual buffers hold the same entries as
    long as no layer has just one of its tensors. */
module LayerSum {
  import opened Seqs
  import opened Tensors
  import opened Components
  import opened Greedy
  import Ledger
  import V2 = AdaSparseV2
  import V3 = AdaSparseV3

  // ---- upload scores ----

  predicate HasPosition(update: Dict, layer: string, p: nat) {
    V3.HasLayer(update, layer) && p < |update[LoraA(layer)].slices| && p < |update[LoraB(layer)].slices|
  }

  /** norm(row of A) * norm(column of B) at one local position of one layer. */
  function PairScore(update: Dict, norm: Vec -> real, layer: string, p: nat): real
    requires HasPosition(update, layer, p)
  {
    norm(update[LoraA(layer)].slices[p]) * norm(update[LoraB(layer)].slices[p])
  }

  predicate Scored(update: Dict, byLayer: Grouped, layer: string, g: int) {
    layer in byLayer && g in byLayer[layer] && HasPosition(update, layer, LastIndex(byLayer[layer], g))
  }

  function GroupedScores(update: Dict, byLayer: Grouped, norm: Vec -> real): (r: map<Cid, real>)
    ensures forall l, g :: (l, g) in r <==> Scored(update, byLayer, l, g)
  {
    map l, g | l in byLayer && g in byLayer[l] && Scored(update, byLayer, l, g) ::
      (l, g) := PairScore(update, norm, l, LastIndex(byLayer[l], g))
  }

  method ComputeStage2UploadScoresGrouped(update: Dict, byLayer: Grouped, norm: Vec -> real)
    returns (scores: map<Cid, real>)
    requires forall l :: l in byLayer ==> Distinct(byLayer[l])
    ensures scores == GroupedScores(update, byLayer, norm)
  {
    scores := map[];
    ghost var goal := GroupedScores(update, byLayer, norm);
    var todo := byLayer.Keys;
    while todo != {}
      invariant todo <= byLayer.Keys
      invariant forall c :: c in scores <==> c in goal && c.0 !in todo
      invariant forall c :: c in scores ==> scores[c] == goal[c]
    {
      var layer :| layer in todo;
      if V3.HasLayer(update, layer) {
        scores := ScoreLayer(scores, update, byLayer, layer, norm);
      }
      todo := todo - {layer};
    }
  }

  /** One layer's pass over its survivors. */
  method ScoreLayer(before: map<Cid, real>, update: Dict, byLayer: Grouped, layer: string, norm: Vec -> real)
    returns (scores: map<Cid, real>)
    requires layer in byLayer && Distinct(byLayer[layer]) && V3.HasLayer(update, layer)
    requires forall c :: c in before ==> c.0 != layer
    ensures forall c :: c in scores <==>
                          c in before || (c.0 == layer && c in GroupedScores(update, byLayer, norm))
    ensures forall c :: c in scores ==>
                          scores[c] == if c in before then before[c] else GroupedScores(update, byLayer, norm)[c]
  {
    scores := before;
    ghost var goal := GroupedScores(update, byLayer, norm);
    var survivors := byLayer[layer];
    for n := 0 to |survivors|
      invariant forall c :: c in scores <==> c in before || (c.0 == layer && c.1 in survivors[..n] && c in goal)
      invariant forall c :: c in scores ==> scores[c] == if c in before then before[c] else goal[c]
    {
      LastIndexDistinct(survivors, n);
      assert survivors[..n + 1] == survivors[..n] + [survivors[n]];
      assert (layer, survivors[n]) in goal <==> Scored(update, byLayer, layer, survivors[n]);
      if n < |update[LoraA(layer)].slices| && n < |update[LoraB(layer)].slices| {
        scores := scores[(layer, survivors[n]) := PairScore(update, norm, layer, n)];
      }
    }
    assert survivors[..|survivors|] == survivors;
    assert forall c :: c in goal && c.0 == layer ==> c.1 in survivors;
  }

  /** Norms are non-negative, hence so are scores. */
  lemma ScoresNonNegative(update: Dict, byLayer: Grouped, norm: Vec -> real)
    requires forall v :: norm(v) >= 0.0
    ensures forall c :: c in GroupedScores(update, byLayer, norm) ==> GroupedScores(update, byLayer, norm)[c] >= 0.0
  {
    forall c | c in GroupedScores(update, byLayer, norm)
      ensures GroupedScores(update, byLayer, norm)[c] >= 0.0
    {
      var (l, g) := c;
      assert (l, g) in GroupedScores(update, byLayer, norm);
      var p := LastIndex(byLayer[l], g);
      assert norm(update[LoraA(l)].slices[p]) >= 0.0 && norm(update[LoraB(l)].slices[p]) >= 0.0;
    }
  }

  function ScoreTerm(scores: map<Cid, real>, g: int): string -> real {
    (layer: string) => Lookup(scores, (layer, g), 0.0)
  }

  /** v3's scores when the flat survivor list is expanded to every layer. */
  function ExpandedScores(update: Dict, layers: seq<string>, survivors: seq<int>, norm: Vec -> real): map<Cid, real> {
    GroupedScores(update, Normalize(Flat(survivors), layers), norm)
  }

  /** `v3` gives, for each layer and each survivor position, the norm product there (or nothing). */
  ghost predicate NormProducts(update: Dict, layers: seq<string>, survivors: seq<int>, norm: Vec -> real,
                               v3: map<Cid, real>) {
    forall n, p :: 0 <= n < |layers| && 0 <= p < |survivors| ==>
                     ScoreTerm(v3, survivors[p])(layers[n])
                     == if HasPosition(update, layers[n], p) then PairScore(update, norm, layers[n], p) else 0.0
  }

  lemma ExpandedProducts(update: Dict, layers: seq<string>, survivors: seq<int>, norm: Vec -> real)
    requires Distinct(survivors)
    ensures NormProducts(update, layers, survivors, norm, ExpandedScores(update, layers, survivors, norm))
  {
    forall n, p | 0 <= n < |layers| && 0 <= p < |survivors|
      ensures ScoreTerm(ExpandedScores(update, layers, survivors, norm), survivors[p])(layers[n])
              == if HasPosition(update, layers[n], p) then PairScore(update, norm, layers[n], p) else 0.0
    {
      ExpandedTerm(update, layers, survivors, norm, layers[n], p);
    }
  }

  lemma ExpandedTerm(update: Dict, layers: seq<string>, survivors: seq<int>, norm: Vec -> real, layer: string, p: nat)
    requires Distinct(survivors) && layer in layers && p < |survivors|
    ensures ScoreTerm(ExpandedScores(update, layers, survivors, norm), survivors[p])(layer)
            == if HasPosition(update, layer, p) then PairScore(update, norm, layer, p) else 0.0
  {
    LastIndexDistinct(survivors, p);
    var byLayer := Normalize(Flat(survivors), layers);
    assert layer in byLayer && byLayer[layer] == survivors && survivors[p] in survivors;
    assert LastIndex(byLayer[layer], survivors[p]) == p;
    assert Scored(update, byLayer, layer, survivors[p]) <==> HasPosition(update, layer, p);
  }

  /** Per survivor, the sum of v3's scores of that index over some layers. */
  function LayerSums(survivors: seq<int>, layers: seq<string>, v3: map<Cid, real>): (r: map<int, real>)
    ensures r.Keys == set g | g in survivors
    ensures forall g :: g in r ==> r[g] == Sum(layers, ScoreTerm(v3, g))
  {
    map g | g in survivors :: Sum(layers, ScoreTerm(v3, g))
  }

  /** `after` is `before` with one layer's scores added. */
  ghost predicate LayerAdded(before: map<int, real>, after: map<int, real>, layer: string, v3: map<Cid, real>) {
    after.Keys == before.Keys && forall g :: g in before ==> after[g] == before[g] + ScoreTerm(v3, g)(layer)
  }

  lemma SumsGrow(survivors: seq<int>, layers: seq<string>, layer: string, v3: map<Cid, real>, after: map<int, real>)
    requires LayerAdded(LayerSums(survivors, layers, v3), after, layer, v3)
    ensures after == LayerSums(survivors, layers + [layer], v3)
  {
    forall g | g in after
      ensures after[g] == Sum(layers + [layer], ScoreTerm(v3, g))
    {
      SumSnoc(layers, layer, ScoreTerm(v3, g));
    }
  }

  /** compute_stage2_upload_scores: zero per survivor, then one layer after another adds its
      norm products. Each score ends as the sum of v3's scores of that index over the layers. */
  method ComputeStage2UploadScores(update: Dict, layers: seq<string>, survivors: seq<int>, norm: Vec -> real)
    returns (scores: map<int, real>)
    requires Distinct(survivors)
    ensures scores == LayerSums(survivors, layers, ExpandedScores(update, layers, survivors, norm))
  {
    ExpandedProducts(update, layers, survivors, norm);
    scores := AddLayers(update, layers, survivors, norm, ExpandedScores(update, layers, survivors, norm));
  }

  method AddLayers(update: Dict, layers: seq<string>, survivors: seq<int>, norm: Vec -> real, ghost v3: map<Cid, real>)
    returns (scores: map<int, real>)
    requires Distinct(survivors) && NormProducts(update, layers, survivors, norm, v3)
    ensures scores == LayerSums(survivors, layers, v3)
  {
    scores := map g | g in survivors :: 0.0;
    for n := 0 to |layers|
      invariant scores == LayerSums(survivors, layers[..n], v3)
    {
      scores := AddLayer(update, layers, n, survivors, norm, scores, v3);
      SumsGrow(survivors, layers[..n], layers[n], v3, scores);
      assert layers[..n + 1] == layers[..n] + [layers[n]];
    }
    assert layers[..|layers|] == layers;
  }

  /** One layer's pass over the local positions. */
  method AddLayer(update: Dict, layers: seq<string>, n: nat, survivors: seq<int>, norm: Vec -> real,
                  scores: map<int, real>, ghost v3: map<Cid, real>)
    returns (r: map<int, real>)
    requires Distinct(survivors) && n < |layers| && scores.Keys == set g | g in survivors
    requires NormProducts(update, layers, survivors, norm, v3)
    ensures LayerAdded(scores, r, layers[n], v3)
  {
    r := scores;
    var layer := layers[n];
    var localRank := 0;
    if V3.HasLayer(update, layer) {
      localRank := Min3(|update[LoraA(layer)].slices|, |update[LoraB(layer)].slices|, |survivors|);
    }
    for localPos := 0 to localRank
      invariant r.Keys == scores.Keys
      invariant forall p :: 0 <= p < |survivors| ==>
                              r[survivors[p]] == scores[survivors[p]]
                              + if p < localPos then PairScore(update, norm, layer, p) else 0.0
    {
      r := r[survivors[localPos] := r[survivors[localPos]] + PairScore(update, norm, layer, localPos)];
    }
    forall g | g in scores
      ensures r[g] == scores[g] + ScoreTerm(v3, g)(layer)
    {
      var p :| 0 <= p < |survivors| && survivors[p] == g;
      assert ScoreTerm(v3, survivors[p])(layers[n]) == if p < localRank then PairScore(update, norm, layer, p) else 0.0;
    }
  }

  function Min3(a: nat, b: nat, c: nat): (m: nat)
    ensures m <= a && m <= b && m <= c && (m == a || m == b || m == c)
  {
    if a <= b && a <= c then a else if b <= c then b else c
  }

  // ---- what the scores are, in terms of the tensors ----

  /** v3 scores a survivor exactly if both tensors of its layer reach its position, with the product of the
      norms of the two slices there. */
  lemma ScoreIsNormProduct(update: Dict, byLayer: Grouped, norm: Vec -> real, layer: string, p: nat)
    requires layer in byLayer && Distinct(byLayer[layer]) && p < |byLayer[layer]|
    ensures var scores, c, a, b := GroupedScores(update, byLayer, norm), (layer, byLayer[layer][p]), LoraA(layer),
                                   LoraB(layer);
            && (c in scores <==>
                  Has(update, a) && Has(update, b) && p < |update[a].slices| && p < |update[b].slices|)
            && (c in scores ==> scores[c] == norm(update[a].slices[p]) * norm(update[b].slices[p]))
  {
    LastIndexDistinct(byLayer[layer], p);
    assert (layer, byLayer[layer][p]) in GroupedScores(update, byLayer, norm) <==>
           Scored(update, byLayer, layer, byLayer[layer][p]);
  }

  /** The product of the two norms at one position of a layer, 0 where a tensor does not reach it. */
  function ProductAt(update: Dict, norm: Vec -> real, p: nat): string -> real {
    (l: string) =>
      if Has(update, LoraA(l)) && Has(update, LoraB(l))
         && p < |update[LoraA(l)].slices| && p < |update[LoraB(l)].slices|
      then norm(update[LoraA(l)].slices[p]) * norm(update[LoraB(l)].slices[p]) else 0.0
  }

  lemma TermIsProduct(update: Dict, norm: Vec -> real, layer: string, p: nat)
    ensures ProductAt(update, norm, p)(layer)
            == if HasPosition(update, layer, p) then PairScore(update, norm, layer, p) else 0.0
  {
  }

  /** v2 scores every survivor, with the sum over the layers of those products. */
  lemma FlatScoreIsSumOfProducts(update: Dict, layers: seq<string>, survivors: seq<int>, norm: Vec -> real, p: nat)
    requires Distinct(survivors) && p < |survivors|
    ensures var scores := LayerSums(survivors, layers, ExpandedScores(update, layers, survivors, norm));
            survivors[p] in scores && scores[survivors[p]] == Sum(layers, ProductAt(update, norm, p))
  {
    var v3 := ExpandedScores(update, layers, survivors, norm);
    forall i | 0 <= i < |layers|
      ensures ScoreTerm(v3, survivors[p])(layers[i]) == ProductAt(update, norm, p)(layers[i])
    {
      ExpandedTerm(update, layers, survivors, norm, layers[i], p);
      TermIsProduct(update, norm, layers[i], p);
    }
    assert survivors[p] in survivors;
    SumSame(layers, ScoreTerm(v3, survivors[p]), ProductAt(update, norm, p));
  }

  function ScaledVec(v: Vec, s: real): Vec {
    seq(|v|, i requires 0 <= i < |v| => s * v[i])
  }

  function ScaledTensor(t: Value, s: real): (r: Value)
    requires t.Tensor?
    ensures r.Tensor? && |r.slices| == |t.slices|
    ensures forall p :: 0 <= p < |r.slices| ==> r.slices[p] == ScaledVec(t.slices[p], s)
  {
    Tensor(seq(|t.slices|, p requires 0 <= p < |t.slices| => ScaledVec(t.slices[p], s)), t.width)
  }

  /** Every A tensor times `s` and every B tensor times `t`. */
  function Rescaled(update: Dict, s: real, t: real): (r: Dict)
    ensures r.Keys == update.Keys
    ensures forall k :: Has(update, k) && k.LoraA? ==> r[k] == ScaledTensor(update[k], s)
    ensures forall k :: Has(update, k) && k.LoraB? ==> r[k] == ScaledTensor(update[k], t)
    ensures forall k :: k in update && !Has(update, k) ==> r[k] == update[k]
  {
    map k | k in update ::
      if Has(update, k) then ScaledTensor(update[k], if k.LoraA? then s else t) else update[k]
  }

  ghost predicate Homogeneous(norm: Vec -> real) {
    forall v, s: real :: s > 0.0 ==> norm(ScaledVec(v, s)) == s * norm(v)
  }

  lemma ScalesCancel(s: real, t: real, x: real, y: real, x': real, y': real)
    requires s * t == 1.0 && x' == s * x && y' == t * y
    ensures x' * y' == x * y
  {
    assert x' * y' == (s * t) * (x * y);
  }

  /** Scores belong to the product of the two matrices: scaling A and B by inverse factors changes none. */
  lemma ScoresIgnoreScaling(update: Dict, byLayer: Grouped, norm: Vec -> real, s: real, t: real, layer: string, p: nat)
    requires s > 0.0 && t > 0.0 && s * t == 1.0 && Homogeneous(norm)
    requires layer in byLayer && Distinct(byLayer[layer]) && p < |byLayer[layer]|
    ensures var c := (layer, byLayer[layer][p]);
            var before := GroupedScores(update, byLayer, norm);
            var after := GroupedScores(Rescaled(update, s, t), byLayer, norm);
            (c in before <==> c in after) && (c in before ==> before[c] == after[c])
  {
    ScoreAt(update, byLayer, norm, layer, p);
    ScoreAt(Rescaled(update, s, t), byLayer, norm, layer, p);
    SamePositions(update, s, t, layer, p);
    if HasPosition(update, layer, p) {
      ScaledPosition(update, norm, s, t, layer, p);
    }
  }

  lemma ScoreAt(update: Dict, byLayer: Grouped, norm: Vec -> real, layer: string, p: nat)
    requires layer in byLayer && Distinct(byLayer[layer]) && p < |byLayer[layer]|
    ensures var scores, c := GroupedScores(update, byLayer, norm), (layer, byLayer[layer][p]);
            && (c in scores <==> HasPosition(update, layer, p))
            && (c in scores ==> scores[c] == PairScore(update, norm, layer, p))
  {
    ScoreIsNormProduct(update, byLayer, norm, layer, p);
  }

  lemma SamePositions(update: Dict, s: real, t: real, layer: string, p: nat)
    ensures HasPosition(Rescaled(update, s, t), layer, p) <==> HasPosition(update, layer, p)
  {
    var scaled, a, b := Rescaled(update, s, t), LoraA(layer), LoraB(layer);
    assert Has(scaled, a) <==> Has(update, a);
    assert Has(scaled, b) <==> Has(update, b);
  }

  lemma ScaledPosition(update: Dict, norm: Vec -> real, s: real, t: real, layer: string, p: nat)
    requires s > 0.0 && t > 0.0 && s * t == 1.0 && Homogeneous(norm) && HasPosition(update, layer, p)
    ensures var scaled := Rescaled(update, s, t);
            && HasPosition(scaled, layer, p)
            && PairScore(scaled, norm, layer, p) == PairScore(update, norm, layer, p)
  {
    var scaled, a, b := Rescaled(update, s, t), LoraA(layer), LoraB(layer);
    assert scaled[a].slices[p] == ScaledVec(update[a].slices[p], s);
    assert scaled[b].slices[p] == ScaledVec(update[b].slices[p], t);
    ScalesCancel(s, t, norm(update[a].slices[p]), norm(update[b].slices[p]),
                 norm(scaled[a].slices[p]), norm(scaled[b].slices[p]));
  }

  // ---- upload costs ----

  function Width(update: Dict): Key -> real {
    (k: Key) => if Has(update, k) then update[k].width as real else 0.0
  }

  /** compute_component_upload_cost: every survivor costs all tensors' parameters at q bits plus
      the metadata. `items` is the iteration order of the dict. */
  method ComputeComponentUploadCost(update: Dict, items: seq<Key>, survivors: seq<int>, qBits: nat, cmetaBits: nat)
    returns (costs: map<int, real>)
    requires forall k :: k in update <==> k in items
    ensures forall g :: g in costs <==> g in survivors
    ensures forall g :: g in costs ==> costs[g] == FlatCost(update, items, qBits, cmetaBits)
  {
    var params := 0.0;
    for n := 0 to |items|
      invariant params == Sum(items[..n], Width(update))
    {
      assert items[..n + 1] == items[..n] + [items[n]];
      SumSnoc(items[..n], items[n], Width(update));
      if Has(update, items[n]) {
        params := params + update[items[n]].width as real;
      }
    }
    assert items[..|items|] == items;
    TimesIsProduct(qBits, params);
    var cost := qBits as real * params + cmetaBits as real;
    costs := map g | g in survivors :: cost;
  }

  /** params * q_bits + cmeta_bits. */
  function FlatCost(update: Dict, items: seq<Key>, qBits: nat, cmetaBits: nat): real {
    Times(qBits, Sum(items, Width(update))) + cmetaBits as real
  }

  /** in_features + out_features of one layer. */
  function PairWidth(update: Dict): string -> real {
    (l: string) => Width(update)(LoraA(l)) + Width(update)(LoraB(l))
  }

  /** One layer's cost per component in v3: params * q_bits + cmeta_bits. */
  function LayerCost(update: Dict, qBits: nat, cmetaBits: nat): string -> real {
    Affine(PairWidth(update), qBits, cmetaBits as real)
  }

  /** compute_component_upload_cost_grouped. */
  function GroupedCosts(update: Dict, byLayer: Grouped, qBits: nat, cmetaBits: nat): map<Cid, real> {
    map l, g | l in byLayer && g in byLayer[l] && V3.HasLayer(update, l) ::
      (l, g) := LayerCost(update, qBits, cmetaBits)(l)
  }

  method ComputeComponentUploadCostGrouped(update: Dict, byLayer: Grouped, qBits: nat, cmetaBits: nat)
    returns (costs: map<Cid, real>)
    ensures costs == GroupedCosts(update, byLayer, qBits, cmetaBits)
  {
    costs := map[];
    ghost var goal := GroupedCosts(update, byLayer, qBits, cmetaBits);
    assert forall c :: c in goal ==> c.0 in byLayer.Keys;
    var todo := byLayer.Keys;
    while todo != {}
      invariant todo <= byLayer.Keys
      invariant forall c :: c in costs <==> c in goal && c.0 !in todo
      invariant forall c :: c in costs ==> costs[c] == goal[c]
    {
      var layer :| layer in todo;
      costs := PriceLayer(costs, update, byLayer, layer, qBits, cmetaBits, goal);
      todo := todo - {layer};
    }
  }

  method PriceLayer(before: map<Cid, real>, update: Dict, byLayer: Grouped, layer: string, qBits: nat, cmetaBits: nat,
                    ghost goal: map<Cid, real>)
    returns (costs: map<Cid, real>)
    requires layer in byLayer && goal == GroupedCosts(update, byLayer, qBits, cmetaBits)
    ensures forall c :: c in costs <==> c in before || (c.0 == layer && c in goal)
    ensures forall c :: c in costs ==> costs[c] == if c.0 == layer && c in goal then goal[c] else before[c]
  {
    costs := before;
    if V3.HasLayer(update, layer) {
      var params := update[LoraA(layer)].width as real + update[LoraB(layer)].width as real;
      TimesIsProduct(qBits, params);
      assert params == Width(update)(LoraA(layer)) + Width(update)(LoraB(layer)) == PairWidth(update)(layer);
      var cost := qBits as real * params + cmetaBits as real;
      assert cost == Times(qBits, PairWidth(update)(layer)) + cmetaBits as real;
      costs := PutAll(costs, layer, byLayer[layer], cost);
    }
    GroupedCostsOf(update, byLayer, qBits, cmetaBits, layer);
  }

  lemma GroupedCostsOf(update: Dict, byLayer: Grouped, qBits: nat, cmetaBits: nat, layer: string)
    requires layer in byLayer
    ensures forall c: Cid :: c.0 == layer ==>
              (c in GroupedCosts(update, byLayer, qBits, cmetaBits) <==>
                 c.1 in byLayer[layer] && V3.HasLayer(update, layer))
    ensures forall c: Cid :: c.0 == layer && c in GroupedCosts(update, byLayer, qBits, cmetaBits) ==>
              GroupedCosts(update, byLayer, qBits, cmetaBits)[c] == LayerCost(update, qBits, cmetaBits)(layer)
  {
    forall c: Cid | c.0 == layer
      ensures c in GroupedCosts(update, byLayer, qBits, cmetaBits) <==>
                c.1 in byLayer[layer] && V3.HasLayer(update, layer)
    {
      var (l, g) := c;
    }
  }

  /** v3's cost of a survivor, in terms of the tensors; layers without one of them have no cost. */
  lemma LayerCostOfTensors(update: Dict, byLayer: Grouped, qBits: nat, cmetaBits: nat, layer: string, g: int)
    requires layer in byLayer && g in byLayer[layer]
    ensures var costs, a, b := GroupedCosts(update, byLayer, qBits, cmetaBits), LoraA(layer), LoraB(layer);
            && ((layer, g) in costs <==> Has(update, a) && Has(update, b))
            && ((layer, g) in costs ==>
                  costs[(layer, g)]
                  == qBits as real * (update[a].width as real + update[b].width as real) + cmetaBits as real)
  {
    GroupedCostsOf(update, byLayer, qBits, cmetaBits, layer);
    assert (layer, g).0 == layer && (layer, g).1 == g;
    if V3.HasLayer(update, layer) {
      CostOfWidths(update, qBits, cmetaBits, layer);
    }
  }

  lemma CostOfWidths(update: Dict, qBits: nat, cmetaBits: nat, layer: string)
    requires V3.HasLayer(update, layer)
    ensures LayerCost(update, qBits, cmetaBits)(layer)
            == qBits as real * (update[LoraA(layer)].width as real + update[LoraB(layer)].width as real)
               + cmetaBits as real
  {
    TimesIsProduct(qBits, PairWidth(update)(layer));
    assert Width(update)(LoraA(layer)) == update[LoraA(layer)].width as real;
    assert Width(update)(LoraB(layer)) == update[LoraB(layer)].width as real;
    assert PairWidth(update)(layer) == Width(update)(LoraA(layer)) + Width(update)(LoraB(layer));
  }

  /** The same value for every index of a layer. */
  method PutAll(before: map<Cid, real>, layer: string, indices: seq<int>, value: real) returns (r: map<Cid, real>)
    ensures forall c :: c in r <==> c in before || (c.0 == layer && c.1 in indices)
    ensures forall c :: c in r ==> r[c] == if c.0 == layer && c.1 in indices then value else before[c]
  {
    r := before;
    for n := 0 to |indices|
      invariant forall c :: c in r <==> c in before || (c.0 == layer && c.1 in indices[..n])
      invariant forall c :: c in r ==> r[c] == if c.0 == layer && c.1 in indices[..n] then value else before[c]
    {
      assert indices[..n + 1] == indices[..n] + [indices[n]];
      r := r[(layer, indices[n]) := value];
    }
    assert indices[..|indices|] == indices;
  }

  function PairKeys(layers: seq<string>): seq<Key> {
    if layers == [] then [] else [LoraA(layers[0]), LoraB(layers[0])] + PairKeys(layers[1..])
  }

  lemma {:induction false} PairKeysOf(layers: seq<string>)
    requires Distinct(layers)
    ensures Distinct(PairKeys(layers))
    ensures forall k :: k in PairKeys(layers) <==> !k.Other? && k.layer in layers
  {
    if layers != [] {
      PairKeysOf(layers[1..]);
      assert layers == [layers[0]] + layers[1..];
    }
  }

  lemma {:induction false} PairWidthTotal(update: Dict, layers: seq<string>)
    ensures Sum(layers, PairWidth(update)) == Sum(PairKeys(layers), Width(update))
  {
    if layers != [] {
      PairWidthTotal(update, layers[1..]);
      var a, b := LoraA(layers[0]), LoraB(layers[0]);
      assert PairKeys(layers) == [a] + ([b] + PairKeys(layers[1..]));
      SumAppend([a], [b] + PairKeys(layers[1..]), Width(update));
      SumAppend([b], PairKeys(layers[1..]), Width(update));
    }
  }

  /** Every parameter is counted once, whatever the iteration order of the dict; an absent tensor has no
      width. */
  lemma WidthsByLayer(update: Dict, items: seq<Key>, layers: seq<string>)
    requires Distinct(items) && (forall k :: k in update <==> k in items)
    requires Distinct(layers) && (forall k :: Has(update, k) ==> k.layer in layers)
    ensures Sum(items, Width(update)) == Sum(layers, PairWidth(update))
  {
    PairWidthTotal(update, layers);
    PairKeysOf(layers);
    NoMoreWidth(update, items, PairKeys(layers));
    NoMoreWidth(update, PairKeys(layers), items);
  }

  /** A list that has every tensor of the dict is at least as wide as any list. */
  lemma NoMoreWidth(update: Dict, all: seq<Key>, choice: seq<Key>)
    requires Distinct(choice) && forall k :: Has(update, k) ==> k in all
    ensures Sum(choice, Width(update)) <= Sum(all, Width(update))
  {
    var rest := Filter(choice, (k: Key) => !Has(update, k));
    forall i | 0 <= i < |rest|
      ensures Width(update)(rest[i]) <= 0.0
    {
      assert rest[i] in rest;
    }
    forall i | 0 <= i < |choice|
      ensures choice[i] in all || choice[i] in rest
    {
      assert choice[i] in choice;
    }
    BestChoiceIsPrefix(all, rest, choice, Width(update));
  }

  /** The layers with both their tensors, and the others. */
  function WholeLayers(update: Dict, layers: seq<string>): seq<string> {
    Filter(layers, IsWhole(update))
  }

  function HalfLayers(update: Dict, layers: seq<string>): seq<string> {
    Filter(layers, IsNotWhole(update))
  }

  function IsWhole(update: Dict): string -> bool {
    (l: string) => V3.HasLayer(update, l)
  }

  function IsNotWhole(update: Dict): string -> bool {
    (l: string) => !V3.HasLayer(update, l)
  }

  lemma {:induction false} SumOfBoth(update: Dict, layers: seq<string>, f: string -> real)
    ensures Sum(layers, f) == Sum(WholeLayers(update, layers), f) + Sum(HalfLayers(update, layers), f)
  {
    if layers != [] {
      SumOfBoth(update, layers[1..], f);
      SumFirst(layers, IsWhole(update), f);
      SumFirst(layers, IsNotWhole(update), f);
    }
  }

  lemma SumFirst(layers: seq<string>, keep: string -> bool, f: string -> real)
    requires layers != []
    ensures Sum(Filter(layers, keep), f)
            == (if keep(layers[0]) then f(layers[0]) else 0.0) + Sum(Filter(layers[1..], keep), f)
  {
    var rest := Filter(layers[1..], keep);
    if keep(layers[0]) {
      assert Filter(layers, keep) == [layers[0]] + rest;
      assert ([layers[0]] + rest)[1..] == rest;
    } else {
      assert Filter(layers, keep) == rest;
    }
  }

  /** v3's costs of an index over the layers: whole layers have theirs, the others have none. */
  lemma GroupedTotal(update: Dict, layers: seq<string>, survivors: seq<int>, g: int, qBits: nat, cmetaBits: nat)
    requires g in survivors
    ensures var v3 := GroupedCosts(update, Normalize(Flat(survivors), layers), qBits, cmetaBits);
            Sum(layers, ScoreTerm(v3, g)) == Sum(WholeLayers(update, layers), LayerCost(update, qBits, cmetaBits))
  {
    var byLayer := Normalize(Flat(survivors), layers);
    var v3 := GroupedCosts(update, byLayer, qBits, cmetaBits);
    var whole, half := WholeLayers(update, layers), HalfLayers(update, layers);
    SumOfBoth(update, layers, ScoreTerm(v3, g));
    forall i | 0 <= i < |whole|
      ensures ScoreTerm(v3, g)(whole[i]) == LayerCost(update, qBits, cmetaBits)(whole[i])
    {
      assert whole[i] in whole && whole[i] in layers;
      assert (whole[i], g) in v3;
    }
    SumSame(whole, ScoreTerm(v3, g), LayerCost(update, qBits, cmetaBits));
    forall i | 0 <= i < |half|
      ensures ScoreTerm(v3, g)(half[i]) == 0.0
    {
      assert half[i] in half;
      assert (half[i], g) !in v3;
    }
    SumSame(half, ScoreTerm(v3, g), (_: string) => 0.0);
    SumZero(half);
  }

  /** v2's cost of a survivor is the sum of v3's costs of that index over the layers, less the metadata
      that v3 counts for every whole layer and v2 once, plus the width of tensors without their partner,
      which only v2 counts. */
  lemma FlatCostIsLayerSum(update: Dict, items: seq<Key>, layers: seq<string>, survivors: seq<int>, g: int,
                           qBits: nat, cmetaBits: nat)
    requires Distinct(items) && (forall k :: k in update <==> k in items)
    requires Distinct(layers) && (forall k :: Has(update, k) ==> k.layer in layers)
    requires g in survivors
    ensures var v3 := GroupedCosts(update, Normalize(Flat(survivors), layers), qBits, cmetaBits);
            FlatCost(update, items, qBits, cmetaBits)
            == Sum(layers, ScoreTerm(v3, g))
               - (Times(|WholeLayers(update, layers)|, cmetaBits as real) - cmetaBits as real)
               + Times(qBits, Sum(HalfLayers(update, layers), PairWidth(update)))
  {
    WidthsByLayer(update, items, layers);
    SumOfBoth(update, layers, PairWidth(update));
    GroupedTotal(update, layers, survivors, g, qBits, cmetaBits);
    CostsFromWidths(update, items, WholeLayers(update, layers), HalfLayers(update, layers), qBits, cmetaBits);
  }

  lemma CostsFromWidths(update: Dict, items: seq<Key>, whole: seq<string>, half: seq<string>, qBits: nat,
                        cmetaBits: nat)
    requires Sum(items, Width(update)) == Sum(whole, PairWidth(update)) + Sum(half, PairWidth(update))
    ensures FlatCost(update, items, qBits, cmetaBits)
            == Sum(whole, LayerCost(update, qBits, cmetaBits))
               - (Times(|whole|, cmetaBits as real) - cmetaBits as real) + Times(qBits, Sum(half, PairWidth(update)))
  {
    TimesOfParts(qBits, Sum(items, Width(update)), Sum(whole, PairWidth(update)), Sum(half, PairWidth(update)));
    TotalLayerCost(update, whole, qBits, cmetaBits);
  }

  lemma TimesOfParts(n: nat, all: real, x: real, y: real)
    requires all == x + y
    ensures Times(n, all) == Times(n, x) + Times(n, y)
  {
    TimesSum(n, x, y);
  }

  lemma TotalLayerCost(update: Dict, layers: seq<string>, qBits: nat, cmetaBits: nat)
    ensures Sum(layers, LayerCost(update, qBits, cmetaBits))
            == Times(qBits, Sum(layers, PairWidth(update))) + Times(|layers|, cmetaBits as real)
  {
    SumAffine(layers, PairWidth(update), qBits, cmetaBits as real);
  }

  /** No layer has a tensor, of any width, without its partner; or nothing is charged for widths. */
  predicate NoHalfWidth(update: Dict, layers: seq<string>, qBits: nat) {
    qBits == 0 || forall l :: l in layers ==> V3.HasLayer(update, l) || PairWidth(update)(l) == 0.0
  }

  lemma {:induction false} WidthsVanishIff(update: Dict, layers: seq<string>)
    ensures Sum(layers, PairWidth(update)) >= 0.0
    ensures Sum(layers, PairWidth(update)) == 0.0 <==> forall l :: l in layers ==> PairWidth(update)(l) == 0.0
  {
    if layers != [] {
      WidthsVanishIff(update, layers[1..]);
      assert layers == [layers[0]] + layers[1..];
      assert Sum(layers, PairWidth(update)) == PairWidth(update)(layers[0]) + Sum(layers[1..], PairWidth(update));
      assert Width(update)(LoraA(layers[0])) >= 0.0 && Width(update)(LoraB(layers[0])) >= 0.0;
    }
  }

  lemma NothingExtraIff(update: Dict, layers: seq<string>, qBits: nat)
    ensures Times(qBits, Sum(HalfLayers(update, layers), PairWidth(update))) == 0.0
            <==> NoHalfWidth(update, layers, qBits)
  {
    var half := HalfLayers(update, layers);
    WidthsVanishIff(update, half);
    TimesIsProduct(qBits, Sum(half, PairWidth(update)));
    assert forall l :: l in half <==> l in layers && !V3.HasLayer(update, l);
  }

  lemma {:induction false} AllWhole(update: Dict, layers: seq<string>)
    requires forall l :: l in layers ==> V3.HasLayer(update, l)
    ensures WholeLayers(update, layers) == layers
  {
    if layers != [] {
      assert layers[0] in layers;
      AllWhole(update, layers[1..]);
    }
  }

  /** Exactly when the costs differ by shared metadata only; with both tensors of every layer, it is
      (layers - 1) times the metadata. */
  lemma CostsDifferByMetadataIff(update: Dict, items: seq<Key>, layers: seq<string>, survivors: seq<int>, g: int,
                                 qBits: nat, cmetaBits: nat)
    requires Distinct(items) && (forall k :: k in update <==> k in items)
    requires Distinct(layers) && (forall k :: Has(update, k) ==> k.layer in layers)
    requires g in survivors
    ensures var v3 := GroupedCosts(update, Normalize(Flat(survivors), layers), qBits, cmetaBits);
            FlatCost(update, items, qBits, cmetaBits)
            == Sum(layers, ScoreTerm(v3, g))
               - (Times(|WholeLayers(update, layers)|, cmetaBits as real) - cmetaBits as real)
            <==> NoHalfWidth(update, layers, qBits)
    ensures (forall l :: l in layers ==> V3.HasLayer(update, l)) ==> WholeLayers(update, layers) == layers
  {
    FlatCostIsLayerSum(update, items, layers, survivors, g, qBits, cmetaBits);
    NothingExtraIff(update, layers, qBits);
    if forall l :: l in layers ==> V3.HasLayer(update, l) {
      AllWhole(update, layers);
    }
  }

  /** At a concrete input: for an A tensor of width 3 without its partner v2 charges 8 bits a parameter
      and 32 for metadata, and v3 nothing. */
  lemma HalfLayerIsCharged(layer: string)
    ensures var update := map[LoraA(layer) := Tensor([[0.0, 0.0, 0.0]], 3)];
            && FlatCost(update, [LoraA(layer)], 8, 32) == 56.0
            && GroupedCosts(update, map[layer := [0]], 8, 32) == map[]
  {
    var update := map[LoraA(layer) := Tensor([[0.0, 0.0, 0.0]], 3)];
    assert LoraB(layer) !in update;
    assert [LoraA(layer)][1..] == [];
    assert Sum([LoraA(layer)], Width(update)) == 3.0;
    TimesIsProduct(8, 3.0);
  }

  // ---- residual buffers ----

  /** The v3 client holds, per layer, exactly what the v2 client holds for that layer's tensors. */
  ghost predicate Corresponds(c2: V2.Client, c3: V3.Client, layers: seq<string>) {
    && c3.survivors == Normalize(Flat(c2.survivors), layers)
    && forall g, k: Key :: !k.Other? && k.layer in layers ==>
                             V2.Entry(c2.residuals, g, k) == V3.Entry(c3.residuals, (k.layer, g), k)
  }

  /** The same round in both versions: one survivor list, one delta, the same indices uploaded. */
  ghost predicate SameRound(r2: V2.Round, r3: V3.Round, layers: seq<string>) {
    && r3.survivors == Normalize(Flat(r2.survivors), layers)
    && r3.delta == r2.delta
    && (forall l, g :: (l, g) in r3.upload <==> l in layers && g in r2.upload)
  }

  /** No layer of the dict has just one of its tensors, unless nothing is held back anyway: v2 keeps
      the residual of a tensor without its partner, v3 drops it. */
  predicate PairedRound(r: V2.Round, layers: seq<string>) {
    || (forall g :: g in r.survivors ==> g in r.upload)
    || (forall l :: l in layers ==> (Has(r.delta, LoraA(l)) <==> Has(r.delta, LoraB(l))))
  }

  lemma RoundOkCarriesOver(c2: V2.Client, c3: V3.Client, r2: V2.Round, r3: V3.Round, layers: seq<string>, maxRank: nat)
    requires c3.survivors == Normalize(Flat(c2.survivors), layers) && SameRound(r2, r3, layers)
    requires V2.RoundOk(c2, r2, maxRank)
    ensures V3.RoundOk(c3, r3, maxRank)
  {
    forall l, g | l in r3.survivors && g in r3.survivors[l]
      ensures V3.Survives(c3.survivors, (l, g)) && 0 <= g < maxRank
    {
      var i :| 0 <= i < |r2.survivors| && r2.survivors[i] == g;
    }
    forall i | 0 <= i < |r3.upload|
      ensures V3.Survives(r3.survivors, r3.upload[i])
    {
      var (l, g) := r3.upload[i];
      assert (l, g) in r3.upload;
      var j :| 0 <= j < |r2.upload| && r2.upload[j] == g;
    }
  }

  /** The buffers of one tensor of one index agree after the round exactly if nothing is held back, the
      tensor is absent, or its partner is there too. */
  lemma EntriesAgreeIff(c2: V2.Client, c3: V3.Client, r2: V2.Round, r3: V3.Round, layers: seq<string>, maxRank: nat,
                        g: int, k: Key)
    requires Corresponds(c2, c3, layers) && SameRound(r2, r3, layers)
    requires V2.RoundOk(c2, r2, maxRank) && V3.RoundOk(c3, r3, maxRank)
    requires !k.Other? && k.layer in layers
    ensures V2.Entry(V2.Step(c2, r2).residuals, g, k) == V3.Entry(V3.Step(c3, r3).residuals, (k.layer, g), k)
            <==> (g !in r2.survivors || g in r2.upload || !Has(r2.delta, k) || V3.HasLayer(r2.delta, k.layer))
  {
    if g in r2.survivors {
      V2.StepRefinesLedger(c2, r2, maxRank, g, k, 0);
      V3.StepRefinesLedger(c3, r3, maxRank, (k.layer, g), k, 0);
      SameTurn(r2, r3, layers, g, k);
      NextAgrees(V2.Entry(c2.residuals, g, k), Ledger.Turn(V2.FreshDelta(r2, g, k), g in r2.upload),
                 V3.TurnOf(r3, (k.layer, g), k));
    } else {
      GoneInBoth(c2, c3, r2, r3, layers, g, k);
    }
  }

  lemma NextAgrees(entry: Option<Vec>, read: Ledger.Turn, turn: Ledger.Turn)
    requires turn == read.(dropped := turn.dropped) && !read.dropped
    ensures Ledger.Next(entry, read) == Ledger.Next(entry, turn)
            <==> read.uploaded || read.delta.None? || !turn.dropped
  {
  }

  lemma GoneInBoth(c2: V2.Client, c3: V3.Client, r2: V2.Round, r3: V3.Round, layers: seq<string>, g: int, k: Key)
    requires SameRound(r2, r3, layers) && g !in r2.survivors && !k.Other? && k.layer in layers
    ensures V2.Entry(V2.Step(c2, r2).residuals, g, k) == None
    ensures V3.Entry(V3.Step(c3, r3).residuals, (k.layer, g), k) == None
  {
  }

  lemma SameTurn(r2: V2.Round, r3: V3.Round, layers: seq<string>, g: int, k: Key)
    requires SameRound(r2, r3, layers) && !k.Other? && k.layer in layers
    requires ReachesRank(r2.delta, |r2.survivors|) && g in r2.survivors
    ensures V2.FreshDelta(r2, g, k) == V3.FreshDelta(r3, (k.layer, g), k)
    ensures V2.FreshDelta(r2, g, k).Some? <==> Has(r2.delta, k)
    ensures g in r2.upload <==> (k.layer, g) in r3.upload
  {
    assert (k.layer, g) in r3.upload <==> k.layer in layers && g in r2.upload;
  }

  /** The correspondence survives a round if and only if the round is paired. */
  lemma StepCorrespondsIffPaired(c2: V2.Client, c3: V3.Client, r2: V2.Round, r3: V3.Round, layers: seq<string>,
                                 maxRank: nat)
    requires Corresponds(c2, c3, layers) && SameRound(r2, r3, layers) && V2.RoundOk(c2, r2, maxRank)
    ensures V3.RoundOk(c3, r3, maxRank)
    ensures Corresponds(V2.Step(c2, r2), V3.Step(c3, r3), layers) <==> PairedRound(r2, layers)
  {
    RoundOkCarriesOver(c2, c3, r2, r3, layers, maxRank);
    if PairedRound(r2, layers) {
      PairedCorresponds(c2, c3, r2, r3, layers, maxRank);
    } else {
      UnpairedDiffers(c2, c3, r2, r3, layers, maxRank);
    }
  }

  lemma PairedCorresponds(c2: V2.Client, c3: V3.Client, r2: V2.Round, r3: V3.Round, layers: seq<string>, maxRank: nat)
    requires Corresponds(c2, c3, layers) && SameRound(r2, r3, layers)
    requires V2.RoundOk(c2, r2, maxRank) && V3.RoundOk(c3, r3, maxRank) && PairedRound(r2, layers)
    ensures Corresponds(V2.Step(c2, r2), V3.Step(c3, r3), layers)
  {
    forall g, k: Key | !k.Other? && k.layer in layers
      ensures V2.Entry(V2.Step(c2, r2).residuals, g, k) == V3.Entry(V3.Step(c3, r3).residuals, (k.layer, g), k)
    {
      EntriesAgreeIff(c2, c3, r2, r3, layers, maxRank, g, k);
    }
  }

  lemma UnpairedDiffers(c2: V2.Client, c3: V3.Client, r2: V2.Round, r3: V3.Round, layers: seq<string>, maxRank: nat)
    requires Corresponds(c2, c3, layers) && SameRound(r2, r3, layers)
    requires V2.RoundOk(c2, r2, maxRank) && V3.RoundOk(c3, r3, maxRank) && !PairedRound(r2, layers)
    ensures !Corresponds(V2.Step(c2, r2), V3.Step(c3, r3), layers)
  {
    var g :| g in r2.survivors && g !in r2.upload;
    var l :| l in layers && Has(r2.delta, LoraA(l)) != Has(r2.delta, LoraB(l));
    var k := if Has(r2.delta, LoraA(l)) then LoraA(l) else LoraB(l);
    EntriesAgreeIff(c2, c3, r2, r3, layers, maxRank, g, k);
  }

  /** The two clients correspond after every round of a run. */
  ghost predicate CorrespondThroughout(c2: V2.Client, c3: V3.Client, rounds2: seq<V2.Round>, rounds3: seq<V3.Round>,
                                       layers: seq<string>)
    requires |rounds2| == |rounds3|
    decreases |rounds2|
  {
    && Corresponds(c2, c3, layers)
    && (rounds2 != [] ==>
          CorrespondThroughout(V2.Step(c2, rounds2[0]), V3.Step(c3, rounds3[0]), rounds2[1..], rounds3[1..], layers))
  }

  lemma PairedFromFirst(rounds: seq<V2.Round>, layers: seq<string>)
    requires rounds != []
    ensures (forall n :: 0 <= n < |rounds| ==> PairedRound(rounds[n], layers))
            <==> PairedRound(rounds[0], layers) && forall n :: 0 <= n < |rounds[1..]| ==>
                                                                 PairedRound(rounds[1..][n], layers)
  {
    assert forall n :: 0 < n < |rounds| ==> rounds[n] == rounds[1..][n - 1];
    assert forall n :: 0 <= n < |rounds| - 1 ==> rounds[1..][n] == rounds[n + 1];
  }

  /** Clients that start out corresponding correspond throughout a run if and only if every round is
      paired. */
  lemma {:induction false} RunCorrespondsIffPaired(c2: V2.Client, c3: V3.Client, rounds2: seq<V2.Round>,
                                                   rounds3: seq<V3.Round>, layers: seq<string>, maxRank: nat)
    requires Corresponds(c2, c3, layers) && V2.RunOk(c2, rounds2, maxRank)
    requires |rounds2| == |rounds3| && forall n :: 0 <= n < |rounds2| ==> SameRound(rounds2[n], rounds3[n], layers)
    ensures CorrespondThroughout(c2, c3, rounds2, rounds3, layers)
            <==> (forall n :: 0 <= n < |rounds2| ==> PairedRound(rounds2[n], layers))
    decreases |rounds2|
  {
    if rounds2 != [] {
      StepCorrespondsIffPaired(c2, c3, rounds2[0], rounds3[0], layers, maxRank);
      if PairedRound(rounds2[0], layers) {
        RunCorrespondsIffPaired(V2.Step(c2, rounds2[0]), V3.Step(c3, rounds3[0]), rounds2[1..], rounds3[1..], layers,
                                maxRank);
        PairedFromFirst(rounds2, layers);
      } else {
        assert !Corresponds(V2.Step(c2, rounds2[0]), V3.Step(c3, rounds3[0]), layers);
      }
    }
  }
}
