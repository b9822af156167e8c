/** Budgeted selection by score-to-cost ratio: the flat form of v2 and the global and per-layer
    forms of v3, over any component identifier. */
module Greedy {
  import opened Seqs

  datatype Item<T> = Item(id: T, score: real, cost: real)

  /** score / cost, or float('inf') for a scored item that costs nothing. */
  datatype Ratio = Finite(value: real) | Infinite

  function RatioOf<T>(item: Item<T>): Ratio {
    if item.cost > 0.0 then Finite(item.score / item.cost)
    else if item.score > 0.0 then Infinite else Finite(0.0)
  }

  predicate AtLeast(a: Ratio, b: Ratio) {
    a.Infinite? || (b.Finite? && a.value >= b.value)
  }

  /** The order of `ratios.sort(key=ratio, reverse=True)`. */
  function ByRatio<T>(): (Item<T>, Item<T>) -> bool {
    (x: Item<T>, y: Item<T>) => AtLeast(RatioOf(x), RatioOf(y))
  }

  function Lookup<T(==)>(d: map<T, real>, id: T, default: real): real {
    if id in d then d[id] else default
  }

  function ItemOf<T(==)>(scores: map<T, real>, costs: map<T, real>, id: T): Item<T> {
    Item(id, Lookup(scores, id, 0.0), Lookup(costs, id, 1.0))
  }

  function ItemsOf<T(==)>(scores: map<T, real>, costs: map<T, real>, ids: seq<T>): (r: seq<Item<T>>)
    ensures |r| == |ids| && forall i :: 0 <= i < |r| ==> r[i] == ItemOf(scores, costs, ids[i])
  {
    seq(|ids|, i requires 0 <= i < |ids| => ItemOf(scores, costs, ids[i]))
  }

  function ScoreOf<T>(): Item<T> -> real {
    (x: Item<T>) => x.score
  }

  function CostOf<T>(): Item<T> -> real {
    (x: Item<T>) => x.cost
  }

  /** The greedy pass: each item that still fits is taken. */
  function Taken<T>(items: seq<Item<T>>, budget: real): seq<Item<T>> {
    if items == [] then []
    else if items[0].cost <= budget then [items[0]] + Taken(items[1..], budget - items[0].cost)
    else Taken(items[1..], budget)
  }

  /** The first item of the pass that does not fit. */
  function Misfit<T>(items: seq<Item<T>>, budget: real): Option<Item<T>> {
    if items == [] then None
    else if items[0].cost <= budget then Misfit(items[1..], budget - items[0].cost)
    else Some(items[0])
  }

  function Chosen<T>(items: seq<Item<T>>, budget: real): seq<Item<T>> {
    if budget <= 0.0 then [] else Taken(Sort(items, ByRatio()), budget)
  }

  function Ids<T>(items: seq<Item<T>>): (r: seq<T>)
    ensures |r| == |items| && forall i :: 0 <= i < |r| ==> r[i] == items[i].id
  {
    seq(|items|, i requires 0 <= i < |items| => items[i].id)
  }

  lemma IdsAppend<T>(a: seq<Item<T>>, b: seq<Item<T>>)
    ensures Ids(a + b) == Ids(a) + Ids(b)
  {
  }

  /** greedy_select_by_score_cost_ratio, and the global mode of the grouped form. */
  method GreedySelect<T(==)>(scores: map<T, real>, costs: map<T, real>, budget: real, ids: seq<T>)
    returns (selected: seq<T>)
    ensures selected == Ids(Chosen(ItemsOf(scores, costs, ids), budget))
  {
    if budget <= 0.0 {
      return [];
    }
    var ratios := Sort(ItemsOf(scores, costs, ids), ByRatio());
    selected := [];
    var remaining := budget;
    ghost var taken: seq<Item<T>> := [];
    for n := 0 to |ratios|
      invariant Taken(ratios, budget) == taken + Taken(ratios[n..], remaining)
      invariant selected == Ids(taken)
    {
      assert ratios[n..][1..] == ratios[n + 1..];
      if ratios[n].cost <= remaining {
        selected := selected + [ratios[n].id];
        remaining := remaining - ratios[n].cost;
        taken := taken + [ratios[n]];
      }
    }
    assert taken == Taken(ratios, budget);
  }

  // ---- within budget ----

  lemma {:induction false} TakenWithinBudget<T>(items: seq<Item<T>>, budget: real)
    requires budget >= 0.0
    ensures Sum(Taken(items, budget), CostOf()) <= budget
    ensures forall i :: 0 <= i < |Taken(items, budget)| ==> Taken(items, budget)[i] in items
    decreases |items|
  {
    if items != [] {
      if items[0].cost <= budget {
        TakenWithinBudget(items[1..], budget - items[0].cost);
      } else {
        TakenWithinBudget(items[1..], budget);
      }
    }
  }

  /** The selection never costs more than a positive budget and selects only listed components;
      with no budget it selects nothing. */
  lemma SelectionWithinBudget<T>(items: seq<Item<T>>, budget: real)
    ensures Sum(Chosen(items, budget), CostOf()) <= (if budget > 0.0 then budget else 0.0)
    ensures forall i :: 0 <= i < |Chosen(items, budget)| ==> Chosen(items, budget)[i] in items
  {
    if budget > 0.0 {
      var sorted := Sort(items, ByRatio());
      TakenWithinBudget(sorted, budget);
      forall i | 0 <= i < |Taken(sorted, budget)|
        ensures Taken(sorted, budget)[i] in items
      {
        SortElement(items, ByRatio(), Taken(sorted, budget)[i]);
      }
    }
  }

  // ---- the knapsack bound ----

  ghost predicate Priced<T>(items: seq<Item<T>>) {
    forall i :: 0 <= i < |items| ==> items[i].score >= 0.0 && items[i].cost >= 0.0
  }

  /** The items before the first misfit, all of which the pass takes. */
  function Fitting<T>(items: seq<Item<T>>, budget: real): (pre: seq<Item<T>>)
    ensures |pre| <= |items| && pre == items[..|pre|]
    ensures Misfit(items, budget).Some? ==> |pre| < |items| && items[|pre|] == Misfit(items, budget).value
    ensures Misfit(items, budget).None? ==> |pre| == |items|
  {
    if items == [] then []
    else if items[0].cost <= budget then
      var rest := Fitting(items[1..], budget - items[0].cost);
      assert items == [items[0]] + items[1..];
      [items[0]] + rest
    else []
  }

  lemma {:induction false} FittingIsTaken<T>(items: seq<Item<T>>, budget: real)
    requires Priced(items)
    ensures Sum(Fitting(items, budget), ScoreOf()) <= Sum(Taken(items, budget), ScoreOf())
    ensures Misfit(items, budget).Some? ==>
              Sum(Fitting(items, budget), CostOf()) + Misfit(items, budget).value.cost > budget
    decreases |items|
  {
    if items != [] {
      if items[0].cost <= budget {
        FittingIsTaken(items[1..], budget - items[0].cost);
      } else {
        TakenScoreNonNegative(items[1..], budget);
      }
    }
  }

  lemma {:induction false} TakenScoreNonNegative<T>(items: seq<Item<T>>, budget: real)
    requires Priced(items)
    ensures Sum(Taken(items, budget), ScoreOf()) >= 0.0
    decreases |items|
  {
    if items != [] {
      TakenScoreNonNegative(items[1..], budget - items[0].cost);
      TakenScoreNonNegative(items[1..], budget);
    }
  }

  /** Score minus cost at a price: what an item is worth once the budget has that price. */
  function Worth<T>(price: real): Item<T> -> real {
    Minus(ScoreOf(), Scaled(CostOf(), price))
  }

  /** At the price of one item, items with a larger ratio gain and items with a smaller one lose. */
  lemma WorthByRatio<T>(item: Item<T>, at: Item<T>)
    requires at.cost > 0.0 && at.score >= 0.0 && item.score >= 0.0 && item.cost >= 0.0
    ensures AtLeast(RatioOf(item), RatioOf(at)) ==> Worth(at.score / at.cost)(item) >= 0.0
    ensures AtLeast(RatioOf(at), RatioOf(item)) ==> Worth(at.score / at.cost)(item) <= 0.0
  {
    var price := at.score / at.cost;
    if item.cost > 0.0 {
      var own := item.score / item.cost;
      assert item.score == own * item.cost;
      assert own >= price ==> own * item.cost >= price * item.cost;
      assert own <= price ==> own * item.cost <= price * item.cost;
    }
  }

  /** The bound for a list already in ratio order. */
  lemma GreedyBoundSorted<T(!new)>(items: seq<Item<T>>, budget: real, choice: seq<Item<T>>)
    requires Priced(items) && SortedBy(items, ByRatio()) && budget >= 0.0
    requires Distinct(choice) && Sum(choice, CostOf()) <= budget
    requires forall i :: 0 <= i < |choice| ==> choice[i] in items
    ensures Sum(choice, ScoreOf())
            <= Sum(Taken(items, budget), ScoreOf())
               + (if Misfit(items, budget).Some? then Misfit(items, budget).value.score else 0.0)
  {
    var pre := Fitting(items, budget);
    FittingIsTaken(items, budget);
    if Misfit(items, budget).None? {
      assert pre == items;
      BestChoiceIsPrefix(items, [], choice, ScoreOf());
    } else {
      MisfitCosts(items, budget);
      BoundAtMisfit(items, |pre|, budget, choice);
      assert items[..|pre|] == pre;
    }
  }

  /** At the price of item `n`, everything up to it gains and everything after it loses. */
  lemma PricedSplit<T>(items: seq<Item<T>>, n: nat, choice: seq<Item<T>>, price: real)
    requires Priced(items) && SortedBy(items, ByRatio()) && n < |items| && items[n].cost > 0.0
    requires price == items[n].score / items[n].cost
    requires Distinct(choice)
    requires forall i :: 0 <= i < |choice| ==> choice[i] in items
    ensures Sum(choice, Worth(price)) <= Sum(items[..n] + [items[n]], Worth(price))
  {
    forall i | 0 <= i < |items|
      ensures i <= n ==> Worth(price)(items[i]) >= 0.0
      ensures n <= i ==> Worth(price)(items[i]) <= 0.0
    {
      if i <= n {
        RatioOrder(items, i, n);
      }
      if n <= i {
        RatioOrder(items, n, i);
      }
      WorthByRatio(items[i], items[n]);
    }
    ChoiceUpTo(items, n, choice, Worth(price));
  }

  lemma ChoiceUpTo<T>(items: seq<T>, n: nat, choice: seq<T>, gain: T -> real)
    requires n < |items| && Distinct(choice)
    requires forall i :: 0 <= i < |choice| ==> choice[i] in items
    requires forall i :: 0 <= i < |items| ==> (i <= n ==> gain(items[i]) >= 0.0) && (n <= i ==> gain(items[i]) <= 0.0)
    ensures Sum(choice, gain) <= Sum(items[..n] + [items[n]], gain)
  {
    var upTo, post := items[..n] + [items[n]], items[n + 1..];
    assert items == upTo + post;
    BestChoiceIsPrefix(upTo, post, choice, gain);
  }

  lemma PriceSetAt<T>(items: seq<Item<T>>, n: nat, choice: seq<Item<T>>) returns (price: real)
    requires Priced(items) && SortedBy(items, ByRatio()) && n < |items| && items[n].cost > 0.0
    requires Distinct(choice)
    requires forall i :: 0 <= i < |choice| ==> choice[i] in items
    ensures price >= 0.0
    ensures Sum(choice, Worth(price)) <= Sum(items[..n] + [items[n]], Worth(price))
  {
    price := items[n].score / items[n].cost;
    PricedSplit(items, n, choice, price);
  }

  lemma BoundAtMisfit<T>(items: seq<Item<T>>, n: nat, budget: real, choice: seq<Item<T>>)
    requires Priced(items) && SortedBy(items, ByRatio()) && n < |items| && items[n].cost > 0.0
    requires Distinct(choice)
    requires forall i :: 0 <= i < |choice| ==> choice[i] in items
    requires Sum(choice, CostOf()) <= budget < Sum(items[..n], CostOf()) + items[n].cost
    ensures Sum(choice, ScoreOf()) <= Sum(items[..n], ScoreOf()) + items[n].score
  {
    SumSnoc(items[..n], items[n], CostOf());
    SumSnoc(items[..n], items[n], ScoreOf());
    var price := PriceSetAt(items, n, choice);
    CompareAtPrice(choice, items[..n] + [items[n]], ScoreOf(), CostOf(), price);
  }

  lemma RatioOrder<T>(items: seq<Item<T>>, i: nat, j: nat)
    requires SortedBy(items, ByRatio()) && i <= j < |items|
    ensures AtLeast(RatioOf(items[i]), RatioOf(items[j]))
  {
    if i < j {
      assert ByRatio<T>()(items[i], items[j]);
    }
  }

  /** Whatever does not fit a non-negative budget has a positive cost. */
  lemma {:induction false} MisfitCosts<T>(items: seq<Item<T>>, budget: real)
    requires budget >= 0.0 && Misfit(items, budget).Some?
    ensures Misfit(items, budget).value.cost > 0.0
    decreases |items|
  {
    if items[0].cost <= budget {
      MisfitCosts(items[1..], budget - items[0].cost);
    }
  }

  lemma ByRatioIsPreorder<T(!new)>()
    ensures TotalPreorder(ByRatio<T>())
  {
  }

  /** Greedy knapsack bound: the selection's score plus the score of the first component (in ratio
      order) that did not fit is at least that of any choice within the budget. */
  lemma GreedyBound<T(!new)>(items: seq<Item<T>>, budget: real, choice: seq<Item<T>>)
    requires Priced(items) && budget > 0.0
    requires Distinct(choice) && Sum(choice, CostOf()) <= budget
    requires forall i :: 0 <= i < |choice| ==> choice[i] in items
    ensures var misfit := Misfit(Sort(items, ByRatio()), budget);
            Sum(choice, ScoreOf())
            <= Sum(Chosen(items, budget), ScoreOf()) + (if misfit.Some? then misfit.value.score else 0.0)
  {
    var sorted := Sort(items, ByRatio());
    ByRatioIsPreorder<T>();
    SortSorted(items, ByRatio());
    forall i | 0 <= i < |sorted|
      ensures sorted[i].score >= 0.0 && sorted[i].cost >= 0.0
    {
      SortInside(items, ByRatio(), i);
    }
    forall i | 0 <= i < |choice|
      ensures choice[i] in sorted
    {
      SortElement(items, ByRatio(), choice[i]);
    }
    GreedyBoundSorted(sorted, budget, choice);
  }

  // ---- uniform costs ----

  /** How many items of a uniform positive cost fit: min(n, floor(budget / cost)). */
  ghost predicate FitCount(k: nat, n: nat, cost: real, budget: real) {
    && k <= n
    && (k > 0 ==> k as real * cost <= budget)
    && (k < n ==> (k + 1) as real * cost > budget)
  }

  lemma OneMore(k: nat, cost: real)
    ensures (k + 1) as real * cost == k as real * cost + cost
  {
  }

  lemma {:induction false} UniformPass<T>(items: seq<Item<T>>, cost: real, budget: real)
    requires cost > 0.0
    requires forall i :: 0 <= i < |items| ==> items[i].cost == cost
    ensures FitCount(|Taken(items, budget)|, |items|, cost, budget)
    decreases |items|
  {
    if items != [] {
      var rest := items[1..];
      if cost <= budget {
        UniformPass(rest, cost, budget - cost);
        var k := |Taken(rest, budget - cost)|;
        OneMore(k, cost);
        OneMore(k + 1, cost);
      } else {
        NothingFits(rest, cost, budget);
      }
    }
  }

  lemma {:induction false} NothingFits<T>(items: seq<Item<T>>, cost: real, budget: real)
    requires budget < cost
    requires forall i :: 0 <= i < |items| ==> items[i].cost == cost
    ensures Taken(items, budget) == []
  {
    if items != [] {
      NothingFits(items[1..], cost, budget);
    }
  }

  lemma {:induction false} UniformPrefix<T>(items: seq<Item<T>>, cost: real, budget: real)
    requires cost > 0.0
    requires forall i :: 0 <= i < |items| ==> items[i].cost == cost
    ensures |Taken(items, budget)| <= |items| && Taken(items, budget) == items[..|Taken(items, budget)|]
    decreases |items|
  {
    if items != [] {
      if cost <= budget {
        UniformPrefix(items[1..], cost, budget - cost);
      } else {
        NothingFits(items[1..], cost, budget);
      }
    }
  }

  lemma {:induction false} UniformTotal<T>(items: seq<Item<T>>, cost: real)
    requires forall i :: 0 <= i < |items| ==> items[i].cost == cost
    ensures Sum(items, CostOf()) == |items| as real * cost
  {
    if items != [] {
      UniformTotal(items[1..], cost);
      assert |items| as real * cost == |items[1..]| as real * cost + cost;
    }
  }

  lemma CountBound(n: nat, k: nat, cost: real, budget: real)
    requires cost > 0.0 && n as real * cost <= budget && (k + 1) as real * cost > budget
    ensures n <= k
  {
  }

  function Negated<T>(): Item<T> -> real {
    (x: Item<T>) => -x.score
  }

  lemma {:induction false} SumNegated<T>(items: seq<Item<T>>)
    ensures Sum(items, Negated()) == -Sum(items, ScoreOf())
  {
    if items != [] {
      SumNegated(items[1..]);
    }
  }

  /** Equal costs: the order by ratio is the order by score. */
  lemma RatioIsScoreOrder<T>(items: seq<Item<T>>, cost: real, i: nat, j: nat)
    requires cost > 0.0 && SortedBy(items, ByRatio()) && i < j < |items|
    requires items[i].cost == cost && items[j].cost == cost
    ensures items[i].score >= items[j].score
  {
    RatioOrder(items, i, j);
    var a, b := items[i].score / cost, items[j].score / cost;
    assert a >= b;
    assert items[i].score == a * cost && items[j].score == b * cost;
    assert a * cost >= b * cost;
  }

  lemma {:induction false} MoreIsMore<T>(items: seq<Item<T>>, n: nat, k: nat)
    requires n <= k <= |items|
    requires forall i :: 0 <= i < |items| ==> items[i].score >= 0.0
    ensures Sum(items[..n], ScoreOf()) <= Sum(items[..k], ScoreOf())
  {
    assert items[..k] == items[..n] + items[n..k];
    SumAppend(items[..n], items[n..k], ScoreOf());
    SumLe(items[n..k], (_: Item<T>) => 0.0, ScoreOf());
    SumZero(items[n..k]);
  }

  /** Under a uniform positive cost greedy is optimal: it takes exactly min(n, floor(budget/cost))
      items and no choice within the budget scores more. */
  lemma UniformGreedyIsOptimal<T(!new)>(items: seq<Item<T>>, cost: real, budget: real, choice: seq<Item<T>>)
    requires Priced(items) && cost > 0.0 && budget > 0.0
    requires forall i :: 0 <= i < |items| ==> items[i].cost == cost
    requires Distinct(choice) && Sum(choice, CostOf()) <= budget
    requires forall i :: 0 <= i < |choice| ==> choice[i] in items
    ensures FitCount(|Chosen(items, budget)|, |items|, cost, budget)
    ensures Sum(choice, ScoreOf()) <= Sum(Chosen(items, budget), ScoreOf())
  {
    var sorted := Sort(items, ByRatio());
    ByRatioIsPreorder<T>();
    SortSorted(items, ByRatio());
    forall i | 0 <= i < |sorted|
      ensures sorted[i].score >= 0.0 && sorted[i].cost == cost
    {
      SortInside(items, ByRatio(), i);
    }
    UniformPass(sorted, cost, budget);
    UniformPrefix(sorted, cost, budget);
    forall i | 0 <= i < |choice|
      ensures choice[i] in sorted && choice[i].cost == cost
    {
      SortElement(items, ByRatio(), choice[i]);
    }
    UniformTotal(choice, cost);
    UniformChoice(sorted, cost, choice, |Chosen(items, budget)|, budget);
  }

  lemma UniformChoice<T(!new)>(sorted: seq<Item<T>>, cost: real, choice: seq<Item<T>>, k: nat, budget: real)
    requires cost > 0.0 && SortedBy(sorted, ByRatio())
    requires forall i :: 0 <= i < |sorted| ==> sorted[i].score >= 0.0 && sorted[i].cost == cost
    requires Distinct(choice) && |choice| as real * cost <= budget
    requires forall i :: 0 <= i < |choice| ==> choice[i] in sorted
    requires FitCount(k, |sorted|, cost, budget)
    ensures Sum(choice, ScoreOf()) <= Sum(sorted[..k], ScoreOf())
  {
    DistinctSubsetLength(choice, sorted);
    if k < |sorted| {
      CountBound(|choice|, k, cost, budget);
    }
    forall i, j | 0 <= i < j < |sorted|
      ensures Negated<T>()(sorted[i]) <= Negated<T>()(sorted[j])
    {
      RatioIsScoreOrder(sorted, cost, i, j);
    }
    LeastPrefix(sorted, |choice|, choice, Negated());
    SumNegated(choice);
    SumNegated(sorted[..|choice|]);
    MoreIsMore(sorted, |choice|, k);
  }

  // ---- results over component identifiers ----

  function Selected<T(==)>(scores: map<T, real>, costs: map<T, real>, budget: real, ids: seq<T>): seq<T> {
    Ids(Chosen(ItemsOf(scores, costs, ids), budget))
  }

  function TotalScore<T(==)>(scores: map<T, real>, costs: map<T, real>, ids: seq<T>): real {
    Sum(ItemsOf(scores, costs, ids), ScoreOf())
  }

  function TotalCost<T(==)>(scores: map<T, real>, costs: map<T, real>, ids: seq<T>): real {
    Sum(ItemsOf(scores, costs, ids), CostOf())
  }

  /** Non-negative scores and costs for every listed component. */
  ghost predicate PricedIds<T>(scores: map<T, real>, costs: map<T, real>, ids: seq<T>) {
    Priced(ItemsOf(scores, costs, ids))
  }

  lemma ItemsInside<T>(scores: map<T, real>, costs: map<T, real>, choice: seq<T>, ids: seq<T>)
    requires Distinct(choice)
    requires forall i :: 0 <= i < |choice| ==> choice[i] in ids
    ensures Distinct(ItemsOf(scores, costs, choice))
    ensures forall i :: 0 <= i < |choice| ==> ItemsOf(scores, costs, choice)[i] in ItemsOf(scores, costs, ids)
  {
    forall i | 0 <= i < |choice|
      ensures ItemsOf(scores, costs, choice)[i] in ItemsOf(scores, costs, ids)
    {
      var j :| 0 <= j < |ids| && ids[j] == choice[i];
      assert ItemsOf(scores, costs, ids)[j] == ItemsOf(scores, costs, choice)[i];
    }
  }

  /** The selected identifiers stand for exactly the chosen items. */
  lemma SelectedItems<T>(scores: map<T, real>, costs: map<T, real>, budget: real, ids: seq<T>)
    ensures ItemsOf(scores, costs, Selected(scores, costs, budget, ids)) == Chosen(ItemsOf(scores, costs, ids), budget)
  {
    var items := ItemsOf(scores, costs, ids);
    var chosen := Chosen(items, budget);
    SelectionWithinBudget(items, budget);
    forall i | 0 <= i < |chosen|
      ensures chosen[i] == ItemOf(scores, costs, chosen[i].id)
    {
      var j :| 0 <= j < |items| && items[j] == chosen[i];
    }
  }

  /** The selection is a duplicate-free part of the survivors whose cost is within the budget. */
  lemma SelectionIsAffordable<T(!new)>(scores: map<T, real>, costs: map<T, real>, budget: real, ids: seq<T>)
    requires Distinct(ids)
    ensures var selected := Selected(scores, costs, budget, ids);
            && Distinct(selected) && (forall i :: 0 <= i < |selected| ==> selected[i] in ids)
            && TotalCost(scores, costs, selected) <= (if budget > 0.0 then budget else 0.0)
  {
    var items := ItemsOf(scores, costs, ids);
    SelectedItems(scores, costs, budget, ids);
    SelectionWithinBudget(items, budget);
    var selected := Selected(scores, costs, budget, ids);
    forall i | 0 <= i < |selected|
      ensures selected[i] in ids
    {
      var j :| 0 <= j < |items| && items[j] == Chosen(items, budget)[i];
      assert selected[i] == ids[j];
    }
    ItemsInside(scores, costs, ids, ids);
    SortDistinct(items, ByRatio());
    TakenDistinct(Sort(items, ByRatio()), budget);
    forall i, j | 0 <= i < j < |selected|
      ensures selected[i] != selected[j]
    {
      assert Chosen(items, budget)[i] != Chosen(items, budget)[j];
      assert ItemsOf(scores, costs, selected)[i] != ItemsOf(scores, costs, selected)[j];
    }
  }

  lemma {:induction false} TakenIsMaximal<T>(items: seq<Item<T>>, budget: real, x: Item<T>)
    requires budget >= 0.0 && (forall i :: 0 <= i < |items| ==> items[i].cost >= 0.0)
    requires x in items && x !in Taken(items, budget)
    ensures Sum(Taken(items, budget), CostOf()) + x.cost > budget
    decreases |items|
  {
    if items[0].cost <= budget {
      TakenIsMaximal(items[1..], budget - items[0].cost, x);
    } else if x == items[0] {
      TakenCostNonNegative(items, budget);
    } else {
      TakenIsMaximal(items[1..], budget, x);
    }
  }

  lemma {:induction false} TakenCostNonNegative<T>(items: seq<Item<T>>, budget: real)
    requires forall i :: 0 <= i < |items| ==> items[i].cost >= 0.0
    ensures Sum(Taken(items, budget), CostOf()) >= 0.0
    decreases |items|
  {
    if items != [] {
      TakenCostNonNegative(items[1..], budget - items[0].cost);
      TakenCostNonNegative(items[1..], budget);
    }
  }

  lemma ChosenIsListed<T>(chosen: seq<Item<T>>, x: Item<T>)
    requires x in chosen
    ensures x.id in Ids(chosen)
  {
    var n :| 0 <= n < |chosen| && chosen[n] == x;
    assert Ids(chosen)[n] == x.id;
  }

  /** The pass goes on after a misfit: whatever is left out costs more than what is left over. */
  lemma SelectionIsMaximal<T(!new)>(scores: map<T, real>, costs: map<T, real>, budget: real, ids: seq<T>, id: T)
    requires budget > 0.0 && (forall c :: c in costs ==> costs[c] >= 0.0)
    requires id in ids && id !in Selected(scores, costs, budget, ids)
    ensures TotalCost(scores, costs, Selected(scores, costs, budget, ids))
            + (if id in costs then costs[id] else 1.0) > budget
  {
    var items := ItemsOf(scores, costs, ids);
    var sorted, x := Sort(items, ByRatio()), ItemOf(scores, costs, id);
    SelectedItems(scores, costs, budget, ids);
    var j :| 0 <= j < |ids| && ids[j] == id;
    assert items[j] == x;
    SortElement(items, ByRatio(), x);
    if x in Taken(sorted, budget) {
      ChosenIsListed(Chosen(items, budget), x);
    }
    forall i | 0 <= i < |sorted|
      ensures sorted[i].cost >= 0.0
    {
      SortInside(items, ByRatio(), i);
    }
    TakenIsMaximal(sorted, budget, x);
  }

  lemma {:induction false} TakenFits<T>(items: seq<Item<T>>, budget: real, y: Item<T>)
    requires (forall i :: 0 <= i < |items| ==> items[i].cost >= 0.0) && y in Taken(items, budget)
    ensures y.cost <= budget
    decreases |items|
  {
    if items[0].cost <= budget {
      if y != items[0] {
        TakenFits(items[1..], budget - items[0].cost, y);
      }
    } else {
      TakenFits(items[1..], budget, y);
    }
  }

  /** Whatever is taken, everything in front of it that costs no more is taken too. */
  lemma {:induction false} EarlierTaken<T>(items: seq<Item<T>>, budget: real, x: Item<T>, y: Item<T>)
    requires forall i :: 0 <= i < |items| ==> items[i].cost >= 0.0
    requires Distinct(items) && Precedes(items, x, y) && x.cost <= y.cost && y in Taken(items, budget)
    ensures x in Taken(items, budget)
    decreases |items|
  {
    assert items == [items[0]] + items[1..];
    PrecedesInAppended([items[0]], items[1..], x, y);
    TakenFits(items, budget, y);
    if x != items[0] {
      var i, j :| 0 <= i < j < |items[1..]| && items[1..][i] == x && items[1..][j] == y;
      assert y != items[0];
      EarlierTaken(items[1..], if items[0].cost <= budget then budget - items[0].cost else budget, x, y);
    }
  }

  /** Of two survivors with the same score and cost the one listed first is selected first. */
  lemma TiesGoToTheFirst<T(!new)>(scores: map<T, real>, costs: map<T, real>, budget: real, ids: seq<T>, x: T, y: T)
    requires Distinct(ids) && forall c :: c in costs ==> costs[c] >= 0.0
    requires Lookup(scores, x, 0.0) == Lookup(scores, y, 0.0) && Lookup(costs, x, 1.0) == Lookup(costs, y, 1.0)
    requires Precedes(ids, x, y) && y in Selected(scores, costs, budget, ids)
    ensures x in Selected(scores, costs, budget, ids)
  {
    var items := ItemsOf(scores, costs, ids);
    var sorted := Sort(items, ByRatio());
    var i, j :| 0 <= i < j < |ids| && ids[i] == x && ids[j] == y;
    assert items[i] == ItemOf(scores, costs, x) && items[j] == ItemOf(scores, costs, y);
    ByRatioIsPreorder<T>();
    PrecedesInSorted(items, ByRatio(), items[i], items[j]);
    ItemsInside(scores, costs, ids, ids);
    SortDistinct(items, ByRatio());
    forall n | 0 <= n < |sorted|
      ensures sorted[n].cost >= 0.0
    {
      SortInside(items, ByRatio(), n);
    }
    SelectedIsChosen(scores, costs, budget, ids, y);
    EarlierTaken(sorted, budget, items[i], items[j]);
    ChosenIsListed(Chosen(items, budget), items[i]);
  }

  lemma SelectedIsChosen<T(!new)>(scores: map<T, real>, costs: map<T, real>, budget: real, ids: seq<T>, y: T)
    requires y in Selected(scores, costs, budget, ids)
    ensures ItemOf(scores, costs, y) in Chosen(ItemsOf(scores, costs, ids), budget)
  {
    var items := ItemsOf(scores, costs, ids);
    SelectedItems(scores, costs, budget, ids);
    var n :| 0 <= n < |Chosen(items, budget)| && Selected(scores, costs, budget, ids)[n] == y;
    assert ItemsOf(scores, costs, Selected(scores, costs, budget, ids))[n] == Chosen(items, budget)[n];
  }

  function KeyIn<T(==)>(d: map<T, real>): T -> bool {
    (c: T) => c in d
  }

  function ValueIn<T(==)>(d: map<T, real>): T -> real {
    (c: T) => if c in d then d[c] else 0.0
  }

  function LookupIn<T(==)>(d: map<T, real>, default: real): T -> real {
    (c: T) => Lookup(d, c, default)
  }

  lemma {:induction false} SumWithDefaults<T(!new)>(ids: seq<T>, d: map<T, real>)
    ensures Sum(ids, LookupIn(d, 0.0)) == Sum(Filter(ids, KeyIn(d)), ValueIn(d))
    ensures Sum(ids, LookupIn(d, 1.0))
            == Sum(Filter(ids, KeyIn(d)), ValueIn(d)) + (|ids| - |Filter(ids, KeyIn(d))|) as real
  {
    if ids != [] {
      SumWithDefaults(ids[1..], d);
      var rest := Filter(ids[1..], KeyIn(d));
      if ids[0] in d {
        assert ([ids[0]] + rest)[1..] == rest;
        assert Filter(ids, KeyIn(d)) == [ids[0]] + rest;
      } else {
        assert Filter(ids, KeyIn(d)) == rest;
      }
    }
  }

  lemma {:induction false} TotalsAreSums<T>(scores: map<T, real>, costs: map<T, real>, ids: seq<T>)
    ensures TotalScore(scores, costs, ids) == Sum(ids, LookupIn(scores, 0.0))
    ensures TotalCost(scores, costs, ids) == Sum(ids, LookupIn(costs, 1.0))
  {
    if ids != [] {
      TotalsAreSums(scores, costs, ids[1..]);
      assert ItemsOf(scores, costs, ids)[1..] == ItemsOf(scores, costs, ids[1..]);
    }
  }

  /** A component without a score counts for nothing and one without a cost costs 1. */
  lemma TotalsByDefault<T(!new)>(scores: map<T, real>, costs: map<T, real>, ids: seq<T>)
    ensures TotalScore(scores, costs, ids) == Sum(Filter(ids, KeyIn(scores)), ValueIn(scores))
    ensures TotalCost(scores, costs, ids)
            == Sum(Filter(ids, KeyIn(costs)), ValueIn(costs)) + (|ids| - |Filter(ids, KeyIn(costs))|) as real
  {
    TotalsAreSums(scores, costs, ids);
    SumWithDefaults(ids, scores);
    SumWithDefaults(ids, costs);
  }

  lemma {:induction false} TakenInside<T>(items: seq<Item<T>>, budget: real, x: Item<T>)
    requires x in Taken(items, budget)
    ensures x in items
    decreases |items|
  {
    if items[0].cost <= budget {
      if x != items[0] {
        TakenInside(items[1..], budget - items[0].cost, x);
      }
    } else {
      TakenInside(items[1..], budget, x);
    }
  }

  lemma {:induction false} TakenDistinct<T>(items: seq<Item<T>>, budget: real)
    requires Distinct(items)
    ensures Distinct(Taken(items, budget))
    decreases |items|
  {
    if items != [] {
      if items[0].cost <= budget {
        TakenDistinct(items[1..], budget - items[0].cost);
        if items[0] in Taken(items[1..], budget - items[0].cost) {
          TakenInside(items[1..], budget - items[0].cost, items[0]);
        }
      } else {
        TakenDistinct(items[1..], budget);
      }
    }
  }

  /** Greedy knapsack bound over identifiers. */
  lemma SelectionBound<T(!new)>(scores: map<T, real>, costs: map<T, real>, budget: real, ids: seq<T>, choice: seq<T>)
    requires PricedIds(scores, costs, ids) && budget > 0.0
    requires Distinct(choice) && TotalCost(scores, costs, choice) <= budget
    requires forall i :: 0 <= i < |choice| ==> choice[i] in ids
    ensures var misfit := Misfit(Sort(ItemsOf(scores, costs, ids), ByRatio()), budget);
            TotalScore(scores, costs, choice)
            <= TotalScore(scores, costs, Selected(scores, costs, budget, ids))
               + (if misfit.Some? then misfit.value.score else 0.0)
  {
    ItemsInside(scores, costs, choice, ids);
    SelectedItems(scores, costs, budget, ids);
    GreedyBound(ItemsOf(scores, costs, ids), budget, ItemsOf(scores, costs, choice));
  }

  /** v2's uniform cost: the selection has min(n, floor(budget / cost)) components and the best
      score any affordable choice has. */
  lemma UniformSelectionIsOptimal<T(!new)>(scores: map<T, real>, costs: map<T, real>, cost: real, budget: real,
                                           ids: seq<T>, choice: seq<T>)
    requires PricedIds(scores, costs, ids) && cost > 0.0 && budget > 0.0
    requires forall i :: 0 <= i < |ids| ==> Lookup(costs, ids[i], 1.0) == cost
    requires Distinct(choice) && TotalCost(scores, costs, choice) <= budget
    requires forall i :: 0 <= i < |choice| ==> choice[i] in ids
    ensures var selected := Selected(scores, costs, budget, ids);
            && FitCount(|selected|, |ids|, cost, budget)
            && TotalScore(scores, costs, choice) <= TotalScore(scores, costs, selected)
  {
    ItemsInside(scores, costs, choice, ids);
    SelectedItems(scores, costs, budget, ids);
    UniformGreedyIsOptimal(ItemsOf(scores, costs, ids), cost, budget, ItemsOf(scores, costs, choice));
  }
}
