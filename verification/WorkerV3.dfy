/** The v3 round as the client worker runs it: as in v2, the delta's slices still stand at the
    positions of the lists the round began with, layer by layer. */
module WorkerV3 {
  import opened Seqs
  import opened Tensors
  import opened Components
  import opened AdaSparseV3
  import Ledger

  /** The lists stage 1 leaves: the current ones when nothing is pruned, else every layer's list is
      filtered and sorted. */
  function AfterStage1(byLayer: Grouped, pruned: seq<Cid>): Grouped {
    if pruned == [] then byLayer
    else map l | l in byLayer :: Sort(Filter(byLayer[l], Outside(IndicesIn(pruned, l))), AtMost)
  }

  /** What training produced for a component: the slice at its place before pruning. */
  function Produced(before: Grouped, delta: Dict, id: Cid, k: Key): Option<Vec> {
    SliceOf(delta, before, id, k)
  }

  predicate KeepsPlace(before: Grouped, after: Grouped, id: Cid) {
    Place(after, id) == Place(before, id)
  }

  lemma AfterStage1Of(byLayer: Grouped, pruned: seq<Cid>, layer: string, g: int)
    requires layer in byLayer && Ascending(byLayer[layer]) && g in byLayer[layer] && (layer, g) !in pruned
    ensures layer in AfterStage1(byLayer, pruned)
    ensures Ascending(AfterStage1(byLayer, pruned)[layer]) && g in AfterStage1(byLayer, pruned)[layer]
  {
    IndicesMembers(pruned, layer);
    FilteredSorted(byLayer[layer], IndicesIn(pruned, layer));
  }

  /** Stage 1 keeps every layer and leaves of its duplicate-free list exactly what is not pruned of
      that layer; when nothing at all is pruned the lists stay as they are, otherwise each is sorted. */
  lemma WhatStage1Leaves(byLayer: Grouped, pruned: seq<Cid>, layer: string)
    requires layer in byLayer && Distinct(byLayer[layer])
    ensures AfterStage1(byLayer, pruned).Keys == byLayer.Keys
    ensures var after := AfterStage1(byLayer, pruned)[layer];
            && Distinct(after) && (forall x :: x in after <==> x in byLayer[layer] && (layer, x) !in pruned)
            && (pruned == [] ==> after == byLayer[layer]) && (pruned != [] ==> Ascending(after))
  {
    var gone := IndicesIn(pruned, layer);
    var kept := Filter(byLayer[layer], Outside(gone));
    IndicesMembers(pruned, layer);
    FilterDistinct(byLayer[layer], Outside(gone));
    SortAscending(kept);
    SortElements(kept, AtMost);
  }

  /** On ascending lists, a survivor keeps its place in exactly the rounds that prune nothing of its
      layer in front of it. */
  lemma PlaceKeptIffNothingInFront(byLayer: Grouped, pruned: seq<Cid>, layer: string, g: int)
    requires layer in byLayer && Ascending(byLayer[layer]) && g in byLayer[layer] && (layer, g) !in pruned
    ensures KeepsPlace(byLayer, AfterStage1(byLayer, pruned), (layer, g)) <==>
              forall x :: (layer, x) in pruned && x in byLayer[layer] ==> x > g
  {
    if pruned != [] {
      var gone := IndicesIn(pruned, layer);
      IndicesMembers(pruned, layer);
      FilteredSorted(byLayer[layer], gone);
      NothingInFront(byLayer[layer], gone, AfterStage1(byLayer, pruned)[layer], g);
    }
  }

  // ---- one round ----

  datatype Plan = Plan(survivors: Grouped, upload: seq<Cid>)

  ghost predicate PlanOk(before: Grouped, plan: Plan, maxRank: nat) {
    && (forall l :: l in plan.survivors ==> Distinct(plan.survivors[l]))
    && (forall l, g :: l in plan.survivors && g in plan.survivors[l] ==> Survives(before, (l, g)) && 0 <= g < maxRank)
    && (forall i :: 0 <= i < |plan.upload| ==> Survives(plan.survivors, plan.upload[i]))
  }

  /** A delta at the ranks the round began with, which has coordinate `i` of tensor `k` if it has the
      tensor. */
  ghost predicate DeltaOk(before: Grouped, delta: Dict, k: Key, i: nat) {
    && ReachesLayers(delta, before)
    && (Has(delta, k) ==> forall p :: 0 <= p < |delta[k].slices| ==> i < |delta[k].slices[p]|)
  }

  /** The component is sent, or stored, with its own slice of the delta. */
  ghost predicate OwnSlice(c: Client, r: Round, maxRank: nat, id: Cid, k: Key, i: nat) {
    var turn := Ledger.Turn(Produced(c.survivors, r.delta, id, k), id in r.upload, !HasLayer(r.delta, id.0));
    var entry := Entry(c.residuals, id, k);
    && Entry(Step(c, r).residuals, id, k) == Ledger.Next(entry, turn)
    && Received(c, r, maxRank, id, k, i) == Ledger.Amount(Ledger.Sent(entry, turn), i)
  }

  lemma LayerShrinks(before: Grouped, plan: Plan, maxRank: nat, l: string)
    requires PlanOk(before, plan, maxRank) && l in plan.survivors
    ensures plan.survivors[l] != [] ==> l in before && |plan.survivors[l]| <= |before[l]|
  {
    var after := plan.survivors[l];
    if after != [] {
      var first := after[0];
      assert first in plan.survivors[l];
      assert Survives(before, (l, first));
      forall i | 0 <= i < |after|
        ensures after[i] in before[l]
      {
        var g := after[i];
        assert Survives(before, (l, g));
      }
      DistinctSubsetLength(after, before[l]);
    }
  }

  lemma PlannedRoundOk(c: Client, plan: Plan, delta: Dict, maxRank: nat)
    requires PlanOk(c.survivors, plan, maxRank) && ReachesLayers(delta, c.survivors)
    ensures RoundOk(c, Round(plan.survivors, delta, plan.upload), maxRank)
  {
    forall k | Routed(delta, plan.survivors, k)
      ensures |delta[k].slices| >= |plan.survivors[k.layer]|
    {
      LayerShrinks(c.survivors, plan, maxRank, k.layer);
      assert plan.survivors[k.layer] != [] ==> Routed(delta, c.survivors, k);
    }
  }

  /** Both tensors of a layer, 1 at one position and 0 elsewhere. */
  function Marker(n: nat, place: int, layer: string, i: nat): Dict {
    var t := Tensor(seq(n, p => seq(i + 1, _ => if p == place then 1.0 else 0.0)), i + 1);
    map[LoraA(layer) := t, LoraB(layer) := t]
  }

  function MarkerAt(before: Grouped, id: Cid, i: nat): Dict {
    Marker(if id.0 in before then |before[id.0]| else 0, Place(before, id), id.0, i)
  }

  lemma MarkerOf(before: Grouped, id: Cid, k: Key, i: nat)
    requires Survives(before, id) && !k.Other? && k.layer == id.0
    ensures var delta := MarkerAt(before, id, i);
            && DeltaOk(before, delta, k, i) && HasLayer(delta, id.0) && |delta[k].slices| == |before[id.0]|
            && (forall p :: 0 <= p < |before[id.0]| ==>
                  At(delta[k].slices[p], i) == if p == Place(before, id) then 1.0 else 0.0)
  {
  }

  lemma ReadSlice(c: Client, plan: Plan, delta: Dict, maxRank: nat, id: Cid, k: Key, i: nat)
    requires PlanOk(c.survivors, plan, maxRank) && DeltaOk(c.survivors, delta, k, i)
    requires Survives(plan.survivors, id) && HasLayer(delta, id.0) && !k.Other? && k.layer == id.0
    ensures var r := Round(plan.survivors, delta, plan.upload);
            && IsTurn(c, r, maxRank, id, k, i)
            && 0 <= Place(plan.survivors, id) < |delta[k].slices| && 0 <= Place(c.survivors, id) < |delta[k].slices|
            && FreshDelta(r, id, k) == Some(delta[k].slices[Place(plan.survivors, id)])
            && Produced(c.survivors, delta, id, k) == Some(delta[k].slices[Place(c.survivors, id)])
  {
    var r := Round(plan.survivors, delta, plan.upload);
    PlannedRoundOk(c, plan, delta, maxRank);
    StepRefinesLedger(c, r, maxRank, id, k, i);
    PlacesInRange(c.survivors, plan, delta, maxRank, id, k, i);
  }

  lemma PlacesInRange(before: Grouped, plan: Plan, delta: Dict, maxRank: nat, id: Cid, k: Key, i: nat)
    requires PlanOk(before, plan, maxRank) && DeltaOk(before, delta, k, i)
    requires Survives(plan.survivors, id) && HasLayer(delta, id.0) && !k.Other? && k.layer == id.0
    ensures 0 <= Place(plan.survivors, id) < |delta[k].slices| && 0 <= Place(before, id) < |delta[k].slices|
    ensures Routed(delta, before, k) && Routed(delta, plan.survivors, k)
  {
    SurvivesPlan(before, plan, maxRank, id);
    LayerShrinks(before, plan, maxRank, id.0);
    assert Routed(delta, before, k);
  }

  /** Whatever is trained, a component is sent and stored with its own slice if and only if it keeps
      its place in its layer. */
  lemma OwnSliceIffPlaceKept(c: Client, plan: Plan, maxRank: nat, id: Cid, k: Key, i: nat)
    requires PlanOk(c.survivors, plan, maxRank) && Survives(plan.survivors, id) && !k.Other? && k.layer == id.0
    ensures (forall delta: Dict :: DeltaOk(c.survivors, delta, k, i) ==>
               OwnSlice(c, Round(plan.survivors, delta, plan.upload), maxRank, id, k, i))
            <==> KeepsPlace(c.survivors, plan.survivors, id)
  {
    if KeepsPlace(c.survivors, plan.survivors, id) {
      forall delta: Dict | DeltaOk(c.survivors, delta, k, i)
        ensures OwnSlice(c, Round(plan.survivors, delta, plan.upload), maxRank, id, k, i)
      {
        PlannedRoundOk(c, plan, delta, maxRank);
        StepRefinesLedger(c, Round(plan.survivors, delta, plan.upload), maxRank, id, k, i);
      }
    } else {
      MovedSliceIsForeign(c, plan, maxRank, id, k, i);
    }
  }

  lemma SurvivesPlan(before: Grouped, plan: Plan, maxRank: nat, id: Cid)
    requires PlanOk(before, plan, maxRank) && Survives(plan.survivors, id)
    ensures Survives(before, id) && 0 <= id.1 < maxRank
  {
    var (l, g) := id;
    assert l in plan.survivors && g in plan.survivors[l];
    assert Survives(before, (l, g));
  }

  lemma MovedSliceIsForeign(c: Client, plan: Plan, maxRank: nat, id: Cid, k: Key, i: nat)
    requires PlanOk(c.survivors, plan, maxRank) && Survives(plan.survivors, id) && !k.Other? && k.layer == id.0
    requires !KeepsPlace(c.survivors, plan.survivors, id)
    ensures var delta := MarkerAt(c.survivors, id, i);
            && DeltaOk(c.survivors, delta, k, i)
            && !OwnSlice(c, Round(plan.survivors, delta, plan.upload), maxRank, id, k, i)
  {
    var delta := MarkerAt(c.survivors, id, i);
    SurvivesPlan(c.survivors, plan, maxRank, id);
    MarkerOf(c.survivors, id, k, i);
    ReadSlice(c, plan, delta, maxRank, id, k, i);
    var entry := Entry(c.residuals, id, k);
    Ledger.EffectiveAmount(entry, delta[k].slices[Place(plan.survivors, id)], i);
    Ledger.EffectiveAmount(entry, delta[k].slices[Place(c.survivors, id)], i);
  }

  // ---- whole runs ----

  function Rounds(plans: seq<Plan>, deltas: seq<Dict>): (r: seq<Round>)
    requires |plans| == |deltas|
    ensures |r| == |plans|
    ensures forall n :: 0 <= n < |r| ==> r[n] == Round(plans[n].survivors, deltas[n], plans[n].upload)
  {
    seq(|plans|, n requires 0 <= n < |plans| => Round(plans[n].survivors, deltas[n], plans[n].upload))
  }

  lemma RoundsUnfold(plans: seq<Plan>, deltas: seq<Dict>)
    requires |plans| == |deltas| > 0
    ensures Rounds(plans, deltas)[0] == Round(plans[0].survivors, deltas[0], plans[0].upload)
    ensures Rounds(plans, deltas)[1..] == Rounds(plans[1..], deltas[1..])
  {
  }

  function PlansOf(rounds: seq<Round>): (p: seq<Plan>)
    ensures |p| == |rounds|
    ensures forall n :: 0 <= n < |p| ==> p[n] == Plan(rounds[n].survivors, rounds[n].upload)
  {
    seq(|rounds|, n requires 0 <= n < |rounds| => Plan(rounds[n].survivors, rounds[n].upload))
  }

  ghost predicate PlansOk(before: Grouped, plans: seq<Plan>, maxRank: nat)
    decreases |plans|
  {
    plans != [] ==> PlanOk(before, plans[0], maxRank) && PlansOk(plans[0].survivors, plans[1..], maxRank)
  }

  ghost predicate DeltasOk(before: Grouped, plans: seq<Plan>, deltas: seq<Dict>, k: Key, i: nat)
    decreases |plans|
  {
    && |deltas| == |plans|
    && (plans != [] ==>
          DeltaOk(before, deltas[0], k, i) && DeltasOk(plans[0].survivors, plans[1..], deltas[1..], k, i))
  }

  /** The component keeps its place in every round. */
  predicate PlacesKept(before: Grouped, plans: seq<Plan>, id: Cid)
    decreases |plans|
  {
    plans != [] ==> KeepsPlace(before, plans[0].survivors, id) && PlacesKept(plans[0].survivors, plans[1..], id)
  }

  /** The turns of a component as training made them. */
  function OwnTurns(before: Grouped, rounds: seq<Round>, id: Cid, k: Key): (t: seq<Ledger.Turn>)
    ensures |t| == |rounds|
    decreases |rounds|
  {
    if rounds == [] then []
    else
      [Ledger.Turn(Produced(before, rounds[0].delta, id, k), id in rounds[0].upload,
                   !HasLayer(rounds[0].delta, id.0))]
      + OwnTurns(rounds[0].survivors, rounds[1..], id, k)
  }

  /** Received + stored + lost = initial + what training produced for the component, also where the
      layer was incomplete. */
  ghost predicate Conserves(c: Client, rounds: seq<Round>, maxRank: nat, id: Cid, k: Key, i: nat) {
    var start := Entry(c.residuals, id, k);
    ReceivedTotal(c, rounds, maxRank, id, k, i)
    + Ledger.Amount(Entry(Run(c, rounds).residuals, id, k), i)
    + Ledger.LostTotal(start, Turns(rounds, id, k), i)
    == Ledger.Amount(start, i) + Ledger.DeltaTotal(OwnTurns(c.survivors, rounds, id, k), i)
  }

  /** For given deltas: the law holds exactly if what was read adds up to what was produced. */
  lemma ConservesIffTotalsAgree(c: Client, rounds: seq<Round>, maxRank: nat, id: Cid, k: Key, i: nat)
    requires RunOk(c, rounds, maxRank) && !k.Other? && k.layer == id.0 && Ledger.Covers(Turns(rounds, id, k), i)
    requires Survives(Run(c, rounds).survivors, id)
    ensures Conserves(c, rounds, maxRank, id, k, i) <==>
              Ledger.DeltaTotal(Turns(rounds, id, k), i) == Ledger.DeltaTotal(OwnTurns(c.survivors, rounds, id, k), i)
  {
    Conservation(c, rounds, maxRank, id, k, i);
  }

  lemma {:induction false} KeptTurnsAreOwn(before: Grouped, rounds: seq<Round>, id: Cid, k: Key)
    requires PlacesKept(before, PlansOf(rounds), id)
    ensures Turns(rounds, id, k) == OwnTurns(before, rounds, id, k)
    decreases |rounds|
  {
    if rounds != [] {
      assert PlansOf(rounds)[1..] == PlansOf(rounds[1..]);
      KeptTurnsAreOwn(rounds[0].survivors, rounds[1..], id, k);
      assert FreshDelta(rounds[0], id, k) == Produced(before, rounds[0].delta, id, k);
      assert Turns(rounds, id, k) == [Turns(rounds, id, k)[0]] + Turns(rounds[1..], id, k);
    }
  }

  /** A component that keeps its place in every round is conserved in every run, also one in which
      tensors come and go. */
  lemma KeptPlacesConserve(c: Client, rounds: seq<Round>, maxRank: nat, id: Cid, k: Key, i: nat)
    requires RunOk(c, rounds, maxRank) && !k.Other? && k.layer == id.0 && Ledger.Covers(Turns(rounds, id, k), i)
    requires Survives(Run(c, rounds).survivors, id) && PlacesKept(c.survivors, PlansOf(rounds), id)
    ensures Conserves(c, rounds, maxRank, id, k, i)
  {
    KeptTurnsAreOwn(c.survivors, rounds, id, k);
    ConservesIffTotalsAgree(c, rounds, maxRank, id, k, i);
  }

  function FinalSurvivors(before: Grouped, plans: seq<Plan>): Grouped {
    if plans == [] then before else plans[|plans| - 1].survivors
  }

  lemma {:induction false} PlannedRunOk(c: Client, plans: seq<Plan>, deltas: seq<Dict>, maxRank: nat, k: Key, i: nat)
    requires PlansOk(c.survivors, plans, maxRank) && DeltasOk(c.survivors, plans, deltas, k, i)
    ensures RunOk(c, Rounds(plans, deltas), maxRank)
    decreases |plans|
  {
    if plans != [] {
      PlannedRoundOk(c, plans[0], deltas[0], maxRank);
      var first := Round(plans[0].survivors, deltas[0], plans[0].upload);
      PlannedRunOk(Step(c, first), plans[1..], deltas[1..], maxRank, k, i);
      RoundsUnfold(plans, deltas);
    }
  }

  lemma {:induction false} FinalOfRun(c: Client, plans: seq<Plan>, deltas: seq<Dict>)
    requires |deltas| == |plans|
    ensures Run(c, Rounds(plans, deltas)).survivors == FinalSurvivors(c.survivors, plans)
    decreases |plans|
  {
    if plans != [] {
      var rounds := Rounds(plans, deltas);
      FinalOfRun(Step(c, rounds[0]), plans[1..], deltas[1..]);
      assert rounds[1..] == Rounds(plans[1..], deltas[1..]);
    }
  }

  lemma {:induction false} SurvivesThroughout(before: Grouped, plans: seq<Plan>, maxRank: nat, id: Cid)
    requires PlansOk(before, plans, maxRank) && Survives(FinalSurvivors(before, plans), id)
    ensures Survives(before, id) && forall n :: 0 <= n < |plans| ==> Survives(plans[n].survivors, id)
    decreases |plans|
  {
    if plans != [] {
      SurvivesThroughout(plans[0].survivors, plans[1..], maxRank, id);
      SurvivesPlan(before, plans[0], maxRank, id);
      assert forall n :: 0 < n < |plans| ==> plans[n] == plans[1..][n - 1];
    }
  }

  lemma {:induction false} DeltasCover(before: Grouped, plans: seq<Plan>, deltas: seq<Dict>, id: Cid, k: Key, i: nat)
    requires DeltasOk(before, plans, deltas, k, i)
    ensures Ledger.Covers(Turns(Rounds(plans, deltas), id, k), i)
    decreases |plans|
  {
    if plans != [] {
      DeltasCover(plans[0].survivors, plans[1..], deltas[1..], id, k, i);
      var rounds := Rounds(plans, deltas);
      assert rounds[1..] == Rounds(plans[1..], deltas[1..]);
      forall n | 0 <= n < |rounds| && Turns(rounds, id, k)[n].delta.Some?
        ensures i < |Turns(rounds, id, k)[n].delta.value|
      {
        if n > 0 {
          assert Turns(rounds, id, k)[n] == Turns(rounds[1..], id, k)[n - 1];
        }
      }
    }
  }

  /** In every round, 1 at the place the component has when the round begins. */
  function Markers(before: Grouped, plans: seq<Plan>, id: Cid, i: nat): (d: seq<Dict>)
    ensures |d| == |plans|
    decreases |plans|
  {
    if plans == [] then []
    else [MarkerAt(before, id, i)] + Markers(plans[0].survivors, plans[1..], id, i)
  }

  lemma MarkerRead(before: Grouped, plan: Plan, maxRank: nat, id: Cid, k: Key, i: nat)
    requires PlanOk(before, plan, maxRank) && Survives(plan.survivors, id) && !k.Other? && k.layer == id.0
    ensures var delta := MarkerAt(before, id, i);
            var r := Round(plan.survivors, delta, plan.upload);
            && DeltaOk(before, delta, k, i)
            && Ledger.Amount(Produced(before, delta, id, k), i) == 1.0
            && Ledger.Amount(FreshDelta(r, id, k), i) == if KeepsPlace(before, plan.survivors, id) then 1.0 else 0.0
  {
    SurvivesPlan(before, plan, maxRank, id);
    MarkerOf(before, id, k, i);
    ReadSlice(Client(before, map[]), plan, MarkerAt(before, id, i), maxRank, id, k, i);
    LayerShrinks(before, plan, maxRank, id.0);
  }

  /** Training then produces 1 a round, and a round in which the component moved reads 0. */
  lemma {:induction false} MarkerTotals(before: Grouped, plans: seq<Plan>, maxRank: nat, id: Cid, k: Key, i: nat)
    requires PlansOk(before, plans, maxRank) && !k.Other? && k.layer == id.0
    requires forall n :: 0 <= n < |plans| ==> Survives(plans[n].survivors, id)
    ensures var deltas := Markers(before, plans, id, i);
            var rounds := Rounds(plans, deltas);
            var read := Ledger.DeltaTotal(Turns(rounds, id, k), i);
            var own := Ledger.DeltaTotal(OwnTurns(before, rounds, id, k), i);
            && DeltasOk(before, plans, deltas, k, i)
            && read <= own && (!PlacesKept(before, plans, id) ==> read < own)
    decreases |plans|
  {
    if plans != [] {
      var deltas := Markers(before, plans, id, i);
      var rounds := Rounds(plans, deltas);
      MarkerTotals(plans[0].survivors, plans[1..], maxRank, id, k, i);
      assert deltas[1..] == Markers(plans[0].survivors, plans[1..], id, i);
      assert rounds[1..] == Rounds(plans[1..], deltas[1..]);
      MarkerRead(before, plans[0], maxRank, id, k, i);
      assert Turns(rounds, id, k)[1..] == Turns(rounds[1..], id, k);
      assert OwnTurns(before, rounds, id, k)[1..] == OwnTurns(plans[0].survivors, rounds[1..], id, k);
    }
  }

  /** Error feedback of the worker's rounds, per (layer, index): whatever is trained, everything
      produced for a component over a run is uploaded or still stored, if and only if it keeps its
      place in its layer in every round. */
  lemma ConservationIffPlacesKept(c: Client, plans: seq<Plan>, maxRank: nat, id: Cid, k: Key, i: nat)
    requires PlansOk(c.survivors, plans, maxRank) && Survives(FinalSurvivors(c.survivors, plans), id)
    requires !k.Other? && k.layer == id.0
    ensures (forall deltas: seq<Dict> :: DeltasOk(c.survivors, plans, deltas, k, i) ==>
               Conserves(c, Rounds(plans, deltas), maxRank, id, k, i))
            <==> PlacesKept(c.survivors, plans, id)
  {
    SurvivesThroughout(c.survivors, plans, maxRank, id);
    if PlacesKept(c.survivors, plans, id) {
      forall deltas: seq<Dict> | DeltasOk(c.survivors, plans, deltas, k, i)
        ensures Conserves(c, Rounds(plans, deltas), maxRank, id, k, i)
      {
        PlannedRunOk(c, plans, deltas, maxRank, k, i);
        FinalOfRun(c, plans, deltas);
        DeltasCover(c.survivors, plans, deltas, id, k, i);
        assert PlansOf(Rounds(plans, deltas)) == plans;
        KeptPlacesConserve(c, Rounds(plans, deltas), maxRank, id, k, i);
      }
    } else {
      var deltas := Markers(c.survivors, plans, id, i);
      MarkerTotals(c.survivors, plans, maxRank, id, k, i);
      PlannedRunOk(c, plans, deltas, maxRank, k, i);
      FinalOfRun(c, plans, deltas);
      DeltasCover(c.survivors, plans, deltas, id, k, i);
      ConservesIffTotalsAgree(c, Rounds(plans, deltas), maxRank, id, k, i);
    }
  }

  // ---- in terms of what is pruned ----

  /** Each round's lists are what stage 1 leaves of those before. */
  predicate FollowsStage1(before: Grouped, prunings: seq<seq<Cid>>, plans: seq<Plan>)
    requires |plans| == |prunings|
    decreases |plans|
  {
    plans != [] ==>
      && plans[0].survivors == AfterStage1(before, prunings[0])
      && FollowsStage1(plans[0].survivors, prunings[1..], plans[1..])
  }

  /** No round prunes a component of the same layer in front of this one. */
  predicate PrunedBehind(before: Grouped, prunings: seq<seq<Cid>>, layer: string, g: int)
    requires layer in before
    decreases |prunings|
  {
    prunings != [] ==>
      && (forall x :: x in before[layer] && (layer, x) in prunings[0] ==> x > g)
      && PrunedBehind(AfterStage1(before, prunings[0]), prunings[1..], layer, g)
  }

  /** The condition of the run theorem, as a client can check it. */
  lemma {:induction false} PlacesKeptIffPrunedBehind(before: Grouped, prunings: seq<seq<Cid>>, plans: seq<Plan>,
                                                     layer: string, g: int)
    requires layer in before && Ascending(before[layer]) && g in before[layer]
    requires forall n :: 0 <= n < |prunings| ==> (layer, g) !in prunings[n]
    requires |plans| == |prunings| && FollowsStage1(before, prunings, plans)
    ensures PlacesKept(before, plans, (layer, g)) <==> PrunedBehind(before, prunings, layer, g)
    decreases |prunings|
  {
    if prunings != [] {
      var after := AfterStage1(before, prunings[0]);
      AfterStage1Of(before, prunings[0], layer, g);
      PlaceKeptIffNothingInFront(before, prunings[0], layer, g);
      PlacesKeptIffPrunedBehind(after, prunings[1..], plans[1..], layer, g);
    }
  }
}
