/** The v2 round as the client worker runs it. Pruning shortens only the index list: the delta is the
    difference of two unpruned tensors, so its slices still stand at the positions of the list the
    round began with, while everything after pruning reads them at positions of the new one. */
module WorkerV2 {
  import opened Seqs
  import opened Tensors
  import opened AdaSparseV2
  import Ledger

  /** The list stage 1 leaves: the current one when nothing is pruned, else filtered and sorted. */
  function AfterStage1(survivors: seq<int>, pruned: seq<int>): seq<int> {
    if pruned == [] then survivors else Sort(Filter(survivors, Outside(pruned)), AtMost)
  }

  /** What training produced for component `g`: the slice at its place before pruning. */
  function Produced(before: seq<int>, delta: Dict, g: int, k: Key): Option<Vec> {
    var p := LastIndex(before, g);
    if Has(delta, k) && 0 <= p < |delta[k].slices| then Some(delta[k].slices[p]) else None
  }

  predicate KeepsPlace(before: seq<int>, after: seq<int>, g: int) {
    LastIndex(after, g) == LastIndex(before, g)
  }

  lemma AfterStage1Of(survivors: seq<int>, pruned: seq<int>)
    requires Ascending(survivors)
    ensures var after := AfterStage1(survivors, pruned);
            && Ascending(after) && (forall i :: 0 <= i < |after| ==> after[i] in survivors)
            && (forall x :: x in after <==> x in survivors && x !in pruned)
  {
    FilteredSorted(survivors, pruned);
  }

  /** Of any duplicate-free list stage 1 leaves exactly what is not pruned, in the old order when
      nothing is pruned and sorted otherwise. */
  lemma WhatStage1Leaves(survivors: seq<int>, pruned: seq<int>)
    requires Distinct(survivors)
    ensures var after := AfterStage1(survivors, pruned);
            && Distinct(after) && (forall x :: x in after <==> x in survivors && x !in pruned)
            && (pruned == [] ==> after == survivors) && (pruned != [] ==> Ascending(after))
  {
    var kept := Filter(survivors, Outside(pruned));
    FilterDistinct(survivors, Outside(pruned));
    SortAscending(kept);
    SortElements(kept, AtMost);
  }

  /** On the ascending lists clients hold, a survivor keeps its place in exactly the rounds that
      prune nothing in front of it. */
  lemma PlaceKeptIffNothingInFront(survivors: seq<int>, pruned: seq<int>, g: int)
    requires Ascending(survivors) && g in survivors && g !in pruned
    ensures KeepsPlace(survivors, AfterStage1(survivors, pruned), g) <==>
              forall x :: x in pruned && x in survivors ==> x > g
  {
    AfterStage1Of(survivors, pruned);
    NothingInFront(survivors, pruned, AfterStage1(survivors, pruned), g);
  }

  // ---- one round ----

  /** What a round does besides training: the survivors it leaves and the upload it selects. */
  datatype Plan = Plan(survivors: seq<int>, upload: seq<int>)

  ghost predicate PlanOk(before: seq<int>, plan: Plan, maxRank: nat) {
    && Distinct(plan.survivors)
    && (forall i :: 0 <= i < |plan.survivors| ==> plan.survivors[i] in before && 0 <= plan.survivors[i] < maxRank)
    && (forall i :: 0 <= i < |plan.upload| ==> plan.upload[i] in plan.survivors)
  }

  /** A delta at the rank the round began with, which has coordinate `i` of tensor `k` if it has the
      tensor. */
  ghost predicate DeltaOk(before: seq<int>, delta: Dict, k: Key, i: nat) {
    && ReachesRank(delta, |before|)
    && (Has(delta, k) ==> forall p :: 0 <= p < |delta[k].slices| ==> i < |delta[k].slices[p]|)
  }

  /** Component `g` is sent, or stored, with its own slice of the delta. */
  ghost predicate OwnSlice(c: Client, r: Round, maxRank: nat, g: int, k: Key, i: nat) {
    var turn := Ledger.Turn(Produced(c.survivors, r.delta, g, k), g in r.upload);
    var entry := Entry(c.residuals, g, k);
    && Entry(Step(c, r).residuals, g, k) == Ledger.Next(entry, turn)
    && Received(c, r, maxRank, g, k, i) == Ledger.Amount(Ledger.Sent(entry, turn), i)
  }

  lemma PlannedRoundOk(c: Client, plan: Plan, delta: Dict, maxRank: nat)
    requires PlanOk(c.survivors, plan, maxRank) && ReachesRank(delta, |c.survivors|)
    ensures RoundOk(c, Round(plan.survivors, delta, plan.upload), maxRank)
  {
    DistinctSubsetLength(plan.survivors, c.survivors);
  }

  /** A delta that is 1 at one position and 0 elsewhere. */
  function Marker(n: nat, place: int, k: Key, i: nat): Dict {
    map[k := Tensor(seq(n, p => seq(i + 1, _ => if p == place then 1.0 else 0.0)), i + 1)]
  }

  lemma MarkerOf(before: seq<int>, g: int, k: Key, i: nat)
    requires g in before && !k.Other?
    ensures var delta := Marker(|before|, LastIndex(before, g), k, i);
            && DeltaOk(before, delta, k, i) && Has(delta, k)
            && (forall p :: 0 <= p < |before| ==>
                  At(delta[k].slices[p], i) == if p == LastIndex(before, g) then 1.0 else 0.0)
  {
  }

  /** Whatever is trained, `g` is sent and stored with its own slice if and only if it keeps its
      place. */
  lemma OwnSliceIffPlaceKept(c: Client, plan: Plan, maxRank: nat, g: int, k: Key, i: nat)
    requires PlanOk(c.survivors, plan, maxRank) && g in plan.survivors && !k.Other?
    ensures (forall delta: Dict :: DeltaOk(c.survivors, delta, k, i) ==>
               OwnSlice(c, Round(plan.survivors, delta, plan.upload), maxRank, g, k, i))
            <==> KeepsPlace(c.survivors, plan.survivors, g)
  {
    if KeepsPlace(c.survivors, plan.survivors, g) {
      forall delta: Dict | DeltaOk(c.survivors, delta, k, i)
        ensures OwnSlice(c, Round(plan.survivors, delta, plan.upload), maxRank, g, k, i)
      {
        PlannedRoundOk(c, plan, delta, maxRank);
        StepRefinesLedger(c, Round(plan.survivors, delta, plan.upload), maxRank, g, k, i);
      }
    } else {
      MovedSliceIsForeign(c, plan, maxRank, g, k, i);
    }
  }

  lemma MovedSliceIsForeign(c: Client, plan: Plan, maxRank: nat, g: int, k: Key, i: nat)
    requires PlanOk(c.survivors, plan, maxRank) && g in plan.survivors && !k.Other?
    requires !KeepsPlace(c.survivors, plan.survivors, g)
    ensures var delta := Marker(|c.survivors|, LastIndex(c.survivors, g), k, i);
            && DeltaOk(c.survivors, delta, k, i)
            && !OwnSlice(c, Round(plan.survivors, delta, plan.upload), maxRank, g, k, i)
  {
    var delta := Marker(|c.survivors|, LastIndex(c.survivors, g), k, i);
    var r := Round(plan.survivors, delta, plan.upload);
    MarkerOf(c.survivors, g, k, i);
    PlannedRoundOk(c, plan, delta, maxRank);
    DistinctSubsetLength(plan.survivors, c.survivors);
    StepRefinesLedger(c, r, maxRank, g, k, i);
    var entry := Entry(c.residuals, g, k);
    Ledger.EffectiveAmount(entry, FreshDelta(r, g, k).value, i);
    Ledger.EffectiveAmount(entry, Produced(c.survivors, delta, g, k).value, i);
  }

  /** An uploaded component with nothing stored: the server gets the slice at its new place. */
  lemma UploadReadsNewPlace(c: Client, r: Round, maxRank: nat, g: int, k: Key, i: nat)
    requires RoundOk(c, r, maxRank) && g in r.upload && g in r.survivors && !k.Other?
    requires Entry(c.residuals, g, k).None?
    ensures Received(c, r, maxRank, g, k, i) == Ledger.Amount(FreshDelta(r, g, k), i)
  {
    StepRefinesLedger(c, r, maxRank, g, k, i);
  }

  /** At a concrete input: of three components the first is pruned, the second is uploaded, and the
      server is sent the first one's slice for it. */
  lemma PrunedRoundMisattributes(layer: string)
    ensures var k := LoraA(layer);
            var c := Client([0, 1, 2], map[]);
            var r := Round([1, 2], map[k := Tensor([[10.0], [20.0], [30.0]], 1)], [1]);
            && RoundOk(c, r, 3)
            && Produced(c.survivors, r.delta, 1, k) == Some([20.0])
            && Received(c, r, 3, 1, k, 0) == 10.0
  {
    var k := LoraA(layer);
    var delta := map[k := Tensor([[10.0], [20.0], [30.0]], 1)];
    var before, after := [0, 1, 2], [1, 2];
    LastIndexDistinct(before, 1);
    LastIndexDistinct(after, 0);
    FirstSliceIsSent(Client(before, map[]), Round(after, delta, [1]), k);
  }

  lemma FirstSliceIsSent(c: Client, r: Round, k: Key)
    requires c.residuals == map[] && c.survivors == [0, 1, 2] && r.survivors == [1, 2] && r.upload == [1]
    requires LastIndex(r.survivors, 1) == 0 && !k.Other?
    requires r.delta.Keys == {k} && r.delta[k].Tensor? && |r.delta[k].slices| == 3
    ensures RoundOk(c, r, 3) && Received(c, r, 3, 1, k, 0) == At(r.delta[k].slices[0], 0)
  {
    UploadReadsNewPlace(c, r, 3, 1, k, 0);
  }

  // ---- whole runs ----

  function Rounds(plans: seq<Plan>, deltas: seq<Dict>): (r: seq<Round>)
    requires |plans| == |deltas|
    ensures |r| == |plans|
    ensures forall n :: 0 <= n < |r| ==> r[n] == Round(plans[n].survivors, deltas[n], plans[n].upload)
  {
    seq(|plans|, n requires 0 <= n < |plans| => Round(plans[n].survivors, deltas[n], plans[n].upload))
  }

  ghost predicate PlansOk(before: seq<int>, plans: seq<Plan>, maxRank: nat)
    decreases |plans|
  {
    plans != [] ==> PlanOk(before, plans[0], maxRank) && PlansOk(plans[0].survivors, plans[1..], maxRank)
  }

  ghost predicate DeltasOk(before: seq<int>, plans: seq<Plan>, deltas: seq<Dict>, k: Key, i: nat)
    decreases |plans|
  {
    && |deltas| == |plans|
    && (plans != [] ==>
          DeltaOk(before, deltas[0], k, i) && DeltasOk(plans[0].survivors, plans[1..], deltas[1..], k, i))
  }

  lemma RoundsUnfold(plans: seq<Plan>, deltas: seq<Dict>)
    requires |plans| == |deltas| > 0
    ensures Rounds(plans, deltas)[0] == Round(plans[0].survivors, deltas[0], plans[0].upload)
    ensures Rounds(plans, deltas)[1..] == Rounds(plans[1..], deltas[1..])
  {
  }

  function PlansOf(rounds: seq<Round>): (p: seq<Plan>)
    ensures |p| == |rounds|
    ensures forall n :: 0 <= n < |p| ==> p[n] == Plan(rounds[n].survivors, rounds[n].upload)
  {
    seq(|rounds|, n requires 0 <= n < |rounds| => Plan(rounds[n].survivors, rounds[n].upload))
  }

  /** `g` keeps its place in every round. */
  predicate PlacesKept(before: seq<int>, plans: seq<Plan>, g: int)
    decreases |plans|
  {
    plans != [] ==> KeepsPlace(before, plans[0].survivors, g) && PlacesKept(plans[0].survivors, plans[1..], g)
  }

  /** The turns of `g` as training made them. */
  function OwnTurns(before: seq<int>, rounds: seq<Round>, g: int, k: Key): (t: seq<Ledger.Turn>)
    ensures |t| == |rounds|
    decreases |rounds|
  {
    if rounds == [] then []
    else
      [Ledger.Turn(Produced(before, rounds[0].delta, g, k), g in rounds[0].upload)]
      + OwnTurns(rounds[0].survivors, rounds[1..], g, k)
  }

  /** Received + stored + lost = initial + what training produced for `g`. */
  ghost predicate Conserves(c: Client, rounds: seq<Round>, maxRank: nat, g: int, k: Key, i: nat) {
    var start := Entry(c.residuals, g, k);
    ReceivedTotal(c, rounds, maxRank, g, k, i)
    + Ledger.Amount(Entry(Run(c, rounds).residuals, g, k), i)
    + Ledger.LostTotal(start, Turns(rounds, g, k), i)
    == Ledger.Amount(start, i) + Ledger.DeltaTotal(OwnTurns(c.survivors, rounds, g, k), i)
  }

  /** For given deltas: what is conserved is what was read, so the law holds exactly if that adds up
      to what was produced. */
  lemma ConservesIffTotalsAgree(c: Client, rounds: seq<Round>, maxRank: nat, g: int, k: Key, i: nat)
    requires RunOk(c, rounds, maxRank) && !k.Other? && Covers(rounds, g, k, i)
    requires g in Run(c, rounds).survivors
    ensures Conserves(c, rounds, maxRank, g, k, i) <==>
              Ledger.DeltaTotal(Turns(rounds, g, k), i) == Ledger.DeltaTotal(OwnTurns(c.survivors, rounds, g, k), i)
  {
    Conservation(c, rounds, maxRank, g, k, i);
  }

  lemma KeptTurnIsOwn(before: seq<int>, r: Round, g: int, k: Key)
    requires KeepsPlace(before, r.survivors, g)
    ensures FreshDelta(r, g, k) == Produced(before, r.delta, g, k)
  {
  }

  lemma {:induction false} KeptTurnsAreOwn(before: seq<int>, rounds: seq<Round>, g: int, k: Key)
    requires PlacesKept(before, PlansOf(rounds), g)
    ensures Turns(rounds, g, k) == OwnTurns(before, rounds, g, k)
    decreases |rounds|
  {
    if rounds != [] {
      assert PlansOf(rounds)[1..] == PlansOf(rounds[1..]);
      KeptTurnsAreOwn(rounds[0].survivors, rounds[1..], g, k);
      KeptTurnIsOwn(before, rounds[0], g, k);
      assert Turns(rounds, g, k) == [Turns(rounds, g, k)[0]] + Turns(rounds[1..], g, k);
    }
  }

  /** A component that keeps its place in every round is conserved in every run, also one in which
      tensors come and go. */
  lemma KeptPlacesConserve(c: Client, rounds: seq<Round>, maxRank: nat, g: int, k: Key, i: nat)
    requires RunOk(c, rounds, maxRank) && !k.Other? && Covers(rounds, g, k, i)
    requires g in Run(c, rounds).survivors && PlacesKept(c.survivors, PlansOf(rounds), g)
    ensures Conserves(c, rounds, maxRank, g, k, i)
  {
    KeptTurnsAreOwn(c.survivors, rounds, g, k);
    ConservesIffTotalsAgree(c, rounds, maxRank, g, k, i);
  }

  function FinalSurvivors(before: seq<int>, plans: seq<Plan>): seq<int> {
    if plans == [] then before else plans[|plans| - 1].survivors
  }

  /** Planned rounds with admissible deltas are admissible rounds. */
  lemma {:induction false} PlannedRunOk(c: Client, plans: seq<Plan>, deltas: seq<Dict>, maxRank: nat, k: Key, i: nat)
    requires PlansOk(c.survivors, plans, maxRank) && DeltasOk(c.survivors, plans, deltas, k, i)
    ensures RunOk(c, Rounds(plans, deltas), maxRank)
    decreases |plans|
  {
    if plans != [] {
      PlannedRoundOk(c, plans[0], deltas[0], maxRank);
      var first := Round(plans[0].survivors, deltas[0], plans[0].upload);
      PlannedRunOk(Step(c, first), plans[1..], deltas[1..], maxRank, k, i);
      RoundsUnfold(plans, deltas);
    }
  }

  lemma {:induction false} FinalOfRun(c: Client, plans: seq<Plan>, deltas: seq<Dict>)
    requires |deltas| == |plans|
    ensures Run(c, Rounds(plans, deltas)).survivors == FinalSurvivors(c.survivors, plans)
    decreases |plans|
  {
    if plans != [] {
      var rounds := Rounds(plans, deltas);
      FinalOfRun(Step(c, rounds[0]), plans[1..], deltas[1..]);
      assert rounds[1..] == Rounds(plans[1..], deltas[1..]);
    }
  }

  lemma {:induction false} SurvivesThroughout(before: seq<int>, plans: seq<Plan>, maxRank: nat, g: int)
    requires PlansOk(before, plans, maxRank) && g in FinalSurvivors(before, plans)
    ensures g in before && forall n :: 0 <= n < |plans| ==> g in plans[n].survivors
    decreases |plans|
  {
    if plans != [] {
      SurvivesThroughout(plans[0].survivors, plans[1..], maxRank, g);
      assert forall n :: 0 < n < |plans| ==> plans[n] == plans[1..][n - 1];
    }
  }

  lemma {:induction false} DeltasCover(before: seq<int>, plans: seq<Plan>, deltas: seq<Dict>, g: int, k: Key, i: nat)
    requires DeltasOk(before, plans, deltas, k, i)
    ensures Covers(Rounds(plans, deltas), g, k, i)
    decreases |plans|
  {
    if plans != [] {
      DeltasCover(plans[0].survivors, plans[1..], deltas[1..], g, k, i);
      var rounds := Rounds(plans, deltas);
      assert rounds[1..] == Rounds(plans[1..], deltas[1..]);
      assert Turns(rounds, g, k)[1..] == Turns(rounds[1..], g, k);
      forall n | 0 <= n < |rounds| && Turns(rounds, g, k)[n].delta.Some?
        ensures i < |Turns(rounds, g, k)[n].delta.value|
      {
        if n > 0 {
          assert Turns(rounds, g, k)[n] == Turns(rounds[1..], g, k)[n - 1];
        }
      }
    }
  }

  /** In every round, 1 at the place `g` has when the round begins. */
  function Markers(before: seq<int>, plans: seq<Plan>, g: int, k: Key, i: nat): (d: seq<Dict>)
    ensures |d| == |plans|
    decreases |plans|
  {
    if plans == [] then []
    else [Marker(|before|, LastIndex(before, g), k, i)] + Markers(plans[0].survivors, plans[1..], g, k, i)
  }

  /** Training then produces 1 a round, and a round in which `g` moved reads 0. */
  lemma {:induction false} MarkerTotals(before: seq<int>, plans: seq<Plan>, maxRank: nat, g: int, k: Key, i: nat)
    requires PlansOk(before, plans, maxRank) && !k.Other?
    requires g in before && forall n :: 0 <= n < |plans| ==> g in plans[n].survivors
    ensures var deltas := Markers(before, plans, g, k, i);
            var rounds := Rounds(plans, deltas);
            var read := Ledger.DeltaTotal(Turns(rounds, g, k), i);
            var own := Ledger.DeltaTotal(OwnTurns(before, rounds, g, k), i);
            && DeltasOk(before, plans, deltas, k, i)
            && read <= own && (!PlacesKept(before, plans, g) ==> read < own)
    decreases |plans|
  {
    if plans != [] {
      var deltas := Markers(before, plans, g, k, i);
      var rounds := Rounds(plans, deltas);
      MarkerTotals(plans[0].survivors, plans[1..], maxRank, g, k, i);
      assert deltas[1..] == Markers(plans[0].survivors, plans[1..], g, k, i);
      assert rounds[1..] == Rounds(plans[1..], deltas[1..]);
      MarkerOf(before, g, k, i);
      DistinctSubsetLength(plans[0].survivors, before);
      assert Turns(rounds, g, k)[1..] == Turns(rounds[1..], g, k);
      assert OwnTurns(before, rounds, g, k)[1..] == OwnTurns(plans[0].survivors, rounds[1..], g, k);
    }
  }

  /** Error feedback of the worker's rounds: whatever is trained, everything produced for `g` over a
      run is uploaded or still stored, if and only if `g` keeps its place in every round. */
  lemma ConservationIffPlacesKept(c: Client, plans: seq<Plan>, maxRank: nat, g: int, k: Key, i: nat)
    requires PlansOk(c.survivors, plans, maxRank) && g in FinalSurvivors(c.survivors, plans) && !k.Other?
    ensures (forall deltas: seq<Dict> :: DeltasOk(c.survivors, plans, deltas, k, i) ==>
               Conserves(c, Rounds(plans, deltas), maxRank, g, k, i))
            <==> PlacesKept(c.survivors, plans, g)
  {
    SurvivesThroughout(c.survivors, plans, maxRank, g);
    if PlacesKept(c.survivors, plans, g) {
      forall deltas: seq<Dict> | DeltasOk(c.survivors, plans, deltas, k, i)
        ensures Conserves(c, Rounds(plans, deltas), maxRank, g, k, i)
      {
        PlannedRunOk(c, plans, deltas, maxRank, k, i);
        FinalOfRun(c, plans, deltas);
        DeltasCover(c.survivors, plans, deltas, g, k, i);
        assert PlansOf(Rounds(plans, deltas)) == plans;
        KeptPlacesConserve(c, Rounds(plans, deltas), maxRank, g, k, i);
      }
    } else {
      var deltas := Markers(c.survivors, plans, g, k, i);
      MarkerTotals(c.survivors, plans, maxRank, g, k, i);
      PlannedRunOk(c, plans, deltas, maxRank, k, i);
      FinalOfRun(c, plans, deltas);
      DeltasCover(c.survivors, plans, deltas, g, k, i);
      ConservesIffTotalsAgree(c, Rounds(plans, deltas), maxRank, g, k, i);
    }
  }

  // ---- in terms of what is pruned ----

  /** Each round's list is what stage 1 leaves of the one before. */
  predicate FollowsStage1(before: seq<int>, prunings: seq<seq<int>>, plans: seq<Plan>)
    requires |plans| == |prunings|
    decreases |plans|
  {
    plans != [] ==>
      && plans[0].survivors == AfterStage1(before, prunings[0])
      && FollowsStage1(plans[0].survivors, prunings[1..], plans[1..])
  }

  /** No round prunes a component in front of `g`. */
  predicate PrunedBehind(before: seq<int>, prunings: seq<seq<int>>, g: int)
    decreases |prunings|
  {
    prunings != [] ==>
      && (forall x :: x in prunings[0] && x in before ==> x > g)
      && PrunedBehind(AfterStage1(before, prunings[0]), prunings[1..], g)
  }

  /** The condition of the run theorem, as a client can check it: `g` keeps its place in every round
      exactly if all that is ever pruned has a larger index. */
  lemma {:induction false} PlacesKeptIffPrunedBehind(before: seq<int>, prunings: seq<seq<int>>, plans: seq<Plan>,
                                                     g: int)
    requires Ascending(before) && g in before && forall n :: 0 <= n < |prunings| ==> g !in prunings[n]
    requires |plans| == |prunings| && FollowsStage1(before, prunings, plans)
    ensures PlacesKept(before, plans, g) <==> PrunedBehind(before, prunings, g)
    decreases |prunings|
  {
    if prunings != [] {
      var after := AfterStage1(before, prunings[0]);
      AfterStage1Of(before, prunings[0]);
      PlaceKeptIffNothingInFront(before, prunings[0], g);
      PlacesKeptIffPrunedBehind(after, prunings[1..], plans[1..], g);
    }
  }
}
