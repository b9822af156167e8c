/** The v1/v2 low-set: the `r - max(rank_min, int(r * gamma))` lowest-scoring local positions. */
module Lowset {
  import opened Seqs
  import opened Pruning

  /** The documented range of the decay factor. */
  ghost predicate GammaOk(gamma: real) {
    0.0 < gamma < 1.0
  }

  lemma {:induction false} TimesBound(n: nat, gamma: real)
    requires GammaOk(gamma)
    ensures 0.0 <= Times(n, gamma) && (n > 0 ==> Times(n, gamma) < n as real)
  {
    if n > 0 {
      TimesBound(n - 1, gamma);
    }
  }

  /** `int(r * gamma)`; the product is non-negative, so int() is the floor. */
  function Kept(r: nat, gamma: real): (k: nat)
    requires GammaOk(gamma)
    ensures r > 0 ==> k < r
    ensures k as real <= Times(r, gamma) < k as real + 1.0
  {
    TimesBound(r, gamma);
    Times(r, gamma).Floor
  }

  function Target(r: nat, gamma: real, rankMin: nat): (k: nat)
    requires GammaOk(gamma)
    ensures k >= rankMin && k >= Kept(r, gamma) && (k == rankMin || k == Kept(r, gamma))
  {
    if rankMin >= Kept(r, gamma) then rankMin else Kept(r, gamma)
  }

  /** How many components may be pruned from `r`. */
  function Prunable(r: nat, gamma: real, rankMin: nat): (m: nat)
    requires GammaOk(gamma)
    ensures m <= r && (m > 0 <==> r > Target(r, gamma, rankMin))
    ensures m > 0 ==> r - m == Target(r, gamma, rankMin)
  {
    if r > Target(r, gamma, rankMin) then r - Target(r, gamma, rankMin) else 0
  }

  function ScoreAt(scores: seq<real>): (f: nat -> real)
    ensures forall p: nat :: p < |scores| ==> f(p) == scores[p]
  {
    (p: nat) => if p < |scores| then scores[p] else 0.0
  }

  /** Some result of torch.argsort: positions in ascending score order, ties in any order. */
  ghost predicate IsArgsort(order: seq<nat>, scores: seq<real>) {
    && |order| == |scores| && Distinct(order)
    && (forall i :: 0 <= i < |order| ==> order[i] < |scores|)
    && (forall p: nat :: p < |scores| ==> p in order)
    && (forall i, j :: 0 <= i < j < |order| ==> scores[order[i]] <= scores[order[j]])
  }

  function LowPositions(scores: seq<real>, gamma: real, rankMin: nat, order: seq<nat>): (low: seq<nat>)
    requires GammaOk(gamma) && IsArgsort(order, scores)
    ensures |low| == Prunable(|scores|, gamma, rankMin)
  {
    order[..Prunable(|scores|, gamma, rankMin)]
  }

  /** compute_lowset_and_score, given the order argsort returned. */
  method ComputeLowsetAndScore(scores: seq<real>, gamma: real, rankMin: nat, order: seq<nat>)
    returns (low: seq<nat>, lowScore: real)
    requires GammaOk(gamma) && IsArgsort(order, scores)
    ensures low == LowPositions(scores, gamma, rankMin, order)
    ensures lowScore == Sum(low, ScoreAt(scores))
  {
    var r := |scores|;
    if r == 0 {
      return [], 0.0;
    }
    var kTarget := if rankMin >= Kept(r, gamma) then rankMin else Kept(r, gamma);
    var m := r - kTarget;
    if m <= 0 {
      return [], 0.0;
    }
    low := order[..m];
    lowScore := TotalScore(scores, low);
  }

  method TotalScore(scores: seq<real>, positions: seq<nat>) returns (total: real)
    requires forall i :: 0 <= i < |positions| ==> positions[i] < |scores|
    ensures total == Sum(positions, ScoreAt(scores))
  {
    total := 0.0;
    for n := 0 to |positions|
      invariant total == Sum(positions[..n], ScoreAt(scores))
    {
      assert positions[..n + 1] == positions[..n] + [positions[n]];
      SumSnoc(positions[..n], positions[n], ScoreAt(scores));
      total := total + scores[positions[n]];
    }
    assert positions[..|positions|] == positions;
  }

  /** The low-set has exactly the documented size, nothing outside it scores lower, and no other
      set of positions of its size has a smaller total. */
  lemma LowsetIsLowest(scores: seq<real>, gamma: real, rankMin: nat, order: seq<nat>, choice: seq<nat>)
    requires GammaOk(gamma) && IsArgsort(order, scores)
    requires Distinct(choice) && |choice| == Prunable(|scores|, gamma, rankMin)
    requires forall i :: 0 <= i < |choice| ==> choice[i] < |scores|
    ensures var low := LowPositions(scores, gamma, rankMin, order);
            && Distinct(low)
            && (forall p, q: nat :: p in low && q < |scores| && q !in low ==> scores[p] <= scores[q])
            && Sum(low, ScoreAt(scores)) <= Sum(choice, ScoreAt(scores))
  {
    var m := Prunable(|scores|, gamma, rankMin);
    var low := LowPositions(scores, gamma, rankMin, order);
    forall p, q: nat | p in low && q < |scores| && q !in low
      ensures scores[p] <= scores[q]
    {
      var i :| 0 <= i < m && order[i] == p;
      assert q in order;
      var j :| 0 <= j < |order| && order[j] == q;
    }
    assert forall i :: 0 <= i < m ==> choice[i] in order;
    LeastPrefix(order, m, choice, ScoreAt(scores));
  }

  // ---- one pruning round, and many ----

  /** What a client prunes with: this round's scores and the order argsort returned for them. */
  datatype PruneRound = PruneRound(scores: seq<real>, order: seq<nat>)

  /** The survivors after dropping positions: kept positions, reindexed and sorted. */
  function Remaining(survivors: seq<int>, gone: seq<nat>): (r: seq<int>)
  {
    var keep := Filter(Range(|survivors|), Outside(gone));
    assert forall i :: 0 <= i < |keep| ==> keep[i] in keep;
    NewIndices(survivors, keep)
  }

  lemma RemainingOf(survivors: seq<int>, gone: seq<nat>)
    requires Distinct(survivors) && Distinct(gone)
    requires forall i :: 0 <= i < |gone| ==> gone[i] < |survivors|
    ensures |Remaining(survivors, gone)| == |survivors| - |gone|
    ensures Ascending(Remaining(survivors, gone)) && Distinct(Remaining(survivors, gone))
    ensures forall g :: g in Remaining(survivors, gone) <==>
                          exists p: nat :: p < |survivors| && p !in gone && survivors[p] == g
  {
    var range := Range(|survivors|);
    var keep := Filter(range, Outside(gone));
    assert forall i :: 0 <= i < |keep| ==> keep[i] in keep;
    FilterDistinct(range, Outside(gone));
    forall i | 0 <= i < |gone|
      ensures gone[i] in range
    {
      assert range[gone[i]] == gone[i];
    }
    FilterOutLength(range, gone);
    NewIndicesAscending(survivors, keep);
    forall g
      ensures g in Remaining(survivors, gone) <==>
              exists p: nat :: p < |survivors| && p !in gone && survivors[p] == g
    {
      RemainingMember(survivors, gone, g);
    }
  }

  lemma RemainingMember(survivors: seq<int>, gone: seq<nat>, g: int)
    ensures g in Remaining(survivors, gone) <==>
            exists p: nat :: p < |survivors| && p !in gone && survivors[p] == g
  {
    var range := Range(|survivors|);
    var keep := Filter(range, Outside(gone));
    assert forall i :: 0 <= i < |keep| ==> keep[i] in keep;
    NewMembers(survivors, keep, g);
    if p: nat :| p < |survivors| && p !in gone && survivors[p] == g {
      assert range[p] == p && p in keep;
      var i :| 0 <= i < |keep| && keep[i] == p;
    }
  }

  /** Removing any part of the low-set leaves at least max(rank_min, floor(gamma r)), or all. */
  lemma PartialPruneKeepsTarget(survivors: seq<int>, r: PruneRound, gamma: real, rankMin: nat, gone: seq<nat>)
    requires GammaOk(gamma) && IsArgsort(r.order, r.scores) && |r.scores| == |survivors| && Distinct(survivors)
    requires Distinct(gone)
    requires forall i :: 0 <= i < |gone| ==> gone[i] in LowPositions(r.scores, gamma, rankMin, r.order)
    ensures |Remaining(survivors, gone)| >= Target(|survivors|, gamma, rankMin)
            || Remaining(survivors, gone) == NewIndices(survivors, Range(|survivors|))
  {
    var low := LowPositions(r.scores, gamma, rankMin, r.order);
    forall i | 0 <= i < |gone|
      ensures gone[i] < |survivors|
    {
      assert gone[i] in low;
    }
    DistinctSubsetLength(gone, low);
    RemainingOf(survivors, gone);
    if gone == [] {
      FilterAll(Range(|survivors|), Outside(gone));
    }
  }

  lemma {:induction false} FilterAll<T(!new)>(s: seq<T>, keep: T -> bool)
    requires forall x :: keep(x)
    ensures Filter(s, keep) == s
  {
    if s != [] {
      FilterAll(s[1..], keep);
    }
  }

  function Pruned(survivors: seq<int>, r: PruneRound, gamma: real, rankMin: nat): seq<int>
    requires GammaOk(gamma) && IsArgsort(r.order, r.scores)
  {
    Remaining(survivors, LowPositions(r.scores, gamma, rankMin, r.order))
  }

  /** The scores of a round are those of the survivors it starts with. */
  ghost predicate RunOk(survivors: seq<int>, rounds: seq<PruneRound>, gamma: real, rankMin: nat)
    requires GammaOk(gamma)
    decreases |rounds|
  {
    rounds != [] ==>
      && IsArgsort(rounds[0].order, rounds[0].scores) && |rounds[0].scores| == |survivors|
      && RunOk(Pruned(survivors, rounds[0], gamma, rankMin), rounds[1..], gamma, rankMin)
  }

  function PruneRun(survivors: seq<int>, rounds: seq<PruneRound>, gamma: real, rankMin: nat): seq<int>
    requires GammaOk(gamma) && RunOk(survivors, rounds, gamma, rankMin)
    decreases |rounds|
  {
    if rounds == [] then survivors
    else PruneRun(Pruned(survivors, rounds[0], gamma, rankMin), rounds[1..], gamma, rankMin)
  }

  /** One round: strictly fewer survivors while above rank_min, never fewer than rank_min, all of
      them old survivors. */
  lemma RoundShrinks(survivors: seq<int>, r: PruneRound, gamma: real, rankMin: nat)
    requires GammaOk(gamma) && IsArgsort(r.order, r.scores) && |r.scores| == |survivors| && Distinct(survivors)
    ensures var next := Pruned(survivors, r, gamma, rankMin);
            && Distinct(next) && (forall g :: g in next ==> g in survivors)
            && (|survivors| > rankMin ==> rankMin <= |next| < |survivors|)
            && (|survivors| <= rankMin ==> |next| == |survivors|)
            && (|survivors| > Target(|survivors|, gamma, rankMin) ==> |next| == Target(|survivors|, gamma, rankMin))
  {
    LowsetIsLowest(r.scores, gamma, rankMin, r.order, r.order[..Prunable(|survivors|, gamma, rankMin)]);
    RemainingOf(survivors, LowPositions(r.scores, gamma, rankMin, r.order));
  }

  /** Iterated pruning: from any start at or above rank_min, whatever the scores, the count never
      goes below rank_min and is exactly rank_min once there were enough rounds. */
  lemma {:induction false} IteratedPruning(survivors: seq<int>, rounds: seq<PruneRound>, gamma: real, rankMin: nat)
    requires GammaOk(gamma) && RunOk(survivors, rounds, gamma, rankMin) && Distinct(survivors)
    requires |survivors| >= rankMin
    ensures var final := PruneRun(survivors, rounds, gamma, rankMin);
            && Distinct(final) && (forall g :: g in final ==> g in survivors)
            && rankMin <= |final| <= |survivors|
            && (|survivors| > rankMin && rounds != [] ==> |final| < |survivors|)
            && (|rounds| >= |survivors| - rankMin ==> |final| == rankMin)
    decreases |rounds|
  {
    if rounds != [] {
      RoundShrinks(survivors, rounds[0], gamma, rankMin);
      IteratedPruning(Pruned(survivors, rounds[0], gamma, rankMin), rounds[1..], gamma, rankMin);
    }
  }
}
