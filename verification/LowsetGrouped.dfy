/** The v3 low-set over (layer, index) components, per layer or in one global pool, both under
    one shared floor. Scores come as the dict's keys in insertion order plus their values. */
module LowsetGrouped {
  import opened Seqs
  import opened Components
  import opened Lowset

  type Scores = map<Cid, real>

  function ScoreOf(scores: Scores): (f: Cid -> real)
    ensures forall c :: c in scores ==> f(c) == scores[c]
  {
    (c: Cid) => if c in scores then scores[c] else 0.0
  }

  function ByScore(scores: Scores): (Cid, Cid) -> bool {
    (a: Cid, b: Cid) => ScoreOf(scores)(a) <= ScoreOf(scores)(b)
  }

  ghost predicate KeysOf(keys: seq<Cid>, scores: Scores) {
    Distinct(keys) && forall c :: c in scores <==> c in keys
  }

  /** Global competition: the lowest components of one pool. */
  function GlobalLow(keys: seq<Cid>, scores: Scores, gamma: real, rankMin: nat): (low: seq<Cid>)
    requires GammaOk(gamma)
    ensures |low| == Prunable(|keys|, gamma, rankMin)
  {
    Sort(keys, ByScore(scores))[..Prunable(|keys|, gamma, rankMin)]
  }

  /** The lowest `r - int(r * gamma)` components of one layer. */
  function LayerCandidates(keys: seq<Cid>, scores: Scores, gamma: real, layer: string): (low: seq<Cid>)
    requires GammaOk(gamma)
    ensures |low| + Kept(|LayerIds(keys, layer)|, gamma) == |LayerIds(keys, layer)|
  {
    var ids := LayerIds(keys, layer);
    Sort(ids, ByScore(scores))[..|ids| - Kept(|ids|, gamma)]
  }

  function Candidates(keys: seq<Cid>, scores: Scores, gamma: real, layers: seq<string>): seq<Cid>
    requires GammaOk(gamma)
    decreases |layers|
  {
    if layers == [] then []
    else
      Candidates(keys, scores, gamma, layers[..|layers| - 1])
      + LayerCandidates(keys, scores, gamma, layers[|layers| - 1])
  }

  /** Per-layer selection, cut to the shared number of prunable components. */
  function PerLayerLow(keys: seq<Cid>, scores: Scores, gamma: real, rankMin: nat): (low: seq<Cid>)
    requires GammaOk(gamma)
    ensures |low| == Prunable(|keys|, gamma, rankMin)
  {
    var sorted := Sort(Candidates(keys, scores, gamma, LayerOrder(keys)), ByScore(scores));
    EnoughCandidates(keys, scores, gamma, rankMin);
    sorted[..Prunable(|keys|, gamma, rankMin)]
  }

  // ---- sizes ----

  function KeptIn(keys: seq<Cid>, gamma: real, layers: seq<string>): nat
    requires GammaOk(gamma)
    decreases |layers|
  {
    if layers == [] then 0
    else
      KeptIn(keys, gamma, layers[..|layers| - 1])
      + Kept(|IndicesIn(keys, layers[|layers| - 1])|, gamma)
  }

  lemma {:induction false} CandidateCount(keys: seq<Cid>, scores: Scores, gamma: real, layers: seq<string>)
    requires GammaOk(gamma)
    ensures |Candidates(keys, scores, gamma, layers)| + KeptIn(keys, gamma, layers) == CountIn(keys, layers)
    decreases |layers|
  {
    if layers != [] {
      var before := layers[..|layers| - 1];
      assert layers == before + [layers[|layers| - 1]];
      CandidateCount(keys, scores, gamma, before);
      CountAppend(keys, before, layers[|layers| - 1]);
    }
  }

  /** The per-layer floors sum to at most the shared fraction of the sum. */
  lemma {:induction false} FloorsOfLayers(keys: seq<Cid>, gamma: real, layers: seq<string>)
    requires GammaOk(gamma)
    ensures KeptIn(keys, gamma, layers) as real <= Times(CountIn(keys, layers), gamma)
    decreases |layers|
  {
    if layers != [] {
      var before, layer := layers[..|layers| - 1], layers[|layers| - 1];
      assert layers == before + [layer];
      FloorsOfLayers(keys, gamma, before);
      CountAppend(keys, before, layer);
      FloorsAdd(KeptIn(keys, gamma, before), CountIn(keys, before), |IndicesIn(keys, layer)|, gamma);
    }
  }

  lemma FloorsAdd(kept: nat, count: nat, n: nat, gamma: real)
    requires GammaOk(gamma) && kept as real <= Times(count, gamma)
    ensures (kept + Kept(n, gamma)) as real <= Times(count + n, gamma)
  {
    TimesAdd(count, n, gamma);
  }

  lemma EnoughCandidates(keys: seq<Cid>, scores: Scores, gamma: real, rankMin: nat)
    requires GammaOk(gamma)
    ensures |Candidates(keys, scores, gamma, LayerOrder(keys))| >= Prunable(|keys|, gamma, rankMin)
  {
    var layers := LayerOrder(keys);
    LayerSizes(keys);
    CandidateCount(keys, scores, gamma, layers);
    FloorsOfLayers(keys, gamma, layers);
    assert KeptIn(keys, gamma, layers) <= Kept(|keys|, gamma);
  }

  // ---- membership ----

  lemma LayerCandidatesOf(keys: seq<Cid>, scores: Scores, gamma: real, layer: string)
    requires GammaOk(gamma) && Distinct(keys)
    ensures Distinct(LayerCandidates(keys, scores, gamma, layer))
    ensures forall i :: 0 <= i < |LayerCandidates(keys, scores, gamma, layer)| ==>
                          var c := LayerCandidates(keys, scores, gamma, layer)[i]; c in keys && c.0 == layer
  {
    var ids := LayerIds(keys, layer);
    LayerIdsDistinct(keys, layer);
    var m := |ids| - Kept(|ids|, gamma);
    SortPrefix(ids, ByScore(scores), m);
    forall i | 0 <= i < m
      ensures var c := LayerCandidates(keys, scores, gamma, layer)[i]; c in keys && c.0 == layer
    {
      LayerIdsMembers(keys, layer, Sort(ids, ByScore(scores))[..m][i]);
    }
  }

  lemma {:induction false} CandidatesOf(keys: seq<Cid>, scores: Scores, gamma: real, layers: seq<string>)
    requires GammaOk(gamma) && Distinct(keys) && Distinct(layers)
    ensures Distinct(Candidates(keys, scores, gamma, layers))
    ensures forall i :: 0 <= i < |Candidates(keys, scores, gamma, layers)| ==>
                          var c := Candidates(keys, scores, gamma, layers)[i];
                          && c in keys && c.0 in layers && c in LayerCandidates(keys, scores, gamma, c.0)
    decreases |layers|
  {
    if layers != [] {
      var before, layer := layers[..|layers| - 1], layers[|layers| - 1];
      CandidatesOf(keys, scores, gamma, before);
      LayerCandidatesOf(keys, scores, gamma, layer);
      assert layer !in before;
    }
  }

  lemma PerLayerLowOf(keys: seq<Cid>, scores: Scores, gamma: real, rankMin: nat)
    requires GammaOk(gamma) && Distinct(keys)
    ensures var low := PerLayerLow(keys, scores, gamma, rankMin);
            && Distinct(low)
            && forall i :: 0 <= i < |low| ==> low[i] in keys && low[i] in LayerCandidates(keys, scores, gamma, low[i].0)
  {
    var layers := LayerOrder(keys);
    var pool := Candidates(keys, scores, gamma, layers);
    EnoughCandidates(keys, scores, gamma, rankMin);
    CandidatesOf(keys, scores, gamma, layers);
    var m := Prunable(|keys|, gamma, rankMin);
    SortPrefix(pool, ByScore(scores), m);
    forall i | 0 <= i < m
      ensures var c := Sort(pool, ByScore(scores))[..m][i];
              c in keys && c in LayerCandidates(keys, scores, gamma, c.0)
    {
      var j :| 0 <= j < |pool| && pool[j] == Sort(pool, ByScore(scores))[..m][i];
    }
  }

  // ---- the method ----

  /** compute_lowset_grouped. `keys` is the insertion order of the score dict. */
  method ComputeLowsetGrouped(keys: seq<Cid>, scores: Scores, gamma: real, rankMin: nat, globalCompetition: bool)
    returns (low: seq<Cid>, lowScore: real)
    requires GammaOk(gamma) && KeysOf(keys, scores)
    ensures low == if globalCompetition then GlobalLow(keys, scores, gamma, rankMin)
                   else PerLayerLow(keys, scores, gamma, rankMin)
    ensures lowScore == Sum(low, ScoreOf(scores))
  {
    if |keys| == 0 {
      return [], 0.0;
    }
    var kTargetGlobal := if rankMin >= Kept(|keys|, gamma) then rankMin else Kept(|keys|, gamma);
    var maxPrunableGlobal := |keys| - kTargetGlobal;
    if maxPrunableGlobal <= 0 {
      return [], 0.0;
    }
    assert maxPrunableGlobal == Prunable(|keys|, gamma, rankMin);
    if globalCompetition {
      low := Sort(keys, ByScore(scores))[..maxPrunableGlobal];
    } else {
      var candidates := CollectCandidates(keys, scores, gamma, LayerOrder(keys));
      EnoughCandidates(keys, scores, gamma, rankMin);
      low := Sort(candidates, ByScore(scores))[..maxPrunableGlobal];
    }
    lowScore := TotalOf(low, scores);
  }

  lemma CandidatesSnoc(keys: seq<Cid>, scores: Scores, gamma: real, layers: seq<string>, layer: string)
    requires GammaOk(gamma)
    ensures Candidates(keys, scores, gamma, layers + [layer])
            == Candidates(keys, scores, gamma, layers) + LayerCandidates(keys, scores, gamma, layer)
  {
    assert (layers + [layer])[..|layers|] == layers;
  }

  /** First pass of the per-layer mode: each layer contributes its lowest components. */
  method CollectCandidates(keys: seq<Cid>, scores: Scores, gamma: real, layers: seq<string>)
    returns (candidates: seq<Cid>)
    requires GammaOk(gamma)
    ensures candidates == Candidates(keys, scores, gamma, layers)
  {
    candidates := [];
    for n := 0 to |layers|
      invariant candidates == Candidates(keys, scores, gamma, layers[..n])
    {
      var block := LowestOfLayer(keys, scores, gamma, layers[n]);
      CandidatesSnoc(keys, scores, gamma, layers[..n], layers[n]);
      assert layers[..n + 1] == layers[..n] + [layers[n]];
      candidates := candidates + block;
    }
    assert layers[..|layers|] == layers;
  }

  method LowestOfLayer(keys: seq<Cid>, scores: Scores, gamma: real, layer: string) returns (block: seq<Cid>)
    requires GammaOk(gamma)
    ensures block == LayerCandidates(keys, scores, gamma, layer)
  {
    var ids := LayerIds(keys, layer);
    var mLayer := |ids| - Kept(|ids|, gamma);
    block := [];
    if mLayer > 0 {
      block := Sort(ids, ByScore(scores))[..mLayer];
    }
  }

  method TotalOf(ids: seq<Cid>, scores: Scores) returns (total: real)
    ensures total == Sum(ids, ScoreOf(scores))
  {
    total := 0.0;
    for n := 0 to |ids|
      invariant total == Sum(ids[..n], ScoreOf(scores))
    {
      assert ids[..n + 1] == ids[..n] + [ids[n]];
      SumSnoc(ids[..n], ids[n], ScoreOf(scores));
      total := total + ScoreOf(scores)(ids[n]);
    }
    assert ids[..|ids|] == ids;
  }

  // ---- what the documentation promises ----

  /** Both modes prune the same number of components, exactly
      max(0, total - max(rank_min, floor(gamma total))), all different and all scored; so the
      survivors never fall below the shared floor. */
  lemma BothModesPruneTheSameNumber(keys: seq<Cid>, scores: Scores, gamma: real, rankMin: nat)
    requires GammaOk(gamma) && KeysOf(keys, scores)
    ensures var g := GlobalLow(keys, scores, gamma, rankMin);
            var l := PerLayerLow(keys, scores, gamma, rankMin);
            var floor := Target(|keys|, gamma, rankMin);
            && |g| == |l| == (if |keys| > floor then |keys| - floor else 0)
            && Distinct(g) && Distinct(l)
            && (forall i :: 0 <= i < |g| ==> g[i] in scores) && (forall i :: 0 <= i < |l| ==> l[i] in scores)
            && |Filter(keys, Outside(g))| == |Filter(keys, Outside(l))| == (if |keys| > floor then floor else |keys|)
  {
    var g := GlobalLow(keys, scores, gamma, rankMin);
    var l := PerLayerLow(keys, scores, gamma, rankMin);
    PerLayerLowOf(keys, scores, gamma, rankMin);
    GlobalLowOf(keys, scores, gamma, rankMin);
    FilterOutLength(keys, g);
    FilterOutLength(keys, l);
  }

  lemma GlobalLowOf(keys: seq<Cid>, scores: Scores, gamma: real, rankMin: nat)
    requires GammaOk(gamma) && Distinct(keys)
    ensures var g := GlobalLow(keys, scores, gamma, rankMin);
            Distinct(g) && forall i :: 0 <= i < |g| ==> g[i] in keys
  {
    SortPrefix(keys, ByScore(scores), Prunable(|keys|, gamma, rankMin));
  }

  /** The global low-set has the least total of any component set of its size. */
  lemma GlobalLowIsLeast(keys: seq<Cid>, scores: Scores, gamma: real, rankMin: nat, choice: seq<Cid>)
    requires GammaOk(gamma) && KeysOf(keys, scores)
    requires Distinct(choice) && |choice| == Prunable(|keys|, gamma, rankMin)
    requires forall i :: 0 <= i < |choice| ==> choice[i] in keys
    ensures Sum(GlobalLow(keys, scores, gamma, rankMin), ScoreOf(scores)) <= Sum(choice, ScoreOf(scores))
  {
    var le := ByScore(scores);
    SortSorted(keys, le);
    SortElements(keys, le);
    forall i, j | 0 <= i < j < |keys|
      ensures ScoreOf(scores)(Sort(keys, le)[i]) <= ScoreOf(scores)(Sort(keys, le)[j])
    {
      assert le(Sort(keys, le)[i], Sort(keys, le)[j]);
    }
    LeastPrefix(Sort(keys, le), |choice|, choice, ScoreOf(scores));
  }

  /** Hence the global mode never prunes more score than the per-layer mode. */
  lemma GlobalNeverPrunesMoreScore(keys: seq<Cid>, scores: Scores, gamma: real, rankMin: nat)
    requires GammaOk(gamma) && KeysOf(keys, scores)
    ensures Sum(GlobalLow(keys, scores, gamma, rankMin), ScoreOf(scores))
            <= Sum(PerLayerLow(keys, scores, gamma, rankMin), ScoreOf(scores))
  {
    PerLayerLowOf(keys, scores, gamma, rankMin);
    GlobalLowIsLeast(keys, scores, gamma, rankMin, PerLayerLow(keys, scores, gamma, rankMin));
  }

  /** Per-layer mode: a layer of size r keeps at least floor(gamma r) components. */
  lemma LayerKeepsItsFloor(keys: seq<Cid>, scores: Scores, gamma: real, rankMin: nat, layer: string)
    requires GammaOk(gamma) && KeysOf(keys, scores)
    ensures var low := PerLayerLow(keys, scores, gamma, rankMin);
            var r := |LayerIds(keys, layer)|;
            |Filter(LayerIds(keys, layer), Outside(low))| >= Kept(r, gamma)
  {
    var low := PerLayerLow(keys, scores, gamma, rankMin);
    var ids := LayerIds(keys, layer);
    LayerIdsDistinct(keys, layer);
    FilterDistinct(ids, Inside(low));
    var pruned := Filter(ids, Inside(low));
    forall i | 0 <= i < |pruned|
      ensures pruned[i] in LayerCandidates(keys, scores, gamma, layer)
    {
      assert pruned[i] in pruned;
      PrunedIsCandidate(keys, scores, gamma, rankMin, layer, pruned[i]);
    }
    DistinctSubsetLength(pruned, LayerCandidates(keys, scores, gamma, layer));
    FilterSplit(ids, low);
  }

  lemma PrunedIsCandidate(keys: seq<Cid>, scores: Scores, gamma: real, rankMin: nat, layer: string, c: Cid)
    requires GammaOk(gamma) && Distinct(keys)
    requires c in LayerIds(keys, layer) && c in PerLayerLow(keys, scores, gamma, rankMin)
    ensures c in LayerCandidates(keys, scores, gamma, layer)
  {
    LayerIdsMembers(keys, layer, c);
    PerLayerLowOf(keys, scores, gamma, rankMin);
    var low := PerLayerLow(keys, scores, gamma, rankMin);
    var j :| 0 <= j < |low| && low[j] == c;
  }

  /** Per-layer mode: every pruned score is at most every kept score of that layer. */
  lemma LayerPrunesItsLowest(keys: seq<Cid>, scores: Scores, gamma: real, rankMin: nat, gone: Cid, kept: Cid)
    requires GammaOk(gamma) && KeysOf(keys, scores)
    requires gone in PerLayerLow(keys, scores, gamma, rankMin)
    requires kept in keys && kept !in PerLayerLow(keys, scores, gamma, rankMin) && kept.0 == gone.0
    ensures scores[kept] >= ScoreOf(scores)(gone)
  {
    var ids := LayerIds(keys, gone.0);
    PerLayerLowOf(keys, scores, gamma, rankMin);
    var low := PerLayerLow(keys, scores, gamma, rankMin);
    var n :| 0 <= n < |low| && low[n] == gone;
    LayerIdsMembers(keys, gone.0, kept);
    if kept in LayerCandidates(keys, scores, gamma, gone.0) {
      PoolOrder(keys, scores, gamma, rankMin, gone, kept);
    } else {
      SortCut(ids, ByScore(scores), |ids| - Kept(|ids|, gamma), gone, kept);
    }
  }

  /** Per-layer mode shares the number out by score: no component is pruned that scores above a kept
      one, of whatever layer, whose layer keeps more than its floor. */
  lemma PruningComparesLayers(keys: seq<Cid>, scores: Scores, gamma: real, rankMin: nat, gone: Cid, kept: Cid)
    requires GammaOk(gamma) && KeysOf(keys, scores)
    requires gone in PerLayerLow(keys, scores, gamma, rankMin)
    requires kept in keys && kept !in PerLayerLow(keys, scores, gamma, rankMin)
    requires var ids := LayerIds(keys, kept.0);
             |Filter(ids, Outside(PerLayerLow(keys, scores, gamma, rankMin)))| > Kept(|ids|, gamma)
    ensures scores[kept] >= ScoreOf(scores)(gone)
  {
    var ids := LayerIds(keys, kept.0);
    LayerIdsMembers(keys, kept.0, kept);
    if kept in LayerCandidates(keys, scores, gamma, kept.0) {
      PoolOrder(keys, scores, gamma, rankMin, gone, kept);
    } else {
      var spared := SparedCandidate(keys, scores, gamma, kept.0, PerLayerLow(keys, scores, gamma, rankMin));
      PoolOrder(keys, scores, gamma, rankMin, gone, spared);
      SortCut(ids, ByScore(scores), |ids| - Kept(|ids|, gamma), spared, kept);
    }
  }

  /** A layer that keeps more than its floor keeps one of its candidates. */
  lemma SparedCandidate(keys: seq<Cid>, scores: Scores, gamma: real, layer: string, low: seq<Cid>) returns (spared: Cid)
    requires GammaOk(gamma) && Distinct(keys)
    requires |Filter(LayerIds(keys, layer), Outside(low))| > Kept(|LayerIds(keys, layer)|, gamma)
    ensures spared in LayerCandidates(keys, scores, gamma, layer) && spared !in low
    ensures spared in keys && spared.0 == layer
  {
    var ids, candidates := LayerIds(keys, layer), LayerCandidates(keys, scores, gamma, layer);
    LayerCandidatesOf(keys, scores, gamma, layer);
    FilterSplit(ids, low);
    if forall i :: 0 <= i < |candidates| ==> candidates[i] in low {
      forall i | 0 <= i < |candidates|
        ensures candidates[i] in Filter(ids, Inside(low))
      {
        LayerIdsMembers(keys, layer, candidates[i]);
      }
      DistinctSubsetLength(candidates, Filter(ids, Inside(low)));
    }
    var i :| 0 <= i < |candidates| && candidates[i] !in low;
    spared := candidates[i];
  }

  /** Equal scores go by the order of the dict in global mode; in per-layer mode by the order in which the layers
      first appear, and inside a layer by index. */
  lemma TiesGoByOrder(keys: seq<Cid>, scores: Scores, gamma: real, rankMin: nat, gone: Cid, kept: Cid)
    requires GammaOk(gamma) && KeysOf(keys, scores)
    requires gone in keys && kept in keys && scores[gone] == scores[kept]
    ensures gone in GlobalLow(keys, scores, gamma, rankMin) && kept !in GlobalLow(keys, scores, gamma, rankMin) ==>
              Precedes(keys, gone, kept)
    ensures gone in PerLayerLow(keys, scores, gamma, rankMin) && kept !in PerLayerLow(keys, scores, gamma, rankMin)
            && kept in LayerCandidates(keys, scores, gamma, kept.0) ==>
              if gone.0 == kept.0 then gone.1 < kept.1 else Precedes(LayerOrder(keys), gone.0, kept.0)
  {
    if gone in GlobalLow(keys, scores, gamma, rankMin) && kept !in GlobalLow(keys, scores, gamma, rankMin) {
      EqualScores(keys, scores, gone, kept);
      TieTaken(keys, ByScore(scores), Prunable(|keys|, gamma, rankMin), gone, kept);
    }
    if gone in PerLayerLow(keys, scores, gamma, rankMin) && kept !in PerLayerLow(keys, scores, gamma, rankMin)
       && kept in LayerCandidates(keys, scores, gamma, kept.0) {
      TiesInPool(keys, scores, gamma, rankMin, gone, kept);
    }
  }

  lemma EqualScores(keys: seq<Cid>, scores: Scores, x: Cid, y: Cid)
    requires KeysOf(keys, scores) && x in keys && y in keys && scores[x] == scores[y]
    ensures ByScore(scores)(x, y) && ByScore(scores)(y, x)
  {
    assert x in scores && y in scores;
    assert ScoreOf(scores)(x) == scores[x] && ScoreOf(scores)(y) == scores[y];
  }

  lemma TiesInPool(keys: seq<Cid>, scores: Scores, gamma: real, rankMin: nat, gone: Cid, kept: Cid)
    requires GammaOk(gamma) && KeysOf(keys, scores)
    requires gone in keys && kept in keys && scores[gone] == scores[kept]
    requires gone in PerLayerLow(keys, scores, gamma, rankMin) && kept !in PerLayerLow(keys, scores, gamma, rankMin)
    requires kept in LayerCandidates(keys, scores, gamma, kept.0)
    ensures if gone.0 == kept.0 then gone.1 < kept.1 else Precedes(LayerOrder(keys), gone.0, kept.0)
  {
    PoolPrecedes(keys, scores, gamma, rankMin, gone, kept);
    PoolByLayers(keys, scores, gamma, LayerOrder(keys), gone, kept);
    if gone.0 == kept.0 {
      TiesInLayer(keys, scores, gamma, gone, kept);
    }
  }

  lemma PoolPrecedes(keys: seq<Cid>, scores: Scores, gamma: real, rankMin: nat, gone: Cid, kept: Cid)
    requires GammaOk(gamma) && KeysOf(keys, scores)
    requires gone in keys && kept in keys && scores[gone] == scores[kept]
    requires gone in PerLayerLow(keys, scores, gamma, rankMin) && kept !in PerLayerLow(keys, scores, gamma, rankMin)
    requires kept in LayerCandidates(keys, scores, gamma, kept.0)
    ensures Precedes(Candidates(keys, scores, gamma, LayerOrder(keys)), gone, kept)
  {
    var n :| 0 <= n < |keys| && keys[n] == kept;
    CandidateOfItsLayer(keys, scores, gamma, LayerOrder(keys), kept);
    EnoughCandidates(keys, scores, gamma, rankMin);
    EqualScores(keys, scores, gone, kept);
    TieTaken(Candidates(keys, scores, gamma, LayerOrder(keys)), ByScore(scores), Prunable(|keys|, gamma, rankMin),
             gone, kept);
  }

  /** The pool lists the candidates layer by layer. */
  lemma {:induction false} PoolByLayers(keys: seq<Cid>, scores: Scores, gamma: real, layers: seq<string>,
                                        x: Cid, y: Cid)
    requires GammaOk(gamma) && Distinct(keys) && Distinct(layers)
    requires Precedes(Candidates(keys, scores, gamma, layers), x, y)
    ensures if x.0 == y.0 then Precedes(LayerCandidates(keys, scores, gamma, x.0), x, y) else Precedes(layers, x.0, y.0)
    decreases |layers|
  {
    if layers != [] {
      var before, layer := layers[..|layers| - 1], layers[|layers| - 1];
      var front, block := Candidates(keys, scores, gamma, before), LayerCandidates(keys, scores, gamma, layer);
      PrecedesInAppended(front, block, x, y);
      CandidatesOf(keys, scores, gamma, before);
      LayerCandidatesOf(keys, scores, gamma, layer);
      assert layers == before + [layer];
      PrecedesInAppended(before, [layer], x.0, y.0);
      if Precedes(front, x, y) {
        PoolByLayers(keys, scores, gamma, before, x, y);
      } else if Precedes(block, x, y) {
        assert x in block && y in block;
      } else {
        assert x in front && y in block;
        assert x.0 in before && y.0 == layer && layer !in before;
      }
    }
  }

  /** Inside a layer candidates with equal scores stand by index. */
  lemma TiesInLayer(keys: seq<Cid>, scores: Scores, gamma: real, x: Cid, y: Cid)
    requires GammaOk(gamma) && KeysOf(keys, scores) && x in keys && y in keys && scores[x] == scores[y]
    requires x.0 == y.0 && Precedes(LayerCandidates(keys, scores, gamma, x.0), x, y)
    ensures x.1 < y.1
  {
    var ids := LayerIds(keys, x.0);
    var sorted, m := Sort(ids, ByScore(scores)), |ids| - Kept(|ids|, gamma);
    assert sorted == sorted[..m] + sorted[m..];
    PrecedesInAppended(sorted[..m], sorted[m..], x, y);
    EqualScores(keys, scores, x, y);
    PrecedesInSorted(ids, ByScore(scores), x, y);
    SortedIndicesAscending(keys, x.0);
  }

  lemma CandidateOfItsLayer(keys: seq<Cid>, scores: Scores, gamma: real, layers: seq<string>, c: Cid)
    requires GammaOk(gamma) && c.0 in layers && c in LayerCandidates(keys, scores, gamma, c.0)
    ensures c in Candidates(keys, scores, gamma, layers)
    decreases |layers|
  {
    if c.0 != layers[|layers| - 1] {
      assert c.0 in layers[..|layers| - 1];
      CandidateOfItsLayer(keys, scores, gamma, layers[..|layers| - 1], c);
    }
  }

  lemma PoolOrder(keys: seq<Cid>, scores: Scores, gamma: real, rankMin: nat, gone: Cid, kept: Cid)
    requires GammaOk(gamma) && Distinct(keys) && kept in keys
    requires gone in PerLayerLow(keys, scores, gamma, rankMin)
    requires kept !in PerLayerLow(keys, scores, gamma, rankMin)
    requires kept in LayerCandidates(keys, scores, gamma, kept.0)
    ensures ByScore(scores)(gone, kept)
  {
    var layers := LayerOrder(keys);
    var k :| 0 <= k < |keys| && keys[k] == kept;
    CandidateOfItsLayer(keys, scores, gamma, layers, kept);
    EnoughCandidates(keys, scores, gamma, rankMin);
    SortCut(Candidates(keys, scores, gamma, layers), ByScore(scores), Prunable(|keys|, gamma, rankMin), gone, kept);
  }
}
