/** AdaSparse-LoRAv2: flat component indices shared by all layers.
    A client holds survivor indices and, per survivor, the residual slice of each tensor. */
module AdaSparseV2 {
  import opened Seqs
  import opened Tensors
  import Ledger

  type Residuals = map<int, map<Key, Vec>>

  /** The residual stored for tensor `k` of component `g`. */
  function Entry(residuals: Residuals, g: int, k: Key): Option<Vec> {
    if g in residuals && k in residuals[g] then Some(residuals[g][k]) else None
  }

  // ---- delta + residual ----

  function EffectiveSlice(t: Value, k: Key, residuals: Residuals, survivors: seq<int>, p: nat): (v: Vec)
    requires t.Tensor? && p < |t.slices|
    ensures |v| == |t.slices[p]|
  {
    if p < |survivors| then Ledger.Effective(Entry(residuals, survivors[p], k), t.slices[p])
    else t.slices[p]
  }

  function EffectiveTensor(t: Value, k: Key, residuals: Residuals, survivors: seq<int>): (r: Value)
    requires t.Tensor?
    ensures r.Tensor? && |r.slices| == |t.slices| && r.width == t.width
    ensures forall p :: 0 <= p < |t.slices| ==> r.slices[p] == EffectiveSlice(t, k, residuals, survivors, p)
  {
    Tensor(seq(|t.slices|, p requires 0 <= p < |t.slices| => EffectiveSlice(t, k, residuals, survivors, p)),
           t.width)
  }

  function Effective(delta: Dict, residuals: Residuals, survivors: seq<int>): (r: Dict)
    ensures forall k :: k in r <==> k in delta && delta[k].Tensor?
    ensures forall k :: k in r ==>
                          r[k] == if Has(delta, k) then EffectiveTensor(delta[k], k, residuals, survivors) else delta[k]
  {
    map k | k in delta && delta[k].Tensor? ::
      if Has(delta, k) then EffectiveTensor(delta[k], k, residuals, survivors) else delta[k]
  }

  /** Entry by entry: a LoRA tensor's slice gets what is stored for the survivor at its position, beyond the
      survivors it stays as it is; other tensors stay, and what is no tensor is left out. */
  lemma EffectiveEntries(delta: Dict, residuals: Residuals, survivors: seq<int>, k: Key, p: nat, i: nat)
    ensures var effective := Effective(delta, residuals, survivors);
            && (k in effective <==> k in delta && delta[k].Tensor?)
            && (k in effective && k.Other? ==> effective[k] == delta[k])
            && (Has(delta, k) ==> Has(effective, k) && |effective[k].slices| == |delta[k].slices|)
            && (Has(delta, k) && p < |delta[k].slices| && i < |delta[k].slices[p]| ==>
                  At(effective[k].slices[p], i)
                  == At(delta[k].slices[p], i)
                     + if p < |survivors| && survivors[p] in residuals && k in residuals[survivors[p]]
                       then At(residuals[survivors[p]][k], i) else 0.0)
  {
    if Has(delta, k) && p < |delta[k].slices| && p < |survivors| && i < |delta[k].slices[p]| {
      Ledger.EffectiveAmount(Entry(residuals, survivors[p], k), delta[k].slices[p], i);
    }
  }

  /** The clone-and-add loop over one tensor. */
  method AddResidualRows(t: Value, k: Key, residuals: Residuals, survivors: seq<int>)
    returns (effective: array<Vec>)
    requires t.Tensor?
    ensures fresh(effective) && effective[..] == EffectiveTensor(t, k, residuals, survivors).slices
  {
    effective := new Vec[|t.slices|](p requires 0 <= p < |t.slices| => t.slices[p]);
    for localPos := 0 to |survivors|
      invariant forall p :: 0 <= p < |t.slices| ==>
                              effective[p] == if p < localPos then EffectiveSlice(t, k, residuals, survivors, p)
                                              else t.slices[p]
    {
      var globalIdx := survivors[localPos];
      if globalIdx in residuals && k in residuals[globalIdx] {
        if localPos < effective.Length {
          effective[localPos] := Plus(effective[localPos], residuals[globalIdx][k]);
        }
      }
    }
  }

  method ApplyResidualToUpdate(delta: Dict, residuals: Residuals, survivors: seq<int>) returns (effective: Dict)
    ensures effective == Effective(delta, residuals, survivors)
  {
    effective := map[];
    var todo := delta.Keys;
    while todo != {}
      invariant todo <= delta.Keys
      invariant forall k :: k in effective <==> k in delta && k !in todo && delta[k].Tensor?
      invariant forall k :: k in effective ==> effective[k] == Effective(delta, residuals, survivors)[k]
    {
      var key :| key in todo;
      if delta[key].Tensor? {
        if key.Other? {
          effective := effective[key := delta[key]];
        } else {
          var rows := AddResidualRows(delta[key], key, residuals, survivors);
          effective := effective[key := Tensor(rows[..], delta[key].width)];
        }
      }
      todo := todo - {key};
    }
  }

  // ---- upload ----

  function SliceByIndices(update: Dict, survivors: seq<int>, selected: seq<int>): (r: Dict)
    ensures forall k :: k in r ==> Has(update, k) && Has(r, k) && r[k].width == update[k].width
  {
    var positions := LocalPositions(survivors, selected);
    if positions == [] then map[]
    else
      map k | k in update && Has(update, k)
              && (forall i :: 0 <= i < |positions| ==> positions[i] < |update[k].slices|) ::
        Tensor(Select(update[k].slices, positions), update[k].width)
  }

  /** Which tensors a slice holds: those that reach the position of every selected survivor, if there is one. */
  lemma TensorsOfASlice(update: Dict, survivors: seq<int>, selected: seq<int>, k: Key)
    ensures k in SliceByIndices(update, survivors, selected) <==>
              && Has(update, k)
              && (exists i :: 0 <= i < |selected| && selected[i] in survivors)
              && forall i :: 0 <= i < |selected| && selected[i] in survivors ==>
                               LastIndex(survivors, selected[i]) < |update[k].slices|
  {
    var positions := LocalPositions(survivors, selected);
    forall p: nat
      ensures p in positions <==>
                exists i :: 0 <= i < |selected| && selected[i] in survivors && LastIndex(survivors, selected[i]) == p
    {
      LocalPositionsMembers(survivors, selected, p);
    }
    forall i | 0 <= i < |selected| && selected[i] in survivors
      ensures LastIndex(survivors, selected[i]) in positions
    {
      LocalPositionsMembers(survivors, selected, LastIndex(survivors, selected[i]));
    }
    if positions != [] {
      assert positions[0] in positions;
    }
    assert forall n :: 0 <= n < |positions| ==> positions[n] in positions;
  }

  // ---- residual bookkeeping ----

  /** The slices of one component, over every LoRA tensor that has its position. */
  function ComponentSlices(effective: Dict, localPos: nat): (r: map<Key, Vec>)
    ensures forall k :: k in r <==> Has(effective, k) && localPos < |effective[k].slices|
    ensures forall k :: k in r && Has(effective, k) && localPos < |effective[k].slices| ==>
              r[k] == effective[k].slices[localPos]
  {
    map k | k in effective && Has(effective, k) && localPos < |effective[k].slices| ::
      effective[k].slices[localPos]
  }

  /** What the rebuilt buffer stores for `g`: nothing unless `g` is a survivor held back. */
  function Stored(effective: Dict, upload: seq<int>, survivors: seq<int>, g: int): map<Key, Vec> {
    if g in survivors && g !in upload then ComponentSlices(effective, LastIndex(survivors, g)) else map[]
  }

  function AfterUpload(effective: Dict, upload: seq<int>, survivors: seq<int>): (r: Residuals)
    ensures forall g :: g in r <==> Stored(effective, upload, survivors, g) != map[]
    ensures forall g :: g in r ==> r[g] == Stored(effective, upload, survivors, g)
  {
    map g | g in survivors && Stored(effective, upload, survivors, g) != map[] ::
      Stored(effective, upload, survivors, g)
  }

  /** update_residual_buffers_after_upload: the buffer is rebuilt from scratch. */
  method UpdateResidualBuffersAfterUpload(effective: Dict, upload: seq<int>, survivors: seq<int>)
    returns (residuals: Residuals)
    ensures residuals == AfterUpload(effective, upload, survivors)
  {
    residuals := map[];
    for n := 0 to |survivors|
      invariant forall g :: g in residuals <==>
                              g in survivors[..n] && Stored(effective, upload, survivors, g) != map[]
      invariant forall g :: g in residuals ==> residuals[g] == Stored(effective, upload, survivors, g)
    {
      var g := survivors[n];
      assert survivors[..n + 1] == survivors[..n] + [g];
      if g !in upload {
        var component := ComponentSlices(effective, LastIndex(survivors, g));
        if component != map[] {
          residuals := residuals[g := component];
        }
      }
    }
    assert survivors[..|survivors|] == survivors;
    ghost var rebuilt := AfterUpload(effective, upload, survivors);
    assert forall g :: g in residuals <==> g in rebuilt;
    assert forall g :: g in residuals ==> residuals[g] == rebuilt[g];
  }

  function PruneResiduals(residuals: Residuals, pruned: set<int>): (r: Residuals)
    ensures forall g :: g in r <==> g in residuals && g !in pruned
    ensures forall g :: g in r ==> r[g] == residuals[g]
  {
    map g | g in residuals && g !in pruned :: residuals[g]
  }

  // ---- rounds ----

  datatype Client = Client(survivors: seq<int>, residuals: Residuals)

  /** A round: the survivors left after structural pruning, the fresh model update for them, and
      the components selected for upload. */
  datatype Round = Round(survivors: seq<int>, delta: Dict, upload: seq<int>)

  function Pruned(c: Client, r: Round): set<int> {
    (set g | g in c.survivors) - (set g | g in r.survivors)
  }

  function RoundEffective(c: Client, r: Round): Dict {
    Effective(r.delta, PruneResiduals(c.residuals, Pruned(c, r)), r.survivors)
  }

  function RoundUpload(c: Client, r: Round): Dict {
    SliceByIndices(RoundEffective(c, r), r.survivors, r.upload)
  }

  function Step(c: Client, r: Round): Client {
    Client(r.survivors, AfterUpload(RoundEffective(c, r), r.upload, r.survivors))
  }

  function Run(c: Client, rounds: seq<Round>): Client
    decreases |rounds|
  {
    if rounds == [] then c else Run(Step(c, rounds[0]), rounds[1..])
  }

  ghost predicate RoundOk(c: Client, r: Round, maxRank: nat) {
    && Distinct(r.survivors)
    && (forall i :: 0 <= i < |r.survivors| ==> r.survivors[i] in c.survivors && 0 <= r.survivors[i] < maxRank)
    && ReachesRank(r.delta, |r.survivors|)
    && (forall i :: 0 <= i < |r.upload| ==> r.upload[i] in r.survivors)
  }

  ghost predicate RunOk(c: Client, rounds: seq<Round>, maxRank: nat)
    decreases |rounds|
  {
    rounds != [] ==> RoundOk(c, rounds[0], maxRank) && RunOk(Step(c, rounds[0]), rounds[1..], maxRank)
  }

  /** What the server gets for coordinate `i` of tensor `k` of component `g`: the uploaded dict
      placed at its global indices. */
  function Received(c: Client, r: Round, maxRank: nat, g: int, k: Key, i: nat): real {
    var placed := ExpandDict(RoundUpload(c, r), r.upload, maxRank);
    if Has(placed, k) && 0 <= g < |placed[k].slices| then At(placed[k].slices[g], i) else 0.0
  }

  function ReceivedTotal(c: Client, rounds: seq<Round>, maxRank: nat, g: int, k: Key, i: nat): real
    decreases |rounds|
  {
    if rounds == [] then 0.0
    else Received(c, rounds[0], maxRank, g, k, i)
         + ReceivedTotal(Step(c, rounds[0]), rounds[1..], maxRank, g, k, i)
  }

  /** The fresh update of tensor `k` of component `g`, if the round's dict has the tensor. */
  function FreshDelta(r: Round, g: int, k: Key): Option<Vec> {
    var p := LastIndex(r.survivors, g);
    if Has(r.delta, k) && 0 <= p < |r.delta[k].slices| then Some(r.delta[k].slices[p]) else None
  }

  function Turns(rounds: seq<Round>, g: int, k: Key): (t: seq<Ledger.Turn>)
    ensures |t| == |rounds|
    ensures forall n :: 0 <= n < |t| ==> t[n] == Ledger.Turn(FreshDelta(rounds[n], g, k), g in rounds[n].upload)
  {
    seq(|rounds|, n requires 0 <= n < |rounds| =>
      Ledger.Turn(FreshDelta(rounds[n], g, k), g in rounds[n].upload))
  }

  /** One round, seen from one component, is one ledger turn. */
  lemma StepRefinesLedger(c: Client, r: Round, maxRank: nat, g: int, k: Key, i: nat)
    requires RoundOk(c, r, maxRank) && g in r.survivors && !k.Other?
    ensures var turn := Ledger.Turn(FreshDelta(r, g, k), g in r.upload);
            var entry := Entry(c.residuals, g, k);
            && Entry(Step(c, r).residuals, g, k) == Ledger.Next(entry, turn)
            && Received(c, r, maxRank, g, k, i) == Ledger.Amount(Ledger.Sent(entry, turn), i)
  {
    EffectiveAtComponent(c, r, g, k);
    StoredAtComponent(RoundEffective(c, r), r.upload, r.survivors, g, k);
    UploadPlaced(RoundEffective(c, r), r, maxRank, g, k, i);
  }

  lemma EffectiveAtComponent(c: Client, r: Round, g: int, k: Key)
    requires ReachesRank(r.delta, |r.survivors|) && g in r.survivors && !k.Other?
    requires forall i :: 0 <= i < |r.survivors| ==> r.survivors[i] in c.survivors
    ensures var effective := RoundEffective(c, r);
            && ReachesRank(effective, |r.survivors|)
            && (Has(effective, k) <==> Has(r.delta, k))
            && (Has(effective, k) ==>
                  effective[k].slices[LastIndex(r.survivors, g)]
                  == Ledger.Effective(Entry(c.residuals, g, k), FreshDelta(r, g, k).value))
  {
    var p := LastIndex(r.survivors, g);
    var kept := PruneResiduals(c.residuals, Pruned(c, r));
    assert Entry(kept, g, k) == Entry(c.residuals, g, k);
    if Has(r.delta, k) {
      assert RoundEffective(c, r)[k].slices[p] == EffectiveSlice(r.delta[k], k, kept, r.survivors, p);
    }
  }

  lemma StoredAtComponent(effective: Dict, upload: seq<int>, survivors: seq<int>, g: int, k: Key)
    requires g in survivors && ReachesRank(effective, |survivors|)
    ensures Entry(AfterUpload(effective, upload, survivors), g, k)
            == if g in upload || !Has(effective, k) then None
               else Some(effective[k].slices[LastIndex(survivors, g)])
  {
    var component := ComponentSlices(effective, LastIndex(survivors, g));
    if k in component {
      assert component != map[];
    }
  }

  /** Slicing by the upload list and placing at the same list puts each component at its index. */
  lemma UploadPlaced(effective: Dict, r: Round, maxRank: nat, g: int, k: Key, i: nat)
    requires Distinct(r.survivors) && g in r.survivors && 0 <= g < maxRank
    requires ReachesRank(effective, |r.survivors|)
    requires forall n :: 0 <= n < |r.upload| ==> r.upload[n] in r.survivors
    ensures var placed := ExpandDict(SliceByIndices(effective, r.survivors, r.upload), r.upload, maxRank);
            (if Has(placed, k) && 0 <= g < |placed[k].slices| then At(placed[k].slices[g], i) else 0.0)
            == if Has(effective, k) && g in r.upload
               then At(effective[k].slices[LastIndex(r.survivors, g)], i) else 0.0
  {
    LocalPositionsOfSurvivors(r.survivors, r.upload);
    if Has(effective, k) {
      SliceThenExpand(effective[k], r.survivors, r.upload, maxRank, g);
    }
  }

  lemma TurnsUnfold(entry: Option<Vec>, rounds: seq<Round>, g: int, k: Key, i: nat)
    requires rounds != []
    ensures var turn := Ledger.Turn(FreshDelta(rounds[0], g, k), g in rounds[0].upload);
            var turns, rest := Turns(rounds, g, k), Turns(rounds[1..], g, k);
            && Ledger.Final(entry, turns) == Ledger.Final(Ledger.Next(entry, turn), rest)
            && Ledger.SentTotal(entry, turns, i)
               == Ledger.Amount(Ledger.Sent(entry, turn), i) + Ledger.SentTotal(Ledger.Next(entry, turn), rest, i)
  {
    assert Turns(rounds, g, k)[1..] == Turns(rounds[1..], g, k);
  }

  lemma {:induction false} RunRefinesLedger(c: Client, rounds: seq<Round>, maxRank: nat, g: int, k: Key, i: nat)
    requires RunOk(c, rounds, maxRank) && !k.Other?
    requires g in Run(c, rounds).survivors
    ensures g in c.survivors
    ensures Entry(Run(c, rounds).residuals, g, k)
            == Ledger.Final(Entry(c.residuals, g, k), Turns(rounds, g, k))
    ensures ReceivedTotal(c, rounds, maxRank, g, k, i)
            == Ledger.SentTotal(Entry(c.residuals, g, k), Turns(rounds, g, k), i)
    decreases |rounds|
  {
    if rounds != [] {
      var next := Step(c, rounds[0]);
      RunRefinesLedger(next, rounds[1..], maxRank, g, k, i);
      StepRefinesLedger(c, rounds[0], maxRank, g, k, i);
      TurnsUnfold(Entry(c.residuals, g, k), rounds, g, k, i);
    }
  }

  /** The deltas of component `g` have coordinate `i` whenever the tensor is present. */
  ghost predicate Covers(rounds: seq<Round>, g: int, k: Key, i: nat) {
    Ledger.Covers(Turns(rounds, g, k), i)
  }

  /** Error-feedback conservation over a whole run, for every component never pruned: what the
      server received plus what is still stored is what was produced, less the residuals that
      rounds without the tensor discarded. */
  lemma Conservation(c: Client, rounds: seq<Round>, maxRank: nat, g: int, k: Key, i: nat)
    requires RunOk(c, rounds, maxRank) && !k.Other? && Covers(rounds, g, k, i)
    requires g in Run(c, rounds).survivors
    ensures var turns := Turns(rounds, g, k);
            var start := Entry(c.residuals, g, k);
            ReceivedTotal(c, rounds, maxRank, g, k, i)
            + Ledger.Amount(Entry(Run(c, rounds).residuals, g, k), i)
            + Ledger.LostTotal(start, turns, i)
            == Ledger.Amount(start, i) + Ledger.DeltaTotal(turns, i)
  {
    RunRefinesLedger(c, rounds, maxRank, g, k, i);
    Ledger.RunConserves(Entry(c.residuals, g, k), Turns(rounds, g, k), i);
  }

  /** The documented law of one round, update = sent + kept, holds exactly when the tensor is in
      the round's dict or had nothing stored. */
  lemma RoundConservesIffPresent(c: Client, r: Round, maxRank: nat, g: int, k: Key, i: nat)
    requires RoundOk(c, r, maxRank) && g in r.survivors && !k.Other?
    requires FreshDelta(r, g, k).Some? ==> i < |FreshDelta(r, g, k).value|
    ensures (Received(c, r, maxRank, g, k, i) + Ledger.Amount(Entry(Step(c, r).residuals, g, k), i)
             == Ledger.Amount(Entry(c.residuals, g, k), i) + Ledger.Amount(FreshDelta(r, g, k), i))
            <==> (Has(r.delta, k) || Ledger.Amount(Entry(c.residuals, g, k), i) == 0.0)
  {
    StepRefinesLedger(c, r, maxRank, g, k, i);
  }

  /** At a concrete input: a residual of 5 is stored, the round has no tensor at all, and afterwards
      nothing was sent and nothing is stored. */
  lemma AbsentTensorLosesResidual(layer: string)
    ensures var k := LoraA(layer);
            var c := Client([0], map[0 := map[k := [5.0]]]);
            var r := Round([0], map[], []);
            && RoundOk(c, r, 1) && Ledger.Amount(Entry(c.residuals, 0, k), 0) == 5.0
            && Received(c, r, 1, 0, k, 0) == 0.0 && Entry(Step(c, r).residuals, 0, k) == None
  {
    var k := LoraA(layer);
    var c := Client([0], map[0 := map[k := [5.0]]]);
    StepRefinesLedger(c, Round([0], map[], []), 1, 0, k, 0);
  }

  /** With the same tensors every round, from empty buffers: uploads + residual = deltas. */
  lemma ConservationSameTensors(c: Client, rounds: seq<Round>, maxRank: nat, g: int, k: Key, i: nat)
    requires RunOk(c, rounds, maxRank) && !k.Other? && Covers(rounds, g, k, i)
    requires g in Run(c, rounds).survivors && c.residuals == map[]
    requires forall n :: 0 <= n < |rounds| ==> FreshDelta(rounds[n], g, k).Some?
    ensures ReceivedTotal(c, rounds, maxRank, g, k, i)
            + Ledger.Amount(Entry(Run(c, rounds).residuals, g, k), i)
            == Ledger.DeltaTotal(Turns(rounds, g, k), i)
  {
    Conservation(c, rounds, maxRank, g, k, i);
    Ledger.NothingLost(Entry(c.residuals, g, k), Turns(rounds, g, k), i);
  }
}
