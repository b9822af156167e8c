/** Error feedback for ONE component of ONE tensor: what both versions of AdaSparse refine.
    An entry is the stored residual, if any; a turn is what a round does to this component: the slice
    its delta holds, if any, and whether the component is uploaded or dropped unread. */
module Ledger {
  import opened Seqs
  import opened Tensors

  datatype Turn = Turn(delta: Option<Vec>, uploaded: bool, dropped: bool := false)

  /** The round reads the delta. */
  predicate Reads(turn: Turn) {
    turn.delta.Some? && !turn.dropped
  }

  function Amount(v: Option<Vec>, i: nat): real {
    if v.Some? then At(v.value, i) else 0.0
  }

  function Effective(entry: Option<Vec>, delta: Vec): (r: Vec)
    ensures |r| == |delta|
  {
    if entry.Some? then Plus(delta, entry.value) else delta
  }

  lemma EffectiveAmount(entry: Option<Vec>, delta: Vec, i: nat)
    requires i < |delta|
    ensures At(Effective(entry, delta), i) == At(delta, i) + Amount(entry, i)
  {
  }

  function Next(entry: Option<Vec>, turn: Turn): Option<Vec> {
    if Reads(turn) && !turn.uploaded then Some(Effective(entry, turn.delta.value)) else None
  }

  function Sent(entry: Option<Vec>, turn: Turn): Option<Vec> {
    if Reads(turn) && turn.uploaded then Some(Effective(entry, turn.delta.value)) else None
  }

  /** What a round that does not read the tensor throws away: the residual, and the delta if there is
      one. */
  function Lost(entry: Option<Vec>, turn: Turn, i: nat): real {
    if Reads(turn) then 0.0 else Amount(entry, i) + Amount(turn.delta, i)
  }

  function Final(entry: Option<Vec>, turns: seq<Turn>): Option<Vec>
    decreases |turns|
  {
    if turns == [] then entry else Final(Next(entry, turns[0]), turns[1..])
  }

  function SentTotal(entry: Option<Vec>, turns: seq<Turn>, i: nat): real
    decreases |turns|
  {
    if turns == [] then 0.0
    else Amount(Sent(entry, turns[0]), i) + SentTotal(Next(entry, turns[0]), turns[1..], i)
  }

  function LostTotal(entry: Option<Vec>, turns: seq<Turn>, i: nat): real
    decreases |turns|
  {
    if turns == [] then 0.0
    else Lost(entry, turns[0], i) + LostTotal(Next(entry, turns[0]), turns[1..], i)
  }

  function DeltaTotal(turns: seq<Turn>, i: nat): real {
    if turns == [] then 0.0 else Amount(turns[0].delta, i) + DeltaTotal(turns[1..], i)
  }

  /** Coordinate `i` exists in every delta. */
  ghost predicate Covers(turns: seq<Turn>, i: nat) {
    forall n :: 0 <= n < |turns| && turns[n].delta.Some? ==> i < |turns[n].delta.value|
  }

  /** Every unit of delta is uploaded, still stored, or was lost to a round that did not read it. */
  lemma {:induction false} RunConserves(entry: Option<Vec>, turns: seq<Turn>, i: nat)
    requires Covers(turns, i)
    ensures SentTotal(entry, turns, i) + Amount(Final(entry, turns), i) + LostTotal(entry, turns, i)
            == Amount(entry, i) + DeltaTotal(turns, i)
    decreases |turns|
  {
    if turns != [] {
      RunConserves(Next(entry, turns[0]), turns[1..], i);
    }
  }

  /** Nothing is lost when every round reads the tensor. */
  lemma {:induction false} NothingLost(entry: Option<Vec>, turns: seq<Turn>, i: nat)
    requires forall n :: 0 <= n < |turns| ==> Reads(turns[n])
    ensures LostTotal(entry, turns, i) == 0.0
    decreases |turns|
  {
    if turns != [] {
      NothingLost(Next(entry, turns[0]), turns[1..], i);
    }
  }
}
