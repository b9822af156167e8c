/** GroupSampler: clients grouped by responsiveness, drawn from an iterator that is re-shuffled
    whenever it runs out, skipping the busy ones. */
module Sampler {
  import opened Randomness
  import opened Seqs

  /** Every number below n, once, in some order. */
  ghost predicate Permutation(s: seq<nat>, n: nat) {
    multiset(s) == multiset(Range(n))
  }

  // ---- Permutations ----

  lemma PermutationMembers(s: seq<nat>, n: nat)
    requires Permutation(s, n)
    ensures Distinct(s) && |s| == n
    ensures forall x: nat :: x in s <==> x < n
  {
    assert |multiset(s)| == |s| && |multiset(Range(n))| == n;
    forall x: nat
      ensures x in s <==> x < n
    {
      assert x in s <==> x in multiset(s);
      assert x in Range(n) <==> x in multiset(Range(n));
      if x < n {
        assert Range(n)[x] == x;
      }
    }
    PermutationDistinct(s, n);
  }

  lemma PermutationDistinct(s: seq<nat>, n: nat)
    requires Permutation(s, n)
    ensures Distinct(s)
  {
    forall i, j | 0 <= i < j < |s|
      ensures s[i] != s[j]
    {
      DistinctCounts(Range(n), s[i]);
      assert s[..j][i] in multiset(s[..j]);
      assert s == s[..j] + [s[j]] + s[j + 1..];
    }
  }

  // ---- Bins ----

  /** The bins at the given positions, one after the other. */
  function Gather(bins: seq<seq<nat>>, order: seq<nat>): seq<nat>
    requires forall i :: 0 <= i < |order| ==> order[i] < |bins|
  {
    if order == [] then [] else Gather(bins, order[..|order| - 1]) + bins[order[|order| - 1]]
  }

  function Flatten(bins: seq<seq<nat>>): seq<nat> {
    Gather(bins, Range(|bins|))
  }

  function Occurrences(bins: seq<seq<nat>>, x: nat): nat -> real {
    (i: nat) => if i < |bins| then multiset(bins[i])[x] as real else 0.0
  }

  lemma {:induction false} GatherCounts(bins: seq<seq<nat>>, order: seq<nat>, x: nat)
    requires forall i :: 0 <= i < |order| ==> order[i] < |bins|
    ensures multiset(Gather(bins, order))[x] as real == Sum(order, Occurrences(bins, x))
  {
    if order != [] {
      var init := order[..|order| - 1];
      GatherCounts(bins, init, x);
      SumSnoc(init, order[|order| - 1], Occurrences(bins, x));
      assert order == init + [order[|order| - 1]];
    }
  }

  /** Whatever the order of the bins and whatever the order within each, the same clients. */
  lemma GatherPermuted(bins: seq<seq<nat>>, shuffled: seq<seq<nat>>, order: seq<nat>)
    requires SameBins(bins, shuffled)
    requires Permutation(order, |bins|)
    requires forall i :: 0 <= i < |order| ==> order[i] < |bins|
    ensures multiset(Gather(shuffled, order)) == multiset(Flatten(bins))
  {
    forall x: nat
      ensures multiset(Gather(shuffled, order))[x] == multiset(Flatten(bins))[x]
    {
      GatherCounts(shuffled, order, x);
      GatherCounts(bins, Range(|bins|), x);
      SumPermuted(order, Range(|bins|), Occurrences(bins, x));
      SumSame(order, Occurrences(bins, x), Occurrences(shuffled, x));
    }
  }

  lemma {:induction false} GatherFrame(bins: seq<seq<nat>>, order: seq<nat>, i: nat, bin: seq<nat>)
    requires i < |bins| && i !in order
    requires forall j :: 0 <= j < |order| ==> order[j] < |bins|
    ensures Gather(bins[i := bin], order) == Gather(bins, order)
  {
    if order != [] {
      GatherFrame(bins, order[..|order| - 1], i, bin);
      assert order[|order| - 1] in order;
    }
  }

  // ---- np.split at the cumulated bin sizes ----

  /** The cumulated sizes of `t` equal bins. */
  function Cut(size: nat, t: nat): nat {
    if t == 0 then 0 else Cut(size, t - 1) + size
  }

  lemma {:induction false} CutIsProduct(size: nat, t: nat)
    ensures Cut(size, t) == t * size
  {
    if t > 0 {
      CutIsProduct(size, t - 1);
      assert t * size == (t - 1) * size + size;
    }
  }

  lemma {:induction false} CutGrows(size: nat, a: nat, b: nat)
    requires a <= b
    ensures Cut(size, a) <= Cut(size, b)
  {
    if a < b {
      CutGrows(size, a, b - 1);
    }
  }

  lemma BinsFit(n: nat, bins: nat)
    requires bins > 0
    ensures Cut(n / bins, bins - 1) <= n
  {
    CutIsProduct(n / bins, bins);
    CutGrows(n / bins, bins - 1, bins);
  }

  /** m - 1 pieces of the given size, and the rest. */
  function Split(s: seq<nat>, size: nat, m: nat): (r: seq<seq<nat>>)
    requires m > 0 && Cut(size, m - 1) <= |s|
    ensures |r| == m
  {
    seq(m, t requires 0 <= t < m =>
      CutGrows(size, t, m - 1);
      CutGrows(size, if t < m - 1 then t + 1 else t, m - 1);
      if t < m - 1 then s[Cut(size, t)..Cut(size, t + 1)] else s[Cut(size, t)..])
  }

  lemma SplitSizes(s: seq<nat>, size: nat, m: nat, t: nat)
    requires m > 0 && Cut(size, m - 1) <= |s| && t < m - 1
    ensures |Split(s, size, m)[t]| == size
  {
    CutGrows(size, t + 1, m - 1);
  }

  lemma {:induction false} GatherSplit(s: seq<nat>, size: nat, m: nat, t: nat)
    requires m > 0 && Cut(size, m - 1) <= |s| && t < m
    ensures Cut(size, t) <= |s|
    ensures Gather(Split(s, size, m), Range(t)) == s[..Cut(size, t)]
  {
    CutGrows(size, t, m - 1);
    if t > 0 {
      GatherSplit(s, size, m, t - 1);
      assert Range(t)[..t - 1] == Range(t - 1);
      CutJoins(s, Cut(size, t - 1), Cut(size, t));
    }
  }

  lemma CutJoins(s: seq<nat>, a: nat, b: nat)
    requires a <= b <= |s|
    ensures s[..a] + s[a..b] == s[..b]
  {
  }

  lemma SplitKeepsAll(s: seq<nat>, size: nat, m: nat)
    requires m > 0 && Cut(size, m - 1) <= |s|
    ensures Flatten(Split(s, size, m)) == s
  {
    GatherSplit(s, size, m, m - 1);
    JoinLast(Split(s, size, m), s, Cut(size, m - 1));
  }

  lemma JoinLast(bins: seq<seq<nat>>, s: seq<nat>, c: nat)
    requires bins != [] && c <= |s|
    requires Gather(bins, Range(|bins| - 1)) == s[..c] && bins[|bins| - 1] == s[c..]
    ensures Flatten(bins) == s
  {
    FlattenLast(bins);
    assert s[..c] + s[c..] == s;
  }

  lemma FlattenLast(bins: seq<seq<nat>>)
    requires bins != []
    ensures Flatten(bins) == Gather(bins, Range(|bins| - 1)) + bins[|bins| - 1]
  {
    assert Range(|bins|)[..|bins| - 1] == Range(|bins| - 1);
  }

  /** No client of an earlier bin is slower than one of a later bin. */
  ghost predicate BinsOrdered(bins: seq<seq<nat>>, info: nat -> real) {
    forall a, b, i, j :: 0 <= a < b < |bins| && 0 <= i < |bins[a]| && 0 <= j < |bins[b]| ==>
      info(bins[a][i]) <= info(bins[b][j])
  }

  /** Where an element of a bin stands in the whole. */
  lemma PlaceInSplit(s: seq<nat>, size: nat, m: nat, t: nat, i: nat) returns (p: nat)
    requires m > 0 && Cut(size, m - 1) <= |s| && t < m && i < |Split(s, size, m)[t]|
    ensures p < |s| && Split(s, size, m)[t][i] == s[p]
    ensures Cut(size, t) <= p && (t < m - 1 ==> p < Cut(size, t + 1))
  {
    CutGrows(size, t, m - 1);
    if t < m - 1 {
      CutGrows(size, t + 1, m - 1);
    }
    p := Cut(size, t) + i;
  }

  /** Bins follow one another. */
  lemma PlacesInSplit(s: seq<nat>, size: nat, m: nat, a: nat, b: nat, i: nat, j: nat) returns (p: nat, q: nat)
    requires m > 0 && Cut(size, m - 1) <= |s| && a < b < m
    requires i < |Split(s, size, m)[a]| && j < |Split(s, size, m)[b]|
    ensures p < q < |s| && Split(s, size, m)[a][i] == s[p] && Split(s, size, m)[b][j] == s[q]
  {
    p := PlaceInSplit(s, size, m, a, i);
    q := PlaceInSplit(s, size, m, b, j);
    CutGrows(size, a + 1, b);
  }

  lemma SplitOrdered(s: seq<nat>, size: nat, m: nat, info: nat -> real)
    requires m > 0 && Cut(size, m - 1) <= |s|
    requires forall i, j :: 0 <= i < j < |s| ==> info(s[i]) <= info(s[j])
    ensures BinsOrdered(Split(s, size, m), info)
  {
    var bins := Split(s, size, m);
    forall a, b, i, j | 0 <= a < b < m && 0 <= i < |bins[a]| && 0 <= j < |bins[b]|
      ensures info(bins[a][i]) <= info(bins[b][j])
    {
      var p, q := PlacesInSplit(s, size, m, a, b, i, j);
      assert info(s[p]) <= info(s[q]);
    }
  }

  lemma ShuffleKeepsOrder(bins: seq<seq<nat>>, shuffled: seq<seq<nat>>, info: nat -> real)
    requires SameBins(bins, shuffled) && BinsOrdered(bins, info)
    ensures BinsOrdered(shuffled, info)
  {
    forall a, b, i, j | 0 <= a < b < |shuffled| && 0 <= i < |shuffled[a]| && 0 <= j < |shuffled[b]|
      ensures info(shuffled[a][i]) <= info(shuffled[b][j])
    {
      var i' := PlaceBefore(bins[a], shuffled[a], i);
      var j' := PlaceBefore(bins[b], shuffled[b], j);
      assert info(bins[a][i']) <= info(bins[b][j']);
    }
  }

  lemma PlaceBefore(before: seq<nat>, after: seq<nat>, i: nat) returns (k: nat)
    requires multiset(before) == multiset(after) && i < |after|
    ensures k < |before| && before[k] == after[i]
  {
    assert after[i] in multiset(before);
    k :| 0 <= k < |before| && before[k] == after[i];
  }

  /** Each bin holds the same clients, in any order. */
  ghost predicate SameBins(a: seq<seq<nat>>, b: seq<seq<nat>>) {
    |a| == |b| && forall i :: 0 <= i < |a| ==> multiset(a[i]) == multiset(b[i])
  }

  // ---- Idle and busy ----

  function IdleCount(state: seq<int>): nat {
    if state == [] then 0 else (if state[0] == 1 then 1 else 0) + IdleCount(state[1..])
  }

  lemma {:induction false} IdleExists(state: seq<int>) returns (i: nat)
    requires IdleCount(state) > 0
    ensures i < |state| && state[i] == 1
  {
    if state[0] == 1 {
      i := 0;
    } else {
      i := IdleExists(state[1..]);
      i := i + 1;
    }
  }

  lemma {:induction false} OneLessIdle(state: seq<int>, i: nat)
    requires i < |state| && state[i] == 1
    ensures IdleCount(state[i := 0]) == IdleCount(state) - 1
  {
    if i == 0 {
      assert state[0 := 0][1..] == state[1..];
    } else {
      OneLessIdle(state[1..], i - 1);
      assert state[i := 0][1..] == state[1..][i - 1 := 0];
    }
  }

  function IdleIn(state: seq<int>): nat -> bool {
    (c: nat) => c < |state| && state[c] == 1
  }

  lemma {:induction false} BusyFiltered(state: seq<int>, clients: seq<nat>)
    requires AllBusy(state, clients)
    ensures Filter(clients, IdleIn(state)) == []
  {
    if clients != [] {
      BusyFiltered(state, clients[1..]);
    }
  }

  /** Marking a client that is not on a list leaves the idle ones of the list. */
  lemma {:induction false} MarkedElsewhere(state: seq<int>, clients: seq<nat>, item: nat)
    requires item < |state| && item !in clients
    ensures Filter(clients, IdleIn(state[item := 0])) == Filter(clients, IdleIn(state))
  {
    if clients != [] {
      MarkedElsewhere(state, clients[1..], item);
    }
  }

  /** The client found is the first idle one the iterator had ahead, if it had any. */
  lemma FirstIdle(state: seq<int>, before: seq<nat>, passed: seq<nat>, item: nat, rest: seq<nat>, restarted: bool)
    requires Distinct(before) && item < |state| && state[item] == 1
    requires Searched(state, before, passed, [item] + rest, restarted)
    ensures var idle := Filter(before, IdleIn(state));
            idle == [] || idle == [item] + Filter(rest, IdleIn(state[item := 0]))
  {
    if restarted {
      BusyFiltered(state, before);
    } else {
      BusyFiltered(state, passed);
      FilterAppend(passed, [item] + rest, IdleIn(state));
      FilterAppend([item], rest, IdleIn(state));
      assert [item][1..] == [];
      NotAmongRest(before, passed, item, rest);
      MarkedElsewhere(state, rest, item);
    }
  }

  lemma NotAmongRest(before: seq<nat>, passed: seq<nat>, item: nat, rest: seq<nat>)
    requires Distinct(before) && before == passed + ([item] + rest)
    ensures item !in rest
  {
    assert before[|passed|] == item;
    assert forall i :: 0 <= i < |rest| ==> before[|passed| + 1 + i] == rest[i];
  }

  /** The clients sampled are those that were idle ahead, in order, as long as there are any. */
  ghost predicate InOrder(sampled: seq<nat>, idle: seq<nat>, ahead: seq<nat>) {
    sampled + idle == ahead || ahead <= sampled
  }

  lemma PrefixOfIdle(sampled: seq<nat>, idle: seq<nat>, ahead: seq<nat>)
    requires InOrder(sampled, idle, ahead)
    ensures sampled <= ahead || ahead <= sampled
  {
  }

  lemma InIteratorOrder(sampled: seq<nat>, item: nat, idle: seq<nat>, rest: seq<nat>, ahead: seq<nat>)
    requires idle == [] || idle == [item] + rest
    requires InOrder(sampled, idle, ahead)
    ensures InOrder(sampled + [item], rest, ahead)
  {
    if idle == [] {
      assert sampled + idle == sampled;
    } else {
      assert sampled + ([item] + rest) == (sampled + [item]) + rest;
    }
  }

  /** The state with the listed clients set to v. */
  function Marked(state: seq<int>, clients: seq<nat>, v: int): (r: seq<int>)
    ensures |r| == |state|
    ensures forall i :: 0 <= i < |r| ==> r[i] == if i in clients then v else state[i]
  {
    seq(|state|, i requires 0 <= i < |state| => if i in clients then v else state[i])
  }

  lemma MarkOne(state: seq<int>, sampled: seq<nat>, item: nat)
    requires Distinct(sampled) && item < |state| && Marked(state, sampled, 0)[item] == 1
    ensures state[item] == 1 && Distinct(sampled + [item])
    ensures Marked(state, sampled, 0)[item := 0] == Marked(state, sampled + [item], 0)
  {
    assert item !in sampled;
  }

  /** Different clients, all idle before, and exactly they are marked now. */
  ghost predicate Picked(before: seq<int>, sampled: seq<nat>, state: seq<int>) {
    && Distinct(sampled)
    && (forall j :: 0 <= j < |sampled| ==> sampled[j] < |before| && before[sampled[j]] == 1)
    && state == Marked(before, sampled, 0)
    && IdleCount(state) == IdleCount(before) - |sampled|
  }

  lemma PickedNext(before: seq<int>, sampled: seq<nat>, state: seq<int>, item: nat)
    requires Picked(before, sampled, state) && item < |state| && state[item] == 1
    ensures Picked(before, sampled + [item], state[item := 0])
  {
    MarkOne(before, sampled, item);
    OneLessIdle(state, item);
  }

  /** argsort, then split at the cumulated sizes. */
  method CutIntoBins(info: seq<real>, bins: nat) returns (grouped: seq<seq<nat>>)
    requires bins > 0
    ensures |grouped| == bins && Permutation(Flatten(grouped), |info|) && BinsOrdered(grouped, InfoOf(info))
    ensures forall i :: 0 <= i < bins - 1 ==> |grouped[i]| == |info| / bins
  {
    var sortedIndex := Argsort(info);
    PermutationMembers(sortedIndex, |info|);
    BinsFit(|sortedIndex|, bins);
    grouped := SplitAt(sortedIndex, |sortedIndex| / bins, bins, InfoOf(info));
  }

  /** np.split into `m` bins of `size`, the rest in the last. */
  method SplitAt(s: seq<nat>, size: nat, m: nat, ghost info: nat -> real) returns (grouped: seq<seq<nat>>)
    requires m > 0 && Cut(size, m - 1) <= |s|
    requires forall i, j :: 0 <= i < j < |s| ==> info(s[i]) <= info(s[j])
    ensures |grouped| == m && Flatten(grouped) == s && BinsOrdered(grouped, info)
    ensures forall i :: 0 <= i < m - 1 ==> |grouped[i]| == size
  {
    grouped := Split(s, size, m);
    SplitKeepsAll(s, size, m);
    SplitOrdered(s, size, m, info);
    forall i | 0 <= i < m - 1
      ensures |grouped[i]| == size
    {
      SplitSizes(s, size, m, i);
    }
  }

  datatype Outcome = Ok | ValueError | IndexError

  /** What a state name stands for; None is rejected. */
  function StateValue(state: string): (v: Option<int>)
    ensures state in {"idle", "seen"} ==> v == Some(1)
    ensures state in {"working", "unseen"} ==> v == Some(0)
    ensures state !in {"idle", "seen", "working", "unseen"} ==> v == None
  {
    if state == "idle" || state == "seen" then Some(1)
    else if state == "working" || state == "unseen" then Some(0)
    else None
  }

  /** The clients changed before change_state meets one that is out of range. */
  function Reached(clients: seq<nat>, n: nat): (r: seq<nat>)
    ensures r <= clients && (forall i :: 0 <= i < |r| ==> r[i] < n)
    ensures |r| < |clients| ==> clients[|r|] >= n
  {
    if clients == [] || clients[0] >= n then [] else [clients[0]] + Reached(clients[1..], n)
  }

  lemma ReachedNext(clients: seq<nat>, n: nat, k: nat)
    requires k < |clients|
    ensures clients[..k] + Reached(clients[k..], n)
            == if clients[k] >= n then clients[..k] else clients[..k + 1] + Reached(clients[k + 1..], n)
  {
    assert clients[k..][1..] == clients[k + 1..];
  }

  lemma MarkNext(state: seq<int>, clients: seq<nat>, k: nat, v: int)
    requires k < |clients| && clients[k] < |state|
    ensures k == 0 ==> state[clients[k] := v] == Marked(state, clients[..k + 1], v)
    ensures Marked(state, clients[..k], v)[clients[k] := v] == Marked(state, clients[..k + 1], v)
  {
    assert clients[..k + 1] == clients[..k] + [clients[k]];
  }

  /** np.argsort: positions by ascending value, ties in any order. */
  method Argsort(info: seq<real>) returns (order: seq<nat>)
    ensures Permutation(order, |info|)
    ensures forall i, j :: 0 <= i < j < |order| ==> InfoOf(info)(order[i]) <= InfoOf(info)(order[j])
  {
    var le := (x: nat, y: nat) => InfoOf(info)(x) <= InfoOf(info)(y);
    order := Sort(Range(|info|), le);
    SortSorted(Range(|info|), le);
    SortPermutes(Range(|info|), le);
    forall i, j | 0 <= i < j < |order|
      ensures InfoOf(info)(order[i]) <= InfoOf(info)(order[j])
    {
      assert le(order[i], order[j]);
    }
  }

  function InfoOf(info: seq<real>): (f: nat -> real)
    ensures forall x: nat :: x < |info| ==> f(x) == info[x]
  {
    (x: nat) => if x < |info| then info[x] else 0.0
  }

  // ---- The sampler ----

  class GroupSampler {
    var clientState: array<int>
    var clientInfo: seq<real>
    var bins: nat
    var groupedClients: seq<seq<nat>>
    /** What is left of the candidate iterator. */
    var candidates: seq<nat>

    ghost predicate Grouped()
      reads this, clientState
    {
      && clientState.Length == |clientInfo| > 0
      && bins == |groupedClients| > 0
      && Permutation(Flatten(groupedClients), |clientInfo|)
      && BinsOrdered(groupedClients, InfoOf(clientInfo))
    }

    ghost predicate Valid()
      reads this, clientState
    {
      && Grouped()
      && Distinct(candidates)
      && forall i :: 0 <= i < |candidates| ==> candidates[i] < |clientInfo|
    }

    /** The idle clients the iterator still has ahead. */
    ghost function IdleAhead(): seq<nat>
      reads this, clientState
    {
      Filter(candidates, IdleIn(clientState[..]))
    }

    /** Everybody idle but the server, number 0; the sizes must match, as the source asserts. */
    constructor (clientNum: nat, info: seq<real>, bins: nat)
      requires |info| == clientNum && bins > 0
      ensures Valid() && fresh(clientState)
      ensures this.bins == bins && clientInfo == [1.0] + info
      ensures clientState[..] == [0] + seq(clientNum, _ => 1)
      ensures Permutation(candidates, clientNum + 1)
    {
      clientState := new int[clientNum + 1](i => 1);
      clientInfo := [1.0] + info;
      this.bins := bins;
      new;
      clientState[0] := 0;
      Partition();
    }

    /** change_state for a list of clients. */
    method ChangeState(clients: seq<nat>, state: string) returns (outcome: Outcome)
      modifies clientState
      ensures outcome.ValueError? <==> clients != [] && StateValue(state).None?
      ensures outcome.ValueError? || clients == [] ==> clientState[..] == old(clientState[..])
      ensures !outcome.ValueError? && clients != [] ==>
                && clientState[..]
                   == Marked(old(clientState[..]), Reached(clients, clientState.Length), StateValue(state).value)
                && (outcome.Ok? <==> Reached(clients, clientState.Length) == clients)
    {
      var n := clientState.Length;
      for k := 0 to |clients|
        invariant k > 0 ==> StateValue(state).Some?
        invariant Reached(clients, n) == clients[..k] + Reached(clients[k..], n)
        invariant k == 0 ==> clientState[..] == old(clientState[..])
        invariant k > 0 ==> clientState[..] == Marked(old(clientState[..]), clients[..k], StateValue(state).value)
      {
        ReachedNext(clients, n, k);
        outcome := ChangeOne(clients[k], state);
        if !outcome.Ok? {
          return;
        }
        MarkNext(old(clientState[..]), clients, k, StateValue(state).value);
      }
      return Ok;
    }

    /** The loop body: the state name is looked at first, then the index. */
    method ChangeOne(client: nat, state: string) returns (outcome: Outcome)
      modifies clientState
      ensures outcome.ValueError? <==> StateValue(state).None?
      ensures outcome.Ok? <==> StateValue(state).Some? && client < clientState.Length
      ensures clientState[..]
              == if outcome.Ok? then old(clientState[..])[client := StateValue(state).value] else old(clientState[..])
    {
      var value := StateValue(state);
      if value.None? {
        return ValueError;
      }
      if client >= clientState.Length {
        return IndexError;
      }
      clientState[client] := value.value;
      return Ok;
    }

    /** partition: argsort, cut into bins of int(len / bins) with the rest in the last, permute. */
    method Partition()
      requires clientState.Length == |clientInfo| > 0 && bins > 0
      modifies this`groupedClients, this`candidates
      ensures Valid()
      ensures Permutation(candidates, |clientInfo|)
      ensures forall i :: 0 <= i < bins - 1 ==> |groupedClients[i]| == |clientInfo| / bins
    {
      groupedClients := CutIntoBins(clientInfo, bins);
      ghost var split := groupedClients;
      var order := Permute();
      forall i | 0 <= i < bins - 1
        ensures |groupedClients[i]| == |clientInfo| / bins
      {
        assert |multiset(groupedClients[i])| == |multiset(split[i])|;
      }
    }

    /** permutation: visit the bins in a random order, shuffling each in place. */
    method Permute() returns (order: seq<nat>)
      requires Grouped()
      modifies this`groupedClients, this`candidates
      ensures Valid()
      ensures SameBins(old(groupedClients), groupedClients)
      ensures Permutation(order, bins) && forall i :: 0 <= i < |order| ==> order[i] < bins
      ensures candidates == Gather(groupedClients, order)
      ensures Permutation(candidates, |clientInfo|)
    {
      order := Shuffle(Range(bins));
      PermutationMembers(order, bins);
      forall i | 0 <= i < |order|
        ensures order[i] < bins
      {
        assert order[i] in order;
      }
      ShuffleBins(order);
      GatherPermuted(old(groupedClients), groupedClients, order);
      RangeIsPermutation(bins);
      GatherPermuted(old(groupedClients), groupedClients, Range(bins));
      ShuffleKeepsOrder(old(groupedClients), groupedClients, InfoOf(clientInfo));
      PermutationMembers(candidates, |clientInfo|);
      forall i | 0 <= i < |candidates|
        ensures candidates[i] < |clientInfo|
      {
        assert candidates[i] in candidates;
      }
    }

    method ShuffleBins(order: seq<nat>)
      requires Distinct(order) && forall i :: 0 <= i < |order| ==> order[i] < |groupedClients|
      modifies this`groupedClients, this`candidates
      ensures SameBins(old(groupedClients), groupedClients)
      ensures candidates == Gather(groupedClients, order)
    {
      candidates := [];
      for t := 0 to |order|
        invariant SameBins(old(groupedClients), groupedClients)
        invariant candidates == Gather(groupedClients, order[..t])
      {
        var i := order[t];
        var bin := Shuffle(groupedClients[i]);
        GatherFrame(groupedClients, order[..t], i, bin);
        groupedClients := groupedClients[i := bin];
        candidates := candidates + groupedClients[i];
        assert order[..t + 1][..t] == order[..t];
      }
      assert order[..|order|] == order;
    }

    /** sample: `size` clients, each the next idle one of the iterator, marked working at once. */
    method Sample(size: nat, shuffle: bool) returns (sampled: seq<nat>)
      requires Valid() && size <= IdleCount(clientState[..])
      modifies this`groupedClients, this`candidates, clientState
      ensures Valid()
      ensures |sampled| == size && Distinct(sampled)
      ensures forall i :: 0 <= i < size ==> sampled[i] < clientState.Length && old(clientState[..])[sampled[i]] == 1
      ensures clientState[..] == Marked(old(clientState[..]), sampled, 0)
      ensures old(clientState[0]) == 0 ==> 0 !in sampled
      ensures IdleCount(clientState[..]) == old(IdleCount(clientState[..])) - size
      ensures !shuffle ==> sampled <= old(IdleAhead()) || old(IdleAhead()) <= sampled
    {
      if shuffle {
        var order := Permute();
      }
      ghost var state := clientState[..];
      sampled := SampleIdle(size);
      assert state[0] == 0 && 0 in sampled ==> false;
    }

    /** The outer loop. */
    method SampleIdle(size: nat) returns (sampled: seq<nat>)
      requires Valid() && size <= IdleCount(clientState[..])
      modifies this`groupedClients, this`candidates, clientState
      ensures Valid() && |sampled| == size
      ensures Picked(old(clientState[..]), sampled, clientState[..])
      ensures sampled <= old(IdleAhead()) || old(IdleAhead()) <= sampled
    {
      ghost var ahead := IdleAhead();
      sampled := [];
      assert sampled + ahead == ahead;
      for i := 0 to size
        invariant Valid() && |sampled| == i
        invariant Picked(old(clientState[..]), sampled, clientState[..])
        invariant InOrder(sampled, IdleAhead(), ahead)
      {
        ghost var idle, state := IdleAhead(), clientState[..];
        var item := TakeIdle();
        InIteratorOrder(sampled, item, idle, IdleAhead(), ahead);
        PickedNext(old(clientState[..]), sampled, state, item);
        sampled := sampled + [item];
      }
      PrefixOfIdle(sampled, IdleAhead(), ahead);
    }

    /** One round of the outer loop: find an idle client and mark it working. */
    method TakeIdle() returns (item: nat)
      requires Valid() && IdleCount(clientState[..]) > 0
      modifies this`groupedClients, this`candidates, clientState
      ensures Valid()
      ensures item < clientState.Length && old(clientState[..])[item] == 1
      ensures clientState[..] == old(clientState[..])[item := 0]
      ensures IdleCount(clientState[..]) == IdleCount(old(clientState[..])) - 1
      ensures old(IdleAhead()) == [] || old(IdleAhead()) == [item] + IdleAhead()
    {
      ghost var passed, restarted;
      item, passed, restarted := NextIdle();
      OneLessIdle(clientState[..], item);
      FirstIdle(clientState[..], old(candidates), passed, item, candidates, restarted);
      MarkWorking(item);
    }

    /** change_state for a single client. */
    method MarkWorking(item: nat)
      requires item < clientState.Length
      modifies clientState
      ensures clientState[..] == old(clientState[..])[item := 0]
    {
      assert Reached([item][1..], clientState.Length) == [];
      var outcome := ChangeState([item], "working");
    }

    /** The search loop: the first idle client of the iterator, or, if all it has left are busy, one
        of a fresh permutation. It ends because some client is idle. */
    method NextIdle() returns (item: nat, ghost passed: seq<nat>, ghost restarted: bool)
      requires Valid() && IdleCount(clientState[..]) > 0
      modifies this`groupedClients, this`candidates
      ensures Valid()
      ensures item < clientState.Length && clientState[item] == 1
      ensures Searched(clientState[..], old(candidates), passed, [item] + candidates, restarted)
    {
      ghost var state, before := clientState[..], candidates;
      ghost var idle := IdleExists(state);
      restarted := candidates == [];
      passed := [];
      item := Next();
      assert [] + before == before;
      while clientState[item] != 1
        invariant Valid() && item < clientState.Length
        invariant clientState == old(clientState) && clientState[..] == state && clientState[idle] == 1
        invariant Searched(state, before, passed, [item] + candidates, restarted)
        decreases idle !in candidates && idle != item, |candidates|
      {
        SearchAdvances(state, before, passed, item, candidates, restarted);
        passed := passed + [item];
        restarted := restarted || candidates == [];
        item := Next();
      }
    }

    /** next(iterator), starting over with a fresh permutation on StopIteration. */
    method Next() returns (item: nat)
      requires Valid()
      modifies this`groupedClients, this`candidates
      ensures Valid() && item < |clientInfo|
      ensures old(candidates) != [] ==> old(candidates) == [item] + candidates
      ensures old(candidates) == [] ==> Permutation([item] + candidates, |clientInfo|)
      ensures old(candidates) == [] ==> forall x: nat :: x < |clientInfo| ==> x == item || x in candidates
    {
      if candidates == [] {
        var order := Permute();
        PermutationMembers(candidates, |clientInfo|);
      }
      item := candidates[0];
      Rest(candidates);
      candidates := candidates[1..];
    }
  }

  ghost predicate AllBusy(state: seq<int>, clients: seq<nat>) {
    forall i :: 0 <= i < |clients| ==> clients[i] < |state| && state[clients[i]] != 1
  }

  /** How far a search has come: what was passed over is busy, and with what is still ahead makes up
      the iterator it began with; once that has run out, all of it was busy. */
  ghost predicate Searched(state: seq<int>, before: seq<nat>, passed: seq<nat>, ahead: seq<nat>, restarted: bool) {
    if restarted then AllBusy(state, before) else AllBusy(state, passed) && before == passed + ahead
  }

  lemma SearchAdvances(state: seq<int>, before: seq<nat>, passed: seq<nat>, item: nat, rest: seq<nat>, restarted: bool)
    requires Searched(state, before, passed, [item] + rest, restarted) && item < |state| && state[item] != 1
    ensures Searched(state, before, passed + [item], rest, restarted || rest == [])
  {
    assert passed + ([item] + rest) == passed + [item] + rest;
  }

  lemma Rest(s: seq<nat>)
    requires s != []
    ensures s == [s[0]] + s[1..]
    ensures forall x: nat :: x in s ==> x == s[0] || x in s[1..]
  {
  }

  lemma RangeIsPermutation(n: nat)
    ensures Permutation(Range(n), n)
  {
  }
}
