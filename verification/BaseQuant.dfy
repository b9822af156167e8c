/** Heterogeneous base quantization: clients are split over bit widths by rounded fractions, and a
    fix-up of the most common width makes the list exactly client_num long. */
module BaseQuant {
  import opened Seqs
  import opened Randomness

  datatype Group = Group(nbits: int, fraction: real)

  /** The sorted items of a dict: ascending keys. */
  ghost predicate SortedItems(groups: seq<Group>) {
    forall i, j :: 0 <= i < j < |groups| ==> groups[i].nbits < groups[j].nbits
  }

  /** A distribution over {4, 8, 16, 32}: at most four groups, no negative fraction. */
  ghost predicate Distribution(groups: seq<Group>) {
    |groups| <= 4 && forall i :: 0 <= i < |groups| ==> groups[i].fraction >= 0.0
  }

  function Fraction(): Group -> real {
    (g: Group) => g.fraction
  }

  function Total(groups: seq<Group>): real {
    Sum(groups, Fraction())
  }

  function Divided(groups: seq<Group>, total: real): (r: seq<Group>)
    requires total > 0.0
    ensures |r| == |groups|
    ensures forall i :: 0 <= i < |r| ==> r[i] == Group(groups[i].nbits, groups[i].fraction / total)
  {
    seq(|groups|, i requires 0 <= i < |groups| => Group(groups[i].nbits, groups[i].fraction / total))
  }

  function DefaultGroups(): seq<Group> {
    [Group(4, 0.333), Group(8, 0.333), Group(16, 0.334)]
  }

  /** The default, the sanity check on the sum, and the normalization when it is off by over 0.01. */
  function Effective(configured: seq<Group>): Option<seq<Group>> {
    var groups := if configured == [] then DefaultGroups() else configured;
    var total := Total(groups);
    if total <= 0.0 then None
    else if total - 1.0 > 0.01 || 1.0 - total > 0.01 then Some(Divided(groups, total))
    else Some(groups)
  }

  /** Python's round(): to the nearest integer, ties to even. */
  function Round(x: real): (r: int)
    ensures r as real - 0.5 <= x <= r as real + 0.5
    ensures (x == r as real - 0.5 || x == r as real + 0.5) ==> r % 2 == 0
    ensures x >= 0.0 ==> r >= 0
  {
    var f := x.Floor;
    var d := x - f as real;
    if d < 0.5 then f else if d > 0.5 then f + 1 else if f % 2 == 0 then f else f + 1
  }

  /** fraction * num_clients. */
  function ShareOf(groups: seq<Group>, n: nat, i: nat): real {
    if i < |groups| then Times(n, groups[i].fraction) else 0.0
  }

  /** How many entries `[nbits] * round(...)` holds: a negative factor gives the empty list. */
  function CountOf(groups: seq<Group>, n: nat, i: nat): (c: nat)
    ensures ShareOf(groups, n, i) <= 0.5 ==> c == 0
    ensures ShareOf(groups, n, i) >= 0.0 ==> -0.5 <= c as real - ShareOf(groups, n, i) <= 0.5
  {
    var rounded := Round(ShareOf(groups, n, i));
    if rounded < 0 then 0 else rounded
  }

  function CountTotal(groups: seq<Group>, n: nat, upTo: nat): nat {
    if upTo == 0 then 0 else CountTotal(groups, n, upTo - 1) + CountOf(groups, n, upTo - 1)
  }

  /** max(distribution, key=distribution.get): the first group with the largest fraction. */
  function MostCommon(groups: seq<Group>): (m: nat)
    requires groups != []
    ensures m < |groups|
    ensures forall i :: 0 <= i < |groups| ==> groups[i].fraction <= groups[m].fraction
    ensures forall i :: 0 <= i < m ==> groups[i].fraction < groups[m].fraction
  {
    if |groups| == 1 then 0
    else
      var m := MostCommon(groups[..|groups| - 1]);
      if groups[|groups| - 1].fraction > groups[m].fraction then |groups| - 1 else m
  }

  lemma {:induction false} TimesMonotone(n: nat, x: real, y: real)
    requires x <= y
    ensures Times(n, x) <= Times(n, y)
  {
    if n > 0 {
      TimesMonotone(n - 1, x, y);
    }
  }

  lemma SharesBounded(groups: seq<Group>, n: nat, i: nat)
    requires Distribution(groups) && groups != []
    ensures 0.0 <= ShareOf(groups, n, i) <= ShareOf(groups, n, MostCommon(groups))
  {
    TimesZero(n);
    TimesMonotone(n, 0.0, groups[MostCommon(groups)].fraction);
    if i < |groups| {
      TimesMonotone(n, 0.0, groups[i].fraction);
      TimesMonotone(n, groups[i].fraction, groups[MostCommon(groups)].fraction);
    }
  }

  lemma {:induction false} SharesTotal(groups: seq<Group>, n: nat)
    requires |groups| <= 4
    ensures ShareOf(groups, n, 0) + ShareOf(groups, n, 1) + ShareOf(groups, n, 2) + ShareOf(groups, n, 3)
            == Times(n, Total(groups))
    decreases |groups|
  {
    if groups == [] {
      TimesZero(n);
    } else {
      SharesTotal(groups[1..], n);
      TimesSum(n, groups[0].fraction, Total(groups[1..]));
    }
  }

  lemma Padded(groups: seq<Group>, n: nat)
    requires |groups| <= 4
    ensures CountTotal(groups, n, |groups|) == CountTotal(groups, n, 4)
    ensures CountTotal(groups, n, 4)
            == CountOf(groups, n, 0) + CountOf(groups, n, 1) + CountOf(groups, n, 2) + CountOf(groups, n, 3)
  {
    assert CountTotal(groups, n, 1) == CountOf(groups, n, 0);
    assert CountTotal(groups, n, 2) == CountTotal(groups, n, 1) + CountOf(groups, n, 1);
    assert CountTotal(groups, n, 3) == CountTotal(groups, n, 2) + CountOf(groups, n, 2);
    assert CountTotal(groups, n, 4) == CountTotal(groups, n, 3) + CountOf(groups, n, 3);
  }

  /** The arithmetic core. Three shares no larger than a fourth, all four summing to at most
      1.01 n: their rounded counts leave room within n, except for n == 2 with all three over 1/2. */
  lemma OthersFit(n: nat, m: real, a: real, b: real, c: real)
    requires 0.0 <= a <= m && 0.0 <= b <= m && 0.0 <= c <= m
    requires m + a + b + c <= n as real * 1.01
    ensures Round(a) + Round(b) + Round(c) <= n || (n == 2 && Round(a) == Round(b) == Round(c) == 1)
    ensures n == 2 && a > 0.5 && b > 0.5 && c > 0.5 ==> Round(a) == Round(b) == Round(c) == 1
    ensures n == 2 && Round(a) == Round(b) == Round(c) == 1 ==> a > 0.5 && b > 0.5 && c > 0.5 && Round(m) == 1
  {
    if n == 0 {
    } else if n == 1 {
    } else if n == 2 {
    } else if n == 3 {
    } else if n == 4 {
    } else if n == 5 {
    } else if n == 6 {
    } else {
      assert a + b + c <= n as real * 0.7575;
    }
  }

  /** What the groups other than the most common one ask for. */
  function OthersTotal(groups: seq<Group>, n: nat): int
    requires groups != []
  {
    CountTotal(groups, n, |groups|) - CountOf(groups, n, MostCommon(groups))
  }

  /** `m` and the other three of the four positions, in order. */
  predicate OneAndOthers(m: nat, i: nat, j: nat, k: nat) {
    || (m == 0 && i == 1 && j == 2 && k == 3)
    || (m == 1 && i == 0 && j == 2 && k == 3)
    || (m == 2 && i == 0 && j == 1 && k == 3)
    || (m == 3 && i == 0 && j == 1 && k == 2)
  }

  /** The four shares are the most common one and three others, none of them larger. */
  lemma OthersAre(groups: seq<Group>, n: nat) returns (i: nat, j: nat, k: nat)
    requires Distribution(groups) && groups != []
    ensures OneAndOthers(MostCommon(groups), i, j, k)
    ensures OthersTotal(groups, n) == CountOf(groups, n, i) + CountOf(groups, n, j) + CountOf(groups, n, k)
    ensures ShareOf(groups, n, MostCommon(groups)) + ShareOf(groups, n, i) + ShareOf(groups, n, j)
            + ShareOf(groups, n, k) == Times(n, Total(groups))
  {
    Padded(groups, n);
    SharesTotal(groups, n);
    var m := MostCommon(groups);
    i, j, k := if m == 0 then 1 else 0, if m <= 1 then 2 else 1, if m == 3 then 2 else 3;
  }

  /** The one family on which list.index raises: two clients and four groups all above a quarter. */
  ghost predicate Overfull(groups: seq<Group>, n: nat) {
    n == 2 && |groups| == 4 && forall i :: 0 <= i < 4 ==> groups[i].fraction > 0.25
  }

  lemma RemovalSucceedsIff(groups: seq<Group>, n: nat)
    requires Distribution(groups) && groups != [] && Total(groups) <= 1.01
    ensures OthersTotal(groups, n) <= n <==> !Overfull(groups, n)
  {
    var i, j, k := OthersAre(groups, n);
    SharesTotalAtMost(groups, n);
    OverfullIff(groups, n, i, j, k);
    SharesBounded(groups, n, i);
    SharesBounded(groups, n, j);
    SharesBounded(groups, n, k);
    OthersExceedIff(n, ShareOf(groups, n, MostCommon(groups)),
                    ShareOf(groups, n, i), ShareOf(groups, n, j), ShareOf(groups, n, k));
  }

  lemma SharesTotalAtMost(groups: seq<Group>, n: nat)
    requires Total(groups) <= 1.01
    ensures Times(n, Total(groups)) <= n as real * 1.01
  {
    TimesMonotone(n, Total(groups), 1.01);
    TimesIsProduct(n, 1.01);
  }

  lemma OthersExceedIff(n: nat, m: real, a: real, b: real, c: real)
    requires 0.0 <= a <= m && 0.0 <= b <= m && 0.0 <= c <= m
    requires m + a + b + c <= n as real * 1.01
    ensures Round(a) + Round(b) + Round(c) > n <==> n == 2 && m > 0.5 && a > 0.5 && b > 0.5 && c > 0.5
  {
    OthersFit(n, m, a, b, c);
  }

  /** With two clients a share is over one half exactly if the fraction is over one quarter. */
  lemma OverfullIff(groups: seq<Group>, n: nat, i: nat, j: nat, k: nat)
    requires |groups| <= 4 && groups != []
    requires OneAndOthers(MostCommon(groups), i, j, k)
    ensures Overfull(groups, n) <==>
              && n == 2 && ShareOf(groups, n, MostCommon(groups)) > 0.5
              && ShareOf(groups, n, i) > 0.5 && ShareOf(groups, n, j) > 0.5 && ShareOf(groups, n, k) > 0.5
  {
    SharesOfTwo(groups, MostCommon(groups));
    SharesOfTwo(groups, i);
    SharesOfTwo(groups, j);
    SharesOfTwo(groups, k);
  }

  lemma SharesOfTwo(groups: seq<Group>, i: nat)
    ensures ShareOf(groups, 2, i) > 0.5 <==> i < |groups| && groups[i].fraction > 0.25
  {
    if i < |groups| {
      TimesIsProduct(2, groups[i].fraction);
    }
  }

  // ---- Normalization ----

  lemma {:induction false} DividedTotal(groups: seq<Group>, total: real)
    requires total > 0.0
    ensures Total(Divided(groups, total)) == Total(groups) / total
  {
    if groups != [] {
      assert Divided(groups, total)[1..] == Divided(groups[1..], total);
      DividedTotal(groups[1..], total);
    }
  }

  lemma DivideBySelf(x: real)
    requires x > 0.0
    ensures x / x == 1.0
  {
  }

  lemma EffectiveTotal(configured: seq<Group>)
    requires Distribution(configured) && SortedItems(configured)
    ensures Effective(configured).Some? ==>
              var groups := Effective(configured).value;
              && Distribution(groups) && SortedItems(groups) && groups != []
              && 0.99 <= Total(groups) <= 1.01
    ensures configured != [] && Total(configured) == 1.0 ==> Effective(configured) == Some(configured)
  {
    var groups := if configured == [] then DefaultGroups() else configured;
    if Total(groups) > 0.0 {
      DividedTotal(groups, Total(groups));
      DivideBySelf(Total(groups));
    }
  }

  /** What normalization does: an empty distribution stands for thirds over 4, 8 and 16 bits; otherwise the
      widths stay, the fractions keep their ratios, and they are left alone if their sum is within 0.01 of
      one and sum to one if not. */
  lemma EffectiveKeepsRatios(configured: seq<Group>)
    ensures configured == [] ==> Effective(configured) == Some([Group(4, 0.333), Group(8, 0.333), Group(16, 0.334)])
    ensures configured != [] ==> (Effective(configured).None? <==> Total(configured) <= 0.0)
    ensures configured != [] && Total(configured) > 0.0 ==>
              var groups, total := Effective(configured).value, Total(configured);
              && |groups| == |configured|
              && (forall i :: 0 <= i < |groups| ==> groups[i].nbits == configured[i].nbits)
              && (forall i :: 0 <= i < |groups| ==>
                    groups[i].fraction * total == configured[i].fraction * Total(groups))
              && (if 0.99 <= total <= 1.01 then groups == configured else Total(groups) == 1.0)
  {
    if configured == [] {
      DefaultTotal();
    } else if Total(configured) > 0.0 {
      var groups, total := Effective(configured).value, Total(configured);
      DividedTotal(configured, total);
      DivideBySelf(total);
      forall i | 0 <= i < |groups|
        ensures groups[i].fraction * total == configured[i].fraction * Total(groups)
      {
        if groups != configured {
          DivideAndMultiply(configured[i].fraction, total);
        }
      }
    }
  }

  lemma DivideAndMultiply(x: real, total: real)
    requires total > 0.0
    ensures x / total * total == x
  {
  }

  lemma DefaultTotal()
    ensures Total([Group(4, 0.333), Group(8, 0.333), Group(16, 0.334)]) == 1.0
  {
    var groups := [Group(4, 0.333), Group(8, 0.333), Group(16, 0.334)];
    assert groups[1..][1..] == [Group(16, 0.334)] && groups[1..][1..][1..] == [];
    assert Total(groups[1..][1..][1..]) == 0.0;
    assert Total(groups[1..][1..]) == 0.334 + Total(groups[1..][1..][1..]);
    assert Total(groups[1..]) == 0.333 + Total(groups[1..][1..]);
  }

  // ---- The list of assignments ----

  /** How often the finished list holds the i-th width: its rounded count, or for the most common
      width whatever the others leave. */
  function Expected(groups: seq<Group>, n: nat, i: nat): int
    requires i < |groups|
  {
    if i == MostCommon(groups) then n - OthersTotal(groups, n) else CountOf(groups, n, i)
  }

  lemma ExpectedNearShare(groups: seq<Group>, n: nat, i: nat)
    requires Distribution(groups) && i < |groups| && Total(groups) == 1.0
    ensures -1.5 <= Expected(groups, n, i) as real - ShareOf(groups, n, i) <= 1.5
    ensures i != MostCommon(groups) ==> -0.5 <= Expected(groups, n, i) as real - ShareOf(groups, n, i) <= 0.5
  {
    var a, b, c := OthersAre(groups, n);
    TimesIsProduct(n, 1.0);
    RoundedNearShare(groups, n, a);
    RoundedNearShare(groups, n, b);
    RoundedNearShare(groups, n, c);
    RoundedNearShare(groups, n, i);
  }

  lemma RoundedNearShare(groups: seq<Group>, n: nat, i: nat)
    requires Distribution(groups) && groups != []
    ensures -0.5 <= CountOf(groups, n, i) as real - ShareOf(groups, n, i) <= 0.5
  {
    SharesBounded(groups, n, i);
  }

  function Repeat<T>(x: T, count: nat): seq<T> {
    seq(count, _ => x)
  }

  lemma {:induction false} RepeatCounts<T>(x: T, count: nat)
    ensures forall y :: multiset(Repeat(x, count))[y] == if y == x then count else 0
  {
    if count > 0 {
      RepeatCounts(x, count - 1);
      assert Repeat(x, count) == [x] + Repeat(x, count - 1);
    }
  }

  /** list.index: the first position, or None where Python raises ValueError. */
  method IndexOf<T(==)>(s: seq<T>, x: T) returns (k: Option<nat>)
    ensures k.None? ==> x !in s
    ensures k.Some? ==> k.value < |s| && s[k.value] == x && x !in s[..k.value]
  {
    for i := 0 to |s|
      invariant x !in s[..i]
    {
      if s[i] == x {
        return Some(i);
      }
    }
    return None;
  }

  /** The entries other than x are the same, however often each; only the number of x's may differ. */
  ghost predicate OnlyChanges<T(!new)>(before: seq<T>, after: seq<T>, x: T) {
    && (forall y :: y != x ==> multiset(after)[y] == multiset(before)[y])
    && |after| - multiset(after)[x] == |before| - multiset(before)[x]
  }

  lemma AppendChanges<T(!new)>(before: seq<T>, s: seq<T>, x: T)
    requires OnlyChanges(before, s, x)
    ensures OnlyChanges(before, s + [x], x)
  {
  }

  lemma PopChanges<T(!new)>(before: seq<T>, s: seq<T>, k: nat)
    requires k < |s| && OnlyChanges(before, s, s[k])
    ensures OnlyChanges(before, s[..k] + s[k + 1..], s[k])
  {
    assert s == s[..k] + [s[k]] + s[k + 1..];
  }

  lemma AllAre<T>(s: seq<T>, x: T)
    ensures multiset(s)[x] <= |s|
  {
    if s != [] {
      assert s == s[..|s| - 1] + [s[|s| - 1]];
      AllAre(s[..|s| - 1], x);
    }
  }

  /** The extend loop: every width as often as its rounded share. */
  method Extend(groups: seq<Group>, n: nat) returns (quant: seq<int>)
    requires SortedItems(groups)
    ensures |quant| == CountTotal(groups, n, |groups|)
    ensures forall i :: 0 <= i < |groups| ==> multiset(quant)[groups[i].nbits] == CountOf(groups, n, i)
  {
    quant := [];
    for i := 0 to |groups|
      invariant |quant| == CountTotal(groups, n, i)
      invariant forall j :: 0 <= j < |groups| ==>
                  multiset(quant)[groups[j].nbits] == if j < i then CountOf(groups, n, j) else 0
    {
      RepeatCounts(groups[i].nbits, CountOf(groups, n, i));
      quant := quant + Repeat(groups[i].nbits, CountOf(groups, n, i));
    }
  }

  /** The two fix-up loops. None: list.index found no entry to remove. */
  method FixUp(quant0: seq<int>, n: nat, mostCommon: int) returns (fixed: Option<seq<int>>)
    ensures fixed.None? <==> |quant0| - multiset(quant0)[mostCommon] > n
    ensures fixed.Some? ==> |fixed.value| == n && OnlyChanges(quant0, fixed.value, mostCommon)
  {
    var quant := quant0;
    while |quant| < n
      invariant |quant| <= n || quant == quant0
      invariant OnlyChanges(quant0, quant, mostCommon)
    {
      AppendChanges(quant0, quant, mostCommon);
      quant := quant + [mostCommon];
    }
    while |quant| > n
      invariant |quant| >= n
      invariant OnlyChanges(quant0, quant, mostCommon)
    {
      var idx := IndexOf(quant, mostCommon);
      if idx.None? {
        return None;
      }
      PopChanges(quant0, quant, idx.value);
      quant := quant[..idx.value] + quant[idx.value + 1..];
    }
    AllAre(quant, mostCommon);
    return Some(quant);
  }

  datatype Outcome = Disabled | ValueError | Assigned

  /** client ids 1..n in order. */
  function AssignedTo(clients: map<int, int>, n: nat): seq<int>
    requires forall c :: 1 <= c <= n ==> c in clients
  {
    seq(n, i requires 0 <= i < n => clients[i + 1])
  }

  class BaseRunner {
    var clientBaseQuant: map<int, int>

    /** The allocation of _setup_base_quant for `n` clients; the table starts empty. */
    method SetupBaseQuant(configured: seq<Group>, n: nat) returns (outcome: Outcome)
      requires SortedItems(configured)
      modifies this
      ensures outcome.Disabled? <==> Effective(configured).None?
      ensures outcome.ValueError? <==> Effective(configured).Some? && OthersTotal(Effective(configured).value, n) > n
      ensures !outcome.Assigned? ==> clientBaseQuant == map[]
      ensures outcome.Assigned? ==>
                var groups := Effective(configured).value;
                && (forall c :: c in clientBaseQuant <==> 1 <= c <= n)
                && (forall i :: 0 <= i < |groups| ==>
                      multiset(AssignedTo(clientBaseQuant, n))[groups[i].nbits] == Expected(groups, n, i))
    {
      clientBaseQuant := map[];
      var effective := Effective(configured);
      if effective.None? {
        return Disabled;
      }
      var groups := effective.value;
      assert SortedItems(groups);
      var quant := Extend(groups, n);
      var fixed := FixUp(quant, n, groups[MostCommon(groups)].nbits);
      if fixed.None? {
        return ValueError;
      }
      var shuffled := Shuffle(fixed.value);
      Record(shuffled);
      return Assigned;
    }

    /** client_base_quant[client_id] = quant_assignments[client_id - 1]. */
    method Record(quant: seq<int>)
      requires clientBaseQuant == map[]
      modifies this
      ensures forall c :: c in clientBaseQuant <==> 1 <= c <= |quant|
      ensures AssignedTo(clientBaseQuant, |quant|) == quant
    {
      for c := 1 to |quant| + 1
        invariant forall d :: d in clientBaseQuant <==> 1 <= d < c
        invariant forall d :: 1 <= d < c ==> clientBaseQuant[d] == quant[d - 1]
      {
        clientBaseQuant := clientBaseQuant[c := quant[c - 1]];
      }
    }
  }

  // ---- What the caller can rely on ----

  /** For every distribution and every number of clients: the allocator raises exactly on the
      overfull family; in particular never when the fractions sum to 1, and never unless n == 2. */
  lemma AllocationFailsIff(configured: seq<Group>, n: nat)
    requires Distribution(configured) && SortedItems(configured) && Effective(configured).Some?
    ensures OthersTotal(Effective(configured).value, n) > n <==> Overfull(Effective(configured).value, n)
    ensures Overfull(Effective(configured).value, n) ==> Total(Effective(configured).value) > 1.0
  {
    EffectiveTotal(configured);
    var groups := Effective(configured).value;
    RemovalSucceedsIff(groups, n);
    if Overfull(groups, n) {
      SumOfFour(groups);
    }
  }

  lemma SumOfFour(groups: seq<Group>)
    requires |groups| == 4
    ensures Total(groups)
            == groups[0].fraction + groups[1].fraction + groups[2].fraction + groups[3].fraction
  {
    assert groups[1..][1..] == groups[2..] && groups[2..][1..] == groups[3..] && groups[3..][1..] == [];
    assert Total(groups[3..][1..]) == 0.0;
    assert Total(groups[3..]) == groups[3].fraction;
    assert Total(groups[2..]) == groups[2].fraction + Total(groups[3..]);
    assert Total(groups[1..]) == groups[1].fraction + Total(groups[2..]);
  }

  /** Four fractions of 0.252, which pass the tolerance check and are used as they are. */
  function FourAboveQuarter(): seq<Group> {
    [Group(4, 0.252), Group(8, 0.252), Group(16, 0.252), Group(32, 0.252)]
  }

  /** A concrete failing input: with two clients every width gets one entry; the first removal takes
      the only entry of the most common width, and the second finds none. */
  lemma AllocationCanFail()
    ensures Distribution(FourAboveQuarter()) && SortedItems(FourAboveQuarter())
    ensures Effective(FourAboveQuarter()) == Some(FourAboveQuarter())
    ensures OthersTotal(FourAboveQuarter(), 2) > 2
  {
    SumOfFour(FourAboveQuarter());
    AllocationFailsIff(FourAboveQuarter(), 2);
  }
}
