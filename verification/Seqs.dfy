/** Sequences as the Python lists and dicts of the repository: last-wins index maps,
    stable sorting, sums, and the one exchange argument behind every optimality result. */
module Seqs {

  datatype Option<+T> = None | Some(value: T)

  /** A list without repeated elements. */
  ghost predicate Distinct<T>(s: seq<T>) {
    forall i, j :: 0 <= i < j < |s| ==> s[i] != s[j]
  }

  /** The value a dict comprehension `{x: i for i, x in enumerate(s)}` holds for `x`:
      the last position of `x`, or -1 when `x` is not a key. */
  function LastIndex<T(==)>(s: seq<T>, x: T): (i: int)
    ensures -1 <= i < |s|
    ensures i >= 0 ==> s[i] == x
    ensures i < 0 <==> x !in s
    ensures forall j :: i < j < |s| ==> s[j] != x
  {
    if s == [] then -1
    else if s[|s| - 1] == x then |s| - 1
    else LastIndex(s[..|s| - 1], x)
  }

  lemma LastIndexDistinct<T>(s: seq<T>, p: nat)
    requires Distinct(s) && p < |s|
    ensures LastIndex(s, s[p]) == p
  {
  }

  lemma {:induction false} LastOccurrence<T>(s: seq<T>, n: nat)
    requires n < |s| && forall m :: n < m < |s| ==> s[m] != s[n]
    ensures LastIndex(s, s[n]) == n
  {
  }

  function Filter<T(!new)>(s: seq<T>, keep: T -> bool): (r: seq<T>)
    ensures forall x :: x in r <==> x in s && keep(x)
    ensures |r| <= |s|
  {
    if s == [] then []
    else (if keep(s[0]) then [s[0]] else []) + Filter(s[1..], keep)
  }

  lemma {:induction false} FilterDistinct<T(!new)>(s: seq<T>, keep: T -> bool)
    requires Distinct(s)
    ensures Distinct(Filter(s, keep))
  {
    if s != [] {
      FilterDistinct(s[1..], keep);
    }
  }

  lemma {:induction false} FilterAppend<T(!new)>(a: seq<T>, b: seq<T>, keep: T -> bool)
    ensures Filter(a + b, keep) == Filter(a, keep) + Filter(b, keep)
  {
    if a == [] {
      assert a + b == b;
    } else {
      assert (a + b)[1..] == a[1..] + b;
      FilterAppend(a[1..], b, keep);
    }
  }

  lemma FilterSnoc<T(!new)>(s: seq<T>, x: T, keep: T -> bool)
    ensures Filter(s + [x], keep) == Filter(s, keep) + if keep(x) then [x] else []
  {
    FilterAppend(s, [x], keep);
    assert [x][1..] == [];
  }

  // ---- sums ----

  function Sum<T>(s: seq<T>, f: T -> real): real {
    if s == [] then 0.0 else f(s[0]) + Sum(s[1..], f)
  }

  lemma {:induction false} SumAppend<T>(a: seq<T>, b: seq<T>, f: T -> real)
    ensures Sum(a + b, f) == Sum(a, f) + Sum(b, f)
  {
    if a == [] {
      assert a + b == b;
    } else {
      assert (a + b)[1..] == a[1..] + b;
      SumAppend(a[1..], b, f);
    }
  }

  lemma {:induction false} SumSnoc<T>(a: seq<T>, x: T, f: T -> real)
    ensures Sum(a + [x], f) == Sum(a, f) + f(x)
  {
    SumAppend(a, [x], f);
  }

  lemma {:induction false} SumLe<T>(s: seq<T>, f: T -> real, g: T -> real)
    requires forall i :: 0 <= i < |s| ==> f(s[i]) <= g(s[i])
    ensures Sum(s, f) <= Sum(s, g)
  {
    if s != [] {
      SumLe(s[1..], f, g);
    }
  }

  lemma {:induction false} SumSame<T>(s: seq<T>, f: T -> real, g: T -> real)
    requires forall i :: 0 <= i < |s| ==> f(s[i]) == g(s[i])
    ensures Sum(s, f) == Sum(s, g)
  {
    SumLe(s, f, g);
    SumLe(s, g, f);
  }

  /** Removing one occurrence of an element from a list. */
  function Without<T>(s: seq<T>, i: nat): (r: seq<T>)
    requires i < |s|
    ensures |r| == |s| - 1
  {
    s[..i] + s[i + 1..]
  }

  lemma {:induction false} SumWithout<T>(s: seq<T>, i: nat, f: T -> real)
    requires i < |s|
    ensures Sum(s, f) == f(s[i]) + Sum(Without(s, i), f)
  {
    if i == 0 {
      assert Without(s, 0) == s[1..];
    } else {
      assert Without(s, i)[1..] == Without(s[1..], i - 1);
      SumWithout(s[1..], i - 1, f);
    }
  }

  /** The exchange argument. When every element of `pre` gains something and no element of
      `post` does, no duplicate-free choice from `pre + post` gains more than all of `pre`. */
  lemma {:induction false} BestChoiceIsPrefix<T>(pre: seq<T>, post: seq<T>, choice: seq<T>, gain: T -> real)
    requires Distinct(choice)
    requires forall i :: 0 <= i < |choice| ==> choice[i] in pre || choice[i] in post
    requires forall i :: 0 <= i < |pre| ==> gain(pre[i]) >= 0.0
    requires forall i :: 0 <= i < |post| ==> gain(post[i]) <= 0.0
    ensures Sum(choice, gain) <= Sum(pre, gain)
    decreases |pre|
  {
    if pre == [] {
      SumLe(choice, gain, _ => 0.0);
      SumZero(choice);
    } else if pre[0] in choice {
      var i :| 0 <= i < |choice| && choice[i] == pre[0];
      SumWithout(choice, i, gain);
      BestChoiceIsPrefix(pre[1..], post, Without(choice, i), gain);
    } else {
      BestChoiceIsPrefix(pre[1..], post, choice, gain);
    }
  }

  lemma {:induction false} SumZero<T>(s: seq<T>)
    ensures Sum(s, (_: T) => 0.0) == 0.0
  {
    if s != [] {
      SumZero(s[1..]);
    }
  }

  // ---- stable sorting, as Python's sorted() ----

  ghost predicate TotalPreorder<T(!new)>(le: (T, T) -> bool) {
    && (forall x, y :: le(x, y) || le(y, x))
    && (forall x, y, z :: le(x, y) && le(y, z) ==> le(x, z))
  }

  ghost predicate SortedBy<T>(s: seq<T>, le: (T, T) -> bool) {
    forall i, j :: 0 <= i < j < |s| ==> le(s[i], s[j])
  }

  function Insert<T>(x: T, s: seq<T>, le: (T, T) -> bool): (r: seq<T>)
    ensures |r| == |s| + 1
  {
    if s == [] || le(x, s[0]) then [x] + s else [s[0]] + Insert(x, s[1..], le)
  }

  /** Insertion sort: equal elements keep their order, as in Python's `sorted`. */
  function Sort<T>(s: seq<T>, le: (T, T) -> bool): (r: seq<T>)
    ensures |r| == |s|
  {
    if s == [] then [] else Insert(s[0], Sort(s[1..], le), le)
  }

  lemma {:induction false} InsertElement<T>(x: T, s: seq<T>, le: (T, T) -> bool, y: T)
    ensures y in Insert(x, s, le) <==> y == x || y in s
  {
    if s == [] || le(x, s[0]) {
    } else {
      InsertElement(x, s[1..], le, y);
    }
  }

  lemma {:induction false} SortElement<T>(s: seq<T>, le: (T, T) -> bool, y: T)
    ensures y in Sort(s, le) <==> y in s
  {
    if s != [] {
      SortElement(s[1..], le, y);
      InsertElement(s[0], Sort(s[1..], le), le, y);
    }
  }

  lemma SortElements<T>(s: seq<T>, le: (T, T) -> bool)
    ensures forall y :: y in Sort(s, le) <==> y in s
  {
    forall y
      ensures y in Sort(s, le) <==> y in s
    {
      SortElement(s, le, y);
    }
  }

  lemma {:induction false} InsertSorted<T(!new)>(x: T, s: seq<T>, le: (T, T) -> bool)
    requires TotalPreorder(le) && SortedBy(s, le)
    ensures SortedBy(Insert(x, s, le), le)
  {
    if s == [] || le(x, s[0]) {
    } else {
      InsertSorted(x, s[1..], le);
      forall y | y in Insert(x, s[1..], le)
        ensures le(s[0], y)
      {
        InsertElement(x, s[1..], le, y);
      }
    }
  }

  lemma {:induction false} SortSorted<T(!new)>(s: seq<T>, le: (T, T) -> bool)
    requires TotalPreorder(le)
    ensures SortedBy(Sort(s, le), le)
  {
    if s != [] {
      SortSorted(s[1..], le);
      InsertSorted(s[0], Sort(s[1..], le), le);
    }
  }

  lemma {:induction false} InsertDistinct<T>(x: T, s: seq<T>, le: (T, T) -> bool)
    requires Distinct(s) && x !in s
    ensures Distinct(Insert(x, s, le))
  {
    if s == [] || le(x, s[0]) {
    } else {
      InsertDistinct(x, s[1..], le);
      InsertElement(x, s[1..], le, s[0]);
      assert s[0] !in Insert(x, s[1..], le);
    }
  }

  lemma {:induction false} SortDistinct<T>(s: seq<T>, le: (T, T) -> bool)
    requires Distinct(s)
    ensures Distinct(Sort(s, le))
  {
    if s != [] {
      SortDistinct(s[1..], le);
      SortElement(s[1..], le, s[0]);
      InsertDistinct(s[0], Sort(s[1..], le), le);
    }
  }

  lemma SortInside<T>(s: seq<T>, le: (T, T) -> bool, i: nat)
    requires i < |s|
    ensures Sort(s, le)[i] in s
  {
    SortElement(s, le, Sort(s, le)[i]);
  }

  /** A prefix of a sorted duplicate-free list: different elements of that list. */
  lemma SortPrefix<T>(s: seq<T>, le: (T, T) -> bool, m: nat)
    requires Distinct(s) && m <= |s|
    ensures Distinct(Sort(s, le)[..m])
    ensures forall i :: 0 <= i < m ==> Sort(s, le)[..m][i] in s
  {
    SortDistinct(s, le);
    SortElements(s, le);
    var r := Sort(s, le);
    forall i | 0 <= i < m
      ensures r[..m][i] in s
    {
      assert r[..m][i] == r[i];
      SortInside(s, le, i);
    }
  }

  /** Nothing after a prefix of a sorted list comes before anything in it. */
  lemma SortCut<T(!new)>(s: seq<T>, le: (T, T) -> bool, m: nat, x: T, y: T)
    requires TotalPreorder(le) && m <= |s|
    requires x in Sort(s, le)[..m] && y in s && y !in Sort(s, le)[..m]
    ensures le(x, y)
  {
    var r := Sort(s, le);
    SortElements(s, le);
    SortSorted(s, le);
    var i :| 0 <= i < m && r[..m][i] == x;
    assert y in r[m..] by {
      assert r == r[..m] + r[m..];
    }
    var j :| 0 <= j < |r| - m && r[m..][j] == y;
    assert r[m + j] == y && r[i] == x;
  }

  function Ties<T>(le: (T, T) -> bool, k: T): T -> bool {
    (x: T) => le(x, k) && le(k, x)
  }

  lemma FilterFirst<T(!new)>(x: T, s: seq<T>, keep: T -> bool)
    ensures Filter([x] + s, keep) == (if keep(x) then [x] else []) + Filter(s, keep)
  {
    assert ([x] + s)[1..] == s;
  }

  lemma {:induction false} InsertBeforeTies<T(!new)>(x: T, s: seq<T>, le: (T, T) -> bool, keep: T -> bool)
    requires keep(x) ==> forall i :: 0 <= i < |s| && keep(s[i]) ==> le(x, s[i])
    ensures Filter(Insert(x, s, le), keep) == (if keep(x) then [x] else []) + Filter(s, keep)
  {
    if s == [] || le(x, s[0]) {
      FilterFirst(x, s, keep);
    } else {
      InsertBeforeTies(x, s[1..], le, keep);
      FilterFirst(s[0], Insert(x, s[1..], le), keep);
    }
  }

  lemma TiesAreEqual<T(!new)>(x: T, y: T, le: (T, T) -> bool, k: T)
    requires TotalPreorder(le) && Ties(le, k)(x) && Ties(le, k)(y)
    ensures le(x, y)
  {
  }

  /** Sorting is stable: elements that tie keep the order they came in. */
  lemma {:induction false} SortIsStable<T(!new)>(s: seq<T>, le: (T, T) -> bool, k: T)
    requires TotalPreorder(le)
    ensures Filter(Sort(s, le), Ties(le, k)) == Filter(s, Ties(le, k))
  {
    if s != [] {
      SortIsStable(s[1..], le, k);
      var x, rest := s[0], Sort(s[1..], le);
      forall i | 0 <= i < |rest| && Ties(le, k)(x) && Ties(le, k)(rest[i])
        ensures le(x, rest[i])
      {
        TiesAreEqual(x, rest[i], le, k);
      }
      InsertBeforeTies(x, rest, le, Ties(le, k));
    }
  }

  /** Some occurrence of `x` stands before one of `y`. */
  ghost predicate Precedes<T>(s: seq<T>, x: T, y: T) {
    exists i, j :: 0 <= i < j < |s| && s[i] == x && s[j] == y
  }

  lemma PrecedesInAppended<T>(a: seq<T>, b: seq<T>, x: T, y: T)
    ensures Precedes(a + b, x, y) <==> Precedes(a, x, y) || Precedes(b, x, y) || (x in a && y in b)
  {
    var s := a + b;
    if Precedes(s, x, y) {
      var i, j :| 0 <= i < j < |s| && s[i] == x && s[j] == y;
      if i < |a| && j < |a| {
        assert a[i] == x && a[j] == y;
      } else if i < |a| {
        assert a[i] == x && b[j - |a|] == y;
      } else {
        assert b[i - |a|] == x && b[j - |a|] == y;
      }
    }
    PrecedesStays(a, b, x, y);
  }

  lemma PrecedesStays<T>(a: seq<T>, b: seq<T>, x: T, y: T)
    ensures Precedes(a, x, y) || Precedes(b, x, y) || (x in a && y in b) ==> Precedes(a + b, x, y)
  {
    var s := a + b;
    if i, j :| 0 <= i < j < |a| && a[i] == x && a[j] == y {
      assert s[i] == x && s[j] == y;
    }
    if i, j :| 0 <= i < j < |b| && b[i] == x && b[j] == y {
      assert s[|a| + i] == x && s[|a| + j] == y;
    }
    if x in a && y in b {
      var i :| 0 <= i < |a| && a[i] == x;
      var j :| 0 <= j < |b| && b[j] == y;
      assert s[i] == x && s[|a| + j] == y;
    }
  }

  /** Filtering keeps the order. */
  lemma {:induction false} PrecedesInFiltered<T(!new)>(s: seq<T>, keep: T -> bool, x: T, y: T)
    requires keep(x) && keep(y)
    ensures Precedes(Filter(s, keep), x, y) <==> Precedes(s, x, y)
  {
    if s != [] {
      PrecedesInFiltered(s[1..], keep, x, y);
      var rest := Filter(s[1..], keep);
      assert s == [s[0]] + s[1..];
      PrecedesInAppended([s[0]], s[1..], x, y);
      if keep(s[0]) {
        PrecedesInAppended([s[0]], rest, x, y);
      } else {
        assert Filter(s, keep) == rest;
      }
    }
  }

  /** Elements that tie stand in a sorted list as they stood before. */
  lemma PrecedesInSorted<T(!new)>(s: seq<T>, le: (T, T) -> bool, x: T, y: T)
    requires TotalPreorder(le) && le(x, y) && le(y, x)
    ensures Precedes(Sort(s, le), x, y) <==> Precedes(s, x, y)
  {
    assert le(x, x);
    SortIsStable(s, le, x);
    PrecedesInFiltered(s, Ties(le, x), x, y);
    PrecedesInFiltered(Sort(s, le), Ties(le, x), x, y);
  }

  /** So of two that tie, a prefix of the sorted list takes the one that came first. */
  lemma TieTaken<T(!new)>(s: seq<T>, le: (T, T) -> bool, m: nat, x: T, y: T)
    requires TotalPreorder(le) && le(x, y) && le(y, x) && m <= |s|
    requires x in Sort(s, le)[..m] && y in s && y !in Sort(s, le)[..m]
    ensures Precedes(s, x, y)
  {
    SortElement(s, le, y);
    PrefixFirst(Sort(s, le), m, x, y);
    PrecedesInSorted(s, le, x, y);
  }

  lemma PrefixFirst<T>(s: seq<T>, m: nat, x: T, y: T)
    requires m <= |s| && x in s[..m] && y in s && y !in s[..m]
    ensures Precedes(s, x, y)
  {
    assert s == s[..m] + s[m..];
    PrecedesStays(s[..m], s[m..], x, y);
  }

  // ---- ascending integer lists ----

  ghost predicate Ascending(s: seq<int>) {
    forall i, j :: 0 <= i < j < |s| ==> s[i] < s[j]
  }

  const AtMost: (int, int) -> bool := (x, y) => x <= y

  /** `sorted(xs)` on a duplicate-free list of integers. */
  lemma SortAscending(s: seq<int>)
    requires Distinct(s)
    ensures Ascending(Sort(s, AtMost)) && Distinct(Sort(s, AtMost))
  {
    SortSorted(s, AtMost);
    SortDistinct(s, AtMost);
    var r := Sort(s, AtMost);
    forall i, j | 0 <= i < j < |r|
      ensures r[i] < r[j]
    {
      assert AtMost(r[i], r[j]);
    }
  }

  /** A sorted list stays as it is. */
  lemma {:induction false} SortOfSorted(s: seq<int>)
    requires SortedBy(s, AtMost)
    ensures Sort(s, AtMost) == s
  {
    if |s| > 1 {
      SortOfSorted(s[1..]);
      assert AtMost(s[0], s[1]);
    }
  }

  lemma {:induction false} AscendingPosition(a: seq<int>, b: seq<int>, n: nat)
    requires Ascending(a) && Ascending(b) && n < |a|
    requires forall i :: 0 <= i < |a| ==> a[i] in b
    ensures n <= LastIndex(b, a[n])
  {
    if n > 0 {
      AscendingPosition(a, b, n - 1);
      var j, k := LastIndex(b, a[n - 1]), LastIndex(b, a[n]);
      assert a[n - 1] in b && a[n] in b;
      assert b[j] < b[k];
    }
  }

  lemma AscendingDominates(a: seq<int>, b: seq<int>)
    requires Ascending(a) && Ascending(b)
    requires forall i :: 0 <= i < |a| ==> a[i] in b
    ensures |a| <= |b|
    ensures forall i :: 0 <= i < |a| ==> b[i] <= a[i]
  {
    DistinctSubsetLength(a, b);
    forall i | 0 <= i < |a|
      ensures b[i] <= a[i]
    {
      AscendingPosition(a, b, i);
    }
  }

  /** An ascending list is determined by its elements. */
  lemma AscendingUnique(a: seq<int>, b: seq<int>)
    requires Ascending(a) && Ascending(b)
    requires forall i :: 0 <= i < |a| ==> a[i] in b
    requires forall i :: 0 <= i < |b| ==> b[i] in a
    ensures a == b
  {
    AscendingDominates(a, b);
    AscendingDominates(b, a);
  }

  /** A duplicate-free list inside another list is no longer than it. */
  lemma {:induction false} DistinctSubsetLength<T>(a: seq<T>, b: seq<T>)
    requires Distinct(a)
    requires forall i :: 0 <= i < |a| ==> a[i] in b
    ensures |a| <= |b|
  {
    if a != [] {
      assert a[0] in b;
      var i :| 0 <= i < |b| && b[i] == a[0];
      forall k | 0 <= k < |a[1..]|
        ensures a[1..][k] in Without(b, i)
      {
        var j :| 0 <= j < |b| && b[j] == a[k + 1];
        assert a[k + 1] == Without(b, i)[if j < i then j else j - 1];
      }
      DistinctSubsetLength(a[1..], Without(b, i));
    }
  }

  // ---- counting and least prefixes ----

  /** Dropping elements of an ascending list moves `g` to the front, and leaves its place only if
      nothing before it was dropped. */
  lemma PlaceInAscending(before: seq<int>, after: seq<int>, g: int)
    requires Ascending(before) && Ascending(after) && g in after
    requires forall i :: 0 <= i < |after| ==> after[i] in before
    ensures 0 <= LastIndex(after, g) <= LastIndex(before, g)
    ensures LastIndex(after, g) == LastIndex(before, g) <==> forall x :: x in before && x < g ==> x in after
  {
    var p, q := LastIndex(before, g), LastIndex(after, g);
    assert after[q] in before;
    FrontContained(before, after, p, q);
    DistinctSubsetLength(after[..q], before[..p]);
    if forall x :: x in before && x < g ==> x in after {
      NoneMissing(before, after, p, q);
    } else {
      var x :| x in before && x < g && x !in after;
      SmallerInFront(before, x, p);
      OneMissing(before[..p], after[..q], x);
    }
  }

  lemma NoneMissing(before: seq<int>, after: seq<int>, p: nat, q: nat)
    requires Ascending(before) && Ascending(after) && p < |before| && q < |after| && before[p] == after[q]
    requires forall x :: x in before && x < before[p] ==> x in after
    ensures p <= q
  {
    forall i | 0 <= i < p
      ensures before[..p][i] in after[..q]
    {
      assert before[i] in before && before[i] < before[p];
      SmallerInFront(after, before[i], q);
    }
    DistinctSubsetLength(before[..p], after[..q]);
  }

  /** What stands in front of an element stands in front of it in a larger list too. */
  lemma FrontContained(larger: seq<int>, smaller: seq<int>, p: nat, q: nat)
    requires Ascending(larger) && Ascending(smaller) && p < |larger| && q < |smaller| && larger[p] == smaller[q]
    requires forall i :: 0 <= i < q ==> smaller[i] in larger
    ensures forall i :: 0 <= i < q ==> smaller[..q][i] in larger[..p]
  {
    forall i | 0 <= i < q
      ensures smaller[..q][i] in larger[..p]
    {
      SmallerInFront(larger, smaller[i], p);
    }
  }

  lemma OneMissing<T>(s: seq<T>, part: seq<T>, x: T)
    requires Distinct(part) && x in s && x !in part
    requires forall i :: 0 <= i < |part| ==> part[i] in s
    ensures |part| < |s|
  {
    var n :| 0 <= n < |s| && s[n] == x;
    forall i | 0 <= i < |part|
      ensures part[i] in Without(s, n)
    {
      var m :| 0 <= m < |s| && s[m] == part[i];
      assert part[i] in part;
      assert Without(s, n)[if m < n then m else m - 1] == part[i];
    }
    DistinctSubsetLength(part, Without(s, n));
  }

  lemma SmallerInFront(s: seq<int>, x: int, p: nat)
    requires Ascending(s) && p < |s| && x in s && x < s[p]
    ensures x in s[..p]
  {
    var i :| 0 <= i < |s| && s[i] == x;
    assert s[..p][i] == x;
  }

  function Inside<T(==)>(list: seq<T>): T -> bool {
    x => x in list
  }

  function Outside<T(==)>(list: seq<T>): T -> bool {
    x => x !in list
  }

  lemma {:induction false} FilterSplit<T(!new)>(s: seq<T>, list: seq<T>)
    ensures |Filter(s, Inside(list))| + |Filter(s, Outside(list))| == |s|
  {
    if s != [] {
      FilterSplit(s[1..], list);
    }
  }

  /** Dropping `gone` (duplicate-free, inside `s`) from a duplicate-free list leaves the rest. */
  lemma FilterOutLength<T(!new)>(s: seq<T>, gone: seq<T>)
    requires Distinct(s) && Distinct(gone)
    requires forall i :: 0 <= i < |gone| ==> gone[i] in s
    ensures |Filter(s, Outside(gone))| == |s| - |gone|
  {
    FilterDistinct(s, Inside(gone));
    DistinctSubsetLength(gone, Filter(s, Inside(gone)));
    var both := Filter(s, Inside(gone));
    assert forall i :: 0 <= i < |both| ==> both[i] in both;
    DistinctSubsetLength(both, gone);
    FilterSplit(s, gone);
  }

  function Below<T>(f: T -> real, level: real): T -> real {
    x => level - f(x)
  }

  /** `Sum(level - f) + Sum(f)` depends only on the number of elements. */
  lemma {:induction false} SumBelow<T>(a: seq<T>, b: seq<T>, f: T -> real, level: real)
    requires |a| == |b|
    ensures Sum(a, Below(f, level)) + Sum(a, f) == Sum(b, Below(f, level)) + Sum(b, f)
  {
    if a != [] {
      SumBelow(a[1..], b[1..], f, level);
    }
  }

  /** The first `m` elements of an ascending arrangement have the least total of any `m`
      different elements. */
  lemma LeastPrefix<T>(sorted: seq<T>, m: nat, choice: seq<T>, f: T -> real)
    requires m <= |sorted| && |choice| == m && Distinct(choice)
    requires forall i, j :: 0 <= i < j < |sorted| ==> f(sorted[i]) <= f(sorted[j])
    requires forall i :: 0 <= i < m ==> choice[i] in sorted
    ensures Sum(sorted[..m], f) <= Sum(choice, f)
  {
    if m > 0 {
      var level := f(sorted[m - 1]);
      var pre, post := sorted[..m], sorted[m..];
      forall i | 0 <= i < |choice|
        ensures choice[i] in pre || choice[i] in post
      {
        assert sorted == pre + post;
      }
      BestChoiceIsPrefix(pre, post, choice, Below(f, level));
      SumBelow(pre, choice, f, level);
    }
  }

  // ---- sums at a price ----

  function Scaled<T>(f: T -> real, p: real): T -> real {
    x => p * f(x)
  }

  function Minus<T>(f: T -> real, g: T -> real): T -> real {
    x => f(x) - g(x)
  }

  lemma Distribute(p: real, x: real, y: real)
    ensures p * (x + y) == p * x + p * y
  {
  }

  lemma {:induction false} SumScaled<T>(s: seq<T>, f: T -> real, p: real, total: real)
    requires total == Sum(s, f)
    ensures Sum(s, Scaled(f, p)) == p * total
  {
    if s != [] {
      SumScaled(s[1..], f, p, Sum(s[1..], f));
      Distribute(p, f(s[0]), Sum(s[1..], f));
    }
  }

  lemma {:induction false} SumMinus<T>(s: seq<T>, f: T -> real, g: T -> real)
    ensures Sum(s, Minus(f, g)) == Sum(s, f) - Sum(s, g)
  {
    if s != [] {
      SumMinus(s[1..], f, g);
    }
  }

  lemma ScaleMonotone(p: real, x: real, y: real, px: real, py: real)
    requires p >= 0.0 && x <= y && px == p * x && py == p * y
    ensures px <= py
  {
  }

  lemma ScaledSumLe<T>(a: seq<T>, b: seq<T>, f: T -> real, p: real, x: real, y: real, px: real, py: real)
    requires p >= 0.0 && x == Sum(a, f) && y == Sum(b, f) && x <= y
    requires px == Sum(a, Scaled(f, p)) && py == Sum(b, Scaled(f, p))
    ensures px <= py
  {
    SumScaled(a, f, p, x);
    SumScaled(b, f, p, y);
    ScaleMonotone(p, x, y, px, py);
  }

  /** A list worth more at a price, and costing more, also scores more. */
  lemma CompareAtPrice<T>(a: seq<T>, b: seq<T>, score: T -> real, cost: T -> real, p: real)
    requires p >= 0.0 && Sum(a, cost) <= Sum(b, cost)
    requires Sum(a, Minus(score, Scaled(cost, p))) <= Sum(b, Minus(score, Scaled(cost, p)))
    ensures Sum(a, score) <= Sum(b, score)
  {
    SumMinus(a, score, Scaled(cost, p));
    SumMinus(b, score, Scaled(cost, p));
    ScaledSumLe(a, b, cost, p, Sum(a, cost), Sum(b, cost), Sum(a, Scaled(cost, p)), Sum(b, Scaled(cost, p)));
  }

  // ---- products by repeated addition ----

  /** `n * x`, by repeated addition; TimesIsProduct says it is the product. */
  function Times(n: nat, x: real): real {
    if n == 0 then 0.0 else x + Times(n - 1, x)
  }

  lemma {:induction false} TimesIsProduct(n: nat, x: real)
    ensures Times(n, x) == n as real * x
  {
    if n > 0 {
      TimesIsProduct(n - 1, x);
      assert n as real * x == (n - 1) as real * x + x;
    }
  }

  lemma {:induction false} TimesAdd(m: nat, n: nat, x: real)
    ensures Times(m + n, x) == Times(m, x) + Times(n, x)
  {
    if m > 0 {
      TimesAdd(m - 1, n, x);
    }
  }

  lemma {:induction false} TimesSum(n: nat, x: real, y: real)
    ensures Times(n, x + y) == Times(n, x) + Times(n, y)
  {
    if n > 0 {
      TimesSum(n - 1, x, y);
    }
  }

  lemma {:induction false} TimesZero(n: nat)
    ensures Times(n, 0.0) == 0.0
  {
    if n > 0 {
      TimesZero(n - 1);
    }
  }

  function Affine<T>(f: T -> real, n: nat, c: real): T -> real {
    x => Times(n, f(x)) + c
  }

  lemma {:induction false} SumAffine<T>(s: seq<T>, f: T -> real, n: nat, c: real)
    ensures Sum(s, Affine(f, n, c)) == Times(n, Sum(s, f)) + Times(|s|, c)
  {
    if s == [] {
      TimesZero(n);
    } else {
      SumAffine(s[1..], f, n, c);
      TimesSum(n, f(s[0]), Sum(s[1..], f));
    }
  }

  // ---- permutations ----

  function Range(n: nat): (r: seq<nat>)
    ensures |r| == n && Distinct(r) && forall i :: 0 <= i < n ==> r[i] == i
  {
    seq(n, i => i)
  }

  lemma {:induction false} DistinctCounts<T>(s: seq<T>, x: T)
    requires Distinct(s)
    ensures multiset(s)[x] <= 1
  {
    if s != [] {
      assert s == [s[0]] + s[1..];
      DistinctCounts(s[1..], x);
    }
  }

  lemma WithoutCounts<T>(s: seq<T>, k: nat)
    requires k < |s|
    ensures multiset(Without(s, k)) == multiset(s) - multiset{s[k]}
  {
    assert s == s[..k] + [s[k]] + s[k + 1..];
  }

  lemma {:induction false} SumPermuted<T>(a: seq<T>, b: seq<T>, f: T -> real)
    requires multiset(a) == multiset(b)
    ensures Sum(a, f) == Sum(b, f)
    decreases |a|
  {
    if a == [] {
      assert |multiset(b)| == 0;
    } else {
      WithoutCounts(a, 0);
      assert Without(a, 0) == a[1..];
      assert a[0] in multiset(b);
      var k :| 0 <= k < |b| && b[k] == a[0];
      SumWithout(b, k, f);
      WithoutCounts(b, k);
      SumPermuted(a[1..], Without(b, k), f);
    }
  }

  lemma {:induction false} InsertPermutes<T>(x: T, s: seq<T>, le: (T, T) -> bool)
    ensures multiset(Insert(x, s, le)) == multiset{x} + multiset(s)
  {
    if s != [] && !le(x, s[0]) {
      InsertPermutes(x, s[1..], le);
      assert s == [s[0]] + s[1..];
    }
  }

  lemma {:induction false} SortPermutes<T>(s: seq<T>, le: (T, T) -> bool)
    ensures multiset(Sort(s, le)) == multiset(s)
  {
    if s != [] {
      SortPermutes(s[1..], le);
      InsertPermutes(s[0], Sort(s[1..], le), le);
      assert s == [s[0]] + s[1..];
    }
  }

  // ---- sorted remainders ----

  /** An ascending list without some elements, sorted: the same elements, ascending. */
  lemma FilteredSorted(survivors: seq<int>, pruned: seq<int>)
    requires Ascending(survivors)
    ensures var after := Sort(Filter(survivors, Outside(pruned)), AtMost);
            && Ascending(after) && (forall i :: 0 <= i < |after| ==> after[i] in survivors)
            && (forall x :: x in after <==> x in survivors && x !in pruned)
  {
    var kept := Filter(survivors, Outside(pruned));
    FilterDistinct(survivors, Outside(pruned));
    SortAscending(kept);
    SortElements(kept, AtMost);
    forall i | 0 <= i < |Sort(kept, AtMost)|
      ensures Sort(kept, AtMost)[i] in survivors
    {
      SortInside(kept, AtMost, i);
    }
  }

  lemma NothingInFront(survivors: seq<int>, pruned: seq<int>, after: seq<int>, g: int)
    requires Ascending(survivors) && Ascending(after) && g in survivors && g !in pruned
    requires forall i :: 0 <= i < |after| ==> after[i] in survivors
    requires forall x :: x in after <==> x in survivors && x !in pruned
    ensures LastIndex(after, g) == LastIndex(survivors, g) <==> forall x :: x in pruned && x in survivors ==> x > g
  {
    PlaceInAscending(survivors, after, g);
  }
}
