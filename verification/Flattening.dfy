/** flatten_grouped_indices_by_layer, and how it and grouping undo each other. */
module Flattening {
  import opened Seqs
  import opened Components

  /** The components of one layer of the dict, by ascending index. */
  function Tagged(layer: string, indices: seq<int>): (r: seq<Cid>)
    ensures |r| == |indices|
  {
    var sorted := Sort(indices, AtMost);
    seq(|sorted|, i requires 0 <= i < |sorted| => (layer, sorted[i]))
  }

  /** The layers in the given order, each with its indices sorted. */
  function Concatenated(layers: seq<string>, grouped: Grouped): seq<Cid> {
    if layers == [] then []
    else Concatenated(layers[..|layers| - 1], grouped)
         + Tagged(layers[|layers| - 1], IndicesOf(grouped, layers[|layers| - 1]))
  }

  function IndicesOf(grouped: Grouped, layer: string): seq<int> {
    if layer in grouped then grouped[layer] else []
  }

  /** The keys of a dict, each once. */
  ghost predicate ListsKeys(keys: seq<string>, grouped: Grouped) {
    Distinct(keys) && forall layer :: layer in keys <==> layer in grouped
  }

  /** flatten_grouped_indices_by_layer over a dict whose keys are listed in `keys`; `le` orders layer
      names. */
  function Flatten(keys: seq<string>, grouped: Grouped, le: (string, string) -> bool): seq<Cid> {
    Concatenated(Sort(keys, le), grouped)
  }

  method FlattenGroupedIndicesByLayer(keys: seq<string>, grouped: Grouped, le: (string, string) -> bool)
    returns (componentIds: seq<Cid>)
    requires ListsKeys(keys, grouped)
    ensures componentIds == Flatten(keys, grouped, le)
  {
    componentIds := [];
    var layers := Sort(keys, le);
    for n := 0 to |layers|
      invariant componentIds == Concatenated(layers[..n], grouped)
    {
      SortInside(keys, le, n);
      componentIds := AppendLayer(componentIds, layers[n], grouped[layers[n]]);
      ConcatenatedNext(layers, grouped, n);
    }
    assert layers[..|layers|] == layers;
  }

  lemma ConcatenatedNext(layers: seq<string>, grouped: Grouped, n: nat)
    requires n < |layers|
    ensures Concatenated(layers[..n + 1], grouped)
            == Concatenated(layers[..n], grouped) + Tagged(layers[n], IndicesOf(grouped, layers[n]))
  {
    assert layers[..n + 1][..n] == layers[..n];
  }

  /** The inner loop over one layer's sorted indices. */
  method AppendLayer(before: seq<Cid>, layer: string, indices: seq<int>) returns (componentIds: seq<Cid>)
    ensures componentIds == before + Tagged(layer, indices)
  {
    componentIds := before;
    var sorted := Sort(indices, AtMost);
    for m := 0 to |sorted|
      invariant componentIds == before + Tagged(layer, indices)[..m]
    {
      componentIds := componentIds + [(layer, sorted[m])];
    }
  }

  lemma {:induction false} IndicesAppend(a: seq<Cid>, b: seq<Cid>, layer: string)
    ensures IndicesIn(a + b, layer) == IndicesIn(a, layer) + IndicesIn(b, layer)
    decreases |b|
  {
    if b == [] {
      assert a + b == a;
    } else {
      var init, last := b[..|b| - 1], b[|b| - 1];
      assert b == init + [last] && a + b == (a + init) + [last];
      IndicesAppend(a, init, layer);
      IndicesSnoc(a + init, last, layer);
      IndicesSnoc(init, last, layer);
    }
  }

  lemma {:induction false} IndicesOfOneLayer(ids: seq<Cid>, layer: string, l: string)
    requires forall i :: 0 <= i < |ids| ==> ids[i].0 == layer
    ensures |IndicesIn(ids, l)| == if l == layer then |ids| else 0
    ensures l == layer ==> forall i :: 0 <= i < |ids| ==> IndicesIn(ids, l)[i] == ids[i].1
  {
    if ids != [] {
      IndicesOfOneLayer(ids[1..], layer, l);
    }
  }

  lemma IndicesOfTagged(layer: string, indices: seq<int>, l: string)
    ensures IndicesIn(Tagged(layer, indices), l) == if l == layer then Sort(indices, AtMost) else []
  {
    IndicesOfOneLayer(Tagged(layer, indices), layer, l);
  }

  /** What a flattened dict holds of a layer: its indices, sorted. */
  lemma {:induction false} IndicesOfConcatenated(layers: seq<string>, grouped: Grouped, layer: string)
    requires Distinct(layers)
    ensures IndicesIn(Concatenated(layers, grouped), layer) ==
            if layer in layers then Sort(IndicesOf(grouped, layer), AtMost) else []
  {
    if layers != [] {
      var init, last := layers[..|layers| - 1], layers[|layers| - 1];
      IndicesOfConcatenated(init, grouped, layer);
      IndicesAppend(Concatenated(init, grouped), Tagged(last, IndicesOf(grouped, last)), layer);
      IndicesOfTagged(last, IndicesOf(grouped, last), layer);
      assert layers == init + [last];
      assert layer in layers <==> layer in init || layer == last;
    }
  }

  lemma IndicesOfFlatten(keys: seq<string>, grouped: Grouped, le: (string, string) -> bool, layer: string)
    requires ListsKeys(keys, grouped)
    ensures IndicesIn(Flatten(keys, grouped, le), layer) == Sort(IndicesOf(grouped, layer), AtMost)
  {
    SortDistinct(keys, le);
    SortElement(keys, le, layer);
    IndicesOfConcatenated(Sort(keys, le), grouped, layer);
  }

  lemma SortIdempotent(s: seq<int>)
    ensures Sort(Sort(s, AtMost), AtMost) == Sort(s, AtMost)
  {
    SortSorted(s, AtMost);
    SortOfSorted(Sort(s, AtMost));
  }

  lemma GroupOfFlatten(keys: seq<string>, grouped: Grouped, le: (string, string) -> bool, layer: string)
    requires ListsKeys(keys, grouped)
    ensures var back := Group(Flatten(keys, grouped, le));
            && (layer in back <==> layer in grouped && grouped[layer] != [])
            && (layer in back ==> back[layer] == Sort(grouped[layer], AtMost))
  {
    IndicesOfFlatten(keys, grouped, le, layer);
    SortIdempotent(IndicesOf(grouped, layer));
  }

  /** A dict survives flattening and grouping exactly if it has no empty layer and every list is in
      order; duplicates do no harm. */
  lemma GroupFlatten(keys: seq<string>, grouped: Grouped, le: (string, string) -> bool)
    requires ListsKeys(keys, grouped)
    ensures Group(Flatten(keys, grouped, le)) == grouped <==>
              forall layer :: layer in grouped ==> grouped[layer] != [] && SortedBy(grouped[layer], AtMost)
  {
    var back := Group(Flatten(keys, grouped, le));
    if back == grouped {
      forall layer | layer in grouped
        ensures grouped[layer] != [] && SortedBy(grouped[layer], AtMost)
      {
        GroupOfFlatten(keys, grouped, le, layer);
        SortSorted(grouped[layer], AtMost);
      }
    }
    if forall layer :: layer in grouped ==> grouped[layer] != [] && SortedBy(grouped[layer], AtMost) {
      forall layer
        ensures layer in back <==> layer in grouped
        ensures layer in back ==> back[layer] == grouped[layer]
      {
        GroupOfFlatten(keys, grouped, le, layer);
        if layer in grouped {
          SortOfSorted(grouped[layer]);
        }
      }
    }
  }

  /** Grouping and flattening loses and invents no component. */
  lemma FlattenGroup(ids: seq<Cid>, keys: seq<string>, le: (string, string) -> bool, c: Cid)
    requires ListsKeys(keys, Group(ids))
    ensures c in Flatten(keys, Group(ids), le) <==> c in ids
    ensures IndicesIn(Flatten(keys, Group(ids), le), c.0) == SortedIndices(ids, c.0)
  {
    var flat, layer, g := Flatten(keys, Group(ids), le), c.0, c.1;
    IndicesOfFlatten(keys, Group(ids), le, layer);
    SortIdempotent(IndicesIn(ids, layer));
    IndicesMembers(flat, layer);
    SortedMembers(ids, layer);
    assert g in IndicesIn(flat, layer) <==> (layer, g) in flat;
    assert g in SortedIndices(ids, layer) <==> (layer, g) in ids;
    assert c == (layer, g);
  }

  // ---- the order of a flattened dict ----

  /** The order of layer names is total, and no two different names are equal in it. */
  ghost predicate TotalOrder(le: (string, string) -> bool) {
    TotalPreorder(le) && forall a, b :: le(a, b) && le(b, a) ==> a == b
  }

  /** By (layer, index). */
  function ByLayerAndIndex(le: (string, string) -> bool): (Cid, Cid) -> bool {
    (x: Cid, y: Cid) => if x.0 == y.0 then x.1 <= y.1 else le(x.0, y.0)
  }

  lemma {:induction false} ConcatenatedLayers(layers: seq<string>, grouped: Grouped, i: nat)
    requires i < |Concatenated(layers, grouped)|
    ensures Concatenated(layers, grouped)[i].0 in layers
  {
    var init := Concatenated(layers[..|layers| - 1], grouped);
    if i < |init| {
      ConcatenatedLayers(layers[..|layers| - 1], grouped, i);
    }
  }

  lemma TaggedSorted(layer: string, indices: seq<int>, le: (string, string) -> bool)
    ensures SortedBy(Tagged(layer, indices), ByLayerAndIndex(le))
  {
    SortSorted(indices, AtMost);
    var tagged := Tagged(layer, indices);
    forall i, j | 0 <= i < j < |tagged|
      ensures ByLayerAndIndex(le)(tagged[i], tagged[j])
    {
      assert AtMost(Sort(indices, AtMost)[i], Sort(indices, AtMost)[j]);
    }
  }

  lemma {:induction false} ConcatenatedSorted(layers: seq<string>, grouped: Grouped, le: (string, string) -> bool)
    requires SortedBy(layers, le) && Distinct(layers)
    ensures SortedBy(Concatenated(layers, grouped), ByLayerAndIndex(le))
  {
    if layers != [] {
      var last := layers[|layers| - 1];
      var init, tagged := Concatenated(layers[..|layers| - 1], grouped), Tagged(last, IndicesOf(grouped, last));
      ConcatenatedSorted(layers[..|layers| - 1], grouped, le);
      TaggedSorted(last, IndicesOf(grouped, last), le);
      forall i, j | 0 <= i < |init| && 0 <= j < |tagged|
        ensures ByLayerAndIndex(le)(init[i], tagged[j])
      {
        ConcatenatedLayers(layers[..|layers| - 1], grouped, i);
      }
      SortedAppend(init, tagged, ByLayerAndIndex(le));
    }
  }

  lemma SortedAppend<T>(a: seq<T>, b: seq<T>, le: (T, T) -> bool)
    requires SortedBy(a, le) && SortedBy(b, le)
    requires forall i, j :: 0 <= i < |a| && 0 <= j < |b| ==> le(a[i], b[j])
    ensures SortedBy(a + b, le)
  {
  }

  /** A flattened dict is sorted by (layer, index). */
  lemma FlattenIsSorted(keys: seq<string>, grouped: Grouped, le: (string, string) -> bool)
    requires ListsKeys(keys, grouped) && TotalOrder(le)
    ensures SortedBy(Flatten(keys, grouped, le), ByLayerAndIndex(le))
  {
    SortSorted(keys, le);
    SortDistinct(keys, le);
    ConcatenatedSorted(Sort(keys, le), grouped, le);
  }

  lemma {:induction false} SortedWithinLayer(ids: seq<Cid>, le: (string, string) -> bool, layer: string)
    requires SortedBy(ids, ByLayerAndIndex(le))
    ensures SortedBy(IndicesIn(ids, layer), AtMost)
  {
    if ids != [] {
      SortedWithinLayer(ids[1..], le, layer);
      IndicesMembers(ids[1..], layer);
      forall i | 0 <= i < |IndicesIn(ids[1..], layer)|
        ensures ids[0].0 == layer ==> AtMost(ids[0].1, IndicesIn(ids[1..], layer)[i])
      {
        var g := IndicesIn(ids[1..], layer)[i];
        assert (layer, g) in ids[1..];
        var n :| 0 <= n < |ids| - 1 && ids[1..][n] == (layer, g);
        assert ByLayerAndIndex(le)(ids[0], ids[n + 1]);
      }
    }
  }

  /** Two sorted lists that hold the same of every layer start with the same component. */
  lemma SameHead(a: seq<Cid>, b: seq<Cid>, le: (string, string) -> bool)
    requires TotalOrder(le) && SortedBy(a, ByLayerAndIndex(le)) && SortedBy(b, ByLayerAndIndex(le))
    requires forall layer :: IndicesIn(a, layer) == IndicesIn(b, layer)
    requires a != []
    ensures b != [] && a[0] == b[0]
  {
    assert IndicesIn(a, a[0].0) == IndicesIn(b, a[0].0);
    assert b != [];
    HeadIsFirst(a, b, le);
    HeadIsFirst(b, a, le);
    assert IndicesIn(a, a[0].0)[0] == a[0].1 && IndicesIn(b, b[0].0)[0] == b[0].1;
  }

  lemma HeadIsFirst(a: seq<Cid>, b: seq<Cid>, le: (string, string) -> bool)
    requires a != [] && b != [] && SortedBy(a, ByLayerAndIndex(le))
    requires IndicesIn(a, b[0].0) == IndicesIn(b, b[0].0)
    ensures a[0].0 == b[0].0 || le(a[0].0, b[0].0)
  {
    var layer := b[0].0;
    IndicesMembers(a, layer);
    var g := IndicesIn(b, layer)[0];
    assert g in IndicesIn(a, layer);
    var n :| 0 <= n < |a| && a[n] == (layer, g);
    assert n > 0 ==> ByLayerAndIndex(le)(a[0], a[n]);
  }

  lemma {:induction false} SortedUnique(a: seq<Cid>, b: seq<Cid>, le: (string, string) -> bool)
    requires TotalOrder(le) && SortedBy(a, ByLayerAndIndex(le)) && SortedBy(b, ByLayerAndIndex(le))
    requires forall layer :: IndicesIn(a, layer) == IndicesIn(b, layer)
    ensures a == b
    decreases |a|
  {
    if a == [] {
      assert b != [] ==> IndicesIn(a, b[0].0) == IndicesIn(b, b[0].0);
    } else {
      SameHead(a, b, le);
      forall layer
        ensures IndicesIn(a[1..], layer) == IndicesIn(b[1..], layer)
      {
        TailIndices(a, layer);
        TailIndices(b, layer);
        assert IndicesIn(a, layer) == IndicesIn(b, layer);
      }
      SortedUnique(a[1..], b[1..], le);
    }
  }

  lemma TailIndices(ids: seq<Cid>, layer: string)
    requires ids != []
    ensures IndicesIn(ids[1..], layer)
            == if ids[0].0 == layer then IndicesIn(ids, layer)[1..] else IndicesIn(ids, layer)
  {
  }

  /** The other half of the round trip: flattening undoes grouping for exactly the lists that are sorted
      by (layer, index). */
  lemma FlattenGroupIffSorted(ids: seq<Cid>, keys: seq<string>, le: (string, string) -> bool)
    requires ListsKeys(keys, Group(ids)) && TotalOrder(le)
    ensures Flatten(keys, Group(ids), le) == ids <==> SortedBy(ids, ByLayerAndIndex(le))
  {
    var flat := Flatten(keys, Group(ids), le);
    FlattenIsSorted(keys, Group(ids), le);
    if SortedBy(ids, ByLayerAndIndex(le)) {
      forall layer
        ensures IndicesIn(flat, layer) == IndicesIn(ids, layer)
      {
        FlattenGroup(ids, keys, le, (layer, 0));
        SortedWithinLayer(ids, le, layer);
        SortOfSorted(IndicesIn(ids, layer));
      }
      SortedUnique(flat, ids, le);
    }
  }
}
