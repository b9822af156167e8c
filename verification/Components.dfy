/** ComponentID = (layer_key, global_idx), and the grouped wire format keyed by layer. */
module Components {
  import opened Seqs

  type Cid = (string, int)
  type Grouped = map<string, seq<int>>

  /** The indices of one layer, in list order. */
  function IndicesIn(ids: seq<Cid>, layer: string): (r: seq<int>)
    ensures |r| <= |ids|
  {
    if ids == [] then []
    else (if ids[0].0 == layer then [ids[0].1] else []) + IndicesIn(ids[1..], layer)
  }

  lemma {:induction false} IndicesMembers(ids: seq<Cid>, layer: string)
    ensures forall g :: g in IndicesIn(ids, layer) <==> (layer, g) in ids
  {
    if ids != [] {
      IndicesMembers(ids[1..], layer);
      assert ids == [ids[0]] + ids[1..];
    }
  }

  /** What group_component_ids_by_layer stores for one layer (empty when it is not a key). */
  function SortedIndices(ids: seq<Cid>, layer: string): (r: seq<int>)
    ensures |r| == |IndicesIn(ids, layer)|
  {
    Sort(IndicesIn(ids, layer), AtMost)
  }

  lemma SortedMembers(ids: seq<Cid>, layer: string)
    ensures forall g :: g in SortedIndices(ids, layer) <==> (layer, g) in ids
  {
    IndicesMembers(ids, layer);
    SortElements(IndicesIn(ids, layer), AtMost);
  }

  lemma {:induction false} IndicesDistinct(ids: seq<Cid>, layer: string)
    requires Distinct(ids)
    ensures Distinct(IndicesIn(ids, layer))
  {
    if ids != [] {
      IndicesDistinct(ids[1..], layer);
      IndicesMembers(ids[1..], layer);
    }
  }

  /** Within a layer the grouped list is ascending. */
  lemma SortedIndicesAscending(ids: seq<Cid>, layer: string)
    requires Distinct(ids)
    ensures Ascending(SortedIndices(ids, layer)) && Distinct(SortedIndices(ids, layer))
  {
    IndicesDistinct(ids, layer);
    SortAscending(IndicesIn(ids, layer));
  }

  /** The grouped list depends only on which components are listed, not on their order. */
  lemma SortedIndicesOfSameSet(a: seq<Cid>, b: seq<Cid>, layer: string)
    requires Distinct(a) && Distinct(b)
    requires forall i :: 0 <= i < |a| ==> a[i] in b
    requires forall i :: 0 <= i < |b| ==> b[i] in a
    ensures SortedIndices(a, layer) == SortedIndices(b, layer)
  {
    SortedIndicesAscending(a, layer);
    SortedIndicesAscending(b, layer);
    var x, y := SortedIndices(a, layer), SortedIndices(b, layer);
    ContainedIndices(a, b, layer);
    ContainedIndices(b, a, layer);
    AscendingUnique(x, y);
  }

  lemma ContainedIndices(a: seq<Cid>, b: seq<Cid>, layer: string)
    requires forall i :: 0 <= i < |a| ==> a[i] in b
    ensures forall i :: 0 <= i < |SortedIndices(a, layer)| ==> SortedIndices(a, layer)[i] in SortedIndices(b, layer)
  {
    SortedMembers(a, layer);
    SortedMembers(b, layer);
    forall i | 0 <= i < |SortedIndices(a, layer)|
      ensures SortedIndices(a, layer)[i] in SortedIndices(b, layer)
    {
      var g := SortedIndices(a, layer)[i];
      assert (layer, g) in a;
      var j :| 0 <= j < |a| && a[j] == (layer, g);
      assert a[j] in b;
    }
  }

  function LayersOf(ids: seq<Cid>): (r: set<string>)
    ensures forall layer :: layer in r <==> IndicesIn(ids, layer) != []
  {
    if ids == [] then {} else {ids[0].0} + LayersOf(ids[1..])
  }

  function Appended(ids: seq<Cid>): Grouped {
    map layer | layer in LayersOf(ids) :: IndicesIn(ids, layer)
  }

  function Group(ids: seq<Cid>): (r: Grouped)
    ensures forall layer :: layer in r <==> IndicesIn(ids, layer) != []
    ensures forall layer :: layer in r ==> r[layer] == SortedIndices(ids, layer)
  {
    map layer | layer in LayersOf(ids) :: SortedIndices(ids, layer)
  }

  lemma {:induction false} IndicesSnoc(ids: seq<Cid>, c: Cid, layer: string)
    ensures IndicesIn(ids + [c], layer) == IndicesIn(ids, layer) + if c.0 == layer then [c.1] else []
  {
    if ids == [] {
      assert ids + [c] == [c];
    } else {
      assert (ids + [c])[1..] == ids[1..] + [c];
      IndicesSnoc(ids[1..], c, layer);
    }
  }

  lemma AppendedSnoc(ids: seq<Cid>, c: Cid)
    ensures Appended(ids + [c])
            == Appended(ids)[c.0 := (if c.0 in Appended(ids) then Appended(ids)[c.0] else []) + [c.1]]
  {
    var l := Appended(ids + [c]);
    var r := Appended(ids)[c.0 := (if c.0 in Appended(ids) then Appended(ids)[c.0] else []) + [c.1]];
    forall layer
      ensures layer in l <==> layer in r
      ensures layer in l ==> l[layer] == r[layer]
    {
      IndicesSnoc(ids, c, layer);
    }
  }

  lemma AppendedNext(ids: seq<Cid>, n: nat)
    requires n < |ids|
    ensures var before, layer := Appended(ids[..n]), ids[n].0;
            Appended(ids[..n + 1])
            == before[layer := (if layer in before then before[layer] else []) + [ids[n].1]]
  {
    assert ids[..n + 1] == ids[..n] + [ids[n]];
    AppendedSnoc(ids[..n], ids[n]);
  }

  method AppendIndices(ids: seq<Cid>) returns (grouped: Grouped)
    ensures grouped == Appended(ids)
  {
    grouped := map[];
    for n := 0 to |ids|
      invariant grouped == Appended(ids[..n])
    {
      var (layer, globalIdx) := ids[n];
      AppendedNext(ids, n);
      if layer !in grouped {
        grouped := grouped[layer := []];
      }
      grouped := grouped[layer := grouped[layer] + [globalIdx]];
    }
    assert ids[..|ids|] == ids;
  }

  /** group_component_ids_by_layer: append into a dict of lists, then sort every list. */
  method GroupComponentIdsByLayer(ids: seq<Cid>) returns (grouped: Grouped)
    ensures grouped == Group(ids)
  {
    var unsorted := AppendIndices(ids);
    grouped := SortEach(unsorted);
    assert forall layer :: layer in grouped ==> grouped[layer] == Group(ids)[layer];
  }

  method SortEach(grouped: Grouped) returns (r: Grouped)
    ensures r.Keys == grouped.Keys
    ensures forall layer :: layer in r ==> r[layer] == Sort(grouped[layer], AtMost)
  {
    r := grouped;
    var unsorted := grouped.Keys;
    while unsorted != {}
      invariant unsorted <= grouped.Keys == r.Keys
      invariant forall layer :: layer in r ==>
                                  r[layer] == if layer in unsorted then grouped[layer] else Sort(grouped[layer], AtMost)
    {
      var layer :| layer in unsorted;
      r := r[layer := Sort(r[layer], AtMost)];
      unsorted := unsorted - {layer};
    }
  }

  /** The payload formats accepted at the compatibility boundary. */
  datatype Payload = Missing | ByLayer(grouped: Grouped) | Flat(indices: seq<int>)

  /** normalize_indices_to_grouped: a flat list applies to every layer. */
  function Normalize(payload: Payload, layerKeys: seq<string>): (r: Grouped)
    ensures payload.Flat? ==> forall l :: l in r <==> l in layerKeys
    ensures payload.Flat? ==> forall l :: l in r ==> r[l] == payload.indices
  {
    match payload
    case Missing => map[]
    case ByLayer(grouped) => grouped
    case Flat(indices) => map l | l in layerKeys :: indices
  }

  // ---- layers in dict order ----

  /** The keys of the grouped dict, in order of first appearance. */
  function LayerOrder(ids: seq<Cid>): (r: seq<string>)
    ensures Distinct(r)
    ensures forall i :: 0 <= i < |ids| ==> ids[i].0 in r
    decreases |ids|
  {
    if ids == [] then []
    else
      var before := LayerOrder(ids[..|ids| - 1]);
      var layer := ids[|ids| - 1].0;
      if layer in before then before else before + [layer]
  }

  /** Layers are listed in the order in which they first appear. */
  lemma {:induction false} OrderOfFirstAppearance(ids: seq<Cid>, i: nat, j: nat, m: nat)
    requires i < j < |LayerOrder(ids)| && m < |ids| && ids[m].0 == LayerOrder(ids)[j]
    ensures exists n :: 0 <= n < m && ids[n].0 == LayerOrder(ids)[i]
    decreases |ids|
  {
    var before, layer := ids[..|ids| - 1], ids[|ids| - 1].0;
    if j < |LayerOrder(before)| && m < |before| {
      OrderOfFirstAppearance(before, i, j, m);
      var n :| 0 <= n < m && before[n].0 == LayerOrder(before)[i];
      assert ids[n].0 == LayerOrder(ids)[i];
    } else {
      LayerAppears(before, i);
      var n :| 0 <= n < |before| && before[n].0 == LayerOrder(before)[i];
      assert m == |before| && ids[n].0 == LayerOrder(ids)[i];
    }
  }

  lemma {:induction false} LayerAppears(ids: seq<Cid>, i: nat)
    requires i < |LayerOrder(ids)|
    ensures exists n :: 0 <= n < |ids| && ids[n].0 == LayerOrder(ids)[i]
    decreases |ids|
  {
    var before := ids[..|ids| - 1];
    if i < |LayerOrder(before)| {
      LayerAppears(before, i);
      var n :| 0 <= n < |before| && before[n].0 == LayerOrder(before)[i];
      assert ids[n].0 == LayerOrder(ids)[i];
    } else {
      assert ids[|ids| - 1].0 == LayerOrder(ids)[i];
    }
  }

  /** The components of one layer, by ascending index. */
  function LayerIds(ids: seq<Cid>, layer: string): (r: seq<Cid>)
    ensures |r| == |IndicesIn(ids, layer)|
    ensures forall i :: 0 <= i < |r| ==> r[i] == (layer, SortedIndices(ids, layer)[i])
  {
    var indices := SortedIndices(ids, layer);
    seq(|indices|, i requires 0 <= i < |indices| => (layer, indices[i]))
  }

  lemma LayerIdsMembers(ids: seq<Cid>, layer: string, c: Cid)
    ensures c in LayerIds(ids, layer) <==> c in ids && c.0 == layer
  {
    SortedMembers(ids, layer);
    var r := LayerIds(ids, layer);
    assert c == (c.0, c.1);
    if c in ids && c.0 == layer {
      var g := c.1;
      assert (layer, g) in ids;
      assert g in SortedIndices(ids, layer);
      var i :| 0 <= i < |r| && SortedIndices(ids, layer)[i] == g;
      assert r[i] == c;
    }
    if c in r {
      var i :| 0 <= i < |r| && r[i] == c;
      var g := SortedIndices(ids, layer)[i];
      assert (layer, g) in ids;
    }
  }

  lemma LayerIdsDistinct(ids: seq<Cid>, layer: string)
    requires Distinct(ids)
    ensures Distinct(LayerIds(ids, layer))
  {
    SortedIndicesAscending(ids, layer);
  }

  /** Number of components over a list of layers. */
  function CountIn(ids: seq<Cid>, layers: seq<string>): nat {
    if layers == [] then 0 else |IndicesIn(ids, layers[0])| + CountIn(ids, layers[1..])
  }

  lemma {:induction false} CountSnoc(ids: seq<Cid>, c: Cid, layers: seq<string>)
    requires Distinct(layers)
    ensures CountIn(ids + [c], layers) == CountIn(ids, layers) + if c.0 in layers then 1 else 0
  {
    if layers != [] {
      IndicesSnoc(ids, c, layers[0]);
      CountSnoc(ids, c, layers[1..]);
    }
  }

  lemma {:induction false} CountAppend(ids: seq<Cid>, layers: seq<string>, layer: string)
    ensures CountIn(ids, layers + [layer]) == CountIn(ids, layers) + |IndicesIn(ids, layer)|
  {
    if layers == [] {
      assert layers + [layer] == [layer];
    } else {
      assert (layers + [layer])[1..] == layers[1..] + [layer];
      CountAppend(ids, layers[1..], layer);
    }
  }

  /** The layers partition the components: each listed component is in the list of its own layer and
      of no other, those lists hold nothing else, and their sizes add up. */
  lemma LayersPartition(ids: seq<Cid>)
    ensures forall c :: c in ids ==> c.0 in LayerOrder(ids)
    ensures forall c, l :: c in LayerIds(ids, l) <==> c in ids && c.0 == l
    ensures CountIn(ids, LayerOrder(ids)) == |ids|
  {
    LayerSizes(ids);
    forall c, l
      ensures c in LayerIds(ids, l) <==> c in ids && c.0 == l
    {
      LayerIdsMembers(ids, l, c);
    }
  }

  lemma {:induction false} LayerSizes(ids: seq<Cid>)
    ensures CountIn(ids, LayerOrder(ids)) == |ids|
    decreases |ids|
  {
    if ids != [] {
      var before, c := ids[..|ids| - 1], ids[|ids| - 1];
      assert ids == before + [c];
      LayerSizes(before);
      CountSnoc(before, c, LayerOrder(ids));
      if c.0 !in LayerOrder(before) {
        CountAppend(before, LayerOrder(before), c.0);
        NoIndices(before, c.0);
      }
    }
  }

  lemma {:induction false} NoIndices(ids: seq<Cid>, layer: string)
    requires forall i :: 0 <= i < |ids| ==> ids[i].0 != layer
    ensures IndicesIn(ids, layer) == []
  {
    if ids != [] {
      NoIndices(ids[1..], layer);
    }
  }
}
