/** Message.build_msg_value and Message._parse_msg: a Python value tree as protobuf, and back. */
module MessageTree {
  import opened Seqs
  import Bytes

  /** What messages carry. A dict keeps its insertion order; Other is any object of another type. */
  datatype Value =
    | Int(i: int)
    | Str(s: string)
    | Raw(b: seq<Bytes.Byte>)
    | Float(f: real)
    | List(items: seq<Value>)
    | Tuple(items: seq<Value>)
    | Dict(entries: seq<Entry>)
    | Other

  datatype Key = IntKey(i: int) | StrKey(s: string) | OtherKey

  datatype Entry = Entry(key: Key, value: Value)

  /** gRPC_comm_manager.proto: MsgValue over mSingle, mList and the two dicts. */
  datatype MsgValue =
    | FloatValue(f: real)
    | IntValue(i: int)
    | StrValue(s: string)
    | ListMsg(list: seq<MsgValue>)
    | DictStringKey(strDict: map<string, MsgValue>)
    | DictIntKey(intDict: map<int, MsgValue>)

  /** A value up to what == ignores and parsing forgets: dict order, and tuples being no lists. */
  datatype Plain =
    | PInt(i: int)
    | PStr(s: string)
    | PFloat(f: real)
    | PList(items: seq<Plain>)
    | PDict(entries: map<Key, Plain>)
    | POther

  predicate IsInt32(i: int) {
    -0x8000_0000 <= i < 0x8000_0000
  }

  /** The single-precision value nearest to a float, however rounding goes. */
  type Rounding = real -> real

  // ---- Building ----

  /** build_msg_value. None is the exception: an unsupported type, an integer or key that does not
      fit, bytes that are not UTF-8, an empty dict, keys that do not match the first. */
  function Build(v: Value, single: Rounding): Option<MsgValue>
    decreases v
  {
    match v
    case Int(i) => if IsInt32(i) then Some(IntValue(i)) else None
    case Str(s) => Some(StrValue(s))
    case Raw(b) => (match Bytes.Decode(b) case None => None case Some(s) => Some(StrValue(s)))
    case Float(f) => Some(FloatValue(single(f)))
    case List(items) => (match BuildAll(items, single) case None => None case Some(l) => Some(ListMsg(l)))
    case Tuple(items) => (match BuildAll(items, single) case None => None case Some(l) => Some(ListMsg(l)))
    case Dict(entries) =>
      if entries == [] then None
      else if entries[0].key.StrKey? then
        (match BuildStrDict(entries, single) case None => None case Some(d) => Some(DictStringKey(d)))
      else
        (match BuildIntDict(entries, single) case None => None case Some(d) => Some(DictIntKey(d)))
    case Other => None
  }

  function BuildAll(items: seq<Value>, single: Rounding): Option<seq<MsgValue>>
    decreases items
  {
    if items == [] then Some([])
    else
      var front, last := BuildAll(items[..|items| - 1], single), Build(items[|items| - 1], single);
      if front.None? || last.None? then None else Some(front.value + [last.value])
  }

  function BuildStrDict(entries: seq<Entry>, single: Rounding): Option<map<string, MsgValue>>
    decreases entries
  {
    if entries == [] then Some(map[])
    else
      var e := entries[|entries| - 1];
      assert e.value < e;
      var front, last := BuildStrDict(entries[..|entries| - 1], single), Build(e.value, single);
      if front.None? || last.None? || !e.key.StrKey? then None
      else Some(front.value[e.key.s := last.value])
  }

  function BuildIntDict(entries: seq<Entry>, single: Rounding): Option<map<int, MsgValue>>
    decreases entries
  {
    if entries == [] then Some(map[])
    else
      var e := entries[|entries| - 1];
      assert e.value < e;
      var front, last := BuildIntDict(entries[..|entries| - 1], single), Build(e.value, single);
      if front.None? || last.None? || !e.key.IntKey? || !IsInt32(e.key.i) then None
      else Some(front.value[e.key.i := last.value])
  }

  /** An exception anywhere is an exception of the whole. */
  lemma {:induction false} PrefixFails(items: seq<Value>, single: Rounding, n: nat)
    requires n <= |items| && BuildAll(items[..n], single).None?
    ensures BuildAll(items, single).None?
    decreases |items|
  {
    if n < |items| {
      assert items[..|items| - 1][..n] == items[..n];
      PrefixFails(items[..|items| - 1], single, n);
    } else {
      assert items[..n] == items;
    }
  }

  lemma {:induction false} StrPrefixFails(entries: seq<Entry>, single: Rounding, n: nat)
    requires n <= |entries| && BuildStrDict(entries[..n], single).None?
    ensures BuildStrDict(entries, single).None?
    decreases |entries|
  {
    if n < |entries| {
      assert entries[..|entries| - 1][..n] == entries[..n];
      StrPrefixFails(entries[..|entries| - 1], single, n);
    } else {
      assert entries[..n] == entries;
    }
  }

  lemma {:induction false} IntPrefixFails(entries: seq<Entry>, single: Rounding, n: nat)
    requires n <= |entries| && BuildIntDict(entries[..n], single).None?
    ensures BuildIntDict(entries, single).None?
    decreases |entries|
  {
    if n < |entries| {
      assert entries[..|entries| - 1][..n] == entries[..n];
      IntPrefixFails(entries[..|entries| - 1], single, n);
    } else {
      assert entries[..n] == entries;
    }
  }

  /** create_by_type and build_msg_value: fill fresh messages, value by value. */
  method BuildMsgValue(v: Value, single: Rounding) returns (r: Option<MsgValue>)
    ensures r == Build(v, single)
    decreases v
  {
    match v {
      case Int(i) => r := if IsInt32(i) then Some(IntValue(i)) else None;
      case Str(s) => r := Some(StrValue(s));
      case Raw(b) =>
        var s := Bytes.Decode(b);
        r := if s.None? then None else Some(StrValue(s.value));
      case Float(f) => r := Some(FloatValue(single(f)));
      case List(items) =>
        var l := FillList(items, single);
        r := if l.None? then None else Some(ListMsg(l.value));
      case Tuple(items) =>
        var l := FillList(items, single);
        r := if l.None? then None else Some(ListMsg(l.value));
      case Dict(entries) =>
        if entries == [] {
          return None;
        }
        if entries[0].key.StrKey? {
          var d := FillStrDict(entries, single);
          r := if d.None? then None else Some(DictStringKey(d.value));
        } else {
          var d := FillIntDict(entries, single);
          r := if d.None? then None else Some(DictIntKey(d.value));
        }
      case Other => r := None;
    }
  }

  /** list_value.append for each element. */
  method FillList(items: seq<Value>, single: Rounding) returns (r: Option<seq<MsgValue>>)
    ensures r == BuildAll(items, single)
    decreases items
  {
    var list: seq<MsgValue> := [];
    for n := 0 to |items|
      invariant BuildAll(items[..n], single) == Some(list)
    {
      var each := BuildMsgValue(items[n], single);
      assert items[..n + 1][..n] == items[..n];
      if each.None? {
        PrefixFails(items, single, n + 1);
        return None;
      }
      list := list + [each.value];
    }
    assert items[..|items|] == items;
    return Some(list);
  }

  /** dict_value[key].MergeFrom for each key; a key of the wrong type is refused. */
  method FillStrDict(entries: seq<Entry>, single: Rounding) returns (r: Option<map<string, MsgValue>>)
    ensures r == BuildStrDict(entries, single)
    decreases entries
  {
    var dict: map<string, MsgValue> := map[];
    for n := 0 to |entries|
      invariant BuildStrDict(entries[..n], single) == Some(dict)
    {
      var e := entries[n];
      assert e.value < e;
      var each := BuildMsgValue(e.value, single);
      assert entries[..n + 1][..n] == entries[..n];
      if each.None? || !e.key.StrKey? {
        StrPrefixFails(entries, single, n + 1);
        return None;
      }
      dict := dict[e.key.s := each.value];
    }
    assert entries[..|entries|] == entries;
    return Some(dict);
  }

  method FillIntDict(entries: seq<Entry>, single: Rounding) returns (r: Option<map<int, MsgValue>>)
    ensures r == BuildIntDict(entries, single)
    decreases entries
  {
    var dict: map<int, MsgValue> := map[];
    for n := 0 to |entries|
      invariant BuildIntDict(entries[..n], single) == Some(dict)
    {
      var e := entries[n];
      assert e.value < e;
      var each := BuildMsgValue(e.value, single);
      assert entries[..n + 1][..n] == entries[..n];
      if each.None? || !e.key.IntKey? || !IsInt32(e.key.i) {
        IntPrefixFails(entries, single, n + 1);
        return None;
      }
      dict := dict[e.key.i := each.value];
    }
    assert entries[..|entries|] == entries;
    return Some(dict);
  }

  // ---- Parsing ----

  /** _parse_msg. */
  function Parse(m: MsgValue): Plain
    decreases m
  {
    match m
    case FloatValue(f) => PFloat(f)
    case IntValue(i) => PInt(i)
    case StrValue(s) => PStr(s)
    case ListMsg(list) => PList(seq(|list|, i requires 0 <= i < |list| => Parse(list[i])))
    case DictStringKey(d) => PDict(map k | k in StrKeys(d) :: k := Parse(d[k.s]))
    case DictIntKey(d) => PDict(map k | k in IntKeys(d) :: k := Parse(d[k.i]))
  }

  function StrKeys<T>(d: map<string, T>): (r: set<Key>)
    ensures forall k :: k in r <==> k.StrKey? && k.s in d
  {
    set s | s in d :: StrKey(s)
  }

  function IntKeys<T>(d: map<int, T>): (r: set<Key>)
    ensures forall k :: k in r <==> k.IntKey? && k.i in d
  {
    set i | i in d :: IntKey(i)
  }

  // ---- What a value means to its receiver ----

  function Meaning(v: Value, single: Rounding): Plain
    decreases v
  {
    match v
    case Int(i) => PInt(i)
    case Str(s) => PStr(s)
    case Raw(b) => (match Bytes.Decode(b) case None => POther case Some(s) => PStr(s))
    case Float(f) => PFloat(single(f))
    case List(items) => PList(seq(|items|, i requires 0 <= i < |items| => Meaning(items[i], single)))
    case Tuple(items) => PList(seq(|items|, i requires 0 <= i < |items| => Meaning(items[i], single)))
    case Dict(entries) => PDict(MeaningOfEntries(entries, single))
    case Other => POther
  }

  function MeaningOfEntries(entries: seq<Entry>, single: Rounding): map<Key, Plain>
    decreases entries
  {
    if entries == [] then map[]
    else
      var e := entries[|entries| - 1];
      assert e.value < e;
      MeaningOfEntries(entries[..|entries| - 1], single)[e.key := Meaning(e.value, single)]
  }

  /** The values that can be sent: no empty dict, each dict's keys all strings or all 32-bit
      integers, every leaf of a supported type and in range. */
  predicate Supported(v: Value)
    decreases v
  {
    match v
    case Int(i) => IsInt32(i)
    case Str(_) => true
    case Raw(b) => Bytes.Decode(b).Some?
    case Float(_) => true
    case List(items) => forall i :: 0 <= i < |items| ==> Supported(items[i])
    case Tuple(items) => forall i :: 0 <= i < |items| ==> Supported(items[i])
    case Dict(entries) => entries != [] && (AllStrKeys(entries) || AllIntKeys(entries)) && AllSupported(entries)
    case Other => false
  }

  predicate AllSupported(entries: seq<Entry>)
    decreases entries
  {
    forall i :: 0 <= i < |entries| ==>
      assert entries[i].value < entries[i];
      Supported(entries[i].value)
  }

  predicate AllStrKeys(entries: seq<Entry>) {
    forall i :: 0 <= i < |entries| ==> entries[i].key.StrKey?
  }

  predicate AllIntKeys(entries: seq<Entry>) {
    forall i :: 0 <= i < |entries| ==> entries[i].key.IntKey? && IsInt32(entries[i].key.i)
  }

  // ---- The round trip ----

  /** Building succeeds exactly on the supported values, and parsing what was built gives back the
      value, tuples having become lists. */
  lemma {:induction false} ParseBuild(v: Value, single: Rounding)
    ensures Build(v, single).Some? <==> Supported(v)
    ensures Build(v, single).Some? ==> Parse(Build(v, single).value) == Meaning(v, single)
    decreases v
  {
    match v
    case List(items) => ParseBuildAll(items, single);
    case Tuple(items) => ParseBuildAll(items, single);
    case Dict(entries) =>
      if entries != [] {
        assert entries[0].value < entries[0];
        if entries[0].key.StrKey? {
          ParseBuildStrDict(entries, single);
        } else {
          ParseBuildIntDict(entries, single);
        }
      }
    case _ =>
  }

  lemma {:induction false} ParseBuildAll(items: seq<Value>, single: Rounding)
    ensures BuildAll(items, single).Some? <==> forall i :: 0 <= i < |items| ==> Supported(items[i])
    ensures BuildAll(items, single).Some? ==>
              var built := BuildAll(items, single).value;
              |built| == |items| && forall i :: 0 <= i < |items| ==> Parse(built[i]) == Meaning(items[i], single)
    decreases items
  {
    if items != [] {
      var front, last := items[..|items| - 1], items[|items| - 1];
      ParseBuild(last, single);
      ParseBuildAll(front, single);
      assert items == front + [last];
    }
  }

  lemma StrEntriesSnoc(front: seq<Entry>, e: Entry)
    ensures AllStrKeys(front + [e]) <==> AllStrKeys(front) && e.key.StrKey?
    ensures AllSupported(front + [e]) <==> AllSupported(front) && Supported(e.value)
  {
    SupportedSnoc(front, e);
    assert (front + [e])[|front|] == e;
    assert forall i :: 0 <= i < |front| ==> front[i] == (front + [e])[i];
  }

  lemma IntEntriesSnoc(front: seq<Entry>, e: Entry)
    ensures AllIntKeys(front + [e]) <==> AllIntKeys(front) && e.key.IntKey? && IsInt32(e.key.i)
    ensures AllSupported(front + [e]) <==> AllSupported(front) && Supported(e.value)
  {
    SupportedSnoc(front, e);
    assert (front + [e])[|front|] == e;
    assert forall i :: 0 <= i < |front| ==> front[i] == (front + [e])[i];
  }

  lemma SupportedSnoc(front: seq<Entry>, e: Entry)
    ensures AllSupported(front + [e]) <==> AllSupported(front) && Supported(e.value)
  {
    assert (front + [e])[|front|] == e;
    assert forall i :: 0 <= i < |front| ==> front[i] == (front + [e])[i];
  }

  lemma {:induction false} ParseBuildStrDict(entries: seq<Entry>, single: Rounding)
    ensures BuildStrDict(entries, single).Some? <==> AllStrKeys(entries) && AllSupported(entries)
    ensures BuildStrDict(entries, single).Some? ==>
              Parse(DictStringKey(BuildStrDict(entries, single).value)) == PDict(MeaningOfEntries(entries, single))
    decreases entries
  {
    if entries != [] {
      var front, e := entries[..|entries| - 1], entries[|entries| - 1];
      assert e.value < e;
      ParseBuild(e.value, single);
      ParseBuildStrDict(front, single);
      StrEntriesSnoc(front, e);
      assert entries == front + [e];
      if BuildStrDict(entries, single).Some? {
        StrDictStep(BuildStrDict(front, single).value, e.key.s, Build(e.value, single).value,
                    MeaningOfEntries(front, single));
      }
    }
  }

  lemma StrDictAt(d: map<string, MsgValue>, x: Key)
    ensures var parsed := Parse(DictStringKey(d));
            && parsed.PDict?
            && (x in parsed.entries <==> x.StrKey? && x.s in d)
            && (x in parsed.entries ==> parsed.entries[x] == Parse(d[x.s]))
  {
  }

  lemma StrDictStep(d: map<string, MsgValue>, k: string, m: MsgValue, meaning: map<Key, Plain>)
    requires Parse(DictStringKey(d)) == PDict(meaning)
    ensures Parse(DictStringKey(d[k := m])) == PDict(meaning[StrKey(k) := Parse(m)])
  {
    var after := Parse(DictStringKey(d[k := m]));
    var expected := meaning[StrKey(k) := Parse(m)];
    forall x
      ensures after.PDict? && (x in after.entries <==> x in expected)
      ensures x in expected ==> after.entries[x] == expected[x]
    {
      StrDictAt(d, x);
      StrDictAt(d[k := m], x);
    }
    assert after.entries == expected;
  }

  lemma {:induction false} ParseBuildIntDict(entries: seq<Entry>, single: Rounding)
    ensures BuildIntDict(entries, single).Some? <==> AllIntKeys(entries) && AllSupported(entries)
    ensures BuildIntDict(entries, single).Some? ==>
              Parse(DictIntKey(BuildIntDict(entries, single).value)) == PDict(MeaningOfEntries(entries, single))
    decreases entries
  {
    if entries != [] {
      var front, e := entries[..|entries| - 1], entries[|entries| - 1];
      assert e.value < e;
      ParseBuild(e.value, single);
      ParseBuildIntDict(front, single);
      IntEntriesSnoc(front, e);
      assert entries == front + [e];
      if BuildIntDict(entries, single).Some? {
        IntDictStep(BuildIntDict(front, single).value, e.key.i, Build(e.value, single).value,
                    MeaningOfEntries(front, single));
      }
    }
  }

  lemma IntDictAt(d: map<int, MsgValue>, x: Key)
    ensures var parsed := Parse(DictIntKey(d));
            && parsed.PDict?
            && (x in parsed.entries <==> x.IntKey? && x.i in d)
            && (x in parsed.entries ==> parsed.entries[x] == Parse(d[x.i]))
  {
  }

  lemma IntDictStep(d: map<int, MsgValue>, k: int, m: MsgValue, meaning: map<Key, Plain>)
    requires Parse(DictIntKey(d)) == PDict(meaning)
    ensures Parse(DictIntKey(d[k := m])) == PDict(meaning[IntKey(k) := Parse(m)])
  {
    var after := Parse(DictIntKey(d[k := m]));
    var expected := meaning[IntKey(k) := Parse(m)];
    forall x
      ensures after.PDict? && (x in after.entries <==> x in expected)
      ensures x in expected ==> after.entries[x] == expected[x]
    {
      IntDictAt(d, x);
      IntDictAt(d[k := m], x);
    }
    assert after.entries == expected;
  }

  // ---- Whole messages ----

  /** The six fields that travel; strategy and serial_num stay behind. */
  datatype Fields<T> = Fields(sender: T, receiver: T, state: T, msgType: T, content: T, timestamp: T)

  /** Message.transform(to_list=False). */
  function Transform(m: Fields<Value>, single: Rounding): Option<Fields<MsgValue>> {
    var sender, receiver, state := Build(m.sender, single), Build(m.receiver, single), Build(m.state, single);
    var msgType, content, timestamp := Build(m.msgType, single), Build(m.content, single), Build(m.timestamp, single);
    if sender.None? || receiver.None? || state.None? || msgType.None? || content.None? || timestamp.None? then None
    else Some(Fields(sender.value, receiver.value, state.value, msgType.value, content.value, timestamp.value))
  }

  /** Message.parse. */
  function ParseFields(m: Fields<MsgValue>): Fields<Plain> {
    Fields(Parse(m.sender), Parse(m.receiver), Parse(m.state), Parse(m.msgType), Parse(m.content), Parse(m.timestamp))
  }

  lemma ParseTransform(m: Fields<Value>, single: Rounding)
    ensures Transform(m, single).Some? <==>
              && Supported(m.sender) && Supported(m.receiver) && Supported(m.state)
              && Supported(m.msgType) && Supported(m.content) && Supported(m.timestamp)
    ensures Transform(m, single).Some? ==>
              ParseFields(Transform(m, single).value) ==
              Fields(Meaning(m.sender, single), Meaning(m.receiver, single), Meaning(m.state, single),
                     Meaning(m.msgType, single), Meaning(m.content, single), Meaning(m.timestamp, single))
  {
    ParseBuild(m.sender, single);
    ParseBuild(m.receiver, single);
    ParseBuild(m.state, single);
    ParseBuild(m.msgType, single);
    ParseBuild(m.content, single);
    ParseBuild(m.timestamp, single);
  }

  /** Tuples become lists and nothing else is lost: two values with the same meaning, free of
      tuples, bytes, dicts and unsupported objects, and with floats that survive rounding, are equal. */
  predicate Exact(v: Value, single: Rounding)
    decreases v
  {
    match v
    case Int(_) => true
    case Str(_) => true
    case Float(f) => single(f) == f
    case List(items) => forall i :: 0 <= i < |items| ==> Exact(items[i], single)
    case _ => false
  }

  lemma {:induction false} MeaningIsExact(v: Value, w: Value, single: Rounding)
    requires Exact(v, single) && Exact(w, single) && Meaning(v, single) == Meaning(w, single)
    ensures v == w
    decreases v
  {
    if v.List? && w.List? {
      assert |Meaning(v, single).items| == |Meaning(w, single).items|;
      forall i | 0 <= i < |v.items|
        ensures v.items[i] == w.items[i]
      {
        assert Meaning(v, single).items[i] == Meaning(w, single).items[i];
        MeaningIsExact(v.items[i], w.items[i], single);
      }
    }
  }

  /** The bounds of a protobuf int32, for values and for keys. */
  lemma IntegersThatFit(i: int, single: Rounding)
    ensures Build(Int(i), single).Some? <==> -2147483648 <= i <= 2147483647
    ensures Build(Dict([Entry(IntKey(i), Str(""))]), single).Some? <==> -2147483648 <= i <= 2147483647
  {
    var entries := [Entry(IntKey(i), Str(""))];
    ParseBuild(Dict(entries), single);
    assert AllIntKeys(entries) <==> entries[0].key.IntKey? && IsInt32(entries[0].key.i);
    assert entries[0].value == Str("") && AllSupported(entries);
    assert !AllStrKeys(entries) by {
      assert !entries[0].key.StrKey?;
    }
  }
}
