/** Parameter keys: the rank suffix of distributed payloads and the canonical layer key. */
module LayerKeys {
  import opened Seqs

  /** str.isdigit on single characters: on ASCII the ten digits, beyond it whatever Unicode says. */
  ghost predicate IsDigitTest(digit: char -> bool) {
    forall c: char :: (c as int) < 128 ==> (digit(c) <==> '0' <= c <= '9')
  }

  predicate AllDigits(s: string, digit: char -> bool) {
    s != "" && forall i :: 0 <= i < |s| ==> digit(s[i])
  }

  /** Where the last part of `key.split('.')` starts. */
  function LastPart(key: string): (k: nat)
    ensures k <= |key| && '.' !in key[k..]
    ensures k > 0 ==> key[k - 1] == '.'
  {
    if key == "" || key[|key| - 1] == '.' then |key|
    else
      var k := LastPart(key[..|key| - 1]);
      assert key[k..] == key[..|key| - 1][k..] + [key[|key| - 1]];
      k
  }

  /** strip_rank_suffix: drop the last part, and the dot before it, if it is all digits. */
  function StripRankSuffix(key: string, digit: char -> bool): (r: string) {
    var k := LastPart(key);
    if AllDigits(key[k..], digit) then (if k == 0 then "" else key[..k - 1]) else key
  }

  predicate EndsWith(key: string, suffix: string) {
    |suffix| <= |key| && key[|key| - |suffix|..] == suffix
  }

  /** suffixes_to_remove. */
  function Suffixes(): seq<string> {
    [".lora_A.default.weight", ".lora_B.default.weight", ".lora_A.weight", ".lora_B.weight", ".lora_A", ".lora_B"]
  }

  /** The loop over the suffixes: the first that matches is cut off. */
  function CutFirst(key: string, suffixes: seq<string>): string {
    if suffixes == [] then key
    else if EndsWith(key, suffixes[0]) then key[..|key| - |suffixes[0]|]
    else CutFirst(key, suffixes[1..])
  }

  /** canonicalize_lora_layer_key. */
  function Canonicalize(key: string, digit: char -> bool): string {
    CutFirst(StripRankSuffix(key, digit), Suffixes())
  }

  // ---- Stripping ----

  /** The last part starts behind the last dot, wherever the text is put together. */
  lemma {:induction false} LastPartBehindDot(front: string, part: string)
    requires '.' !in part
    ensures LastPart(front + "." + part) == |front| + 1
    decreases |part|
  {
    var key := front + "." + part;
    if part == "" {
      assert key[|key| - 1] == '.';
    } else {
      assert key[|key| - 1] == part[|part| - 1];
      assert part[|part| - 1] in part;
      assert key[..|key| - 1] == front + "." + part[..|part| - 1];
      LastPartBehindDot(front, part[..|part| - 1]);
    }
  }

  /** Stripping undoes appending a rank to any key, even one that already ends in a number. */
  lemma StripUndoesAppend(key: string, rank: string, digit: char -> bool)
    requires IsDigitTest(digit) && AllDigits(rank, digit)
    ensures StripRankSuffix(key + "." + rank, digit) == key
  {
    assert '.' !in rank;
    LastPartBehindDot(key, rank);
    var full := key + "." + rank;
    assert full[|key| + 1..] == rank;
    assert full[..|key|] == key;
  }

  /** A key whose last part ends in a letter is left alone. */
  lemma StripKeepsNames(front: string, part: string, digit: char -> bool)
    requires IsDigitTest(digit) && '.' !in part && part != ""
    requires 'A' <= part[|part| - 1] <= 'Z' || 'a' <= part[|part| - 1] <= 'z'
    ensures StripRankSuffix(front + "." + part, digit) == front + "." + part
  {
    LastPartBehindDot(front, part);
    var full := front + "." + part;
    assert full[|front| + 1..] == part;
  }

  // ---- Canonical keys ----

  /** The characters `at` places before the end differ. */
  predicate DiffersAt(s: string, t: string, at: nat) {
    at < |s| && at < |t| && s[|s| - 1 - at] != t[|t| - 1 - at]
  }

  lemma EndsWithAt(key: string, suffix: string, at: nat)
    requires EndsWith(key, suffix) && at < |suffix|
    ensures key[|key| - 1 - at] == suffix[|suffix| - 1 - at]
  {
    assert key[|key| - |suffix|..][|suffix| - 1 - at] == suffix[|suffix| - 1 - at];
  }

  lemma EndsWithOnly(layer: string, suffix: string, other: string, at: nat)
    requires DiffersAt(suffix, other, at)
    ensures !EndsWith(layer + suffix, other)
  {
    var key := layer + suffix;
    assert key[|key| - 1 - at] == suffix[|suffix| - 1 - at];
    if EndsWith(key, other) {
      EndsWithAt(key, other, at);
    }
  }

  /** Where two suffixes of the list differ, counted from the end. */
  function Difference(m: nat, n: nat): nat {
    if n >= 4 then 0 else if m == 0 && n == 1 then 15 else 7
  }

  lemma SuffixesDiffer(m: nat, n: nat)
    requires m < n < 6
    ensures DiffersAt(Suffixes()[n], Suffixes()[m], Difference(m, n))
  {
    var s := Suffixes();
    if n >= 4 {
      assert s[4] == ".lora_A" && s[5] == ".lora_B";
    } else if m == 0 && n == 1 {
      assert s[0][6] == 'A' && s[1][6] == 'B';
    } else {
      assert s[0][14] == 't' && s[1][14] == 't' && s[2][6] == 'A' && s[3][6] == 'B';
    }
  }

  /** No suffix of the list ends in another one before it: the first match is the right one. */
  lemma CutUndoesSuffix(layer: string, n: nat)
    requires n < 6
    ensures CutFirst(layer + Suffixes()[n], Suffixes()) == layer
  {
    var s := Suffixes();
    forall m | 0 <= m < n
      ensures !EndsWith(layer + s[n], s[m])
    {
      SuffixesDiffer(m, n);
      EndsWithOnly(layer, s[n], s[m], Difference(m, n));
    }
    assert (layer + s[n])[..|layer|] == layer;
    assert (layer + s[n])[|layer|..] == s[n];
    CutAt(layer + s[n], s, n);
  }

  lemma {:induction false} CutAt(key: string, suffixes: seq<string>, n: nat)
    requires n < |suffixes| && EndsWith(key, suffixes[n])
    requires forall m :: 0 <= m < n ==> !EndsWith(key, suffixes[m])
    ensures CutFirst(key, suffixes) == key[..|key| - |suffixes[n]|]
  {
    if n > 0 {
      forall m | 0 <= m < n - 1
        ensures !EndsWith(key, suffixes[1..][m])
      {
        assert suffixes[1..][m] == suffixes[m + 1];
      }
      CutAt(key, suffixes[1..], n - 1);
    }
  }

  /** Every form a layer's parameters take comes back to the layer, whatever the layer is called. */
  lemma CanonicalOfForms(layer: string, n: nat, rank: string, digit: char -> bool)
    requires IsDigitTest(digit) && n < 6 && AllDigits(rank, digit)
    ensures Canonicalize(layer + Suffixes()[n], digit) == layer
    ensures Canonicalize(layer + Suffixes()[n] + "." + rank, digit) == layer
  {
    StripUndoesAppend(layer + Suffixes()[n], rank, digit);
    SuffixKeepsKey(layer, n, digit);
    CutUndoesSuffix(layer, n);
  }

  /** None of the suffixes looks like a rank. */
  lemma SuffixKeepsKey(layer: string, n: nat, digit: char -> bool)
    requires IsDigitTest(digit) && n < 6
    ensures StripRankSuffix(layer + Suffixes()[n], digit) == layer + Suffixes()[n]
  {
    var fronts := [".lora_A.default", ".lora_B.default", ".lora_A", ".lora_B", "", ""];
    var parts := ["weight", "weight", "weight", "weight", "lora_A", "lora_B"];
    assert Suffixes()[n] == fronts[n] + "." + parts[n];
    StripKeepsNames(layer + fronts[n], parts[n], digit);
    assert layer + (fronts[n] + "." + parts[n]) == (layer + fronts[n]) + "." + parts[n];
  }

  // ---- every key ----

  lemma {:induction false} NoDotNoParts(key: string)
    requires '.' !in key
    ensures LastPart(key) == 0
  {
    if key != "" {
      assert key[|key| - 1] in key;
      NoDotNoParts(key[..|key| - 1]);
    }
  }

  /** What stripping does to any key, told from its last part: a key of digits alone becomes empty. */
  lemma StripIsExact(front: string, part: string, digit: char -> bool)
    requires '.' !in part
    ensures StripRankSuffix(front + "." + part, digit)
            == if part != "" && (forall i :: 0 <= i < |part| ==> digit(part[i])) then front else front + "." + part
    ensures StripRankSuffix(part, digit)
            == if part != "" && (forall i :: 0 <= i < |part| ==> digit(part[i])) then "" else part
  {
    LastPartBehindDot(front, part);
    NoDotNoParts(part);
    var full := front + "." + part;
    assert full[|front| + 1..] == part && full[..|front|] == front;
    assert part[0..] == part;
  }

  /** The six endings themselves, in full; a key with none of them keeps its name. */
  lemma CanonicalEndings(layer: string, digit: char -> bool)
    requires IsDigitTest(digit)
    ensures Canonicalize(layer + ".lora_A.default.weight", digit) == layer
    ensures Canonicalize(layer + ".lora_B.default.weight", digit) == layer
    ensures Canonicalize(layer + ".lora_A.weight", digit) == layer
    ensures Canonicalize(layer + ".lora_B.weight", digit) == layer
    ensures Canonicalize(layer + ".lora_A", digit) == layer
    ensures Canonicalize(layer + ".lora_B", digit) == layer
  {
    assert AllDigits("8", digit);
    CanonicalOfForms(layer, 0, "8", digit);
    CanonicalOfForms(layer, 1, "8", digit);
    CanonicalOfForms(layer, 2, "8", digit);
    CanonicalOfForms(layer, 3, "8", digit);
    CanonicalOfForms(layer, 4, "8", digit);
    CanonicalOfForms(layer, 5, "8", digit);
  }

  lemma {:induction false} NothingToCut(key: string, suffixes: seq<string>)
    requires forall i :: 0 <= i < |suffixes| ==> !EndsWith(key, suffixes[i])
    ensures CutFirst(key, suffixes) == key
  {
    if suffixes != [] {
      assert !EndsWith(key, suffixes[0]);
      forall i | 0 <= i < |suffixes[1..]|
        ensures !EndsWith(key, suffixes[1..][i])
      {
        assert suffixes[1..][i] == suffixes[i + 1];
      }
      NothingToCut(key, suffixes[1..]);
    }
  }

  lemma OtherEnding(key: string, suffix: string)
    requires suffix != "" && (key != "" ==> key[|key| - 1] != suffix[|suffix| - 1])
    ensures !EndsWith(key, suffix)
  {
  }

  /** Keys of no LoRA parameter, which end neither in "weight" nor in an A or B, only lose their rank. */
  lemma OtherKeysKeepTheirName(key: string, digit: char -> bool)
    requires var stripped := StripRankSuffix(key, digit);
             stripped != "" ==> stripped[|stripped| - 1] !in {'t', 'A', 'B'}
    ensures Canonicalize(key, digit) == StripRankSuffix(key, digit)
  {
    var stripped, s := StripRankSuffix(key, digit), Suffixes();
    forall i | 0 <= i < |s|
      ensures !EndsWith(stripped, s[i])
    {
      OtherEnding(stripped, s[i]);
    }
    NothingToCut(stripped, s);
  }
}
