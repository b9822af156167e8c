/** Byte strings and Python's str.encode('utf-8') / bytes.decode('utf-8'). */
module Bytes {
  import opened Seqs

  type Byte = b: int | 0 <= b < 256

  /** The UTF-8 form of one Unicode scalar value (section 3 of RFC 3629). */
  function EncodeChar(c: char): (r: seq<Byte>)
    ensures 1 <= |r| <= 4
  {
    var v := c as int;
    if v < 0x80 then [v]
    else if v < 0x800 then [0xC0 + v / 64, 0x80 + v % 64]
    else if v < 0x1_0000 then [0xE0 + v / 4096, 0x80 + v / 64 % 64, 0x80 + v % 64]
    else [0xF0 + v / 262144, 0x80 + v / 4096 % 64, 0x80 + v / 64 % 64, 0x80 + v % 64]
  }

  function Encode(s: string): seq<Byte> {
    if s == "" then [] else EncodeChar(s[0]) + Encode(s[1..])
  }

  /** How many bytes the first one announces; 0 if none can start with it. */
  function Announced(lead: Byte): (n: nat)
    ensures n <= 4
  {
    if lead < 0x80 then 1
    else if lead < 0xC0 then 0
    else if lead < 0xE0 then 2
    else if lead < 0xF0 then 3
    else if lead < 0xF8 then 4
    else 0
  }

  /** The number that the payload bits spell. */
  function Spelled(b: seq<Byte>): int
    requires 1 <= |b| <= 4
  {
    var x: int := b[0];
    if |b| == 1 then x
    else
      var y: int := b[1] as int - 0x80;
      if |b| == 2 then (x - 0xC0) * 64 + y
      else
        var z: int := b[2] as int - 0x80;
        if |b| == 3 then (x - 0xE0) * 4096 + y * 64 + z
        else (x - 0xF0) * 262144 + y * 4096 + z * 64 + (b[3] as int - 0x80)
  }

  /** One well-formed character: shortest form, no surrogate, in range. */
  function DecodeChar(b: seq<Byte>): Option<char>
    requires 1 <= |b| <= 4
  {
    var v := Spelled(b);
    if 0 <= v < 0xD800 || 0xE000 <= v < 0x11_0000 then
      if EncodeChar(v as char) == b then Some(v as char) else None
    else None
  }

  /** Strict decoding; None is UnicodeDecodeError. */
  function Decode(b: seq<Byte>): Option<string> {
    if b == [] then Some("")
    else
      var n := Announced(b[0]);
      if n == 0 || n > |b| then None
      else Prepend(DecodeChar(b[..n]), Decode(b[n..]))
  }

  function Prepend(c: Option<char>, rest: Option<string>): Option<string> {
    if c.None? || rest.None? then None else Some([c.value] + rest.value)
  }

  /** Only the one canonical form decodes. */
  lemma {:induction false} EncodeDecode(b: seq<Byte>)
    ensures Decode(b).Some? ==> Encode(Decode(b).value) == b
  {
    if b != [] {
      var n := Announced(b[0]);
      if 0 < n <= |b| {
        EncodeDecode(b[n..]);
        CanonicalStep(b, n, DecodeChar(b[..n]), Decode(b[n..]));
      }
    }
  }

  lemma CanonicalStep(b: seq<Byte>, n: nat, c: Option<char>, rest: Option<string>)
    requires 1 <= n <= |b| && n <= 4 && c == DecodeChar(b[..n])
    requires rest.Some? ==> Encode(rest.value) == b[n..]
    ensures Prepend(c, rest).Some? ==> Encode(Prepend(c, rest).value) == b
  {
    if c.Some? && rest.Some? {
      CharIsCanonical(b[..n]);
      assert ([c.value] + rest.value)[1..] == rest.value;
      assert b == b[..n] + b[n..];
    }
  }

  lemma CharIsCanonical(b: seq<Byte>)
    requires 1 <= |b| <= 4 && DecodeChar(b).Some?
    ensures EncodeChar(DecodeChar(b).value) == b
  {
  }

  lemma Digits(v: nat)
    ensures v / 64 * 64 + v % 64 == v
    ensures v / 4096 * 4096 + v / 64 % 64 * 64 + v % 64 == v
    ensures v / 262144 * 262144 + v / 4096 % 64 * 4096 + v / 64 % 64 * 64 + v % 64 == v
  {
    assert v / 64 / 64 == v / 4096;
    assert v / 4096 / 64 == v / 262144;
  }

  lemma SpelledEncodeChar(c: char)
    ensures |EncodeChar(c)| == Announced(EncodeChar(c)[0])
    ensures Spelled(EncodeChar(c)) == c as int
  {
    Digits(c as int);
  }

  lemma DecodeEncodeChar(c: char)
    ensures |EncodeChar(c)| == Announced(EncodeChar(c)[0])
    ensures DecodeChar(EncodeChar(c)) == Some(c)
  {
    SpelledEncodeChar(c);
  }

  lemma {:induction false} DecodeEncode(s: string)
    ensures Decode(Encode(s)) == Some(s)
  {
    if s != "" {
      DecodeEncodeChar(s[0]);
      DecodeEncode(s[1..]);
      var b, n := Encode(s), |EncodeChar(s[0])|;
      assert b[..n] == EncodeChar(s[0]) && b[n..] == Encode(s[1..]) && b[0] == EncodeChar(s[0])[0];
      assert s == [s[0]] + s[1..];
    }
  }

  lemma EncodeInjective(s: string, t: string)
    requires Encode(s) == Encode(t)
    ensures s == t
  {
    DecodeEncode(s);
    DecodeEncode(t);
  }

  /** An ASCII byte occurs in the encoding exactly if the ASCII character occurs in the text:
      no part of a longer character looks like one. */
  lemma {:induction false} AsciiOccurs(s: string, c: char)
    requires (c as int) < 0x80
    ensures c as int in Encode(s) <==> c in s
  {
    if s != "" {
      AsciiOccurs(s[1..], c);
      assert s == [s[0]] + s[1..];
      assert c as int in EncodeChar(s[0]) <==> c == s[0];
    }
  }

  /** bytes.find / bytes.index of one byte; None where find returns -1 and index raises. */
  function Find(b: seq<Byte>, x: Byte): (k: Option<nat>)
    ensures k.Some? ==> k.value < |b| && b[k.value] == x && forall i :: 0 <= i < k.value ==> b[i] != x
    ensures k.None? ==> x !in b
  {
    if b == [] then None
    else if b[0] == x then Some(0)
    else
      var k := Find(b[1..], x);
      if k.None? then None
      else
        assert forall i :: 1 <= i < k.value + 1 ==> b[i] == b[1..][i - 1];
        Some(k.value + 1)
  }

  /** Bytes free of the separator, the separator, anything: the separator is found where it was put,
      and both sides come back. */
  lemma FindAfter(prefix: seq<Byte>, x: Byte, rest: seq<Byte>)
    requires x !in prefix
    ensures var b := prefix + [x] + rest;
            && Find(b, x) == Some(|prefix|)
            && b[..|prefix|] == prefix
            && b[|prefix| + 1..] == rest
            && (rest != [] ==> b[|prefix| + 1] == rest[0] && b[|prefix| + 2..] == rest[1..])
  {
    assert (prefix + [x] + rest)[|prefix|] == x;
  }

  /** Two texts free of the separator, each ended by it: one is a prefix of the other with anything
      behind it only if they are the same. */
  lemma EndedPrefixes(p: seq<Byte>, q: seq<Byte>, x: Byte, rest: seq<Byte>)
    requires x !in p && x !in q
    ensures p + [x] <= q + [x] + rest <==> p == q
  {
    var b := q + [x] + rest;
    FindAfter(q, x, rest);
    if p + [x] <= b {
      var behind := b[|p| + 1..];
      assert b == p + [x] + behind;
      FindAfter(p, x, behind);
    }
  }

  /** Otherwise it is found too early. */
  lemma FindInside(prefix: seq<Byte>, x: Byte, rest: seq<Byte>)
    requires x in prefix
    ensures Find(prefix + rest, x).Some? && Find(prefix + rest, x).value < |prefix|
  {
    var i :| 0 <= i < |prefix| && prefix[i] == x;
    assert (prefix + rest)[i] == x;
  }

  /** Characters of each length, as section 7 of RFC 3629 and the Unicode tables write them: a letter, the
      not-identical-to sign, a Hangul syllable, a character beyond the basic plane. */
  lemma KnownCharacters()
    ensures EncodeChar('A') == [0x41]
    ensures EncodeChar('\U{391}') == [0xCE, 0x91]
    ensures EncodeChar('\U{2262}') == [0xE2, 0x89, 0xA2]
    ensures EncodeChar('\U{D55C}') == [0xED, 0x95, 0x9C]
    ensures EncodeChar('\U{233B4}') == [0xF0, 0xA3, 0x8E, 0xB4]
  {
  }
}
