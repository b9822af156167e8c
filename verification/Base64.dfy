/** base64.b64encode and base64.b64decode (section 4 of RFC 4648; the decoder skips characters
    outside the alphabet, as Python's default does). */
module Base64 {
  import opened Seqs
  import opened Bytes

  type Sextet = v: int | 0 <= v < 64

  const PAD: Byte := 61

  /** The base 64 alphabet: A-Z, a-z, 0-9, +, /. */
  function Letter(v: Sextet): (b: Byte)
    ensures 0x2B <= b < 0x80 && b != PAD
  {
    if v < 26 then 65 + v
    else if v < 52 then 97 + v - 26
    else if v < 62 then 48 + v - 52
    else if v == 62 then 43
    else 47
  }

  function Value(b: Byte): (v: Option<Sextet>)
    ensures v.Some? ==> Letter(v.value) == b
  {
    if 65 <= b <= 90 then Some(b - 65)
    else if 97 <= b <= 122 then Some(b - 97 + 26)
    else if 48 <= b <= 57 then Some(b - 48 + 52)
    else if b == 43 then Some(62)
    else if b == 47 then Some(63)
    else None
  }

  /** Three bytes to four letters; one or two left over are padded with '='. */
  function Encode(b: seq<Byte>): (r: seq<Byte>)
    ensures r == [] <==> b == []
    ensures r != [] ==> r[0] >= 0x2B
  {
    if b == [] then []
    else if |b| == 1 then [Letter(b[0] / 4), Letter(b[0] % 4 * 16), PAD, PAD]
    else if |b| == 2 then [Letter(b[0] / 4), Letter(b[0] % 4 * 16 + b[1] / 16), Letter(b[1] % 16 * 4), PAD]
    else [Letter(b[0] / 4), Letter(b[0] % 4 * 16 + b[1] / 16), Letter(b[1] % 16 * 4 + b[2] / 64), Letter(b[2] % 64)]
         + Encode(b[3..])
  }

  /** The decoder's loop: position in the quad, the bits left over from the last letter, the '='
      signs seen since. None is binascii.Error. */
  function Scan(b: seq<Byte>, quad: nat, left: nat, pads: nat): (r: Option<seq<Byte>>)
    requires quad < 4
    requires if quad == 1 then left < 64 else if quad == 2 then left < 16 else if quad == 3 then left < 4 else true
    decreases |b|
  {
    if b == [] then if quad == 0 then Some([]) else None
    else if b[0] == PAD then
      if quad >= 2 then
        if quad + pads + 1 >= 4 then Some([]) else Scan(b[1..], quad, left, pads + 1)
      else Scan(b[1..], quad, left, pads)
    else
      match Value(b[0])
      case None => Scan(b[1..], quad, left, pads)
      case Some(v) =>
        if quad == 0 then Scan(b[1..], 1, v, 0)
        else if quad == 1 then Emit(left * 4 + v / 16, Scan(b[1..], 2, v % 16, 0))
        else if quad == 2 then Emit(left * 16 + v / 4, Scan(b[1..], 3, v % 4, 0))
        else Emit(left * 64 + v, Scan(b[1..], 0, 0, 0))
  }

  function Emit(x: Byte, rest: Option<seq<Byte>>): Option<seq<Byte>> {
    if rest.None? then None else Some([x] + rest.value)
  }

  function Decode(b: seq<Byte>): Option<seq<Byte>> {
    Scan(b, 0, 0, 0)
  }

  lemma {:induction false} DecodeEncode(b: seq<Byte>)
    ensures Decode(Encode(b)) == Some(b)
  {
    if |b| == 1 {
      DecodeOne(b[0]);
      assert b == [b[0]];
    } else if |b| == 2 {
      DecodeTwo(b[0], b[1]);
      assert b == [b[0], b[1]];
    } else if |b| > 2 {
      DecodeThree(b[0], b[1], b[2], Encode(b), Encode(b[3..]));
      DecodeEncode(b[3..]);
      assert b == [b[0]] + ([b[1]] + ([b[2]] + b[3..]));
    }
  }

  lemma DecodeOne(x: Byte)
    ensures Decode([Letter(x / 4), Letter(x % 4 * 16), PAD, PAD]) == Some([x])
  {
    var e := [Letter(x / 4), Letter(x % 4 * 16), PAD, PAD];
    ScanTwo(e, x, 0);
    assert e[2..] == [PAD, PAD] && [PAD, PAD][1..] == [PAD];
    assert Scan([PAD], 2, 0, 1) == Some([]);
    assert Scan([PAD, PAD], 2, 0, 0) == Some([]);
    assert [x] == [x] + [];
  }

  lemma DecodeTwo(x: Byte, y: Byte)
    ensures Decode([Letter(x / 4), Letter(x % 4 * 16 + y / 16), Letter(y % 16 * 4), PAD]) == Some([x, y])
  {
    var e := [Letter(x / 4), Letter(x % 4 * 16 + y / 16), Letter(y % 16 * 4), PAD];
    ScanTwo(e, x, y);
    ScanThird(e[2..], y, 0);
    assert e[2..][1..] == [PAD];
    assert Scan([PAD], 3, 0, 0) == Some([]);
    assert [x, y] == [x] + ([y] + []);
  }

  lemma DecodeThree(x: Byte, y: Byte, z: Byte, e: seq<Byte>, rest: seq<Byte>)
    requires e == [Letter(x / 4), Letter(x % 4 * 16 + y / 16), Letter(y % 16 * 4 + z / 64), Letter(z % 64)] + rest
    ensures Decode(e) == Emit(x, Emit(y, Emit(z, Decode(rest))))
  {
    ScanTwo(e, x, y);
    ScanThird(e[2..], y, z);
    ScanFourth(e[2..][1..], z);
    assert e[2..][1..][1..] == rest;
  }

  /** The first two letters of a quad yield its first byte. */
  lemma ScanTwo(e: seq<Byte>, x: Byte, y: Byte)
    requires |e| >= 2 && e[0] == Letter(x / 4) && e[1] == Letter(x % 4 * 16 + y / 16)
    ensures Decode(e) == Emit(x, Scan(e[2..], 2, y / 16, 0))
  {
    assert Value(e[0]) == Some(x / 4) && Value(e[1]) == Some(x % 4 * 16 + y / 16);
    assert e[1..][1..] == e[2..];
    assert Scan(e[1..], 1, x / 4, 0) == Emit(x, Scan(e[2..], 2, y / 16, 0));
  }

  lemma ScanThird(e: seq<Byte>, y: Byte, z: Byte)
    requires e != [] && e[0] == Letter(y % 16 * 4 + z / 64)
    ensures Scan(e, 2, y / 16, 0) == Emit(y, Scan(e[1..], 3, z / 64, 0))
  {
    assert Value(e[0]) == Some(y % 16 * 4 + z / 64);
  }

  lemma ScanFourth(e: seq<Byte>, z: Byte)
    requires e != [] && e[0] == Letter(z % 64)
    ensures Scan(e, 3, z / 64, 0) == Emit(z, Decode(e[1..]))
  {
    assert Value(e[0]) == Some(z % 64);
  }

  /** Decoding always shortens: four letters for at most three bytes. */
  lemma {:induction false} ScanShortens(b: seq<Byte>, quad: nat, left: nat, pads: nat)
    requires quad < 4
    requires if quad == 1 then left < 64 else if quad == 2 then left < 16 else if quad == 3 then left < 4 else true
    ensures var r := Scan(b, quad, left, pads);
            r.Some? ==> 4 * |r.value| <= 3 * |b| + (if quad == 0 then 0 else 4 - quad)
    decreases |b|
  {
    if b != [] {
      if b[0] == PAD {
        ScanShortens(b[1..], quad, left, pads);
        ScanShortens(b[1..], quad, left, pads + 1);
      } else {
        match Value(b[0])
        case None => ScanShortens(b[1..], quad, left, pads);
        case Some(v) =>
          if quad == 0 {
            ScanShortens(b[1..], 1, v, 0);
          } else if quad == 1 {
            ScanShortens(b[1..], 2, v % 16, 0);
          } else if quad == 2 {
            ScanShortens(b[1..], 3, v % 4, 0);
          } else {
            ScanShortens(b[1..], 0, 0, 0);
          }
      }
    }
  }

  // ---- known values, and what is skipped ----

  lemma EncodeShort(x: Byte, y: Byte, z: Byte)
    ensures Encode([x]) == [Letter(x / 4), Letter(x % 4 * 16), PAD, PAD]
    ensures Encode([x, y]) == [Letter(x / 4), Letter(x % 4 * 16 + y / 16), Letter(y % 16 * 4), PAD]
    ensures Encode([x, y, z])
            == [Letter(x / 4), Letter(x % 4 * 16 + y / 16), Letter(y % 16 * 4 + z / 64), Letter(z % 64)]
  {
    assert [x, y, z][3..] == [];
  }

  /** The test vectors of section 10 of RFC 4648 up to three bytes ("f", "fo", "foo" give "Zg==", "Zm8=",
      "Zm9v"), and three bytes that need the last two letters ("++//"). */
  lemma KnownValues()
    ensures Encode([0x66]) == [0x5A, 0x67, 0x3D, 0x3D]
    ensures Encode([0x66, 0x6F]) == [0x5A, 0x6D, 0x38, 0x3D]
    ensures Encode([0x66, 0x6F, 0x6F]) == [0x5A, 0x6D, 0x39, 0x76]
    ensures Encode([0xFB, 0xEF, 0xFF]) == [0x2B, 0x2B, 0x2F, 0x2F]
  {
    EncodeShort(0x66, 0x6F, 0x6F);
    EncodeShort(0xFB, 0xEF, 0xFF);
  }

  lemma OnePadded(x: Byte, rest: seq<Byte>)
    ensures Decode(Encode([x]) + rest) == Some([x])
  {
    var e := Encode([x]) + rest;
    ScanTwo(e, x, 0);
    assert e[2..] == [PAD, PAD] + rest && ([PAD, PAD] + rest)[1..] == [PAD] + rest;
    assert Scan([PAD] + rest, 2, 0, 1) == Some([]);
    assert Scan([PAD, PAD] + rest, 2, 0, 0) == Some([]);
    assert [x] == [x] + [];
  }

  lemma TwoPadded(x: Byte, y: Byte, rest: seq<Byte>)
    ensures Decode(Encode([x, y]) + rest) == Some([x, y])
  {
    var e := Encode([x, y]) + rest;
    ScanTwo(e, x, y);
    ScanThird(e[2..], y, 0);
    assert e[2..][1..] == [PAD] + rest;
    assert Scan([PAD] + rest, 3, 0, 0) == Some([]);
    assert [x, y] == [x] + ([y] + []);
  }

  lemma ThreeMore(x: Byte, y: Byte, z: Byte, tail: seq<Byte>, e: seq<Byte>, rest: seq<Byte>)
    requires Decode(rest) == Some(tail)
    requires e == [Letter(x / 4), Letter(x % 4 * 16 + y / 16), Letter(y % 16 * 4 + z / 64), Letter(z % 64)] + rest
    ensures Decode(e) == Some([x, y, z] + tail)
  {
    DecodeThree(x, y, z, e, rest);
    assert [x] + ([y] + ([z] + tail)) == [x, y, z] + tail;
  }

  /** A complete padding ends the text: what follows is not looked at. */
  lemma {:induction false} PaddingEnds(b: seq<Byte>, rest: seq<Byte>)
    requires |b| % 3 != 0
    ensures Decode(Encode(b) + rest) == Some(b)
  {
    if |b| == 1 {
      OnePadded(b[0], rest);
      assert b == [b[0]];
    } else if |b| == 2 {
      TwoPadded(b[0], b[1], rest);
      assert b == [b[0], b[1]];
    } else {
      PaddingEnds(b[3..], rest);
      ThreeMore(b[0], b[1], b[2], b[3..], Encode(b) + rest, Encode(b[3..]) + rest);
      assert b == [b[0], b[1], b[2]] + b[3..];
    }
  }

  lemma LoneLetter(u: Sextet)
    ensures Decode([Letter(u)]) == None && Decode([Letter(u), PAD, PAD, PAD]) == None
  {
    assert Value(Letter(u)) == Some(u) && [Letter(u)][1..] == [];
    assert Scan([], 1, u, 0) == None;
    var e := [Letter(u), PAD, PAD, PAD];
    assert e[1..] == [PAD, PAD, PAD] && [PAD, PAD, PAD][1..] == [PAD, PAD] && [PAD, PAD][1..] == [PAD];
    assert [PAD][1..] == [];
    assert Scan([PAD], 1, u, 0) == None;
    assert Scan([PAD, PAD], 1, u, 0) == None;
    assert Scan([PAD, PAD, PAD], 1, u, 0) == None;
  }

  /** Incomplete quads are rejected, padded or not. */
  lemma IncompleteQuads(u: Sextet, v: Sextet, w: Sextet)
    ensures Decode([Letter(u)]) == Decode([Letter(u), PAD, PAD, PAD]) == None
    ensures Decode([Letter(u), Letter(v)]) == Decode([Letter(u), Letter(v), PAD]) == None
    ensures Decode([Letter(u), Letter(v), Letter(w)]) == None
  {
    LoneLetter(u);
    TwoLetters(u, v, []);
    TwoLetters(u, v, [PAD]);
    TwoLetters(u, v, [Letter(w)]);
    assert [Letter(u), Letter(v)] + [] == [Letter(u), Letter(v)];
    assert [Letter(u), Letter(v)] + [PAD] == [Letter(u), Letter(v), PAD];
    assert [Letter(u), Letter(v)] + [Letter(w)] == [Letter(u), Letter(v), Letter(w)];
  }

  lemma TwoLetters(u: Sextet, v: Sextet, rest: seq<Byte>)
    requires Scan(rest, 2, v % 16, 0) == None
    ensures Decode([Letter(u), Letter(v)] + rest) == None
  {
    var e := [Letter(u), Letter(v)] + rest;
    assert e[1..] == [Letter(v)] + rest && e[1..][1..] == rest;
    assert Scan(e[1..], 1, u, 0) == None;
  }

  /** The decoder skips whatever is no letter, wherever it stands. */
  lemma {:induction false} ScanSkips(a: seq<Byte>, x: Byte, b: seq<Byte>, quad: nat, left: nat, pads: nat)
    requires quad < 4
    requires if quad == 1 then left < 64 else if quad == 2 then left < 16 else if quad == 3 then left < 4 else true
    requires x != PAD && Value(x).None?
    ensures Scan(a + [x] + b, quad, left, pads) == Scan(a + b, quad, left, pads)
    decreases |a|
  {
    if a == [] {
      assert [] + [x] + b == [x] + b && [] + b == b;
      assert ([x] + b)[1..] == b;
    } else {
      var e, f := a + [x] + b, a + b;
      assert e[1..] == a[1..] + [x] + b && f[1..] == a[1..] + b && e[0] == f[0] == a[0];
      if a[0] == PAD {
        ScanSkips(a[1..], x, b, quad, left, pads);
        ScanSkips(a[1..], x, b, quad, left, pads + 1);
      } else {
        match Value(a[0])
        case None => ScanSkips(a[1..], x, b, quad, left, pads);
        case Some(v) =>
          if quad == 0 {
            ScanSkips(a[1..], x, b, 1, v, 0);
          } else if quad == 1 {
            ScanSkips(a[1..], x, b, 2, v % 16, 0);
          } else if quad == 2 {
            ScanSkips(a[1..], x, b, 3, v % 4, 0);
          } else {
            ScanSkips(a[1..], x, b, 0, 0, 0);
          }
      }
    }
  }

  /** In particular line breaks and spaces; and a quad left unfinished is an error. */
  lemma DecodeSkips(a: seq<Byte>, x: Byte, b: seq<Byte>)
    requires x == 10 || x == 13 || x == 32
    ensures Decode(a + [x] + b) == Decode(a + b)
    ensures Decode([65]) == None
  {
    ScanSkips(a, x, b, 0, 0, 0);
    assert Scan([65][1..], 1, 0, 0) == None;
  }
}
