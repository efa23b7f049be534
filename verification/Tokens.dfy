/** Strings and integers in canonical form, and how they are read back. */
module Tokens {
  import opened Options
  import opened Utf

  const Quote: byte := 34
  const Backslash: byte := 92
  const Minus: byte := 45

  datatype Read<+T> = Read(value: T, rest: Bytes)

  // --- escaping --------------------------------------------------------------------------------

  function Hex(d: int): (r: byte)
    requires 0 <= d < 16
  {
    if d < 10 then 48 + d else 97 + d - 10
  }

  /** The two mandatory escapes, the five short ones, \u00XX for the other controls, and
      everything else as it stands. */
  function EscapeChar(cp: int, raw: Bytes): (r: Bytes) {
    if cp == 34 then [Backslash, Quote]
    else if cp == 92 then [Backslash, Backslash]
    else if cp == 8 then [Backslash, 98]
    else if cp == 12 then [Backslash, 102]
    else if cp == 10 then [Backslash, 110]
    else if cp == 13 then [Backslash, 114]
    else if cp == 9 then [Backslash, 116]
    else if 0 <= cp < 0x20 then [Backslash, 117, 48, 48, Hex(cp / 16), Hex(cp % 16)]
    else raw
  }

  /** The escapes of section 3.2.2.2 of RFC 8785, one by one: seven short forms, \u and
      four hex digits in lower case for the other controls, nothing for the rest. */
  lemma EscapesAre(b: byte)
    ensures EscapeBytes([34]) == [92, 34] && EscapeBytes([92]) == [92, 92]
    ensures EscapeBytes([8]) == [92, 98] && EscapeBytes([9]) == [92, 116] && EscapeBytes([10]) == [92, 110]
    ensures EscapeBytes([12]) == [92, 102] && EscapeBytes([13]) == [92, 114]
    ensures EscapeBytes([0x1F]) == [92, 117, 48, 48, 49, 102] && EscapeBytes([0]) == [92, 117, 48, 48, 48, 48]
    ensures b < 0x20 && b !in {8, 9, 10, 12, 13} ==> |EscapeBytes([b])| == 6
    ensures b >= 0x20 && b != 34 && b != 92 ==> EscapeBytes([b]) == [b]
  {
    assert forall x: byte :: EscapeBytes([x]) == EscapeChar(x, [x]) by {
      forall x: byte ensures EscapeBytes([x]) == EscapeChar(x, [x]) {
        assert [x][1..] == [];
      }
    }
  }

  function Glue(a: Bytes, o: Option<Bytes>): (r: Option<Bytes>) {
    if o.None? then None else Some(a + o.value)
  }

  /** Code point by code point, as the printer goes; nothing where `s` does not decode. */
  function EscapeText(s: Bytes): (r: Option<Bytes>) {
    if s == [] then Some([])
    else match Head(s)
      case None => None
      case Some(c) => Glue(EscapeChar(c.cp, s[..c.len]), EscapeText(s[c.len..]))
  }

  /** Byte by byte. */
  function EscapeBytes(s: Bytes): (r: Bytes) {
    if s == [] then [] else EscapeChar(s[0], [s[0]]) + EscapeBytes(s[1..])
  }

  lemma HighByteStands(b: byte, t: Bytes)
    requires b >= 0x80
    ensures EscapeBytes([b] + t) == [b] + EscapeBytes(t)
  {
    var s := [b] + t;
    assert s[0] == b && s[1..] == t;
  }

  lemma {:induction false} HighBytesStand(a: Bytes, rest: Bytes)
    requires forall i :: 0 <= i < |a| ==> a[i] >= 0x80
    ensures EscapeBytes(a + rest) == a + EscapeBytes(rest)
  {
    hide EscapeBytes;
    if a == [] {
      assert a + rest == rest && a + EscapeBytes(rest) == EscapeBytes(rest);
    } else {
      HighBytesStand(a[1..], rest);
      HighByteStands(a[0], a[1..] + rest);
      assert a + rest == [a[0]] + (a[1..] + rest);
      assert a + EscapeBytes(rest) == [a[0]] + (a[1..] + EscapeBytes(rest));
    }
  }

  lemma EscapeOne(cp: int, rest: Bytes)
    requires Scalar(cp)
    ensures EscapeBytes(Encode(cp) + rest) == EscapeChar(cp, Encode(cp)) + EscapeBytes(rest)
  {
    EncodeShape(cp);
    if |Encode(cp)| == 1 {
      assert Encode(cp) == [cp];
      assert (Encode(cp) + rest)[1..] == rest;
    } else {
      HighBytesStand(Encode(cp), rest);
      assert cp >= 0x80;
    }
  }

  lemma {:induction false} EscapeAll(cps: seq<int>)
    requires Scalars(cps)
    ensures EscapeText(EncodeAll(cps)) == Some(EscapeBytes(EncodeAll(cps)))
  {
    hide Head, Encode, EscapeChar;
    if cps != [] {
      var rest := EncodeAll(cps[1..]);
      HeadEncode(cps[0], rest);
      EscapeOne(cps[0], rest);
      EscapeAll(cps[1..]);
      var s := EncodeAll(cps);
      assert s[..|Encode(cps[0])|] == Encode(cps[0]) && s[|Encode(cps[0])|..] == rest;
    }
  }

  /** On well-formed text, decoding changes nothing about the result: every byte that is
      escaped is a code point of its own. */
  lemma EscapeIsBytewise(s: Bytes)
    requires WellFormed(s)
    ensures EscapeText(s) == Some(EscapeBytes(s))
  {
    var cps :| Scalars(cps) && EncodeAll(cps) == s;
    EscapeAll(cps);
  }

  // --- reading a string back -----------------------------------------------------------------

  function HexValue(b: byte): (r: Option<int>) {
    if 48 <= b <= 57 then Some(b - 48) else if 97 <= b <= 102 then Some(b - 87) else None
  }

  /** One escape sequence, after its backslash. */
  function ReadEscape(s: Bytes): (r: Option<Read<byte>>)
    ensures r.Some? ==> |r.value.rest| < |s|
  {
    if s == [] then None
    else if s[0] == 34 || s[0] == 92 then Some(Read(s[0], s[1..]))
    else if s[0] == 98 then Some(Read(8, s[1..]))
    else if s[0] == 102 then Some(Read(12, s[1..]))
    else if s[0] == 110 then Some(Read(10, s[1..]))
    else if s[0] == 114 then Some(Read(13, s[1..]))
    else if s[0] == 116 then Some(Read(9, s[1..]))
    else if s[0] == 117 && |s| >= 5 && s[1] == 48 && s[2] == 48 && HexValue(s[3]).Some? && HexValue(s[4]).Some? then
      Some(Read(HexValue(s[3]).value * 16 + HexValue(s[4]).value, s[5..]))
    else None
  }

  /** The text up to the closing quote. */
  function ReadText(s: Bytes): (r: Option<Read<Bytes>>)
    ensures r.Some? ==> |r.value.rest| < |s|
    decreases |s|
  {
    if s == [] then None
    else if s[0] == Quote then Some(Read([], s[1..]))
    else if s[0] == Backslash then
      match ReadEscape(s[1..])
      case None => None
      case Some(e) => Push(e.value, ReadText(e.rest))
    else Push(s[0], ReadText(s[1..]))
  }

  function Push(b: byte, o: Option<Read<Bytes>>): (r: Option<Read<Bytes>>)
    ensures r.Some? <==> o.Some?
    ensures r.Some? ==> r.value.rest == o.value.rest
  {
    if o.None? then None else Some(Read([b] + o.value.value, o.value.rest))
  }

  lemma ReadControl(b: byte, rest: Bytes)
    requires b < 0x20
    ensures ReadEscape([117, 48, 48, Hex(b / 16), Hex(b % 16)] + rest) == Some(Read(b, rest))
  {
    var s: Bytes := [117, 48, 48, Hex(b / 16), Hex(b % 16)] + rest;
    assert s[5..] == rest;
    assert HexValue(Hex(b / 16)) == Some(b / 16) && HexValue(Hex(b % 16)) == Some(b % 16);
  }

  lemma ReadShort(b: byte, e: byte, rest: Bytes)
    requires ReadEscape([e]) == Some(Read(b, []))
    ensures ReadEscape([e] + rest) == Some(Read(b, rest))
  {
    var s := [e] + rest;
    assert s[0] == e && s[1..] == rest;
  }

  /** Reading the escaped form of one byte gives the byte. */
  lemma ReadOne(b: byte, rest: Bytes)
    ensures ReadText(EscapeChar(b, [b]) + rest) == Push(b, ReadText(rest))
  {
    var e := EscapeChar(b, [b]);
    var s := e + rest;
    assert s[0] == e[0];
    if e[0] == Backslash {
      assert s[1..] == e[1..] + rest;
      if |e| == 2 {
        assert e[1..] == [e[1]];
        ReadShort(b, e[1], rest);
      } else {
        ReadControl(b, rest);
      }
    } else {
      assert s[1..] == rest;
    }
  }

  lemma {:induction false} ReadEscaped(s: Bytes, rest: Bytes)
    ensures ReadText(EscapeBytes(s) + ([Quote] + rest)) == Some(Read(s, rest))
  {
    hide EscapeChar;
    var tail := [Quote] + rest;
    if s == [] {
      assert EscapeBytes(s) + tail == tail;
      assert tail[0] == Quote && tail[1..] == rest;
    } else {
      var e := EscapeChar(s[0], [s[0]]);
      assert EscapeBytes(s) + tail == e + (EscapeBytes(s[1..]) + tail);
      ReadOne(s[0], EscapeBytes(s[1..]) + tail);
      ReadEscaped(s[1..], rest);
      assert s == [s[0]] + s[1..];
    }
  }

  // --- integers -------------------------------------------------------------------------------

  predicate IsDigit(b: byte) {
    48 <= b <= 57
  }

  function Digits(n: nat): (r: Bytes)
    ensures r != [] && IsDigit(r[0])
  {
    if n < 10 then [48 + n] else Digits(n / 10) + [48 + n % 10]
  }

  function Decimal(n: int): (r: Bytes) {
    if n < 0 then [Minus] + Digits(-n) else Digits(n)
  }

  function ReadDigits(acc: nat, s: Bytes): (r: Read<nat>)
    ensures |r.rest| <= |s|
    decreases |s|
  {
    if s != [] && IsDigit(s[0]) then ReadDigits(acc * 10 + (s[0] - 48), s[1..]) else Read(acc, s)
  }

  lemma {:induction false} ReadBack(n: nat, rest: Bytes)
    ensures ReadDigits(0, Digits(n) + rest) == ReadDigits(n, rest)
    decreases n
  {
    if n < 10 {
      assert (Digits(n) + rest)[1..] == rest;
    } else {
      var d: Bytes := [48 + n % 10];
      assert Digits(n) + rest == Digits(n / 10) + (d + rest);
      ReadBack(n / 10, d + rest);
      assert (d + rest)[1..] == rest;
    }
  }

  predicate NoDigitFirst(s: Bytes) {
    s == [] || !IsDigit(s[0])
  }

  function ReadInteger(s: Bytes): (r: Option<Read<int>>)
    ensures r.Some? ==> |r.value.rest| < |s|
  {
    if s == [] then None
    else if s[0] == Minus then
      if |s| < 2 || !IsDigit(s[1]) then None
      else var d := ReadDigits(0, s[1..]); var size: int := d.value; Some(Read(-size, d.rest))
    else if IsDigit(s[0]) then
      var d := ReadDigits(s[0] - 48, s[1..]); Some(Read(d.value, d.rest))
    else None
  }

  lemma ReadNatural(n: nat, rest: Bytes)
    ensures var s := Digits(n) + rest;
            s != [] && IsDigit(s[0]) && ReadDigits(s[0] - 48, s[1..]) == ReadDigits(n, rest)
  {
    ReadBack(n, rest);
    hide Digits;
    var s := Digits(n) + rest;
    assert s[0] == Digits(n)[0];
    assert ReadDigits(0, s) == ReadDigits(0 * 10 + (s[0] - 48), s[1..]);
  }

  lemma ReadDecimal(n: int, rest: Bytes)
    requires NoDigitFirst(rest)
    ensures ReadInteger(Decimal(n) + rest) == Some(Read(n, rest))
  {
    hide Digits;
    var size: nat := if n < 0 then -n else n;
    assert ReadDigits(size, rest) == Read(size, rest);
    ReadNatural(size, rest);
    ReadBack(size, rest);
    hide ReadDigits;
    if n < 0 {
      assert Decimal(n) + rest == [Minus] + (Digits(size) + rest);
      assert ([Minus] + (Digits(size) + rest))[1..] == Digits(size) + rest;
    }
  }
}
