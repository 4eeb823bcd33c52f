/** The browser's text codec: JavaScript strings are sequences of UTF-16 code units, the
    encoder replaces lone surrogates and writes UTF-8 (section 3 of RFC 3629), and the
    decoder drops a leading byte order mark. */
module TextEncoding {
  import opened Helpers

  type Unit = x: int | 0 <= x < 0x10000
  type Scalar = x: int | 0 <= x < 0x110000 && !(0xD800 <= x < 0xE000)
  type Text = seq<Unit>

  const REPLACEMENT: Scalar := 0xFFFD
  const BYTE_ORDER_MARK: Scalar := 0xFEFF

  // ---------------------------------------------------------------------------
  // Code units and scalar values
  // ---------------------------------------------------------------------------

  predicate High(u: Unit) { 0xD800 <= u < 0xDC00 }

  predicate Low(u: Unit) { 0xDC00 <= u < 0xE000 }

  predicate Paired(t: Text) { |t| > 1 && High(t[0]) && Low(t[1]) }

  function Pair(h: Unit, l: Unit): Scalar
    requires High(h) && Low(l)
  {
    0x10000 + (h as int - 0xD800) * 1024 + (l as int - 0xDC00)
  }

  function Scalars(t: Text): seq<Scalar> {
    if t == [] then []
    else if Paired(t) then [Pair(t[0], t[1])] + Scalars(t[2..])
    else if High(t[0]) || Low(t[0]) then [REPLACEMENT] + Scalars(t[1..])
    else [t[0]] + Scalars(t[1..])
  }

  function UnitsOf(c: Scalar): Text {
    if c < 0x10000 then [c] else [0xD800 + (c - 0x10000) / 1024, 0xDC00 + (c - 0x10000) % 1024]
  }

  function Units(cs: seq<Scalar>): Text { if cs == [] then [] else UnitsOf(cs[0]) + Units(cs[1..]) }

  /** No surrogate without its partner. */
  predicate WellFormed(t: Text) {
    t == [] || (if Paired(t) then WellFormed(t[2..]) else !High(t[0]) && !Low(t[0]) && WellFormed(t[1..]))
  }

  /** The text with every lone surrogate replaced. */
  function Repaired(t: Text): Text { Units(Scalars(t)) }

  lemma PairUnits(h: Unit, l: Unit)
    requires High(h) && Low(l)
    ensures UnitsOf(Pair(h, l)) == [h, l]
  {
  }

  /** Pairs count the scalar values beyond the basic plane in order: of any two, the one with
      the smaller high unit, or the same and the smaller low unit, is the smaller, and they
      reach from the first to the last. */
  lemma PairsInOrder(h: Unit, l: Unit, h': Unit, l': Unit)
    requires High(h) && Low(l) && High(h') && Low(l')
    ensures 0x10000 <= Pair(h, l) < 0x110000
    ensures Pair(h, l) < Pair(h', l') <==> h < h' || (h == h' && l < l')
    ensures Pair(0xD800, 0xDC00) == 0x10000 && Pair(0xDBFF, 0xDFFF) == 0x10FFFF
  {
  }

  lemma UnitsCons(c: Scalar, cs: seq<Scalar>)
    ensures Units([c] + cs) == UnitsOf(c) + Units(cs)
  {
    assert ([c] + cs)[1..] == cs;
  }

  /** Repairing keeps the length and every unit except lone surrogates, for which it puts the
      replacement character, and changes the text exactly if it is not well formed. */
  lemma {:induction false} RepairedExactly(t: Text)
    ensures |Repaired(t)| == |t|
    ensures forall i :: 0 <= i < |t| ==>
      Repaired(t)[i] == t[i] || (Repaired(t)[i] == 0xFFFD && (High(t[i]) || Low(t[i])))
    ensures Repaired(t) == t <==> WellFormed(t)
  {
    if t == [] {
    } else if Paired(t) {
      PairUnits(t[0], t[1]);
      UnitsCons(Pair(t[0], t[1]), Scalars(t[2..]));
      RepairedExactly(t[2..]);
      assert Repaired(t) == [t[0], t[1]] + Repaired(t[2..]) && t == [t[0], t[1]] + t[2..];
      assert Repaired(t)[2..] == Repaired(t[2..]);
    } else {
      var c: Scalar := if High(t[0]) || Low(t[0]) then REPLACEMENT else t[0];
      UnitsCons(c, Scalars(t[1..]));
      RepairedExactly(t[1..]);
      assert Repaired(t) == [c] + Repaired(t[1..]) && t == [t[0]] + t[1..];
      assert Repaired(t)[0] == c && Repaired(t)[1..] == Repaired(t[1..]);
    }
  }

  // ---------------------------------------------------------------------------
  // Scalar values and UTF-8
  // ---------------------------------------------------------------------------

  function Utf8Of(c: Scalar): seq<Byte> {
    if c < 0x80 then [c]
    else if c < 0x800 then [0xC0 + c / 64, 0x80 + c % 64]
    else if c < 0x10000 then [0xE0 + c / 4096, 0x80 + c / 64 % 64, 0x80 + c % 64]
    else [0xF0 + c / 262144, 0x80 + c / 4096 % 64, 0x80 + c / 64 % 64, 0x80 + c % 64]
  }

  function Utf8(cs: seq<Scalar>): seq<Byte> { if cs == [] then [] else Utf8Of(cs[0]) + Utf8(cs[1..]) }

  function OrReplacement(x: int): Scalar { if 0 <= x < 0x110000 && !(0xD800 <= x < 0xE000) then x else REPLACEMENT }

  function Two(x: int, y: int): Scalar { OrReplacement((x - 0xC0) * 64 + (y - 0x80)) }

  function Three(x: int, y: int, z: int): Scalar { OrReplacement((x - 0xE0) * 4096 + (y - 0x80) * 64 + (z - 0x80)) }

  function Four(x: int, y: int, z: int, w: int): Scalar {
    OrReplacement((x - 0xF0) * 262144 + (y - 0x80) * 4096 + (z - 0x80) * 64 + (w - 0x80))
  }

  function Unutf8(b: seq<Byte>): seq<Scalar> {
    if b == [] then []
    else if b[0] < 0x80 then [b[0]] + Unutf8(b[1..])
    else if 0xC0 <= b[0] < 0xE0 && |b| > 1 then [Two(b[0], b[1])] + Unutf8(b[2..])
    else if 0xE0 <= b[0] < 0xF0 && |b| > 2 then [Three(b[0], b[1], b[2])] + Unutf8(b[3..])
    else if 0xF0 <= b[0] && |b| > 3 then [Four(b[0], b[1], b[2], b[3])] + Unutf8(b[4..])
    else [REPLACEMENT] + Unutf8(b[1..])
  }

  lemma Digits64(c: int)
    requires 0 <= c < 0x110000
    ensures c == c / 64 * 64 + c % 64
    ensures c / 64 == c / 4096 * 64 + c / 64 % 64
    ensures c / 4096 == c / 262144 * 64 + c / 4096 % 64
  {
  }

  /** A byte that starts with the bits 10 and has six more. */
  predicate Continues(b: Byte) { 0x80 <= b < 0xC0 }

  /** What follows the mark. */
  function Bits(b: Byte, mark: int): int { b as int - mark }

  /** The table of section 3 of RFC 3629: how many bytes a scalar value takes, the marks of the
      first and the following ones, and that their free bits spell it. */
  lemma Utf8IsStandard(c: Scalar)
    ensures var u := Utf8Of(c);
      if c < 0x80 then u == [c]
      else if c < 0x800 then
        |u| == 2 && 0xC0 <= u[0] < 0xE0 && Continues(u[1]) && c == Bits(u[0], 0xC0) * 64 + Bits(u[1], 0x80)
      else if c < 0x10000 then
        && |u| == 3 && 0xE0 <= u[0] < 0xF0 && Continues(u[1]) && Continues(u[2])
        && c == (Bits(u[0], 0xE0) * 64 + Bits(u[1], 0x80)) * 64 + Bits(u[2], 0x80)
      else
        && |u| == 4 && 0xF0 <= u[0] < 0xF8 && Continues(u[1]) && Continues(u[2]) && Continues(u[3])
        && c == ((Bits(u[0], 0xF0) * 64 + Bits(u[1], 0x80)) * 64 + Bits(u[2], 0x80)) * 64 + Bits(u[3], 0x80)
  {
    Digits64(c);
  }

  lemma ReadOne(c: Scalar, rest: seq<Byte>)
    ensures Unutf8(Utf8Of(c) + rest) == [c] + Unutf8(rest)
  {
    Digits64(c);
    var b := Utf8Of(c) + rest;
    assert b[|Utf8Of(c)|..] == rest;
  }

  lemma {:induction false} ReadUtf8(cs: seq<Scalar>)
    ensures Unutf8(Utf8(cs)) == cs
  {
    if cs != [] {
      ReadOne(cs[0], Utf8(cs[1..]));
      ReadUtf8(cs[1..]);
    }
  }

  // ---------------------------------------------------------------------------
  // The codec
  // ---------------------------------------------------------------------------

  /** `new TextEncoder().encode`. */
  function Encoded(t: Text): seq<Byte> { Utf8(Scalars(t)) }

  function WithoutMark(cs: seq<Scalar>): seq<Scalar> {
    if cs != [] && cs[0] == BYTE_ORDER_MARK then cs[1..] else cs
  }

  /** `new TextDecoder().decode`. */
  function Decoded(b: seq<Byte>): Text { Units(WithoutMark(Unutf8(b))) }

  predicate Marked(t: Text) { t != [] && t[0] == 0xFEFF }

  /** The text repaired and without its mark. */
  function ReadBack(t: Text): (r: Text)
    ensures r == t <==> WellFormed(t) && !Marked(t)
  {
    RepairedExactly(t);
    if Marked(t) then Repaired(t)[1..] else Repaired(t)
  }

  lemma FirstScalar(t: Text)
    ensures Marked(t) <==> Scalars(t) != [] && Scalars(t)[0] == BYTE_ORDER_MARK
    ensures |Repaired(t)| == |t|
    ensures Marked(t) ==> Repaired(t)[1..] == Units(Scalars(t)[1..])
  {
    RepairedExactly(t);
    if Marked(t) {
      UnitsCons(BYTE_ORDER_MARK, Scalars(t[1..]));
      assert Scalars(t)[1..] == Scalars(t[1..]);
    }
  }

  /** For every text: what comes back is the text with its lone surrogates replaced and a
      leading byte order mark dropped, so it comes back unchanged if and only if it has
      neither. */
  lemma TextRoundTrip(t: Text)
    ensures Decoded(Encoded(t)) == ReadBack(t)
    ensures Decoded(Encoded(t)) == t <==> WellFormed(t) && !Marked(t)
  {
    ReadUtf8(Scalars(t));
    FirstScalar(t);
    RepairedExactly(t);
  }
}
