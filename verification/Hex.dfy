/** Texts as the hexadecimal digits of their UTF-8 bytes, and back. */
module Hex {
  import opened Prelude
  import J = Json

  type Byte = b: int | 0 <= b < 256

  const REPLACEMENT := 0xFFFD

  /** A Unicode scalar value. */
  predicate IsScalar(p: int) {
    0 <= p < 0xD800 || 0xE000 <= p < 0x11_0000
  }

  /** What a decoder makes of the start of its input. */
  datatype Taken = Taken(point: nat, size: nat, wellFormed: bool)

  // ----- UTF-16 -----

  /** The first code point of a text; a surrogate without its partner is replaced. */
  function TakeUnits(t: Text): (r: Taken)
    requires t != []
    ensures IsScalar(r.point) && 1 <= r.size <= |t| && r.size <= 2
  {
    if J.IsLead(t[0]) && |t| > 1 && J.IsTrail(t[1]) then
      var (high: int, low: int) := (t[0] - 0xD800, t[1] - 0xDC00);
      Taken(0x1_0000 + high * 0x400 + low, 2, true)
    else if J.IsLead(t[0]) || J.IsTrail(t[0]) then Taken(REPLACEMENT, 1, false)
    else Taken(t[0], 1, true)
  }

  function Units(p: nat): (t: Text)
    requires IsScalar(p)
    ensures t != []
  {
    if p < 0x1_0000 then [p] else [0xD800 + (p - 0x1_0000) / 0x400, 0xDC00 + (p - 0x1_0000) % 0x400]
  }

  // ----- UTF-8 -----

  function Encode(p: nat): (b: seq<Byte>)
    requires IsScalar(p)
    ensures b != []
  {
    var q := p / 64;
    var r := q / 64;
    if p < 0x80 then [p]
    else if p < 0x800 then [0xC0 + q, 0x80 + p % 64]
    else if p < 0x1_0000 then [0xE0 + r, 0x80 + q % 64, 0x80 + p % 64]
    else [0xF0 + r / 64, 0x80 + r % 64, 0x80 + q % 64, 0x80 + p % 64]
  }

  /** How many bytes a first byte asks for; none for a byte that starts nothing. */
  function Needed(first: Byte): (n: nat)
    ensures n <= 3
  {
    if 0xC2 <= first <= 0xDF then 1
    else if 0xE0 <= first <= 0xEF then 2
    else if 0xF0 <= first <= 0xF4 then 3
    else 0
  }

  predicate Continues(b: Byte) {
    0x80 <= b <= 0xBF
  }

  /** Some first bytes narrow the range of the second: no overlong forms, surrogates or points beyond Unicode. */
  predicate Follows(first: Byte, second: Byte) {
    && Continues(second)
    && (first == 0xE0 ==> second >= 0xA0)
    && (first == 0xED ==> second <= 0x9F)
    && (first == 0xF0 ==> second >= 0x90)
    && (first == 0xF4 ==> second <= 0x8F)
  }

  /** How many of the needed bytes are there. */
  function Found(b: seq<Byte>): (n: nat)
    requires b != []
    ensures n <= Needed(b[0]) && n < |b|
  {
    if Needed(b[0]) == 0 || |b| < 2 || !Follows(b[0], b[1]) then 0
    else if Needed(b[0]) == 1 || |b| < 3 || !Continues(b[2]) then 1
    else if Needed(b[0]) == 2 || |b| < 4 || !Continues(b[3]) then 2
    else 3
  }

  /** The first code point of some bytes; what is malformed is replaced up to the byte that makes it so. */
  function TakeBytes(b: seq<Byte>): (r: Taken)
    requires b != []
    ensures IsScalar(r.point) && 1 <= r.size <= |b|
  {
    if b[0] < 0x80 then Taken(b[0], 1, true)
    else if Needed(b[0]) == 0 || Found(b) < Needed(b[0]) then Taken(REPLACEMENT, 1 + Found(b), false)
    else
      var (first: int, second: int) := (b[0], b[1] - 0x80);
      if Needed(b[0]) == 1 then Taken((first - 0xC0) * 64 + second, 2, true)
      else
        var third: int := b[2] - 0x80;
        if Needed(b[0]) == 2 then Taken(((first - 0xE0) * 64 + second) * 64 + third, 3, true)
        else
          var fourth: int := b[3] - 0x80;
          Taken((((first - 0xF0) * 64 + second) * 64 + third) * 64 + fourth, 4, true)
  }

  function Utf8(t: Text): seq<Byte>
    decreases |t|
  {
    if t == [] then [] else Encode(TakeUnits(t).point) + Utf8(t[TakeUnits(t).size..])
  }

  function FromUtf8(b: seq<Byte>): Text
    decreases |b|
  {
    if b == [] then [] else Units(TakeBytes(b).point) + FromUtf8(b[TakeBytes(b).size..])
  }

  // ----- Hexadecimal digits -----

  function BytesToHex(b: seq<Byte>): Text {
    if b == [] then [] else [J.HexDigit(b[0] / 16), J.HexDigit(b[0] % 16)] + BytesToHex(b[1..])
  }

  function ByteOf(high: nat, low: nat): Byte
    requires high < 16 && low < 16
  {
    16 * high + low
  }

  /** Decoding stops at the first pair that is not two digits. */
  function HexToBytes(t: Text): seq<Byte> {
    if |t| < 2 || J.HexValue(t[0]).None? || J.HexValue(t[1]).None? then []
    else [ByteOf(J.HexValue(t[0]).value, J.HexValue(t[1]).value)] + HexToBytes(t[2..])
  }

  const PREFIX: Text := ['0' as int, 'x' as int]

  function StrToHex(t: Text): Text {
    PREFIX + BytesToHex(Utf8(t))
  }

  /** The first two units are dropped, whatever they are. */
  function HexToStr(h: Text): Text {
    if |h| < 2 then [] else FromUtf8(HexToBytes(h[2..]))
  }

  // ----- One code point there and back -----

  lemma TakeEncoded(p: nat, rest: seq<Byte>)
    requires IsScalar(p)
    ensures TakeBytes(Encode(p) + rest) == Taken(p, |Encode(p)|, true)
  {
    var q := p / 64;
    var r := q / 64;
    var b := Encode(p) + rest;
    assert p == 64 * q + p % 64 && q == 64 * r + q % 64;
    assert forall i :: 0 <= i < |Encode(p)| ==> b[i] == Encode(p)[i];
    if p >= 0x1_0000 {
      assert r == 64 * (r / 64) + r % 64;
    }
  }

  lemma EncodeTaken(b: seq<Byte>)
    requires b != [] && TakeBytes(b).wellFormed
    ensures Encode(TakeBytes(b).point) == b[..TakeBytes(b).size]
  {
    if b[0] >= 0x80 && Needed(b[0]) == 2 {
      EncodeThree(b[0] - 0xE0, b[1] - 0x80, b[2] - 0x80);
    } else if b[0] >= 0x80 && Needed(b[0]) == 3 {
      EncodeFour(b[0] - 0xF0, b[1] - 0x80, b[2] - 0x80, b[3] - 0x80);
    }
  }

  lemma EncodeThree(x: nat, y: nat, z: nat)
    requires x < 16 && y < 64 && z < 64 && IsScalar((x * 64 + y) * 64 + z) && (x * 64 + y) * 64 + z >= 0x800
    ensures Encode((x * 64 + y) * 64 + z) == [0xE0 + x, 0x80 + y, 0x80 + z]
  {
    var p := (x * 64 + y) * 64 + z;
    assert p / 64 == x * 64 + y && p % 64 == z;
  }

  lemma EncodeFour(w: nat, x: nat, y: nat, z: nat)
    requires w < 8 && x < 64 && y < 64 && z < 64 && 0x1_0000 <= ((w * 64 + x) * 64 + y) * 64 + z < 0x11_0000
    ensures Encode(((w * 64 + x) * 64 + y) * 64 + z) == [0xF0 + w, 0x80 + x, 0x80 + y, 0x80 + z]
  {
    var q := (w * 64 + x) * 64 + y;
    var p := q * 64 + z;
    assert p / 64 == q && p % 64 == z;
    assert q / 64 == w * 64 + x && q % 64 == y;
  }

  lemma TakeOfUnits(p: nat, rest: Text)
    requires IsScalar(p)
    ensures TakeUnits(Units(p) + rest) == Taken(p, |Units(p)|, true)
  {
  }

  lemma UnitsOfTaken(t: Text)
    requires t != []
    ensures Units(TakeUnits(t).point) == t[..TakeUnits(t).size] <==> TakeUnits(t).wellFormed
  {
    if J.IsLead(t[0]) && |t| > 1 && J.IsTrail(t[1]) {
      var high: int, low: int := t[0] - 0xD800, t[1] - 0xDC00;
      assert (high * 0x400 + low) / 0x400 == high && (high * 0x400 + low) % 0x400 == low;
    }
  }

  // ----- Whole texts -----

  /** Every surrogate has its partner. */
  predicate WellFormed(t: Text)
    decreases |t|
  {
    t == [] || (TakeUnits(t).wellFormed && WellFormed(t[TakeUnits(t).size..]))
  }

  /** The text with every surrogate that has no partner replaced. */
  function Repaired(t: Text): Text
    decreases |t|
  {
    if t == [] then [] else Units(TakeUnits(t).point) + Repaired(t[TakeUnits(t).size..])
  }

  predicate ValidUtf8(b: seq<Byte>)
    decreases |b|
  {
    b == [] || (TakeBytes(b).wellFormed && ValidUtf8(b[TakeBytes(b).size..]))
  }

  lemma {:induction false} RepairedIff(t: Text)
    ensures Repaired(t) == t <==> WellFormed(t)
    decreases |t|
  {
    if t != [] {
      var taken := TakeUnits(t);
      RepairedIff(t[taken.size..]);
      UnitsOfTaken(t);
      assert t == t[..taken.size] + t[taken.size..];
      if Repaired(t) == t {
        RepairedStarts(t);
        assert Repaired(t)[taken.size..] == Repaired(t[taken.size..]);
      }
    }
  }

  /** Replacing a unit does not change how many there are. */
  lemma RepairedStarts(t: Text)
    requires t != []
    ensures |Units(TakeUnits(t).point)| == TakeUnits(t).size
    ensures Repaired(t)[..TakeUnits(t).size] == Units(TakeUnits(t).point)
  {
  }

  /** Decoding the bytes of a text gives the text with its lone surrogates replaced. */
  lemma {:induction false} FromUtf8OfUtf8(t: Text)
    ensures FromUtf8(Utf8(t)) == Repaired(t)
    decreases |t|
  {
    if t != [] {
      var taken := TakeUnits(t);
      var rest := Utf8(t[taken.size..]);
      FromUtf8OfUtf8(t[taken.size..]);
      TakeEncoded(taken.point, rest);
      assert (Encode(taken.point) + rest)[|Encode(taken.point)|..] == rest;
    }
  }

  lemma UnitsThenBytes(p: nat, rest: Text)
    requires IsScalar(p)
    ensures Utf8(Units(p) + rest) == Encode(p) + Utf8(rest)
  {
    TakeOfUnits(p, rest);
    assert (Units(p) + rest)[|Units(p)|..] == rest;
  }

  /** The bytes of the replacement character are well-formed, so no malformed bytes equal them. */
  lemma MalformedIsNoReplacement(b: seq<Byte>, rest: seq<Byte>)
    requires b != [] && !TakeBytes(b).wellFormed
    ensures Encode(REPLACEMENT) + rest != b
  {
    TakeEncoded(REPLACEMENT, rest);
  }

  lemma Utf8OfTaken(b: seq<Byte>)
    requires b != []
    ensures Utf8(FromUtf8(b)) == Encode(TakeBytes(b).point) + Utf8(FromUtf8(b[TakeBytes(b).size..]))
  {
    UnitsThenBytes(TakeBytes(b).point, FromUtf8(b[TakeBytes(b).size..]));
  }

  lemma TakenComesBack(b: seq<Byte>, back: seq<Byte>)
    requires b != [] && TakeBytes(b).wellFormed
    ensures Encode(TakeBytes(b).point) + back == b <==> back == b[TakeBytes(b).size..]
  {
    EncodeTaken(b);
    var first := b[..TakeBytes(b).size];
    assert b == first + b[|first|..];
    assert (first + back)[|first|..] == back;
  }

  /** Encoding decoded bytes gives them back exactly when they are valid. */
  lemma {:induction false} Utf8OfFromUtf8Iff(b: seq<Byte>)
    ensures Utf8(FromUtf8(b)) == b <==> ValidUtf8(b)
    decreases |b|
  {
    if b != [] {
      var rest := b[TakeBytes(b).size..];
      Utf8OfFromUtf8Iff(rest);
      Utf8OfTaken(b);
      if TakeBytes(b).wellFormed {
        TakenComesBack(b, Utf8(FromUtf8(rest)));
      } else {
        MalformedIsNoReplacement(b, Utf8(FromUtf8(rest)));
      }
    }
  }

  lemma {:induction false} HexBack(b: seq<Byte>)
    ensures HexToBytes(BytesToHex(b)) == b
  {
    if b != [] {
      J.ReadHexDigitBack(b[0] / 16);
      J.ReadHexDigitBack(b[0] % 16);
      HexBack(b[1..]);
      assert BytesToHex(b)[2..] == BytesToHex(b[1..]);
      assert b == [b[0]] + b[1..];
    }
  }

  predicate IsLowerHexDigit(u: Unit) {
    J.IsDigit(u) || 'a' as int <= u <= 'f' as int
  }

  lemma LowerDigitBack(u: Unit)
    ensures IsLowerHexDigit(u) <==> J.HexValue(u).Some? && J.HexDigit(J.HexValue(u).value) == u
  {
  }

  predicate LowerHexPairs(t: Text) {
    |t| % 2 == 0 && forall i :: 0 <= i < |t| ==> IsLowerHexDigit(t[i])
  }

  lemma HexOfNext(high: nat, low: nat, rest: seq<Byte>)
    requires high < 16 && low < 16
    ensures BytesToHex([ByteOf(high, low)] + rest) == [J.HexDigit(high), J.HexDigit(low)] + BytesToHex(rest)
  {
    var b := ByteOf(high, low);
    assert b / 16 == high && b % 16 == low;
    assert ([b] + rest)[1..] == rest;
  }

  /** The digits kept, each pair in lower case. */
  function Kept(t: Text): Text {
    if |t| < 2 || J.HexValue(t[0]).None? || J.HexValue(t[1]).None? then []
    else [J.HexDigit(J.HexValue(t[0]).value), J.HexDigit(J.HexValue(t[1]).value)] + Kept(t[2..])
  }

  lemma {:induction false} HexOfBytes(t: Text)
    ensures BytesToHex(HexToBytes(t)) == Kept(t)
    decreases |t|
  {
    if |t| >= 2 && J.HexValue(t[0]).Some? && J.HexValue(t[1]).Some? {
      HexOfBytes(t[2..]);
      HexOfNext(J.HexValue(t[0]).value, J.HexValue(t[1]).value, HexToBytes(t[2..]));
    }
  }

  lemma LowerPairsNext(t: Text)
    requires |t| >= 2
    ensures LowerHexPairs(t) <==> IsLowerHexDigit(t[0]) && IsLowerHexDigit(t[1]) && LowerHexPairs(t[2..])
  {
    if IsLowerHexDigit(t[0]) && IsLowerHexDigit(t[1]) && LowerHexPairs(t[2..]) {
      assert forall i :: 2 <= i < |t| ==> t[i] == t[2..][i - 2];
    }
    if LowerHexPairs(t) {
      assert forall i :: 0 <= i < |t| - 2 ==> t[2..][i] == t[i + 2];
    }
  }

  lemma SamePairs(a: Unit, b: Unit, x: Text, c: Unit, d: Unit, y: Text)
    ensures [a, b] + x == [c, d] + y <==> a == c && b == d && x == y
  {
    var s, t := [a, b] + x, [c, d] + y;
    assert s[0] == a && s[1] == b && s[2..] == x;
    assert t[0] == c && t[1] == d && t[2..] == y;
  }

  lemma KeptNext(t: Text)
    requires |t| >= 2
    ensures Kept(t) == t <==> IsLowerHexDigit(t[0]) && IsLowerHexDigit(t[1]) && Kept(t[2..]) == t[2..]
  {
    LowerDigitBack(t[0]);
    LowerDigitBack(t[1]);
    var (high, low) := (J.HexValue(t[0]), J.HexValue(t[1]));
    if high.Some? && low.Some? {
      assert t == [t[0], t[1]] + t[2..];
      SamePairs(J.HexDigit(high.value), J.HexDigit(low.value), Kept(t[2..]), t[0], t[1], t[2..]);
    }
  }

  lemma {:induction false} KeptIff(t: Text)
    ensures Kept(t) == t <==> LowerHexPairs(t)
    decreases |t|
  {
    if |t| >= 2 {
      KeptIff(t[2..]);
      LowerPairsNext(t);
      KeptNext(t);
    }
  }

  /** Digits come back from their bytes exactly when they are lower-case and paired. */
  lemma DigitsBackIff(t: Text)
    ensures BytesToHex(HexToBytes(t)) == t <==> LowerHexPairs(t)
  {
    HexOfBytes(t);
    KeptIff(t);
  }

  /** A text comes back from its hexadecimal form with lone surrogates replaced, so unchanged exactly when it has none. */
  lemma HexToStrUndoesStrToHex(t: Text)
    ensures HexToStr(StrToHex(t)) == Repaired(t)
    ensures HexToStr(StrToHex(t)) == t <==> WellFormed(t)
  {
    FromUtf8OfUtf8(t);
    HexBack(Utf8(t));
    RepairedIff(t);
    assert StrToHex(t)[2..] == BytesToHex(Utf8(t));
  }

  /** The hexadecimal forms of texts. */
  predicate IsTextHex(h: Text) {
    PREFIX <= h && LowerHexPairs(h[2..]) && ValidUtf8(HexToBytes(h[2..]))
  }

  /** A hexadecimal form comes back from its text exactly when it is one. */
  lemma StrToHexUndoesHexToStr(h: Text)
    ensures StrToHex(HexToStr(h)) == h <==> IsTextHex(h)
  {
    if |h| >= 2 {
      var digits := h[2..];
      var bytes := HexToBytes(digits);
      Utf8OfFromUtf8Iff(bytes);
      DigitsBackIff(digits);
      assert h == h[..2] + digits;
      assert StrToHex(HexToStr(h))[2..] == BytesToHex(Utf8(FromUtf8(bytes)));
      HexBack(Utf8(FromUtf8(bytes)));
      if StrToHex(HexToStr(h)) == h {
        assert digits == BytesToHex(Utf8(FromUtf8(bytes)));
      }
    }
  }

  /** No decoder leaves a surrogate without its partner. */
  lemma {:induction false} DecodedIsWellFormed(b: seq<Byte>)
    ensures WellFormed(FromUtf8(b))
    decreases |b|
  {
    if b != [] {
      var (p, rest) := (TakeBytes(b).point, FromUtf8(b[TakeBytes(b).size..]));
      DecodedIsWellFormed(b[TakeBytes(b).size..]);
      TakeOfUnits(p, rest);
      assert (Units(p) + rest)[|Units(p)|..] == rest;
    }
  }

  /** Decoding is the same again after encoding what was decoded, canonical or not. */
  lemma HexToStrSettles(h: Text)
    ensures HexToStr(StrToHex(HexToStr(h))) == HexToStr(h)
  {
    HexToStrUndoesStrToHex(HexToStr(h));
    if |h| >= 2 {
      DecodedIsWellFormed(HexToBytes(h[2..]));
    }
  }
}
