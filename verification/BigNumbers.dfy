/** Signed amounts as the hexadecimal texts a BigNumber keeps. */
module BigNumbers {
  import opened Prelude
  import J = Json
  import Hex

  /** Two digits for every byte, and no leading zero byte. */
  predicate CanonicalDigits(d: Text) {
    |d| >= 2 && |d| % 2 == 0 && IsHexDigits(d) && (|d| > 2 ==> !(d[0] == J.ZERO && d[1] == J.ZERO))
  }

  predicate IsHexDigits(d: Text) {
    forall i :: 0 <= i < |d| ==> J.HexValue(d[i]).Some?
  }

  const ZERO_BYTE: Text := [J.ZERO, J.ZERO]

  function SignedHex(negative: bool, digits: Text): Text {
    (if negative then [J.MINUS] else []) + Hex.PREFIX + digits
  }

  /** The parts of a signed hexadecimal text, if it is one. */
  function Split(t: Text): (r: Option<(bool, Text)>)
    ensures r.Some? ==> t == SignedHex(r.value.0, r.value.1) && r.value.1 != [] && IsHexDigits(r.value.1)
  {
    var negative := t != [] && t[0] == J.MINUS;
    var u := if negative then t[1..] else t;
    if Hex.PREFIX <= u && |u| > 2 && IsHexDigits(u[2..]) then Some((negative, u[2..])) else None
  }

  /** Zero has no sign. */
  predicate IsCanonical(t: Text) {
    match Split(t)
    case None => false
    case Some((negative, digits)) => CanonicalDigits(digits) && !(negative && digits == ZERO_BYTE)
  }

  datatype Big = Big(hex: Text)

  type BigNumber = b: Big | IsCanonical(b.hex) witness Big([J.ZERO, 'x' as int, J.ZERO, J.ZERO])

  function ToHexString(b: BigNumber): Text {
    b.hex
  }

  function HexNat(d: Text): nat
    requires IsHexDigits(d)
  {
    if d == [] then 0 else 16 * HexNat(d[..|d| - 1]) + J.HexValue(d[|d| - 1]).value
  }

  /** `toBigInt`. */
  function IntOf(b: BigNumber): int {
    var (negative, digits) := Split(b.hex).value;
    if negative then 0 - HexNat(digits) else HexNat(digits)
  }

  function Padded(d: Text): Text {
    if |d| % 2 == 1 then [J.ZERO] + d else d
  }

  function Stripped(d: Text): Text {
    if |d| > 2 && d[0] == J.ZERO && d[1] == J.ZERO then Stripped(d[2..]) else d
  }

  lemma SplitSigned(negative: bool, digits: Text)
    requires digits != [] && IsHexDigits(digits)
    ensures Split(SignedHex(negative, digits)) == Some((negative, digits))
  {
    var t := SignedHex(negative, digits);
    var u := Hex.PREFIX + digits;
    assert u[..2] == Hex.PREFIX && u[2..] == digits;
    if negative {
      assert t == [J.MINUS] + u && t[1..] == u;
    } else {
      assert t == u;
    }
  }

  lemma {:induction false} StrippedIsCanonical(d: Text)
    requires |d| >= 2 && |d| % 2 == 0 && IsHexDigits(d)
    ensures CanonicalDigits(Stripped(d))
    ensures Stripped(d) == d <==> CanonicalDigits(d)
    ensures HexNat(Stripped(d)) == HexNat(d)
    decreases |d|
  {
    if |d| > 2 && d[0] == J.ZERO && d[1] == J.ZERO {
      StrippedIsCanonical(d[2..]);
      LeadingZero(d[2..]);
      LeadingZero(d[1..]);
      assert d[1..] == [J.ZERO] + d[2..] && d == [J.ZERO] + d[1..];
      StrippedIsShorter(d[2..]);
    }
  }

  lemma {:induction false} StrippedIsShorter(d: Text)
    ensures |Stripped(d)| <= |d|
    decreases |d|
  {
    if |d| > 2 && d[0] == J.ZERO && d[1] == J.ZERO {
      StrippedIsShorter(d[2..]);
    }
  }

  lemma {:induction false} LeadingZero(d: Text)
    requires IsHexDigits(d)
    ensures IsHexDigits([J.ZERO] + d) && HexNat([J.ZERO] + d) == HexNat(d)
    decreases |d|
  {
    var t := [J.ZERO] + d;
    if d == [] {
      assert t[..0] == [];
    } else {
      LeadingZero(d[..|d| - 1]);
      assert t[..|t| - 1] == [J.ZERO] + d[..|d| - 1];
    }
  }

  lemma PaddedMeans(d: Text)
    requires d != [] && IsHexDigits(d)
    ensures |Padded(d)| >= 2 && |Padded(d)| % 2 == 0 && IsHexDigits(Padded(d))
    ensures HexNat(Padded(d)) == HexNat(d)
    ensures |d| % 2 == 0 ==> Padded(d) == d
  {
    if |d| % 2 == 1 {
      LeadingZero(d);
    }
  }

  /** The digits of a number, padded to whole bytes and without leading zero bytes. */
  function Bytes(digits: Text): (d: Text)
    requires digits != [] && IsHexDigits(digits)
    ensures CanonicalDigits(d)
  {
    PaddedMeans(digits);
    StrippedIsCanonical(Padded(digits));
    Stripped(Padded(digits))
  }

  lemma BytesMean(digits: Text)
    requires digits != [] && IsHexDigits(digits)
    ensures HexNat(Bytes(digits)) == HexNat(digits)
    ensures Bytes(digits) == digits <==> CanonicalDigits(digits)
  {
    PaddedMeans(digits);
    StrippedIsCanonical(Padded(digits));
  }

  /** The BigNumber of some hexadecimal digits; zero loses its sign. */
  function Make(negative: bool, digits: Text): BigNumber
    requires digits != [] && IsHexDigits(digits)
  {
    var d := Bytes(digits);
    var kept := negative && d != ZERO_BYTE;
    SplitSigned(kept, d);
    Big(SignedHex(kept, d))
  }

  lemma ZeroByteIsZero()
    ensures HexNat(ZERO_BYTE) == 0
  {
    assert [J.ZERO][..0] == [];
    assert HexNat([J.ZERO]) == 0;
    assert ZERO_BYTE[..1] == [J.ZERO];
  }

  lemma MakeMeans(negative: bool, digits: Text)
    requires digits != [] && IsHexDigits(digits)
    ensures IntOf(Make(negative, digits)) == if negative then 0 - HexNat(digits) else HexNat(digits)
  {
    var d := Bytes(digits);
    SplitSigned(negative && d != ZERO_BYTE, d);
    BytesMean(digits);
    ZeroByteIsZero();
  }

  lemma MakeKeepsIff(negative: bool, digits: Text)
    requires digits != [] && IsHexDigits(digits)
    ensures ToHexString(Make(negative, digits)) == SignedHex(negative, digits) <==> IsCanonical(SignedHex(negative, digits))
  {
    var d := Bytes(digits);
    SplitSigned(negative && d != ZERO_BYTE, d);
    SplitSigned(negative, digits);
    BytesMean(digits);
  }

  function HexDigits(n: nat): (d: Text)
    ensures d != [] && IsHexDigits(d)
  {
    if n < 16 then [J.HexDigit(n)] else HexDigits(n / 16) + [J.HexDigit(n % 16)]
  }

  lemma {:induction false} HexNatOfDigits(n: nat)
    ensures HexNat(HexDigits(n)) == n
  {
    var d := HexDigits(n);
    if n < 16 {
      J.ReadHexDigitBack(n);
      assert d[..0] == [];
    } else {
      HexNatOfDigits(n / 16);
      J.ReadHexDigitBack(n % 16);
      assert d[..|d| - 1] == HexDigits(n / 16);
    }
  }

  function DecimalNat(d: Text): nat
    requires forall i :: 0 <= i < |d| ==> J.IsDigit(d[i])
  {
    if d == [] then 0
    else
      assert J.IsDigit(d[|d| - 1]);
      10 * DecimalNat(d[..|d| - 1]) + (d[|d| - 1] - J.ZERO)
  }

  /** `BigNumber.from` of a number. */
  function OfInt(n: int): (b: BigNumber)
    ensures IntOf(b) == n
  {
    var magnitude: nat := if n < 0 then 0 - n else n;
    HexNatOfDigits(magnitude);
    MakeMeans(n < 0, HexDigits(magnitude));
    Make(n < 0, HexDigits(magnitude))
  }

  /** `BigNumber.from` of a text: hexadecimal or decimal digits with an optional sign, or an error. */
  function FromText(t: Text): Result<BigNumber> {
    match Split(t)
    case Some((negative, digits)) => Ok(Make(negative, digits))
    case None =>
      var negative := t != [] && t[0] == J.MINUS;
      var u := if negative then t[1..] else t;
      if u != [] && forall i :: 0 <= i < |u| ==> J.IsDigit(u[i]) then
        Ok(OfInt(if negative then 0 - DecimalNat(u) else DecimalNat(u)))
      else Thrown("invalid BigNumber string")
  }

  /** Reading and writing an amount keeps its text exactly when the text is canonical. */
  lemma FromTextKeepsIff(t: Text)
    ensures FromText(t).Ok? && ToHexString(FromText(t).value) == t <==> IsCanonical(t)
  {
    if Split(t).Some? {
      MakeKeepsIff(Split(t).value.0, Split(t).value.1);
    } else if FromText(t).Ok? {
      assert Split(FromText(t).value.hex).Some?;
    }
  }

  lemma FromOwnText(b: BigNumber)
    ensures FromText(ToHexString(b)) == Ok(b)
  {
    FromTextKeepsIff(b.hex);
  }
}
