/** The part of JSON the wire formats use, with string escaping after section 7 of RFC 8259. */
module Json {
  import opened Prelude

  /** The integers a double represents without loss. */
  type SafeInt = n: int | -0x1F_FFFF_FFFF_FFFF <= n <= 0x1F_FFFF_FFFF_FFFF

  datatype Json =
    | JNull
    | JBool(truth: bool)
    | JNum(number: SafeInt)
    | JStr(text: Text)
    | JArr(items: seq<Json>)

  const QUOTE: Unit := '"' as int
  const BACKSLASH: Unit := '\\' as int
  const OPEN: Unit := '[' as int
  const CLOSE: Unit := ']' as int
  const COMMA: Unit := ',' as int
  const MINUS: Unit := '-' as int
  const ZERO: Unit := '0' as int
  const LETTER_U: Unit := 'u' as int

  const NULL: Text := [110, 117, 108, 108]
  const TRUE: Text := [116, 114, 117, 101]
  const FALSE: Text := [102, 97, 108, 115, 101]

  /** The least number of code units a text for `v` has. */
  function Weight(v: Json): (w: nat)
    ensures w > 0
    decreases v, 1
  {
    match v
    case JStr(text) => |text| + 2
    case JArr(items) => 2 + Weights(items)
    case _ => 1
  }

  function Weights(items: seq<Json>): (w: nat)
    ensures forall i :: 0 <= i < |items| ==> Weight(items[i]) <= w
    decreases items, 0
  {
    if items == [] then 0 else Weight(items[0]) + Weights(items[1..])
  }

  // ----- Writing -----

  function Digits(n: nat): (t: Text)
    ensures t != [] && forall u :: u in t ==> IsDigit(u)
    ensures t[0] == ZERO ==> n == 0 && |t| == 1
  {
    if n < 10 then [ZERO + n] else Digits(n / 10) + [ZERO + n % 10]
  }

  function HexDigit(d: nat): (u: Unit)
    requires d < 16
  {
    if d < 10 then ZERO + d else 'a' as int + (d - 10)
  }

  function Hex4(u: Unit): Text {
    var (b, c) := (u / 16 / 16, u / 16);
    [HexDigit(b / 16), HexDigit(b % 16), HexDigit(c % 16), HexDigit(u % 16)]
  }

  predicate IsLead(u: Unit) {
    0xD800 <= u < 0xDC00
  }

  predicate IsTrail(u: Unit) {
    0xDC00 <= u < 0xE000
  }

  /** The letter of a two-character escape. */
  function ShortEscape(u: Unit): Option<Unit> {
    if u == QUOTE || u == BACKSLASH then Some(u)
    else if u == 8 then Some('b' as int)
    else if u == 12 then Some('f' as int)
    else if u == 10 then Some('n' as int)
    else if u == 13 then Some('r' as int)
    else if u == 9 then Some('t' as int)
    else None
  }

  function EscapedUnit(u: Unit): Text {
    if ShortEscape(u).Some? then [BACKSLASH, ShortEscape(u).value]
    else if u < 0x20 || IsLead(u) || IsTrail(u) then [BACKSLASH, LETTER_U] + Hex4(u)
    else [u]
  }

  /** Surrogate pairs stay as they are; a surrogate without its partner is escaped. */
  function Escaped(t: Text): Text {
    if t == [] then []
    else if |t| > 1 && IsLead(t[0]) && IsTrail(t[1]) then t[..2] + Escaped(t[2..])
    else EscapedUnit(t[0]) + Escaped(t[1..])
  }

  /** `JSON.stringify` of a value. */
  function Stringify(v: Json): Text
    decreases v, 1
  {
    match v
    case JNull => NULL
    case JBool(truth) => if truth then TRUE else FALSE
    case JNum(n) => if n < 0 then [MINUS] + Digits(-n) else Digits(n)
    case JStr(text) => [QUOTE] + Escaped(text) + [QUOTE]
    case JArr(items) => [OPEN] + Joined(items) + [CLOSE]
  }

  function Joined(items: seq<Json>): Text
    decreases items, 0
  {
    if items == [] then []
    else if |items| == 1 then Stringify(items[0])
    else Stringify(items[0]) + [COMMA] + Joined(items[1..])
  }

  /** The fixed texts and signs of the format, and lower case in `\\u` escapes. */
  lemma FixedTexts()
    ensures NULL == Units("null") && TRUE == Units("true") && FALSE == Units("false")
    ensures [OPEN, CLOSE, COMMA, MINUS, QUOTE, BACKSLASH, LETTER_U] == Units("[],-\"\\u")
    ensures forall d :: 0 <= d < 10 ==> Digits(d) == Units([("0123456789")[d]])
    ensures forall d :: 0 <= d < 16 ==> HexDigit(d) == Units("0123456789abcdef")[d]
  {
  }

  // ----- Reading -----

  predicate IsSpace(u: Unit) {
    u == 0x20 || u == 0x09 || u == 0x0A || u == 0x0D
  }

  predicate IsDigit(u: Unit) {
    ZERO <= u < ZERO + 10
  }

  function Skip(t: Text): (r: Text)
    ensures |r| <= |t|
    ensures r != [] ==> !IsSpace(r[0])
  {
    if t != [] && IsSpace(t[0]) then Skip(t[1..]) else t
  }

  /** The number the leading digits stand for, after `sofar`, and what follows them. */
  function ReadDigits(t: Text, sofar: nat): (r: (nat, Text))
    ensures |r.1| <= |t|
    ensures t != [] && IsDigit(t[0]) ==> |r.1| < |t|
    ensures r.1 != [] ==> !IsDigit(r.1[0])
  {
    if t != [] && IsDigit(t[0]) then ReadDigits(t[1..], 10 * sofar + (t[0] - ZERO)) else (sofar, t)
  }

  const UNMODELLED := "a number outside the model"
  const SYNTAX := "SyntaxError"

  /** Digits without a leading zero; what could continue as a fraction or exponent is not modelled. */
  function ReadNat(t: Text): (r: Result<(nat, Text)>)
    ensures r.Ok? ==> |r.value.1| < |t|
  {
    if t == [] || !IsDigit(t[0]) then Thrown(SYNTAX)
    else
      var (n, rest) := ReadDigits(t, 0);
      if t[0] == ZERO && |rest| < |t| - 1 then Thrown(SYNTAX)
      else if rest != [] && rest[0] in {'.' as int, 'e' as int, 'E' as int} then Thrown(UNMODELLED)
      else Ok((n, rest))
  }

  function ReadNumber(t: Text): (r: Result<(Json, Text)>)
    ensures r.Ok? ==> |r.value.1| + Weight(r.value.0) <= |t|
  {
    var negative := t != [] && t[0] == MINUS;
    var (n, rest) :- ReadNat(if negative then t[1..] else t);
    if n > 0x1F_FFFF_FFFF_FFFF then Thrown(UNMODELLED) else Ok((JNum(if negative then 0 - n else n), rest))
  }

  function HexValue(u: Unit): (d: Option<nat>)
    ensures d.Some? ==> d.value < 16
  {
    if IsDigit(u) then Some(u - ZERO)
    else if 'a' as int <= u <= 'f' as int then Some(u - 'a' as int + 10)
    else if 'A' as int <= u <= 'F' as int then Some(u - 'A' as int + 10)
    else None
  }

  function ReadHex4(t: Text): (r: Option<Unit>)
    requires |t| == 4
  {
    var (a, b, c, d) := (HexValue(t[0]), HexValue(t[1]), HexValue(t[2]), HexValue(t[3]));
    if a.Some? && b.Some? && c.Some? && d.Some? then Some(16 * (16 * (16 * a.value + b.value) + c.value) + d.value)
    else None
  }

  function ShortUnescape(u: Unit): Option<Unit> {
    if u == QUOTE || u == BACKSLASH || u == '/' as int then Some(u)
    else if u == 'b' as int then Some(8)
    else if u == 'f' as int then Some(12)
    else if u == 'n' as int then Some(10)
    else if u == 'r' as int then Some(13)
    else if u == 't' as int then Some(9)
    else None
  }

  /** The unit an escape stands for, after its backslash. */
  function ReadEscape(t: Text): (r: Result<(Unit, Text)>)
    ensures r.Ok? ==> |r.value.1| < |t|
  {
    if t == [] then Thrown(SYNTAX)
    else if ShortUnescape(t[0]).Some? then Ok((ShortUnescape(t[0]).value, t[1..]))
    else if t[0] == LETTER_U && |t| >= 5 && ReadHex4(t[1..5]).Some? then Ok((ReadHex4(t[1..5]).value, t[5..]))
    else Thrown(SYNTAX)
  }

  /** A string up to its closing quote. */
  function ReadBody(t: Text): (r: Result<(Text, Text)>)
    ensures r.Ok? ==> |r.value.1| + |r.value.0| < |t|
    decreases |t|
  {
    if t == [] || t[0] < 0x20 then Thrown(SYNTAX)
    else if t[0] == QUOTE then Ok(([], t[1..]))
    else if t[0] == BACKSLASH then
      var (u, rest) :- ReadEscape(t[1..]);
      var (more, after) :- ReadBody(rest);
      Ok(([u] + more, after))
    else
      var (more, after) :- ReadBody(t[1..]);
      Ok(([t[0]] + more, after))
  }

  function ReadWord(t: Text, word: Text, v: Json): (r: Result<(Json, Text)>)
    requires word != []
    ensures r.Ok? ==> r.value.0 == v && |r.value.1| + |word| == |t|
  {
    if word <= t then Ok((v, t[|word|..])) else Thrown(SYNTAX)
  }

  /** One value and what follows it; JSON objects do not occur in the modelled formats. */
  function ReadValue(t: Text): (r: Result<(Json, Text)>)
    ensures r.Ok? ==> |r.value.1| + Weight(r.value.0) <= |t|
    decreases |t|, 0
  {
    var s := Skip(t);
    if s == [] then Thrown(SYNTAX)
    else if s[0] == NULL[0] then ReadWord(s, NULL, JNull)
    else if s[0] == TRUE[0] then ReadWord(s, TRUE, JBool(true))
    else if s[0] == FALSE[0] then ReadWord(s, FALSE, JBool(false))
    else if s[0] == QUOTE then
      var (text, rest) :- ReadBody(s[1..]);
      Ok((JStr(text), rest))
    else if s[0] == OPEN then
      var inside := Skip(s[1..]);
      if inside != [] && inside[0] == CLOSE then Ok((JArr([]), inside[1..]))
      else
        var (items, rest) :- ReadItems(inside);
        Ok((JArr(items), rest))
    else ReadNumber(s)
  }

  /** At least one item, and the closing bracket. */
  function ReadItems(t: Text): (r: Result<(seq<Json>, Text)>)
    ensures r.Ok? ==> |r.value.1| + 1 + Weights(r.value.0) <= |t|
    decreases |t|, 1
  {
    var (item, rest) :- ReadValue(t);
    var s := Skip(rest);
    if s == [] then Thrown(SYNTAX)
    else if s[0] == CLOSE then Ok(([item], s[1..]))
    else if s[0] == COMMA then
      var (items, after) :- ReadItems(s[1..]);
      Ok(([item] + items, after))
    else Thrown(SYNTAX)
  }

  /** `JSON.parse` of a text. */
  function Parse(t: Text): (r: Result<Json>)
    ensures r.Ok? ==> Weight(r.value) <= |t|
  {
    var (v, rest) :- ReadValue(t);
    if Skip(rest) == [] then Ok(v) else Thrown(SYNTAX)
  }

  // ----- Reading back what was written -----

  /** `t` cannot continue a number. */
  predicate Delimited(t: Text) {
    t == [] || !(IsDigit(t[0]) || t[0] in {'.' as int, 'e' as int, 'E' as int})
  }

  lemma {:induction false} ReadDigitsBack(n: nat, rest: Text)
    ensures ReadDigits(Digits(n) + rest, 0) == ReadDigits(rest, n)
  {
    if n < 10 {
      assert (Digits(n) + rest)[1..] == rest;
    } else {
      var last: Text := [ZERO + n % 10];
      ReadDigitsBack(n / 10, last + rest);
      assert Digits(n) + rest == Digits(n / 10) + (last + rest);
      assert (last + rest)[1..] == rest;
    }
  }

  lemma ReadNothing(rest: Text, n: nat)
    requires Delimited(rest)
    ensures ReadDigits(rest, n) == (n, rest)
  {
  }

  lemma ReadNatOf(t: Text, n: nat, rest: Text)
    requires t != [] && IsDigit(t[0]) && (t[0] == ZERO ==> |t| == 1 + |rest|) && Delimited(rest)
    requires ReadDigits(t, 0) == (n, rest)
    ensures ReadNat(t) == Ok((n, rest))
  {
  }

  lemma ReadNatBack(n: nat, rest: Text)
    requires Delimited(rest)
    ensures ReadNat(Digits(n) + rest) == Ok((n, rest))
  {
    ReadDigitsBack(n, rest);
    ReadNothing(rest, n);
    assert Digits(n)[0] in Digits(n);
    ReadNatOf(Digits(n) + rest, n, rest);
  }

  lemma ReadNumberBack(n: SafeInt, rest: Text)
    requires Delimited(rest)
    ensures ReadNumber(Stringify(JNum(n)) + rest) == Ok((JNum(n), rest))
  {
    var magnitude: nat := if n < 0 then 0 - n else n;
    var digits := Digits(magnitude) + rest;
    ReadNatBack(magnitude, rest);
    if n < 0 {
      var t := Stringify(JNum(n)) + rest;
      assert t == [MINUS] + digits;
      assert t[1..] == digits;
    } else {
      assert digits[0] == Digits(magnitude)[0] && IsDigit(digits[0]);
    }
  }

  lemma ReadHexDigitBack(d: nat)
    requires d < 16
    ensures HexValue(HexDigit(d)) == Some(d)
  {
  }

  lemma ReadHexBack(u: Unit)
    ensures ReadHex4(Hex4(u)) == Some(u)
  {
    var c := u / 16;
    var b := c / 16;
    ReadHexDigitBack(b / 16);
    ReadHexDigitBack(b % 16);
    ReadHexDigitBack(c % 16);
    ReadHexDigitBack(u % 16);
  }

  lemma ReadEscapeBack(u: Unit, rest: Text)
    requires EscapedUnit(u) != [u]
    ensures EscapedUnit(u)[0] == BACKSLASH
    ensures ReadEscape(EscapedUnit(u)[1..] + rest) == Ok((u, rest))
  {
    var t := EscapedUnit(u)[1..] + rest;
    if ShortEscape(u).Some? {
      assert t[1..] == rest;
    } else {
      ReadHexBack(u);
      assert t[1..5] == Hex4(u) && t[5..] == rest;
    }
  }

  lemma ReadUnitBack(u: Unit, rest: Text)
    ensures ReadBody(rest).Ok? ==>
              ReadBody(EscapedUnit(u) + rest) == Ok(([u] + ReadBody(rest).value.0, ReadBody(rest).value.1))
  {
    var t := EscapedUnit(u) + rest;
    if EscapedUnit(u) == [u] {
      assert t[1..] == rest;
    } else {
      ReadEscapeBack(u, rest);
      assert t[1..] == EscapedUnit(u)[1..] + rest;
    }
  }

  lemma ReadPlainBack(u: Unit, rest: Text)
    requires u >= 0x20 && u != QUOTE && u != BACKSLASH
    ensures ReadBody(rest).Ok? ==>
              ReadBody([u] + rest) == Ok(([u] + ReadBody(rest).value.0, ReadBody(rest).value.1))
  {
    assert ([u] + rest)[1..] == rest;
  }

  /** A string's text up to and including its closing quote, and what follows. */
  function Closed(text: Text, rest: Text): Text {
    Escaped(text) + [QUOTE] + rest
  }

  lemma ClosedPair(text: Text, rest: Text)
    requires |text| > 1 && IsLead(text[0]) && IsTrail(text[1])
    ensures Closed(text, rest) == [text[0]] + ([text[1]] + Closed(text[2..], rest))
    ensures text == [text[0]] + ([text[1]] + text[2..])
  {
    assert text[..2] == [text[0]] + [text[1]];
  }

  lemma ClosedUnit(text: Text, rest: Text)
    requires text != [] && !(|text| > 1 && IsLead(text[0]) && IsTrail(text[1]))
    ensures Closed(text, rest) == EscapedUnit(text[0]) + Closed(text[1..], rest)
  {
  }

  lemma ClosedNothing(rest: Text)
    ensures ReadBody(Closed([], rest)) == Ok(([], rest))
  {
    assert Closed([], rest) == [QUOTE] + rest && ([QUOTE] + rest)[1..] == rest;
  }

  lemma {:induction false} ReadBodyBack(text: Text, rest: Text)
    ensures ReadBody(Closed(text, rest)) == Ok((text, rest))
    decreases |text|
  {
    if text == [] {
      ClosedNothing(rest);
    } else if |text| > 1 && IsLead(text[0]) && IsTrail(text[1]) {
      var after := Closed(text[2..], rest);
      ReadBodyBack(text[2..], rest);
      ReadPlainBack(text[1], after);
      ReadPlainBack(text[0], [text[1]] + after);
      ClosedPair(text, rest);
    } else {
      ReadBodyBack(text[1..], rest);
      ReadUnitBack(text[0], Closed(text[1..], rest));
      ClosedUnit(text, rest);
      assert [text[0]] + text[1..] == text;
    }
  }

  lemma ReadWordBack(word: Text, rest: Text, v: Json)
    requires word != []
    ensures ReadWord(word + rest, word, v) == Ok((v, rest))
  {
    assert (word + rest)[..|word|] == word && (word + rest)[|word|..] == rest;
  }

  /** No written value starts with a space or a closing bracket. */
  lemma WrittenStarts(v: Json)
    ensures Stringify(v) != [] && !IsSpace(Stringify(v)[0]) && Stringify(v)[0] != CLOSE
  {
    if v.JNum? && v.number >= 0 {
      assert IsDigit(Digits(v.number)[0]);
    }
  }

  lemma ReadAtomBack(v: Json, rest: Text)
    requires !v.JArr? && !v.JStr? && Delimited(rest)
    ensures ReadValue(Stringify(v) + rest) == Ok((v, rest))
  {
    var t := Stringify(v) + rest;
    WrittenStarts(v);
    assert Skip(t) == t;
    match v
    case JNull => ReadWordBack(NULL, rest, v);
    case JBool(truth) => ReadWordBack(if truth then TRUE else FALSE, rest, v);
    case JNum(n) =>
      ReadNumberBack(n, rest);
      assert t[0] == MINUS || IsDigit(Digits(n)[0]);
  }

  lemma ReadStringBack(text: Text, rest: Text)
    ensures ReadValue(Stringify(JStr(text)) + rest) == Ok((JStr(text), rest))
  {
    var t := Stringify(JStr(text)) + rest;
    ReadBodyBack(text, rest);
    assert Skip(t) == t;
    assert t[1..] == Closed(text, rest);
  }

  /** The items of an array up to and including its closing bracket, and what follows. */
  function Listed(items: seq<Json>, rest: Text): Text {
    Joined(items) + [CLOSE] + rest
  }

  lemma ListedStarts(items: seq<Json>, rest: Text)
    requires items != []
    ensures Skip(Listed(items, rest)) == Listed(items, rest) != [] && Listed(items, rest)[0] != CLOSE
  {
    WrittenStarts(items[0]);
    assert Joined(items)[0] == Stringify(items[0])[0];
    assert Listed(items, rest)[0] == Joined(items)[0];
  }

  lemma ListedNext(items: seq<Json>, rest: Text)
    requires |items| > 1
    ensures Listed(items, rest) == Stringify(items[0]) + ([COMMA] + Listed(items[1..], rest))
  {
  }

  lemma ListedLast(item: Json, rest: Text)
    ensures Listed([item], rest) == Stringify(item) + ([CLOSE] + rest)
  {
  }

  lemma SkipNothing(u: Unit, rest: Text)
    requires !IsSpace(u)
    ensures Skip([u] + rest) == [u] + rest && ([u] + rest)[1..] == rest
  {
  }

  lemma ReadEmptyArrayBack(rest: Text)
    ensures ReadValue(Stringify(JArr([])) + rest) == Ok((JArr([]), rest))
  {
    assert Stringify(JArr([])) + rest == [OPEN] + ([CLOSE] + rest);
    SkipNothing(OPEN, [CLOSE] + rest);
    SkipNothing(CLOSE, rest);
  }

  lemma ReadArrayBack(items: seq<Json>, rest: Text)
    requires items != [] && ReadItems(Listed(items, rest)) == Ok((items, rest))
    ensures ReadValue(Stringify(JArr(items)) + rest) == Ok((JArr(items), rest))
  {
    assert Stringify(JArr(items)) + rest == [OPEN] + Listed(items, rest);
    SkipNothing(OPEN, Listed(items, rest));
    ListedStarts(items, rest);
  }

  /** Reading undoes writing, whatever follows. */
  lemma {:induction false} ReadBack(v: Json, rest: Text)
    requires Delimited(rest)
    ensures ReadValue(Stringify(v) + rest) == Ok((v, rest))
    decreases v, 1
  {
    if v.JStr? {
      ReadStringBack(v.text, rest);
    } else if v.JArr? {
      if v.items == [] {
        ReadEmptyArrayBack(rest);
      } else {
        ReadItemsBack(v.items, rest);
        ReadArrayBack(v.items, rest);
      }
    } else {
      ReadAtomBack(v, rest);
    }
  }

  lemma ReadLastItem(item: Json, rest: Text)
    requires ReadValue(Stringify(item) + ([CLOSE] + rest)) == Ok((item, [CLOSE] + rest))
    ensures ReadItems(Listed([item], rest)) == Ok(([item], rest))
  {
    ListedLast(item, rest);
    SkipNothing(CLOSE, rest);
  }

  lemma ReadItemAndMore(text: Text, item: Json, more: Text, items: seq<Json>, rest: Text)
    requires ReadValue(text + ([COMMA] + more)) == Ok((item, [COMMA] + more))
    requires ReadItems(more) == Ok((items, rest))
    ensures ReadItems(text + ([COMMA] + more)) == Ok(([item] + items, rest))
  {
    SkipNothing(COMMA, more);
  }

  lemma ReadNextItem(items: seq<Json>, rest: Text)
    requires |items| > 1
    requires var after := [COMMA] + Listed(items[1..], rest);
             ReadValue(Stringify(items[0]) + after) == Ok((items[0], after))
    requires ReadItems(Listed(items[1..], rest)) == Ok((items[1..], rest))
    ensures ReadItems(Listed(items, rest)) == Ok((items, rest))
  {
    ListedNext(items, rest);
    ReadItemAndMore(Stringify(items[0]), items[0], Listed(items[1..], rest), items[1..], rest);
    assert items == [items[0]] + items[1..];
  }

  lemma {:induction false} ReadItemsBack(items: seq<Json>, rest: Text)
    requires items != []
    ensures ReadItems(Listed(items, rest)) == Ok((items, rest))
    decreases items, 0
  {
    if |items| == 1 {
      assert items == [items[0]];
      ReadBack(items[0], [CLOSE] + rest);
      ReadLastItem(items[0], rest);
    } else {
      ReadBack(items[0], [COMMA] + Listed(items[1..], rest));
      ReadItemsBack(items[1..], rest);
      ReadNextItem(items, rest);
    }
  }

  /** `JSON.parse` undoes `JSON.stringify`, for strings of any code units and values nested to any depth. */
  lemma ParseUndoesStringify(v: Json)
    ensures Parse(Stringify(v)) == Ok(v)
  {
    ReadBack(v, []);
    assert Stringify(v) + [] == Stringify(v);
  }

  /** Different values have different texts. */
  lemma StringifyIsInjective(a: Json, b: Json)
    requires Stringify(a) == Stringify(b)
    ensures a == b
  {
    ParseUndoesStringify(a);
    ParseUndoesStringify(b);
  }

  /** Unit `i` is the second one of an escape: it follows a backslash that is not itself escaped. */
  predicate IsEscaped(t: Text, i: nat)
    requires i < |t|
  {
    i > 0 && t[i - 1] == BACKSLASH && !IsEscaped(t, i - 1)
  }

  /** No escape is left open at the end. */
  predicate IsClosed(t: Text) {
    t == [] || t[|t| - 1] != BACKSLASH || IsEscaped(t, |t| - 1)
  }

  /** Unit `i` of `t` is fit for the inside of a JSON string. */
  ghost predicate CleanAt(t: Text, i: nat)
    requires i < |t|
  {
    && t[i] >= 0x20
    && (t[i] == QUOTE ==> IsEscaped(t, i))
    && (IsLead(t[i]) ==> i + 1 < |t| && IsTrail(t[i + 1]))
    && (IsTrail(t[i]) ==> i > 0 && IsLead(t[i - 1]))
  }

  lemma {:induction false} EscapedBefore(first: Text, rest: Text, i: nat)
    requires i < |first|
    ensures IsEscaped(first + rest, i) == IsEscaped(first, i)
  {
    if i > 0 {
      EscapedBefore(first, rest, i - 1);
    }
  }

  lemma {:induction false} EscapedLater(first: Text, rest: Text, i: nat)
    requires i < |rest| && IsClosed(first)
    ensures IsEscaped(first + rest, |first| + i) == IsEscaped(rest, i)
  {
    if i > 0 {
      EscapedLater(first, rest, i - 1);
    } else if first != [] {
      EscapedBefore(first, rest, |first| - 1);
    }
  }

  lemma CleanLater(first: Text, rest: Text, i: nat)
    requires i < |rest| && CleanAt(rest, i) && IsClosed(first)
    ensures CleanAt(first + rest, |first| + i)
  {
    EscapedLater(first, rest, i);
    assert (first + rest)[|first| + i] == rest[i];
    assert i > 0 ==> (first + rest)[|first| + i - 1] == rest[i - 1];
    assert i + 1 < |rest| ==> (first + rest)[|first| + i + 1] == rest[i + 1];
  }

  lemma UnitIsClean(u: Unit, i: nat)
    requires i < |EscapedUnit(u)|
    ensures CleanAt(EscapedUnit(u), i) && IsClosed(EscapedUnit(u))
  {
    var t := EscapedUnit(u);
    assert |t| == 2 ==> !IsEscaped(t, 0) && IsEscaped(t, 1);
  }

  lemma CleanBefore(first: Text, rest: Text, i: nat)
    requires i < |first| && CleanAt(first, i)
    ensures CleanAt(first + rest, i)
  {
    EscapedBefore(first, rest, i);
  }

  lemma {:induction false} ClosedLater(first: Text, rest: Text)
    requires IsClosed(first) && IsClosed(rest)
    ensures IsClosed(first + rest)
  {
    if rest == [] {
      assert first + rest == first;
    } else {
      EscapedLater(first, rest, |rest| - 1);
    }
  }

  /** No control character, no surrogate without its partner, quotes only escaped, and no escape left open for the closing quote. */
  lemma {:induction false} EscapedIsClean(t: Text)
    ensures IsClosed(Escaped(t))
    ensures forall i: nat :: i < |Escaped(t)| ==> CleanAt(Escaped(t), i)
    decreases |t|
  {
    if t != [] {
      var isPair := |t| > 1 && IsLead(t[0]) && IsTrail(t[1]);
      var first, rest := if isPair then t[..2] else EscapedUnit(t[0]), Escaped(if isPair then t[2..] else t[1..]);
      EscapedIsClean(if isPair then t[2..] else t[1..]);
      FirstIsClean(t, first);
      ClosedLater(first, rest);
      forall i: nat | i < |first + rest| ensures CleanAt(first + rest, i) {
        if i < |first| {
          CleanBefore(first, rest, i);
        } else {
          CleanLater(first, rest, i - |first|);
        }
      }
      assert Escaped(t) == first + rest;
    }
  }

  lemma FirstIsClean(t: Text, first: Text)
    requires t != []
    requires first == if |t| > 1 && IsLead(t[0]) && IsTrail(t[1]) then t[..2] else EscapedUnit(t[0])
    ensures IsClosed(first) && forall i: nat :: i < |first| ==> CleanAt(first, i)
  {
    if !(|t| > 1 && IsLead(t[0]) && IsTrail(t[1])) {
      forall i: nat | i < |first| ensures CleanAt(first, i) {
        UnitIsClean(t[0], i);
      }
      UnitIsClean(t[0], 0);
    }
  }
}
