/**
 * JSON text (RFC 8259) over UTF-16 code units: the printer behind `JSON.stringify` and the parser
 * behind `JSON.parse`, as far as the metadata commitment can observe them. A number's value and an
 * object's members are never looked at, so the parser checks their syntax and drops them.
 */
module Json {
  import opened Common

  type Unit = u: int | 0 <= u < 0x10000

  type Text = seq<Unit>

  datatype Json = Null | Str(text: Text) | Arr(items: seq<Json>) | Bool | Number | Object

  const QUOTE: Unit := 34
  const BACKSLASH: Unit := 92
  const COMMA: Unit := 44
  const OPEN: Unit := 91
  const CLOSE: Unit := 93
  const NULL_TEXT: Text := [110, 117, 108, 108]
  const TRUE_TEXT: Text := [116, 114, 117, 101]
  const FALSE_TEXT: Text := [102, 97, 108, 115, 101]

  predicate High(u: Unit) { 0xD800 <= u < 0xDC00 }

  predicate Low(u: Unit) { 0xDC00 <= u < 0xE000 }

  // ---- printing ------------------------------------------------------------

  function HexDigit(d: nat): Unit
    requires d < 16
  {
    if d < 10 then 48 + d else 87 + d
  }

  function Hex4(u: Unit): Text {
    [HexDigit(u / 4096), HexDigit(u / 256 % 16), HexDigit(u / 16 % 16), HexDigit(u % 16)]
  }

  /** The escape of a unit that may not stand for itself, or the unit. */
  function Escape(u: Unit): Text {
    if u == QUOTE || u == BACKSLASH then [BACKSLASH, u]
    else if u == 8 then [BACKSLASH, 98]
    else if u == 9 then [BACKSLASH, 116]
    else if u == 10 then [BACKSLASH, 110]
    else if u == 12 then [BACKSLASH, 102]
    else if u == 13 then [BACKSLASH, 114]
    else if u < 32 || High(u) || Low(u) then [BACKSLASH, 117] + Hex4(u)
    else [u]
  }

  /** Section 7: a surrogate pair stands for itself, an unpaired surrogate is escaped. */
  function Quoted(t: Text): Text
    decreases |t|
  {
    if t == [] then []
    else if |t| > 1 && High(t[0]) && Low(t[1]) then [t[0], t[1]] + Quoted(t[2..])
    else Escape(t[0]) + Quoted(t[1..])
  }

  /** The values the printer is given: strings, nulls and arrays of them. */
  predicate Printable(v: Json) {
    match v
    case Null => true
    case Str(_) => true
    case Arr(items) => forall x :: x in items ==> Printable(x)
    case _ => false
  }

  function Print(v: Json): Text
    requires Printable(v)
  {
    match v
    case Null => NULL_TEXT
    case Str(t) => [QUOTE] + Quoted(t) + [QUOTE]
    case Arr(items) => [OPEN] + PrintItems(items) + [CLOSE]
  }

  function PrintItems(items: seq<Json>): Text
    requires forall x :: x in items ==> Printable(x)
  {
    if items == [] then []
    else if |items| == 1 then Print(items[0])
    else Print(items[0]) + [COMMA] + PrintItems(items[1..])
  }

  // ---- parsing -------------------------------------------------------------

  datatype Parsed<+T> = Fail | Ok(value: T, rest: Text)

  predicate Space(u: Unit) {
    u == 32 || u == 9 || u == 10 || u == 13
  }

  function Skip(s: Text): (r: Text)
    ensures |r| <= |s|
    ensures r == [] || !Space(r[0])
    ensures s != [] && !Space(s[0]) ==> r == s
  {
    if s != [] && Space(s[0]) then Skip(s[1..]) else s
  }

  function HexValue(u: Unit): Option<nat> {
    if 48 <= u <= 57 then Some(u - 48)
    else if 97 <= u <= 102 then Some(u - 87)
    else if 65 <= u <= 70 then Some(u - 55)
    else None
  }

  function Unhex(s: Text): Option<Unit>
    requires |s| == 4
  {
    match (HexValue(s[0]), HexValue(s[1]), HexValue(s[2]), HexValue(s[3]))
    case (Some(a), Some(b), Some(c), Some(d)) =>
      if a < 16 && b < 16 && c < 16 && d < 16 then Some(a * 4096 + b * 256 + c * 16 + d) else None
    case _ => None
  }

  /** The unit behind a two-character escape. */
  function Unescape(u: Unit): Option<Unit> {
    if u == QUOTE || u == BACKSLASH || u == 47 then Some(u)
    else if u == 98 then Some(8)
    else if u == 116 then Some(9)
    else if u == 110 then Some(10)
    else if u == 102 then Some(12)
    else if u == 114 then Some(13)
    else None
  }

  function Prepend(u: Unit, r: Parsed<Text>): Parsed<Text> {
    if r.Ok? then Ok([u] + r.value, r.rest) else Fail
  }

  /** The rest of a string whose opening quote has been read. */
  function ParseText(s: Text): (r: Parsed<Text>)
    ensures r.Ok? ==> |r.rest| < |s|
    decreases |s|
  {
    if s == [] then Fail
    else if s[0] == QUOTE then Ok([], s[1..])
    else if s[0] == BACKSLASH then
      if |s| >= 6 && s[1] == 117 then
        var u := Unhex(s[2..6]);
        if u.Some? then Prepend(u.value, ParseText(s[6..])) else Fail
      else if |s| >= 2 && Unescape(s[1]).Some? then Prepend(Unescape(s[1]).value, ParseText(s[2..]))
      else Fail
    else if s[0] < 32 then Fail
    else Prepend(s[0], ParseText(s[1..]))
  }

  function Digits(s: Text): (r: Text)
    ensures |r| <= |s|
  {
    if s != [] && 48 <= s[0] <= 57 then Digits(s[1..]) else s
  }

  /** At least one digit. */
  function SomeDigits(s: Text): (r: Option<Text>)
    ensures r.Some? ==> |r.value| < |s|
  {
    if s != [] && 48 <= s[0] <= 57 then Some(Digits(s[1..])) else None
  }

  function Fraction(s: Text): (r: Option<Text>)
    ensures r.Some? ==> |r.value| <= |s|
  {
    if s != [] && s[0] == 46 then SomeDigits(s[1..]) else Some(s)
  }

  function Exponent(s: Text): (r: Option<Text>)
    ensures r.Some? ==> |r.value| <= |s|
  {
    if s != [] && (s[0] == 101 || s[0] == 69) then
      if |s| > 1 && (s[1] == 43 || s[1] == 45) then SomeDigits(s[2..]) else SomeDigits(s[1..])
    else Some(s)
  }

  function ParseNumber(s: Text): (r: Parsed<Json>)
    ensures r.Ok? ==> |r.rest| < |s|
  {
    var unsigned := if s != [] && s[0] == 45 then s[1..] else s;
    var whole := if unsigned != [] && unsigned[0] == 48 then Some(unsigned[1..]) else SomeDigits(unsigned);
    if whole.None? then Fail
    else
      var fraction := Fraction(whole.value);
      if fraction.None? then Fail
      else
        var exponent := Exponent(fraction.value);
        if exponent.None? then Fail else Ok(Number, exponent.value)
  }

  function Literal(s: Text, word: Text, v: Json): (r: Parsed<Json>)
    requires word != []
    ensures r.Ok? ==> |r.rest| < |s|
  {
    if word <= s then Ok(v, s[|word|..]) else Fail
  }

  function ParseValue(text: Text): (r: Parsed<Json>)
    ensures r.Ok? ==> |r.rest| < |text|
    decreases |text|, 0
  {
    var s := Skip(text);
    if s == [] then Fail
    else if s[0] == QUOTE then
      var t := ParseText(s[1..]);
      if t.Ok? then Ok(Str(t.value), t.rest) else Fail
    else if s[0] == OPEN then
      var inner := Skip(s[1..]);
      if inner != [] && inner[0] == CLOSE then Ok(Arr([]), inner[1..])
      else
        var items := ParseItems(s[1..]);
        if items.Ok? then Ok(Arr(items.value), items.rest) else Fail
    else if s[0] == 123 then
      var inner := Skip(s[1..]);
      if inner != [] && inner[0] == 125 then Ok(Object, inner[1..]) else ParseMembers(s[1..])
    else if s[0] == 110 then Literal(s, NULL_TEXT, Null)
    else if s[0] == 116 then Literal(s, TRUE_TEXT, Bool)
    else if s[0] == 102 then Literal(s, FALSE_TEXT, Bool)
    else ParseNumber(s)
  }

  /** One or more array elements, up to and including the closing bracket. */
  function ParseItems(s: Text): (r: Parsed<seq<Json>>)
    ensures r.Ok? ==> |r.rest| < |s|
    decreases |s|, 1
  {
    var head := ParseValue(s);
    if head.Fail? then Fail
    else
      var after := Skip(head.rest);
      if after == [] then Fail
      else if after[0] == CLOSE then Ok([head.value], after[1..])
      else if after[0] == COMMA then
        var tail := ParseItems(after[1..]);
        if tail.Ok? then Ok([head.value] + tail.value, tail.rest) else Fail
      else Fail
  }

  /** One or more object members, up to and including the closing brace. */
  function ParseMembers(text: Text): (r: Parsed<Json>)
    ensures r.Ok? ==> |r.rest| < |text|
    decreases |text|, 1
  {
    var s := Skip(text);
    if s == [] || s[0] != QUOTE then Fail
    else
      var name := ParseText(s[1..]);
      if name.Fail? then Fail
      else
        var colon := Skip(name.rest);
        if colon == [] || colon[0] != 58 then Fail
        else
          var v := ParseValue(colon[1..]);
          if v.Fail? then Fail
          else
            var after := Skip(v.rest);
            if after == [] then Fail
            else if after[0] == 125 then Ok(Object, after[1..])
            else if after[0] == COMMA then ParseMembers(after[1..])
            else Fail
  }

  /** `JSON.parse`, with `None` for its exception. */
  function Parse(s: Text): Option<Json> {
    var r := ParseValue(s);
    if r.Ok? && Skip(r.rest) == [] then Some(r.value) else None
  }

  // ---- what is printed is read back ----------------------------------------

  lemma HexRoundTrip(u: Unit)
    ensures Unhex(Hex4(u)) == Some(u)
  {
    assert u / 256 == u / 4096 * 16 + u / 256 % 16;
    assert u / 16 == u / 256 * 16 + u / 16 % 16;
  }

  lemma EscapeRoundTrip(u: Unit, s: Text)
    ensures ParseText(Escape(u) + s) == Prepend(u, ParseText(s))
  {
    var e := Escape(u) + s;
    assert e[|Escape(u)|..] == s;
    if |Escape(u)| == 6 {
      assert e[2..6] == Hex4(u);
      HexRoundTrip(u);
    }
  }

  lemma PlainRoundTrip(u: Unit, s: Text)
    requires u >= 32 && u != QUOTE && u != BACKSLASH
    ensures ParseText([u] + s) == Prepend(u, ParseText(s))
  {
    assert ([u] + s)[1..] == s;
  }

  lemma ClosingQuote(s: Text)
    ensures ParseText([QUOTE] + s) == Ok([], s)
  {
  }

  predicate StartsWithPair(t: Text) {
    |t| > 1 && High(t[0]) && Low(t[1])
  }

  /** A surrogate pair is printed as it is, and both its units are read back. */
  lemma PairRoundTrip(t: Text, rest: Text)
    requires StartsWithPair(t) && ParseText(Quoted(t[2..]) + [QUOTE] + rest) == Ok(t[2..], rest)
    ensures ParseText(Quoted(t) + [QUOTE] + rest) == Ok(t, rest)
  {
    hide ParseText, Escape;
    var tail := Quoted(t[2..]) + [QUOTE] + rest;
    assert Quoted(t) + [QUOTE] + rest == [t[0]] + ([t[1]] + tail);
    PlainRoundTrip(t[1], tail);
    PlainRoundTrip(t[0], [t[1]] + tail);
    assert t == [t[0]] + ([t[1]] + t[2..]);
  }

  lemma UnitRoundTrip(t: Text, rest: Text)
    requires t != [] && !StartsWithPair(t) && ParseText(Quoted(t[1..]) + [QUOTE] + rest) == Ok(t[1..], rest)
    ensures ParseText(Quoted(t) + [QUOTE] + rest) == Ok(t, rest)
  {
    hide ParseText, Escape;
    var tail := Quoted(t[1..]) + [QUOTE] + rest;
    assert Quoted(t) + [QUOTE] + rest == Escape(t[0]) + tail;
    EscapeRoundTrip(t[0], tail);
    assert t == [t[0]] + t[1..];
  }

  lemma {:induction false} TextRoundTrip(t: Text, rest: Text)
    ensures ParseText(Quoted(t) + [QUOTE] + rest) == Ok(t, rest)
    decreases |t|
  {
    hide ParseText;
    if t == [] {
      assert [] + [QUOTE] + rest == [QUOTE] + rest;
      ClosingQuote(rest);
    } else {
      hide Quoted;
      if StartsWithPair(t) {
        TextRoundTrip(t[2..], rest);
        PairRoundTrip(t, rest);
      } else {
        TextRoundTrip(t[1..], rest);
        UnitRoundTrip(t, rest);
      }
    }
  }

  lemma PrintStarts(v: Json)
    requires Printable(v)
    ensures Print(v) != [] && Print(v)[0] in [QUOTE, OPEN, 110]
  {
  }

  /** A printed value is read back as itself, and the text after it is left alone. */
  lemma {:induction false} ValueRoundTrip(v: Json, rest: Text)
    requires Printable(v)
    ensures ParseValue(Print(v) + rest) == Ok(v, rest)
    decreases v, 1, 0
  {
    var s := Print(v) + rest;
    match v
    case Null =>
      assert s[4..] == rest;
    case Str(t) =>
      assert s[1..] == Quoted(t) + [QUOTE] + rest;
      TextRoundTrip(t, rest);
    case Arr(items) =>
      assert s[1..] == PrintItems(items) + [CLOSE] + rest;
      if items == [] {
        assert s[1..] == [CLOSE] + rest;
      } else {
        PrintStarts(items[0]);
        assert s[1..][0] == Print(items[0])[0];
        ItemsRoundTrip(v, items, rest);
      }
  }

  lemma LastItem(s: Text, v: Json, rest: Text)
    requires ParseValue(s) == Ok(v, [CLOSE] + rest)
    ensures ParseItems(s) == Ok([v], rest)
  {
  }

  lemma MoreItems(s: Text, v: Json, tail: Text, items: seq<Json>, rest: Text)
    requires ParseValue(s) == Ok(v, [COMMA] + tail) && ParseItems(tail) == Ok(items, rest)
    ensures ParseItems(s) == Ok([v] + items, rest)
  {
    assert ([COMMA] + tail)[1..] == tail;
  }

  lemma {:induction false} ItemsRoundTrip(v: Json, items: seq<Json>, rest: Text)
    requires items != [] && forall x :: x in items ==> Printable(x) && x < v
    ensures ParseItems(PrintItems(items) + [CLOSE] + rest) == Ok(items, rest)
    decreases v, 0, |items|
  {
    hide ParseItems, ParseValue, Print;
    var s := PrintItems(items) + [CLOSE] + rest;
    assert items[0] in items;
    if |items| == 1 {
      assert s == Print(items[0]) + ([CLOSE] + rest);
      ValueRoundTrip(items[0], [CLOSE] + rest);
      LastItem(s, items[0], rest);
      assert items == [items[0]];
    } else {
      var tail := PrintItems(items[1..]) + [CLOSE] + rest;
      assert s == Print(items[0]) + ([COMMA] + tail);
      ValueRoundTrip(items[0], [COMMA] + tail);
      ItemsRoundTrip(v, items[1..], rest);
      MoreItems(s, items[0], tail, items[1..], rest);
      assert items == [items[0]] + items[1..];
    }
  }

  lemma ParsePrint(v: Json)
    requires Printable(v)
    ensures Parse(Print(v)) == Some(v)
  {
    ValueRoundTrip(v, []);
    assert Print(v) + [] == Print(v);
  }

  // ---- what is printed is well-formed UTF-16 -------------------------------

  /** No unpaired surrogate, so encoding to UTF-8 loses nothing. */
  predicate WellFormed(t: Text)
    decreases |t|
  {
    if t == [] then true
    else if High(t[0]) then |t| > 1 && Low(t[1]) && WellFormed(t[2..])
    else !Low(t[0]) && WellFormed(t[1..])
  }

  lemma {:induction false} WellFormedJoin(a: Text, b: Text)
    requires WellFormed(a) && WellFormed(b)
    ensures WellFormed(a + b)
    decreases |a|
  {
    if a == [] {
      assert a + b == b;
    } else if High(a[0]) {
      assert (a + b)[2..] == a[2..] + b;
      WellFormedJoin(a[2..], b);
    } else {
      assert (a + b)[1..] == a[1..] + b;
      WellFormedJoin(a[1..], b);
    }
  }

  lemma EscapeWellFormed(u: Unit)
    ensures WellFormed(Escape(u))
  {
    var e := Escape(u);
    if |e| == 1 {
      assert e[1..] == [];
    } else {
      AsciiText(e);
    }
  }

  lemma {:induction false} AsciiText(t: Text)
    requires forall i :: 0 <= i < |t| ==> t[i] < 128
    ensures WellFormed(t)
  {
    if t != [] {
      AsciiText(t[1..]);
    }
  }

  lemma {:induction false} QuotedWellFormed(t: Text)
    ensures WellFormed(Quoted(t))
    decreases |t|
  {
    if t != [] {
      if |t| > 1 && High(t[0]) && Low(t[1]) {
        QuotedWellFormed(t[2..]);
        assert Quoted(t)[2..] == Quoted(t[2..]);
      } else {
        QuotedWellFormed(t[1..]);
        EscapeWellFormed(t[0]);
        WellFormedJoin(Escape(t[0]), Quoted(t[1..]));
      }
    }
  }

  lemma AsciiWellFormed(u: Unit, t: Text)
    requires u < 128 && WellFormed(t)
    ensures WellFormed([u] + t) && WellFormed(t + [u])
  {
    assert ([u] + t)[1..] == t;
    assert [u][1..] == [];
    WellFormedJoin(t, [u]);
  }

  lemma {:induction false} PrintWellFormed(v: Json)
    requires Printable(v)
    ensures WellFormed(Print(v))
    decreases v, 1, 0
  {
    match v
    case Null =>
      AsciiText(NULL_TEXT);
    case Str(t) =>
      QuotedWellFormed(t);
      AsciiWellFormed(QUOTE, Quoted(t));
      AsciiWellFormed(QUOTE, [QUOTE] + Quoted(t));
    case Arr(items) =>
      ItemsWellFormed(v, items);
      AsciiWellFormed(OPEN, PrintItems(items));
      AsciiWellFormed(CLOSE, [OPEN] + PrintItems(items));
  }

  lemma {:induction false} ItemsWellFormed(v: Json, items: seq<Json>)
    requires forall x :: x in items ==> Printable(x) && x < v
    ensures WellFormed(PrintItems(items))
    decreases v, 0, |items|
  {
    if items != [] {
      assert items[0] in items;
      PrintWellFormed(items[0]);
      if |items| > 1 {
        ItemsWellFormed(v, items[1..]);
        AsciiWellFormed(COMMA, Print(items[0]));
        WellFormedJoin(Print(items[0]) + [COMMA], PrintItems(items[1..]));
      }
    }
  }
}
