/**
 * The parser against the grammar of RFC 8259: the texts of strings, literals and arrays, written out
 * with every freedom the grammar allows, and what each of them means.
 */
module JsonGrammar {
  import opened Common
  import opened Json

  // ---- texts, as written ---------------------------------------------------

  /** A hexadecimal digit, in either case. */
  datatype Digit = Digit(value: nat, upper: bool)

  /** Section 7: a unit as itself, behind a two-character escape, or as four hexadecimal digits. */
  datatype Char = Plain(u: Unit) | Short(letter: Unit) | Hex(a: Digit, b: Digit, c: Digit, d: Digit)

  /** Section 4 and 5, with the whitespace of section 2 around each element. */
  datatype Src = SNull | STrue | SFalse | SText(chars: seq<Char>) | SArray(inner: Text, items: seq<Elem>)

  datatype Elem = Elem(before: Text, v: Src, after: Text)

  const SHORT_ESCAPES: map<Unit, Unit> :=
    map[34 := 34, 92 := 92, 47 := 47, 98 := 8, 102 := 12, 110 := 10, 114 := 13, 116 := 9]

  const DIGITS: Text := [48, 49, 50, 51, 52, 53, 54, 55, 56, 57, 97, 98, 99, 100, 101, 102]
  const UPPER_DIGITS: Text := [48, 49, 50, 51, 52, 53, 54, 55, 56, 57, 65, 66, 67, 68, 69, 70]

  predicate Blank(t: Text) {
    forall i :: 0 <= i < |t| ==> t[i] in [32, 9, 10, 13]
  }

  predicate ValidChar(c: Char) {
    match c
    case Plain(u) => u >= 32 && u != 34 && u != 92
    case Short(letter) => letter in SHORT_ESCAPES
    case Hex(a, b, c, d) => a.value < 16 && b.value < 16 && c.value < 16 && d.value < 16
  }

  predicate Valid(v: Src) {
    match v
    case SText(chars) => forall c :: c in chars ==> ValidChar(c)
    case SArray(inner, items) =>
      Blank(inner) && forall e :: e in items ==> Blank(e.before) && Blank(e.after) && Valid(e.v)
    case _ => true
  }

  function WriteDigit(d: Digit): Unit
    requires d.value < 16
  {
    if d.upper then UPPER_DIGITS[d.value] else DIGITS[d.value]
  }

  function WriteChar(c: Char): Text
    requires ValidChar(c)
  {
    match c
    case Plain(u) => [u]
    case Short(letter) => [92, letter]
    case Hex(a, b, c, d) => [92, 117, WriteDigit(a), WriteDigit(b), WriteDigit(c), WriteDigit(d)]
  }

  function CharMeans(c: Char): Unit
    requires ValidChar(c)
  {
    match c
    case Plain(u) => u
    case Short(letter) => SHORT_ESCAPES[letter]
    case Hex(a, b, c, d) => ((a.value * 16 + b.value) * 16 + c.value) * 16 + d.value
  }

  function WriteChars(chars: seq<Char>): Text
    requires forall c :: c in chars ==> ValidChar(c)
  {
    if chars == [] then [] else WriteChar(chars[0]) + WriteChars(chars[1..])
  }

  function CharsMean(chars: seq<Char>): Text
    requires forall c :: c in chars ==> ValidChar(c)
  {
    if chars == [] then [] else [CharMeans(chars[0])] + CharsMean(chars[1..])
  }

  function Write(v: Src): Text
    requires Valid(v)
  {
    match v
    case SNull => NULL_TEXT
    case STrue => TRUE_TEXT
    case SFalse => FALSE_TEXT
    case SText(chars) => [34] + WriteChars(chars) + [34]
    case SArray(inner, items) => [91] + (if items == [] then inner else WriteItems(items)) + [93]
  }

  function WriteItems(items: seq<Elem>): Text
    requires forall e :: e in items ==> Blank(e.before) && Blank(e.after) && Valid(e.v)
  {
    if items == [] then []
    else
      items[0].before + Write(items[0].v) + items[0].after
      + if |items| == 1 then [] else [44] + WriteItems(items[1..])
  }

  function Means(v: Src): Json
    requires Valid(v)
  {
    match v
    case SNull => Null
    case STrue => Bool
    case SFalse => Bool
    case SText(chars) => Str(CharsMean(chars))
    case SArray(_, items) => Arr(ItemsMean(items))
  }

  function ItemsMean(items: seq<Elem>): seq<Json>
    requires forall e :: e in items ==> Valid(e.v)
  {
    if items == [] then [] else [Means(items[0].v)] + ItemsMean(items[1..])
  }

  // ---- everything the grammar allows is read as what it means --------------

  lemma {:induction false} SkipBlank(t: Text, s: Text)
    requires Blank(t)
    ensures Skip(t + s) == Skip(s)
  {
    if t == [] {
      assert t + s == s;
    } else {
      assert (t + s)[0] == t[0] && (t + s)[1..] == t[1..] + s;
      SkipBlank(t[1..], s);
    }
  }

  lemma {:induction false} SkipTwice(s: Text)
    ensures Skip(Skip(s)) == Skip(s)
  {
    if s != [] && Space(s[0]) { SkipTwice(s[1..]); }
  }

  /** Leading whitespace is nothing to the parser. */
  lemma BlankBefore(t: Text, s: Text)
    requires Blank(t)
    ensures ParseValue(t + s) == ParseValue(s)
  {
    SkipBlank(t, s);
    var x, y := Skip(t + s), Skip(s);
    hide ParseText, ParseItems, ParseMembers, ParseNumber, Skip;
    assert x == y;
  }

  lemma DigitRead(d: Digit)
    requires d.value < 16
    ensures HexValue(WriteDigit(d)) == Some(d.value)
  {
  }

  lemma CharRead(c: Char, s: Text)
    requires ValidChar(c)
    ensures ParseText(WriteChar(c) + s) == Prepend(CharMeans(c), ParseText(s))
  {
    match c
    case Plain(u) => assert ([u] + s)[1..] == s;
    case Short(letter) => assert ([92, letter] + s)[2..] == s;
    case Hex(a, b, c, d) => HexRead(a, b, c, d, s);
  }

  lemma HexRead(a: Digit, b: Digit, c: Digit, d: Digit, s: Text)
    requires a.value < 16 && b.value < 16 && c.value < 16 && d.value < 16
    ensures ParseText(WriteChar(Hex(a, b, c, d)) + s) == Prepend(CharMeans(Hex(a, b, c, d)), ParseText(s))
  {
    DigitRead(a);
    DigitRead(b);
    DigitRead(c);
    DigitRead(d);
    hide WriteDigit, HexValue;
    var q := [WriteDigit(a), WriteDigit(b), WriteDigit(c), WriteDigit(d)];
    var t := [92, 117, WriteDigit(a), WriteDigit(b), WriteDigit(c), WriteDigit(d)] + s;
    assert t[6..] == s && t[2..6] == q;
    assert Unhex(q) == Some(CharMeans(Hex(a, b, c, d)));
  }

  lemma {:induction false} CharsRead(chars: seq<Char>, rest: Text)
    requires forall c :: c in chars ==> ValidChar(c)
    ensures ParseText(WriteChars(chars) + [34] + rest) == Ok(CharsMean(chars), rest)
  {
    if chars == [] {
      assert [] + [34] + rest == [34] + rest && ([34] + rest)[1..] == rest;
    } else {
      hide ParseText, WriteChar, CharMeans, ValidChar;
      var tail := WriteChars(chars[1..]) + [34] + rest;
      assert WriteChars(chars) + [34] + rest == WriteChar(chars[0]) + tail;
      CharRead(chars[0], tail);
      CharsRead(chars[1..], rest);
    }
  }

  lemma WriteStarts(v: Src)
    requires Valid(v)
    ensures Write(v) != [] && Write(v)[0] in [34, 91, 110, 116, 102]
  {
  }

  /** Any text of a value is read as the value, and what follows it is left alone. */
  lemma {:induction false} ValueRead(v: Src, rest: Text)
    requires Valid(v)
    ensures ParseValue(Write(v) + rest) == Ok(Means(v), rest)
    decreases v, 1, 0
  {
    match v
    case SText(chars) => TextRead(chars, rest);
    case SArray(inner, items) =>
      hide ParseValue, WriteItems, ItemsMean;
      if items == [] {
        EmptyArrayRead(inner, rest);
      } else {
        ItemsRead(v, items, rest);
        ArrayRead(items, rest);
      }
    case _ => LiteralRead(v, rest);
  }

  lemma LiteralRead(v: Src, rest: Text)
    requires v.SNull? || v.STrue? || v.SFalse?
    ensures ParseValue(Write(v) + rest) == Ok(Means(v), rest)
  {
    assert (NULL_TEXT + rest)[4..] == rest;
    assert (TRUE_TEXT + rest)[4..] == rest;
    assert (FALSE_TEXT + rest)[5..] == rest;
  }

  lemma TextRead(chars: seq<Char>, rest: Text)
    requires forall c :: c in chars ==> ValidChar(c)
    ensures ParseValue([34] + WriteChars(chars) + [34] + rest) == Ok(Str(CharsMean(chars)), rest)
  {
    hide WriteChars, CharsMean, ParseText, ParseValue, ValidChar;
    CharsRead(chars, rest);
    var inner := WriteChars(chars) + [34] + rest;
    QuoteRead(inner, CharsMean(chars), rest);
    assert [34] + WriteChars(chars) + [34] + rest == [34] + inner;
  }

  lemma QuoteRead(inner: Text, t: Text, rest: Text)
    requires ParseText(inner) == Ok(t, rest)
    ensures ParseValue([34] + inner) == Ok(Str(t), rest)
  {
    hide ParseText, ParseItems, ParseMembers, ParseNumber;
    assert ([34] + inner)[1..] == inner;
  }

  lemma EmptyArrayRead(inner: Text, rest: Text)
    requires Blank(inner)
    ensures ParseValue([91] + inner + [93] + rest) == Ok(Arr([]), rest)
  {
    var s := [91] + inner + [93] + rest;
    assert s[1..] == inner + ([93] + rest);
    SkipBlank(inner, [93] + rest);
    assert ([93] + rest)[1..] == rest;
  }

  lemma BracketRead(inner: Text, items: seq<Json>, rest: Text)
    requires Skip(inner) != [] && Skip(inner)[0] != 93 && ParseItems(inner) == Ok(items, rest)
    ensures ParseValue([91] + inner) == Ok(Arr(items), rest)
  {
    hide ParseText, ParseItems, ParseMembers, ParseNumber;
    assert ([91] + inner)[1..] == inner;
  }

  /** After its whitespace, an element's text begins as a value does. */
  lemma ItemsStart(items: seq<Elem>, rest: Text)
    requires items != [] && forall e :: e in items ==> Blank(e.before) && Blank(e.after) && Valid(e.v)
    ensures var s := Skip(WriteItems(items) + rest); s != [] && s[0] in [34, 91, 110, 116, 102]
  {
    var e := items[0];
    assert e in items;
    var more := if |items| == 1 then [] else [44] + WriteItems(items[1..]);
    Leading(e.before, Write(e.v), e.after, more, rest);
    WriteStarts(e.v);
    assert WriteItems(items) == e.before + Write(e.v) + e.after + more;
    hide WriteItems, Write, Valid, Skip, Blank;
  }

  lemma Leading(before: Text, w: Text, after: Text, more: Text, rest: Text)
    requires Blank(before) && w != [] && !Space(w[0])
    ensures var s := Skip(before + w + after + more + rest); s != [] && s[0] == w[0]
  {
    var tail := after + more + rest;
    assert before + w + after + more + rest == before + (w + tail);
    SkipBlank(before, w + tail);
  }

  lemma ArrayRead(items: seq<Elem>, rest: Text)
    requires items != [] && forall e :: e in items ==> Blank(e.before) && Blank(e.after) && Valid(e.v)
    requires ParseItems(WriteItems(items) + [93] + rest) == Ok(ItemsMean(items), rest)
    ensures ParseValue([91] + WriteItems(items) + [93] + rest) == Ok(Arr(ItemsMean(items)), rest)
  {
    hide WriteItems, ItemsMean, ParseItems, ParseValue, Skip;
    var inner := WriteItems(items) + [93] + rest;
    assert inner == WriteItems(items) + ([93] + rest);
    ItemsStart(items, [93] + rest);
    BracketRead(inner, ItemsMean(items), rest);
    assert [91] + WriteItems(items) + [93] + rest == [91] + inner;
  }

  /** After an element, its whitespace is nothing. */
  lemma AfterElement(after: Text, mark: Unit, tail: Text)
    requires Blank(after) && !Space(mark)
    ensures Skip(after + [mark] + tail) == [mark] + tail
  {
    assert after + [mark] + tail == after + ([mark] + tail);
    SkipBlank(after, [mark] + tail);
  }

  lemma LastRead(s: Text, v: Json, after: Text, rest: Text)
    requires Blank(after) && ParseValue(s) == Ok(v, after + [93] + rest)
    ensures ParseItems(s) == Ok([v], rest)
  {
    AfterElement(after, 93, rest);
    hide ParseValue, Skip, Blank;
    assert ([93] + rest)[1..] == rest;
  }

  lemma MoreRead(s: Text, v: Json, after: Text, tail: Text, items: seq<Json>, rest: Text)
    requires Blank(after) && ParseValue(s) == Ok(v, after + [44] + tail) && ParseItems(tail) == Ok(items, rest)
    ensures ParseItems(s) == Ok([v] + items, rest)
  {
    AfterElement(after, 44, tail);
    hide ParseValue, Skip, Blank;
    assert ([44] + tail)[1..] == tail;
  }

  lemma Apart(before: Text, w: Text, after: Text, more: Text, rest: Text)
    ensures before + w + after + more + [93] + rest == before + (w + (after + more + [93] + rest))
    ensures after + [] + [93] + rest == after + [93] + rest
  {
  }

  lemma {:induction false} ItemsRead(v: Src, items: seq<Elem>, rest: Text)
    requires items != [] && forall e :: e in items ==> Blank(e.before) && Blank(e.after) && Valid(e.v) && e.v < v
    ensures ParseItems(WriteItems(items) + [93] + rest) == Ok(ItemsMean(items), rest)
    decreases v, 0, |items|
  {
    hide ParseItems, ParseValue, Write, Means, Valid, Blank;
    var e := items[0];
    assert e in items;
    if |items| == 1 {
      ValueRead(e.v, e.after + [93] + rest);
      LastElem(e, rest);
      assert items == [e] && ItemsMean(items) == [Means(e.v)];
    } else {
      var more := WriteItems(items[1..]);
      ValueRead(e.v, e.after + [44] + (more + [93] + rest));
      ItemsRead(v, items[1..], rest);
      MoreElem(e, more, ItemsMean(items[1..]), rest);
    }
  }

  lemma LastElem(e: Elem, rest: Text)
    requires Blank(e.before) && Blank(e.after) && Valid(e.v)
    requires ParseValue(Write(e.v) + (e.after + [93] + rest)) == Ok(Means(e.v), e.after + [93] + rest)
    ensures ParseItems(e.before + Write(e.v) + e.after + [] + [93] + rest) == Ok([Means(e.v)], rest)
  {
    hide ParseItems, ParseValue, Write, Means, Valid, Blank;
    Apart(e.before, Write(e.v), e.after, [], rest);
    BlankBefore(e.before, Write(e.v) + (e.after + [93] + rest));
    LastRead(e.before + (Write(e.v) + (e.after + [93] + rest)), Means(e.v), e.after, rest);
  }

  lemma MoreElem(e: Elem, more: Text, items: seq<Json>, rest: Text)
    requires Blank(e.before) && Blank(e.after) && Valid(e.v)
    requires var tail := more + [93] + rest;
             && ParseValue(Write(e.v) + (e.after + [44] + tail)) == Ok(Means(e.v), e.after + [44] + tail)
             && ParseItems(tail) == Ok(items, rest)
    ensures ParseItems(e.before + Write(e.v) + e.after + ([44] + more) + [93] + rest) == Ok([Means(e.v)] + items, rest)
  {
    hide ParseItems, ParseValue, Write, Means, Valid, Blank;
    var tail := more + [93] + rest;
    Apart(e.before, Write(e.v), e.after, [44] + more, rest);
    assert e.after + ([44] + more) + [93] + rest == e.after + [44] + tail;
    BlankBefore(e.before, Write(e.v) + (e.after + [44] + tail));
    MoreRead(e.before + (Write(e.v) + (e.after + [44] + tail)), Means(e.v), e.after, tail, items, rest);
  }

  /** Every text the grammar gives a value, whitespace, escapes and all, is parsed as that value. */
  lemma EveryTextIsRead(before: Text, v: Src, after: Text)
    requires Blank(before) && Valid(v) && Blank(after)
    ensures Parse(before + Write(v) + after) == Some(Means(v))
  {
    hide Write, Means, ParseValue;
    assert before + Write(v) + after == before + (Write(v) + after);
    BlankBefore(before, Write(v) + after);
    ValueRead(v, after);
    assert after + [] == after;
    SkipBlank(after, []);
  }

  // ---- and nothing else is ------------------------------------------------

  /** A value with no number and no object in it: the values whose contents the parser keeps. */
  predicate Observable(v: Json) {
    match v
    case Arr(items) => forall x :: x in items ==> Observable(x)
    case Number => false
    case Object => false
    case _ => true
  }

  lemma {:induction false} SkipGives(s: Text) returns (blank: Text)
    ensures Blank(blank) && s == blank + Skip(s)
  {
    if s != [] && Space(s[0]) {
      var more := SkipGives(s[1..]);
      blank := [s[0]] + more;
      assert s == [s[0]] + s[1..];
    } else {
      blank := [];
    }
  }

  lemma DigitWritten(u: Unit) returns (d: Digit)
    requires HexValue(u).Some?
    ensures d.value < 16 && WriteDigit(d) == u && HexValue(u) == Some(d.value)
  {
    d := if u <= 57 then Digit(u - 48, false) else if u >= 97 then Digit(u - 87, false) else Digit(u - 55, true);
  }

  lemma HexWritten(s: Text) returns (c: Char)
    requires |s| >= 6 && s[0] == 92 && s[1] == 117 && Unhex(s[2..6]).Some?
    ensures ValidChar(c) && s == WriteChar(c) + s[6..] && Unhex(s[2..6]) == Some(CharMeans(c))
  {
    var q := s[2..6];
    var d0 := DigitWritten(q[0]);
    var d1 := DigitWritten(q[1]);
    var d2 := DigitWritten(q[2]);
    var d3 := DigitWritten(q[3]);
    c := Hex(d0, d1, d2, d3);
    hide WriteDigit, HexValue;
    assert WriteChar(c) == [s[0], s[1], s[2], s[3], s[4], s[5]];
  }

  /** How the first character of a string's text was written. */
  lemma CharWritten(s: Text) returns (c: Char, tail: Text)
    requires ParseText(s).Ok? && s[0] != 34
    ensures ValidChar(c) && s == WriteChar(c) + tail && |tail| < |s| && ParseText(tail).Ok?
    ensures ParseText(s) == Prepend(CharMeans(c), ParseText(tail))
  {
    if s[0] == 92 {
      if |s| >= 6 && s[1] == 117 {
        c := HexWritten(s);
        tail := s[6..];
      } else {
        c, tail := Short(s[1]), s[2..];
        assert s == [92, s[1]] + tail;
      }
    } else {
      c, tail := Plain(s[0]), s[1..];
      assert s == [s[0]] + tail;
    }
  }

  lemma TextEnds(s: Text)
    requires ParseText(s).Ok?
    ensures s != [] && (s[0] == 34 ==> ParseText(s) == Ok([], s[1..]) && s == [34] + s[1..])
  {
  }

  predicate AllValid(chars: seq<Char>) {
    forall c :: c in chars ==> ValidChar(c)
  }

  lemma OneMoreChar(c: Char, chars: seq<Char>)
    requires ValidChar(c) && AllValid(chars)
    ensures AllValid([c] + chars) && WriteChars([c] + chars) == WriteChar(c) + WriteChars(chars)
    ensures CharsMean([c] + chars) == [CharMeans(c)] + CharsMean(chars)
  {
    hide WriteChar, CharMeans, ValidChar;
    assert ([c] + chars)[1..] == chars;
  }

  lemma {:induction false} CharsWritten(s: Text) returns (chars: seq<Char>)
    requires ParseText(s).Ok?
    ensures AllValid(chars)
    ensures s == WriteChars(chars) + [34] + ParseText(s).rest && CharsMean(chars) == ParseText(s).value
    decreases |s|
  {
    hide ParseText, WriteChar, CharMeans, ValidChar;
    TextEnds(s);
    if s[0] == 34 {
      chars := [];
    } else {
      var c, tail := CharWritten(s);
      var more := CharsWritten(tail);
      OneMoreChar(c, more);
      chars := [c] + more;
      hide WriteChars, CharsMean, AllValid;
      assert s == WriteChar(c) + (WriteChars(more) + [34] + ParseText(tail).rest);
    }
  }

  lemma {:induction false} MembersAreObjects(text: Text)
    ensures ParseMembers(text).Ok? ==> ParseMembers(text).value == Object
    decreases |text|
  {
    var s := Skip(text);
    if ParseMembers(text).Ok? {
      hide ParseText, ParseValue;
      var colon := Skip(ParseText(s[1..]).rest);
      var after := Skip(ParseValue(colon[1..]).rest);
      if after[0] == 44 { MembersAreObjects(after[1..]); }
    }
  }

  /** The values that begin with neither a quotation mark nor a bracket. */
  lemma LiteralWritten(s: Text) returns (v: Src)
    requires s != [] && !Space(s[0]) && s[0] != 34 && s[0] != 91
    requires ParseValue(s).Ok? && Observable(ParseValue(s).value)
    ensures Valid(v) && s == Write(v) + ParseValue(s).rest && Means(v) == ParseValue(s).value
  {
    if s[0] == 123 {
      MembersAreObjects(s[1..]);
      assert false;
    } else {
      hide ParseText, ParseItems, ParseMembers;
      v := if s[0] == 110 then SNull else if s[0] == 116 then STrue else SFalse;
      assert s == s[..4] + s[4..];
      if s[0] == 102 { assert s == s[..5] + s[5..]; }
    }
  }

  lemma TextWritten(s: Text) returns (v: Src)
    requires s != [] && s[0] == 34 && ParseValue(s).Ok?
    ensures Valid(v) && s == Write(v) + ParseValue(s).rest && Means(v) == ParseValue(s).value
  {
    TextIsRead(s);
    var chars := CharsWritten(s[1..]);
    v := SText(chars);
    hide ParseText, ParseValue, WriteChars, CharsMean, ValidChar;
    assert s == [34] + s[1..];
  }

  lemma TextIsRead(s: Text)
    requires s != [] && s[0] == 34 && ParseValue(s).Ok?
    ensures ParseText(s[1..]).Ok? && ParseValue(s) == Ok(Str(ParseText(s[1..]).value), ParseText(s[1..]).rest)
  {
    hide ParseText, ParseItems, ParseMembers, ParseNumber;
  }

  lemma EmptyWritten(s: Text) returns (v: Src)
    requires s != [] && s[0] == 91 && Skip(s[1..]) != [] && Skip(s[1..])[0] == 93
    ensures ParseValue(s).Ok? && Valid(v) && s == Write(v) + ParseValue(s).rest && Means(v) == ParseValue(s).value
  {
    var inner := SkipGives(s[1..]);
    v := SArray(inner, []);
    EmptyIsRead(s);
    EmptyIsWritten(inner, Skip(s[1..])[1..]);
    assert s == [91] + s[1..] && Skip(s[1..]) == [93] + Skip(s[1..])[1..];
    hide ParseValue, Skip, Write, Means, Valid;
  }

  lemma EmptyIsRead(s: Text)
    requires s != [] && s[0] == 91 && Skip(s[1..]) != [] && Skip(s[1..])[0] == 93
    ensures ParseValue(s) == Ok(Arr([]), Skip(s[1..])[1..])
  {
    hide ParseText, ParseItems, ParseMembers, ParseNumber;
  }

  lemma EmptyIsWritten(inner: Text, rest: Text)
    requires Blank(inner)
    ensures Valid(SArray(inner, [])) && Means(SArray(inner, [])) == Arr([])
    ensures Write(SArray(inner, [])) + rest == [91] + (inner + ([93] + rest))
  {
  }

  lemma BracketOk(s: Text)
    requires s != [] && s[0] == 91 && ParseValue(s).Ok? && !(Skip(s[1..]) != [] && Skip(s[1..])[0] == 93)
    ensures ParseItems(s[1..]).Ok? && ParseValue(s) == Ok(Arr(ParseItems(s[1..]).value), ParseItems(s[1..]).rest)
  {
    hide ParseText, ParseItems;
  }

  /** How a value at the very start of `s` was written. */
  lemma {:induction false} WrittenAt(s: Text) returns (v: Src)
    requires s != [] && !Space(s[0]) && ParseValue(s).Ok? && Observable(ParseValue(s).value)
    ensures Valid(v) && s == Write(v) + ParseValue(s).rest && Means(v) == ParseValue(s).value
    decreases |s|, 0
  {
    if s[0] == 34 {
      v := TextWritten(s);
    } else if s[0] != 91 {
      v := LiteralWritten(s);
    } else if Skip(s[1..]) != [] && Skip(s[1..])[0] == 93 {
      v := EmptyWritten(s);
    } else {
      BracketOk(s);
      hide ParseValue, ParseItems, Write, Means, Valid, Blank;
      var items := ItemsWritten(s[1..]);
      v := SArray([], items);
      ArrayWritten(items, ParseItems(s[1..]).rest);
      assert s == [91] + s[1..];
    }
  }

  predicate AllElems(items: seq<Elem>) {
    forall e :: e in items ==> Blank(e.before) && Blank(e.after) && Valid(e.v)
  }

  lemma ArrayWritten(items: seq<Elem>, rest: Text)
    requires items != [] && AllElems(items)
    ensures Valid(SArray([], items)) && Means(SArray([], items)) == Arr(ItemsMean(items))
    ensures Write(SArray([], items)) + rest == [91] + (WriteItems(items) + [93] + rest)
  {
    hide WriteItems, ItemsMean;
  }

  lemma OneElem(e: Elem)
    requires Blank(e.before) && Blank(e.after) && Valid(e.v)
    ensures AllElems([e]) && WriteItems([e]) == e.before + Write(e.v) + e.after && ItemsMean([e]) == [Means(e.v)]
  {
    hide Write, Means, Valid, Blank;
    assert ItemsMean([e][1..]) == [];
  }

  lemma OneMoreElem(e: Elem, more: seq<Elem>)
    requires Blank(e.before) && Blank(e.after) && Valid(e.v) && AllElems(more) && more != []
    ensures AllElems([e] + more)
    ensures WriteItems([e] + more) == e.before + Write(e.v) + e.after + ([44] + WriteItems(more))
    ensures ItemsMean([e] + more) == [Means(e.v)] + ItemsMean(more)
  {
    hide Write, Means, Valid, Blank;
    assert ([e] + more)[1..] == more;
  }

  lemma {:induction false} ValueWritten(text: Text) returns (blank: Text, v: Src)
    requires ParseValue(text).Ok? && Observable(ParseValue(text).value)
    ensures Blank(blank) && Valid(v) && text == blank + Write(v) + ParseValue(text).rest
    ensures Means(v) == ParseValue(text).value
    decreases |text|, 1
  {
    blank := SkipGives(text);
    SameValue(text);
    NotBlank(text);
    hide ParseValue, Blank, Write, Means, Valid, Observable;
    v := WrittenAt(Skip(text));
  }

  lemma NotBlank(text: Text)
    requires ParseValue(text).Ok?
    ensures Skip(text) != []
  {
  }

  lemma SameValue(text: Text)
    ensures ParseValue(Skip(text)) == ParseValue(text)
  {
    SkipTwice(text);
    hide ParseText, ParseItems, ParseMembers, ParseNumber, Skip;
  }

  /** What `ParseItems` found: an element, and then the bracket or a comma and more elements. */
  lemma ItemsFound(s: Text) returns (after: Text, last: bool)
    requires ParseItems(s).Ok?
    ensures ParseValue(s).Ok? && after == Skip(ParseValue(s).rest) && after != []
    ensures last ==> after[0] == 93 && ParseItems(s) == Ok([ParseValue(s).value], after[1..])
    ensures !last ==>
              && after[0] == 44 && |after[1..]| < |s| && ParseItems(after[1..]).Ok?
              && ParseItems(s) == Ok([ParseValue(s).value] + ParseItems(after[1..]).value, ParseItems(after[1..]).rest)
  {
    after := Skip(ParseValue(s).rest);
    last := after[0] == 93;
    hide ParseValue;
  }

  lemma GlueLast(before: Text, w: Text, blank: Text, rest: Text)
    ensures before + w + (blank + ([93] + rest)) == before + w + blank + [93] + rest
  {
  }

  lemma GlueMore(before: Text, w: Text, blank: Text, more: Text, rest: Text)
    ensures before + w + (blank + ([44] + (more + [93] + rest))) == before + w + blank + ([44] + more) + [93] + rest
  {
  }

  lemma {:induction false} ItemsWritten(s: Text) returns (items: seq<Elem>)
    requires ParseItems(s).Ok? && forall x :: x in ParseItems(s).value ==> Observable(x)
    ensures items != [] && AllElems(items)
    ensures s == WriteItems(items) + [93] + ParseItems(s).rest && ItemsMean(items) == ParseItems(s).value
    decreases |s|, 2
  {
    var after, last := ItemsFound(s);
    hide ParseValue, ParseItems, Blank, Write, Means, Valid, Observable, AllElems, WriteItems, ItemsMean;
    assert ParseItems(s).value[0] == ParseValue(s).value;
    var before, v := ValueWritten(s);
    var blank := SkipGives(ParseValue(s).rest);
    var e := Elem(before, v, blank);
    if last {
      items := [e];
      OneElem(e);
      LastWritten(s, before, Write(v), ParseValue(s).rest, blank, after);
    } else {
      assert forall x :: x in ParseItems(after[1..]).value ==> x in ParseItems(s).value;
      var more := ItemsWritten(after[1..]);
      items := [e] + more;
      OneMoreElem(e, more);
      MoreWritten(s, before, Write(v), ParseValue(s).rest, blank, after, WriteItems(more), ParseItems(after[1..]).rest);
    }
  }

  lemma LastWritten(s: Text, before: Text, w: Text, rest: Text, blank: Text, after: Text)
    requires s == before + w + rest && rest == blank + after && after != [] && after[0] == 93
    ensures s == before + w + blank + [93] + after[1..]
  {
    assert after == [93] + after[1..];
    GlueLast(before, w, blank, after[1..]);
  }

  lemma MoreWritten(s: Text, before: Text, w: Text, rest: Text, blank: Text, after: Text, more: Text, end: Text)
    requires s == before + w + rest && rest == blank + after && after != [] && after[0] == 44
    requires after[1..] == more + [93] + end
    ensures s == before + w + blank + ([44] + more) + [93] + end
  {
    assert after == [44] + after[1..];
    GlueMore(before, w, blank, more, end);
  }

  lemma {:induction false} WrittenIsObservable(v: Src)
    requires Valid(v)
    ensures Observable(Means(v))
    decreases v, 1, 0
  {
    if v.SArray? { ItemsAreObservable(v, v.items); }
  }

  lemma {:induction false} ItemsAreObservable(v: Src, items: seq<Elem>)
    requires forall e :: e in items ==> Valid(e.v) && e.v < v
    ensures forall x :: x in ItemsMean(items) ==> Observable(x)
    decreases v, 0, |items|
  {
    if items != [] {
      hide Observable, Valid;
      WrittenIsObservable(items[0].v);
      ItemsAreObservable(v, items[1..]);
    }
  }

  ghost predicate IsTextOf(text: Text, before: Text, v: Src, after: Text) {
    Blank(before) && Valid(v) && Blank(after) && text == before + Write(v) + after
  }

  /** A value without numbers or objects is parsed from exactly the texts the grammar gives it. */
  lemma ParsedIff(text: Text, j: Json)
    requires Observable(j)
    ensures Parse(text) == Some(j) <==> exists before, v, after :: IsTextOf(text, before, v, after) && Means(v) == j
  {
    hide Write, Means, ParseValue, Observable, Valid;
    if Parse(text) == Some(j) {
      var before, v := ValueWritten(text);
      var after := SkipGives(ParseValue(text).rest);
      assert after == ParseValue(text).rest;
      assert IsTextOf(text, before, v, after);
    }
    if before, v, after :| IsTextOf(text, before, v, after) && Means(v) == j {
      EveryTextIsRead(before, v, after);
    }
  }
}
