/** The canonical text itself, character by character: what anyone re-encoding a market must produce. */
module CanonicalText {
  import opened Common
  import opened Json
  import opened JsonGrammar
  import opened Metadata

  /** A string literal of this file as the text it stands for. */
  function Ascii(s: string): Text
    requires forall i :: 0 <= i < |s| ==> s[i] < 128 as char
  {
    seq(|s|, i requires 0 <= i < |s| => s[i] as int)
  }

  // ---- strings -------------------------------------------------------------

  /** Neither control character, quotation mark, reverse solidus nor surrogate. */
  predicate Ordinary(u: Unit) {
    u >= 32 && u != 34 && u != 92 && !(0xD800 <= u < 0xE000)
  }

  /** Ordinary text is printed as it is. */
  lemma {:induction false} OrdinaryIsKept(t: Text)
    requires forall i :: 0 <= i < |t| ==> Ordinary(t[i])
    ensures Quoted(t) == t
  {
    if t != [] {
      OrdinaryIsKept(t[1..]);
      assert t == [t[0]] + t[1..];
    }
  }

  /** A pair of surrogates is printed as it is. */
  lemma PairIsKept(high: Unit, low: Unit, t: Text)
    requires 0xD800 <= high < 0xDC00 && 0xDC00 <= low < 0xE000
    ensures Quoted([high, low] + t) == [high, low] + Quoted(t)
  {
    assert ([high, low] + t)[2..] == t;
  }

  /** Anything else is escaped: by its own letter when it has one, by four lower-case digits otherwise. */
  lemma OthersAreEscaped(u: Unit)
    requires !Ordinary(u)
    ensures u == 34 ==> Escape(u) == Ascii("\\\"")
    ensures u == 92 ==> Escape(u) == Ascii("\\\\")
    ensures u == 8 ==> Escape(u) == Ascii("\\b")
    ensures u == 9 ==> Escape(u) == Ascii("\\t")
    ensures u == 10 ==> Escape(u) == Ascii("\\n")
    ensures u == 12 ==> Escape(u) == Ascii("\\f")
    ensures u == 13 ==> Escape(u) == Ascii("\\r")
    ensures u !in [8, 9, 10, 12, 13, 34, 92] ==>
              Escape(u) == Ascii("\\u") + [DIGITS[u / 4096], DIGITS[u / 256 % 16], DIGITS[u / 16 % 16], DIGITS[u % 16]]
  {
    if u !in [8, 9, 10, 12, 13, 34, 92] { HexDigits(u); }
    hide Hex4;
  }

  lemma DigitIs(d: nat)
    requires d < 16
    ensures HexDigit(d) == DIGITS[d]
  {
  }

  lemma HexDigits(u: Unit)
    ensures Hex4(u) == [DIGITS[u / 4096], DIGITS[u / 256 % 16], DIGITS[u / 16 % 16], DIGITS[u % 16]]
  {
    DigitIs(u / 4096);
    DigitIs(u / 256 % 16);
    DigitIs(u / 16 % 16);
    DigitIs(u % 16);
    hide HexDigit;
  }

  lemma UnitsInTurn(u: Unit, t: Text)
    requires !(0xD800 <= u < 0xDC00 && t != [] && 0xDC00 <= t[0] < 0xE000)
    ensures Quoted([u] + t) == Escape(u) + Quoted(t)
  {
    assert ([u] + t)[1..] == t;
  }

  // ---- the six pairs -------------------------------------------------------

  /** A string between quotation marks. */
  function Marked(t: Text): Text {
    Ascii("\"") + Quoted(t) + Ascii("\"")
  }

  function MarkedOrNull(t: Option<Text>): Text {
    if t.Some? then Marked(t.value) else Ascii("null")
  }

  /** Strings between quotation marks with commas between them. */
  function MarkedList(ts: seq<Text>): Text {
    if ts == [] then []
    else if |ts| == 1 then Marked(ts[0])
    else Marked(ts[0]) + Ascii(",") + MarkedList(ts[1..])
  }

  lemma PrintsMarked(t: Text)
    ensures Printable(Str(t)) && Print(Str(t)) == Marked(t)
  {
    assert Ascii("\"") == [34];
  }

  lemma PrintsNullable(t: Option<Text>)
    ensures Printable(Nullable(t)) && Print(Nullable(t)) == MarkedOrNull(t)
  {
    if t.Some? { PrintsMarked(t.value); }
  }

  lemma {:induction false} PrintsList(ts: seq<Text>)
    ensures forall x :: x in Strings(ts) ==> Printable(x)
    ensures PrintItems(Strings(ts)) == MarkedList(ts)
  {
    if ts != [] {
      PrintsMarked(ts[0]);
      PrintsList(ts[1..]);
      assert Strings(ts)[1..] == Strings(ts[1..]);
      assert Ascii(",") == [44];
    }
  }

  function TextPair(name: string, value: Text): Text
    requires forall i :: 0 <= i < |name| ==> name[i] < 128 as char
  {
    Ascii("[\"") + Ascii(name) + Ascii("\",") + value + Ascii("]")
  }

  lemma MorePrinted(x: Json, more: seq<Json>)
    requires Printable(x) && more != [] && forall y :: y in more ==> Printable(y)
    ensures PrintItems([x] + more) == Print(x) + Ascii(",") + PrintItems(more)
  {
    assert ([x] + more)[1..] == more && Ascii(",") == [44];
  }

  lemma OnePrinted(x: Json)
    requires Printable(x)
    ensures PrintItems([x]) == Print(x)
  {
  }

  lemma PairPrinted(key: Text, v: Json)
    requires Printable(v)
    ensures Printable(Pair(key, v)) && Print(Pair(key, v)) == [91, 34] + Quoted(key) + [34, 44] + Print(v) + [93]
  {
    hide Quoted;
    var items := [Str(key), v];
    assert Printable(Arr(items));
    assert items[1..] == [v];
    MorePrinted(Str(key), [v]);
    OnePrinted(v);
    assert items == [Str(key)] + [v] && Ascii(",") == [44];
  }

  lemma PrintsPair(key: Text, name: string, v: Json)
    requires Printable(v) && forall i :: 0 <= i < |name| ==> name[i] < 128 as char
    requires key == Ascii(name) && forall i :: 0 <= i < |key| ==> Ordinary(key[i])
    ensures Printable(Pair(key, v)) && Print(Pair(key, v)) == TextPair(name, Print(v))
  {
    OrdinaryIsKept(key);
    PairPrinted(key, v);
    assert Ascii("[\"") == [91, 34] && Ascii("\",") == [34, 44] && Ascii("]") == [93];
    hide Quoted, Print, Pair, Printable;
  }

  lemma KeysAreSpelled()
    ensures TITLE == Ascii("title") && DESCRIPTION == Ascii("description") && RULES == Ascii("resolutionRules")
    ensures IMAGE == Ascii("imageUrl") && LABELS == Ascii("outcomeLabels") && CATEGORY == Ascii("categoryKey")
    ensures forall key, i :: key in [TITLE, DESCRIPTION, RULES, IMAGE, LABELS, CATEGORY] && 0 <= i < |key| ==> Ordinary(key[i])
  {
  }

  /** The text whose bytes are hashed: six pairs in this order, no spaces, a missing value as null. */
  lemma CanonicalIs(m: CanonicalMetadata)
    ensures Canonicalize(m) == Ascii("[")
         + TextPair("title", Marked(m.title)) + Ascii(",")
         + TextPair("description", Marked(m.description)) + Ascii(",")
         + TextPair("resolutionRules", Marked(m.resolutionRules)) + Ascii(",")
         + TextPair("imageUrl", MarkedOrNull(m.imageUrl)) + Ascii(",")
         + TextPair("outcomeLabels", Ascii("[") + MarkedList(m.outcomeLabels) + Ascii("]")) + Ascii(",")
         + TextPair("categoryKey", MarkedOrNull(m.categoryKey))
         + Ascii("]")
  {
    var p1, p2, p3 := Pair(TITLE, Str(m.title)), Pair(DESCRIPTION, Str(m.description)), Pair(RULES, Str(m.resolutionRules));
    var p4, p5 := Pair(IMAGE, Nullable(m.imageUrl)), Pair(LABELS, Arr(Strings(m.outcomeLabels)));
    var p6 := Pair(CATEGORY, Nullable(m.categoryKey));
    assert Tree(m).items == [p1, p2, p3, p4, p5, p6];
    ArrayPrinted(m);
    FirstPairs(m);
    ImagePair(m.imageUrl);
    LabelsPair(m.outcomeLabels);
    CategoryPair(m.categoryKey);
    hide Print, Printable, PrintItems, Pair, TextPair, Marked, MarkedOrNull, MarkedList, Strings, Ascii, Nullable, Canonicalize, Tree;
    SixPrinted(p1, p2, p3, p4, p5, p6);
    Flat(Ascii("["), Ascii(","), Ascii("]"), Print(p1), Print(p2), Print(p3), Print(p4), Print(p5), Print(p6));
  }

  lemma ThreePrinted(p4: Json, p5: Json, p6: Json)
    requires Printable(p4) && Printable(p5) && Printable(p6)
    ensures forall x :: x in [p4, p5, p6] ==> Printable(x)
    ensures PrintItems([p4, p5, p6]) == Print(p4) + Ascii(",") + (Print(p5) + Ascii(",") + Print(p6))
  {
    hide Print, PrintItems, Ascii, Printable;
    OnePrinted(p6);
    MorePrinted(p5, [p6]);
    assert [p5] + [p6] == [p5, p6];
    MorePrinted(p4, [p5, p6]);
    assert [p4] + [p5, p6] == [p4, p5, p6];
  }

  lemma SixPrinted(p1: Json, p2: Json, p3: Json, p4: Json, p5: Json, p6: Json)
    requires Printable(p1) && Printable(p2) && Printable(p3) && Printable(p4) && Printable(p5) && Printable(p6)
    ensures PrintItems([p1, p2, p3, p4, p5, p6])
         == Print(p1) + Ascii(",") + (Print(p2) + Ascii(",") + (Print(p3) + Ascii(",")
            + (Print(p4) + Ascii(",") + (Print(p5) + Ascii(",") + Print(p6)))))
  {
    hide Print, PrintItems, Ascii, Printable;
    ThreePrinted(p4, p5, p6);
    MorePrinted(p3, [p4, p5, p6]);
    assert [p3] + [p4, p5, p6] == [p3, p4, p5, p6];
    MorePrinted(p2, [p3, p4, p5, p6]);
    assert [p2] + [p3, p4, p5, p6] == [p2, p3, p4, p5, p6];
    MorePrinted(p1, [p2, p3, p4, p5, p6]);
    assert [p1] + [p2, p3, p4, p5, p6] == [p1, p2, p3, p4, p5, p6];
  }

  lemma Shift(a: Text, x: Text, y: Text, z: Text)
    ensures a + (x + y + z) == (a + x + y) + z
  {
  }

  lemma Flat(o: Text, c: Text, e: Text, t1: Text, t2: Text, t3: Text, t4: Text, t5: Text, t6: Text)
    ensures o + (t1 + c + (t2 + c + (t3 + c + (t4 + c + (t5 + c + t6))))) + e
         == o + t1 + c + t2 + c + t3 + c + t4 + c + t5 + c + t6 + e
  {
    Shift(o, t1, c, t2 + c + (t3 + c + (t4 + c + (t5 + c + t6))));
    Shift(o + t1 + c, t2, c, t3 + c + (t4 + c + (t5 + c + t6)));
    Shift(o + t1 + c + t2 + c, t3, c, t4 + c + (t5 + c + t6));
    Shift(o + t1 + c + t2 + c + t3 + c, t4, c, t5 + c + t6);
    Shift(o + t1 + c + t2 + c + t3 + c + t4 + c, t5, c, t6);
  }

  lemma ArrayPrinted(m: CanonicalMetadata)
    ensures forall x :: x in Tree(m).items ==> Printable(x)
    ensures Canonicalize(m) == Ascii("[") + PrintItems(Tree(m).items) + Ascii("]")
  {
    TreePrintable(m);
    assert Ascii("[") == [91] && Ascii("]") == [93];
    hide PrintItems, Pair;
  }

  lemma FirstPairs(m: CanonicalMetadata)
    ensures Printable(Pair(TITLE, Str(m.title))) && Print(Pair(TITLE, Str(m.title))) == TextPair("title", Marked(m.title))
    ensures Printable(Pair(DESCRIPTION, Str(m.description)))
    ensures Print(Pair(DESCRIPTION, Str(m.description))) == TextPair("description", Marked(m.description))
    ensures Printable(Pair(RULES, Str(m.resolutionRules)))
    ensures Print(Pair(RULES, Str(m.resolutionRules))) == TextPair("resolutionRules", Marked(m.resolutionRules))
  {
    KeysAreSpelled();
    PrintsMarked(m.title);
    PrintsMarked(m.description);
    PrintsMarked(m.resolutionRules);
    hide Print, Printable, Pair, Marked, Ascii, TextPair;
    PrintsPair(TITLE, "title", Str(m.title));
    PrintsPair(DESCRIPTION, "description", Str(m.description));
    PrintsPair(RULES, "resolutionRules", Str(m.resolutionRules));
  }

  lemma ImagePair(image: Option<Text>)
    ensures Printable(Pair(IMAGE, Nullable(image)))
    ensures Print(Pair(IMAGE, Nullable(image))) == TextPair("imageUrl", MarkedOrNull(image))
  {
    KeysAreSpelled();
    PrintsNullable(image);
    hide Print, Printable, Pair, MarkedOrNull, Ascii, TextPair, Nullable;
    PrintsPair(IMAGE, "imageUrl", Nullable(image));
  }

  lemma LabelsPair(ts: seq<Text>)
    ensures Printable(Pair(LABELS, Arr(Strings(ts))))
    ensures Print(Pair(LABELS, Arr(Strings(ts)))) == TextPair("outcomeLabels", Ascii("[") + MarkedList(ts) + Ascii("]"))
  {
    KeysAreSpelled();
    LabelsPrinted(ts);
    hide Print, Printable, Pair, MarkedList, Strings, Ascii, TextPair;
    PrintsPair(LABELS, "outcomeLabels", Arr(Strings(ts)));
  }

  lemma CategoryPair(category: Option<Text>)
    ensures Printable(Pair(CATEGORY, Nullable(category)))
    ensures Print(Pair(CATEGORY, Nullable(category))) == TextPair("categoryKey", MarkedOrNull(category))
  {
    KeysAreSpelled();
    PrintsNullable(category);
    hide Print, Printable, Pair, MarkedOrNull, Ascii, TextPair, Nullable;
    PrintsPair(CATEGORY, "categoryKey", Nullable(category));
  }

  lemma LabelsPrinted(ts: seq<Text>)
    ensures Printable(Arr(Strings(ts))) && Print(Arr(Strings(ts))) == Ascii("[") + MarkedList(ts) + Ascii("]")
  {
    PrintsList(ts);
    assert Ascii("[") == [91] && Ascii("]") == [93];
    hide Strings, MarkedList, PrintItems;
  }

  // ---- reading it back, fields in any order --------------------------------

  /** The last value given for a key, and null when there is none. */
  function LastValue(entries: seq<Json>, key: Text): Json
    requires forall x :: x in entries ==> IsEntry(x)
    decreases |entries|
  {
    if entries == [] then Null
    else
      var n := |entries| - 1;
      assert IsEntry(entries[n]);
      if entries[n].items[0] == Str(key) then entries[n].items[1] else LastValue(entries[..n], key)
  }

  lemma {:induction false} FieldIsLast(entries: seq<Json>, key: Text)
    requires forall x :: x in entries ==> IsEntry(x)
    ensures Field(ByKey(entries), key) == LastValue(entries, key)
    decreases |entries|
  {
    if entries != [] {
      assert IsEntry(entries[|entries| - 1]);
      FieldIsLast(entries[..|entries| - 1], key);
    }
  }

  /** A string field takes a string, and anything else as the empty one. */
  predicate ReadsText(v: Json, t: Text) {
    if v.Str? then t == v.text else t == []
  }

  /** An optional field takes a string, and anything else as absent. */
  predicate ReadsOptional(v: Json, o: Option<Text>) {
    if v.Str? then o == Some(v.text) else o == None
  }

  /** A label that is not a string is read as the empty one; anything but a list, as no labels. */
  predicate ReadsLabels(v: Json, labels: seq<Text>) {
    if !v.Arr? then labels == []
    else
      && |labels| == |v.items|
      && forall i :: 0 <= i < |labels| ==> if v.items[i].Str? then labels[i] == v.items[i].text else labels[i] == []
  }

  /** The decoded value against the last value given for each key. */
  predicate Reads(m: CanonicalMetadata, title: Json, description: Json, rules: Json, image: Json, labels: Json, category: Json) {
    && ReadsText(title, m.title) && ReadsText(description, m.description) && ReadsText(rules, m.resolutionRules)
    && ReadsOptional(image, m.imageUrl) && ReadsLabels(labels, m.outcomeLabels) && ReadsOptional(category, m.categoryKey)
  }

  lemma FieldsRead(byKey: map<Text, Json>)
    ensures Reads(FromFields(byKey), Field(byKey, TITLE), Field(byKey, DESCRIPTION), Field(byKey, RULES),
                  Field(byKey, IMAGE), Field(byKey, LABELS), Field(byKey, CATEGORY))
  {
    hide Field;
  }

  /** Any list of pairs decodes, in any order, with unknown keys and repetitions; the last of each key counts. */
  lemma DecodeReads(encoded: Text, entries: seq<Json>)
    requires Parse(encoded) == Some(Arr(entries))
    ensures Decode(encoded).Some? <==> forall x :: x in entries ==> IsEntry(x)
    ensures Decode(encoded).Some? ==>
              Reads(Decode(encoded).value,
                    LastValue(entries, Ascii("title")), LastValue(entries, Ascii("description")),
                    LastValue(entries, Ascii("resolutionRules")), LastValue(entries, Ascii("imageUrl")),
                    LastValue(entries, Ascii("outcomeLabels")), LastValue(entries, Ascii("categoryKey")))
  {
    hide Ascii, ByKey, LastValue, Parse, IsEntry, Field, FromFields, Reads;
    if forall x :: x in entries ==> IsEntry(x) {
      KeysAreSpelled();
      FieldIsLast(entries, TITLE);
      FieldIsLast(entries, DESCRIPTION);
      FieldIsLast(entries, RULES);
      FieldIsLast(entries, IMAGE);
      FieldIsLast(entries, LABELS);
      FieldIsLast(entries, CATEGORY);
      FieldsRead(ByKey(entries));
    }
  }
}
