/**
 * The metadata commitment: a market's copy, its canonical text, and reading it back.
 *
 * `hash` stands for keccak-256 over the UTF-8 bytes of a text, as a hex string. It is a parameter:
 * nothing is assumed of it except, where a result says so, that it has no collisions.
 */
module Metadata {
  import opened Common
  import opened Json

  datatype CanonicalMetadata = CanonicalMetadata(
    title: Text, description: Text, resolutionRules: Text, imageUrl: Option<Text>,
    outcomeLabels: seq<Text>, categoryKey: Option<Text>)

  const TITLE: Text := [116, 105, 116, 108, 101]
  const DESCRIPTION: Text := [100, 101, 115, 99, 114, 105, 112, 116, 105, 111, 110]
  const RULES: Text := [114, 101, 115, 111, 108, 117, 116, 105, 111, 110, 82, 117, 108, 101, 115]
  const IMAGE: Text := [105, 109, 97, 103, 101, 85, 114, 108]
  const LABELS: Text := [111, 117, 116, 99, 111, 109, 101, 76, 97, 98, 101, 108, 115]
  const CATEGORY: Text := [99, 97, 116, 101, 103, 111, 114, 121, 75, 101, 121]

  // ---- encoding ------------------------------------------------------------

  function Nullable(t: Option<Text>): Json {
    if t.Some? then Str(t.value) else Null
  }

  function Strings(ts: seq<Text>): seq<Json> {
    seq(|ts|, i requires 0 <= i < |ts| => Str(ts[i]))
  }

  function Pair(key: Text, v: Json): Json {
    Arr([Str(key), v])
  }

  function Tree(m: CanonicalMetadata): Json {
    Arr([Pair(TITLE, Str(m.title)), Pair(DESCRIPTION, Str(m.description)),
         Pair(RULES, Str(m.resolutionRules)), Pair(IMAGE, Nullable(m.imageUrl)),
         Pair(LABELS, Arr(Strings(m.outcomeLabels))), Pair(CATEGORY, Nullable(m.categoryKey))])
  }

  function Canonicalize(m: CanonicalMetadata): Text {
    TreePrintable(m);
    Print(Tree(m))
  }

  lemma TreePrintable(m: CanonicalMetadata)
    ensures Printable(Tree(m))
  {
    var labels := Strings(m.outcomeLabels);
    assert Printable(Arr(labels)) by {
      forall x | x in labels ensures Printable(x) {
      }
    }
  }

  function MetadataHashOf(hash: Text -> string, m: CanonicalMetadata): string {
    hash(Canonicalize(m))
  }

  // ---- decoding ------------------------------------------------------------

  /** A `[key, value]` entry. */
  predicate IsEntry(v: Json) {
    v.Arr? && |v.items| == 2 && v.items[0].Str?
  }

  /** The key map after reading the entries in order: a repeated key keeps its last value. */
  function ByKey(entries: seq<Json>): map<Text, Json>
    requires forall x :: x in entries ==> IsEntry(x)
  {
    if entries == [] then map[]
    else
      var n := |entries| - 1;
      assert IsEntry(entries[n]);
      ByKey(entries[..n])[entries[n].items[0].text := entries[n].items[1]]
  }

  /** A string field, empty when missing or not a string. */
  function TextOf(v: Json): Text {
    if v.Str? then v.text else []
  }

  function Field(byKey: map<Text, Json>, key: Text): Json {
    if key in byKey then byKey[key] else Null
  }

  function TextOrNull(v: Json): Option<Text> {
    if v.Str? then Some(v.text) else None
  }

  function LabelsOf(v: Json): seq<Text> {
    if v.Arr? then seq(|v.items|, i requires 0 <= i < |v.items| => TextOf(v.items[i])) else []
  }

  function FromFields(byKey: map<Text, Json>): CanonicalMetadata {
    CanonicalMetadata(
      TextOf(Field(byKey, TITLE)), TextOf(Field(byKey, DESCRIPTION)), TextOf(Field(byKey, RULES)),
      TextOrNull(Field(byKey, IMAGE)), LabelsOf(Field(byKey, LABELS)), TextOrNull(Field(byKey, CATEGORY)))
  }

  /** What a text decodes to before its hash is looked at. */
  function Decode(encoded: Text): Option<CanonicalMetadata> {
    match Parse(encoded)
    case Some(Arr(entries)) =>
      if forall x :: x in entries ==> IsEntry(x) then Some(FromFields(ByKey(entries))) else None
    case _ => None
  }

  function SameHash(a: string, b: string): bool {
    Lower(a) == Lower(b)
  }

  /** What `ParseCanonical` answers. */
  function Accepted(hash: Text -> string, encoded: Text, expected: string): Option<CanonicalMetadata> {
    var d := Decode(encoded);
    if d.Some? && SameHash(MetadataHashOf(hash, d.value), expected) then d else None
  }

  /** The loop over the entries: stops at the first that is not a pair with a string key. */
  method ReadEntries(entries: seq<Json>) returns (byKey: Option<map<Text, Json>>)
    ensures byKey == if forall x :: x in entries ==> IsEntry(x) then Some(ByKey(entries)) else None
  {
    var fields: map<Text, Json> := map[];
    var i := 0;
    while i < |entries|
      invariant 0 <= i <= |entries|
      invariant forall x :: x in entries[..i] ==> IsEntry(x)
      invariant fields == ByKey(entries[..i])
    {
      var entry := entries[i];
      assert entry in entries;
      if !entry.Arr? || |entry.items| != 2 || !entry.items[0].Str? { return None; }
      fields := fields[entry.items[0].text := entry.items[1]];
      assert entries[..i + 1][..i] == entries[..i];
      i := i + 1;
    }
    assert entries[..i] == entries;
    return Some(fields);
  }

  /** Read a canonical encoding back, refusing anything that does not hash to `expected`. */
  method ParseCanonical(hash: Text -> string, encoded: Text, expected: string)
    returns (r: Option<CanonicalMetadata>)
    ensures r == Accepted(hash, encoded, expected)
  {
    hide FromFields, Canonicalize, Lower, Parse, ByKey, IsEntry;
    var parsed := Parse(encoded);
    if parsed.None? || !parsed.value.Arr? { return None; }
    var byKey := ReadEntries(parsed.value.items);
    if byKey.None? { return None; }
    var metadata := FromFields(byKey.value);
    if Lower(MetadataHashOf(hash, metadata)) == Lower(expected) {
      return Some(metadata);
    }
    return None;
  }

  // ---- the commitment ------------------------------------------------------

  lemma PutEntry(entries: seq<Json>, key: Text, v: Json)
    requires forall x :: x in entries ==> IsEntry(x)
    ensures forall x :: x in entries + [Pair(key, v)] ==> IsEntry(x)
    ensures ByKey(entries + [Pair(key, v)]) == ByKey(entries)[key := v]
  {
    assert (entries + [Pair(key, v)])[..|entries|] == entries;
  }

  function FieldMap(m: CanonicalMetadata): map<Text, Json> {
    map[][TITLE := Str(m.title)][DESCRIPTION := Str(m.description)][RULES := Str(m.resolutionRules)]
         [IMAGE := Nullable(m.imageUrl)][LABELS := Arr(Strings(m.outcomeLabels))][CATEGORY := Nullable(m.categoryKey)]
  }

  lemma TreeFields(m: CanonicalMetadata)
    ensures forall x :: x in Tree(m).items ==> IsEntry(x)
    ensures ByKey(Tree(m).items) == FieldMap(m)
  {
    hide Pair;
    PutEntry([], TITLE, Str(m.title));
    var e1 := [] + [Pair(TITLE, Str(m.title))];
    PutEntry(e1, DESCRIPTION, Str(m.description));
    var e2 := e1 + [Pair(DESCRIPTION, Str(m.description))];
    PutEntry(e2, RULES, Str(m.resolutionRules));
    var e3 := e2 + [Pair(RULES, Str(m.resolutionRules))];
    PutEntry(e3, IMAGE, Nullable(m.imageUrl));
    var e4 := e3 + [Pair(IMAGE, Nullable(m.imageUrl))];
    PutEntry(e4, LABELS, Arr(Strings(m.outcomeLabels)));
    var e5 := e4 + [Pair(LABELS, Arr(Strings(m.outcomeLabels)))];
    PutEntry(e5, CATEGORY, Nullable(m.categoryKey));
    assert Tree(m).items == e5 + [Pair(CATEGORY, Nullable(m.categoryKey))];
  }

  lemma FieldsBack(m: CanonicalMetadata)
    ensures FromFields(FieldMap(m)) == m
  {
    assert TITLE[0] == 116 && DESCRIPTION[0] == 100 && RULES[0] == 114;
    assert IMAGE[0] == 105 && LABELS[0] == 111 && CATEGORY[0] == 99;
    assert LabelsOf(Arr(Strings(m.outcomeLabels))) == m.outcomeLabels;
  }

  lemma DecodeCanonical(m: CanonicalMetadata)
    ensures Decode(Canonicalize(m)) == Some(m)
  {
    hide Printable, Print, FieldMap, FromFields;
    TreePrintable(m);
    ParsePrint(Tree(m));
    TreeFields(m);
    FieldsBack(m);
  }

  /** Whatever the strings hold, a market's canonical text is accepted for its own hash as itself. */
  lemma RoundTrip(hash: Text -> string, m: CanonicalMetadata, expected: string)
    requires SameHash(expected, MetadataHashOf(hash, m))
    ensures Accepted(hash, Canonicalize(m), expected) == Some(m)
  {
    DecodeCanonical(m);
  }

  /** The case of the hexadecimal digits does not matter. */
  lemma HashCaseIsIgnored(hash: Text -> string, encoded: Text, a: string, b: string)
    requires Lower(a) == Lower(b)
    ensures Accepted(hash, encoded, a) == Accepted(hash, encoded, b)
  {
  }

  /** What is accepted is what the text decodes to, and it hashes to what was expected; the rest is refused. */
  lemma AcceptedIff(hash: Text -> string, encoded: Text, expected: string, m: CanonicalMetadata)
    ensures Accepted(hash, encoded, expected) == Some(m) <==>
            Decode(encoded) == Some(m) && Lower(hash(Canonicalize(m))) == Lower(expected)
  {
  }

  /** Different metadata never shares a canonical text. */
  lemma CanonicalInjective(a: CanonicalMetadata, b: CanonicalMetadata)
    requires Canonicalize(a) == Canonicalize(b)
    ensures a == b
  {
    DecodeCanonical(a);
    DecodeCanonical(b);
  }

  /** The hashed text has no unpaired surrogate, so its UTF-8 bytes determine it. */
  lemma CanonicalWellFormed(m: CanonicalMetadata)
    ensures WellFormed(Canonicalize(m))
  {
    TreePrintable(m);
    PrintWellFormed(Tree(m));
  }

  /**
   * No two well-formed texts share a hash. Ill-formed ones must be left out: encoding to UTF-8 turns
   * every unpaired surrogate into the same bytes.
   */
  ghost predicate CollisionFree(hash: Text -> string) {
    forall s, t :: WellFormed(s) && WellFormed(t) && SameHash(hash(s), hash(t)) ==> s == t
  }

  /** Two different well-formed texts with one hash. */
  ghost predicate Collision(hash: Text -> string, s: Text, t: Text) {
    s != t && WellFormed(s) && WellFormed(t) && SameHash(hash(s), hash(t))
  }

  /** With nothing assumed of the hash: other terms are accepted only by exhibiting a collision. */
  lemma OtherTermsAreACollision(hash: Text -> string, m: CanonicalMetadata, encoded: Text, expected: string)
    requires SameHash(expected, MetadataHashOf(hash, m))
    requires Accepted(hash, encoded, expected).Some? && Accepted(hash, encoded, expected).value != m
    ensures Collision(hash, Canonicalize(Accepted(hash, encoded, expected).value), Canonicalize(m))
  {
    var d := Accepted(hash, encoded, expected).value;
    CanonicalWellFormed(d);
    CanonicalWellFormed(m);
    if Canonicalize(d) == Canonicalize(m) { CanonicalInjective(d, m); }
  }

  /**
   * Against the commitment to `m`, a text is accepted exactly when it decodes to `m`, and then as
   * `m`: no other terms can be displayed for that market.
   */
  lemma OnlyTheCommitted(hash: Text -> string, m: CanonicalMetadata, encoded: Text, expected: string)
    requires CollisionFree(hash) && SameHash(expected, MetadataHashOf(hash, m))
    ensures Accepted(hash, encoded, expected) == if Decode(encoded) == Some(m) then Some(m) else None
  {
    var accepted := Accepted(hash, encoded, expected);
    if accepted.Some? && accepted.value != m {
      OtherTermsAreACollision(hash, m, encoded, expected);
    }
  }

  // ---- the copy a market row keeps -----------------------------------------

  /** The stored copy: one label per outcome row, however many labels the metadata has. */
  datatype Copy = Copy(
    title: Text, description: Text, resolutionRules: Text, imageUrl: Option<Text>,
    labels: seq<Text>, categoryKey: Option<Text>)

  /** `onMetadataPublished`: extra labels have nowhere to go, missing ones leave the row's label. */
  function Adopt(copy: Copy, m: CanonicalMetadata): Copy {
    Copy(m.title, m.description, m.resolutionRules, m.imageUrl,
         seq(|copy.labels|, i requires 0 <= i < |copy.labels| =>
           if i < |m.outcomeLabels| then m.outcomeLabels[i] else copy.labels[i]),
         m.categoryKey)
  }

  /** What a reader re-encodes from the API. */
  function Served(copy: Copy): CanonicalMetadata {
    CanonicalMetadata(copy.title, copy.description, copy.resolutionRules, copy.imageUrl,
                      copy.labels, copy.categoryKey)
  }

  /** Adopted copy hashes to the commitment exactly when the market has as many outcomes as labels. */
  lemma ServedCopyVerifies(hash: Text -> string, copy: Copy, m: CanonicalMetadata)
    ensures |m.outcomeLabels| == |copy.labels| ==> MetadataHashOf(hash, Served(Adopt(copy, m))) == MetadataHashOf(hash, m)
    ensures CollisionFree(hash) ==>
              SameHash(MetadataHashOf(hash, Served(Adopt(copy, m))), MetadataHashOf(hash, m))
              == (|m.outcomeLabels| == |copy.labels|)
  {
    var served := Served(Adopt(copy, m));
    if |m.outcomeLabels| == |copy.labels| {
      assert served.outcomeLabels == m.outcomeLabels;
      assert served == m;
    } else if CollisionFree(hash) && SameHash(MetadataHashOf(hash, served), MetadataHashOf(hash, m)) {
      CanonicalWellFormed(served);
      CanonicalWellFormed(m);
      CanonicalInjective(served, m);
    }
  }
}
