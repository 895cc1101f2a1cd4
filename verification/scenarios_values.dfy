/** A concrete case of a repeating primitive whose items mix values, ids
    and extensions: it is written as two arrays aligned by index and
    merged back by index. */
module ValueCases {
  import opened Results
  import opened Json
  import opened Catalog
  import opened Elements
  import opened Encoder
  import opened Decoder
  import opened Pruning
  import opened Projection
  import opened Codec
  import opened RoundTrip

  // ---------------------------------------------------------------------
  // Values and companions aligned by index

  /** The four `family` parts of a name: no value but an id and an
      extension; a value, an id and an extension; nothing at all; no value
      but an extension. */
  function Families(ext0: seq<Element>, ext1: seq<Element>, ext3: seq<Element>): seq<Element> {
    [Prim(String, Some("f0"), ext0, None),
     Prim(String, Some("f1"), ext1, Some("V1")),
     Prim(String, None, [], None),
     Prim(String, None, ext3, None)]
  }

  /** The parts that are written: all but the empty third one. */
  function Written(ext0: seq<Element>, ext1: seq<Element>, ext3: seq<Element>): seq<Element> {
    [Prim(String, Some("f0"), ext0, None),
     Prim(String, Some("f1"), ext1, Some("V1")),
     Prim(String, None, ext3, None)]
  }

  predicate SaysSomething(ext: seq<Element>) {
    |ext| > 0 && ItemsPruned(false, ext)
  }

  lemma PrimKept(x: Element)
    requires x.Prim? && x.value != Some("") && ItemsPruned(false, x.extension) && !PrimEmpty(x)
    ensures PruneItems(false, [x]) == [x]
  {
    PruneFixes(x);
  }

  /** The part with nothing in it is dropped; the others stay, in order. */
  lemma FamiliesPruned(ext0: seq<Element>, ext1: seq<Element>, ext3: seq<Element>)
    requires SaysSomething(ext0) && SaysSomething(ext1) && SaysSomething(ext3)
    ensures PruneItems(false, Families(ext0, ext1, ext3)) == Written(ext0, ext1, ext3)
  {
    var fs := Families(ext0, ext1, ext3);
    PrimKept(fs[0]);
    PrimKept(fs[1]);
    PrimKept(fs[3]);
    assert fs[1..][1..][1..][1..] == [];
    assert PruneItems(false, fs[1..][1..][1..]) == [fs[3]];
    assert PruneItems(false, fs[1..][1..]) == [fs[3]];
  }

  /** The value array holds `null`, `"V1"`, `null`: one entry per part. */
  lemma WrittenValues(ext0: seq<Element>, ext1: seq<Element>, ext3: seq<Element>)
    ensures ValuesJson(String, Written(ext0, ext1, ext3)) == Ok([JNull, JString("V1"), JNull])
  {
    var ws := Written(ext0, ext1, ext3);
    StringValuesJson(String, ws);
    var r := ValuesJson(String, ws).value;
    assert r[0] == JNull && r[1] == JString("V1") && r[2] == JNull;
    assert r == [JNull, JString("V1"), JNull];
  }

  /** The value of a primitive that is not a decimal, as an entry of the
      value array. */
  function StringEntry(x: Element): JValue
    requires x.Prim?
  {
    if x.value.Some? then JString(x.value.value) else JNull
  }

  /** For a type written as a JSON string, entry `i` of the value array is
      the value of item `i` as a string, or `null` when it has none. */
  lemma {:induction false} StringValuesJson(t: TypeName, items: seq<Element>)
    requires !IsNumberType(t) && forall x | x in items :: x.Prim?
    ensures ValuesJson(t, items).Ok? && |ValuesJson(t, items).value| == |items|
    ensures forall i | 0 <= i < |items| :: ValuesJson(t, items).value[i] == StringEntry(items[i])
  {
    if |items| > 0 {
      StringValuesJson(t, items[1..]);
    }
  }

  /** What a string entry of a value array is read as. */
  function StringRead(v: JValue): Option<string>
    requires v == JNull || v.JString?
  {
    if v.JString? then Some(v.text) else None
  }

  /** For a type written as a JSON string, an array of strings and `null`s
      is read entry by entry: a string is a value, `null` is none. */
  lemma {:induction false} StringValuesRead(key: string, t: TypeName, xs: seq<JValue>)
    requires IsPrimitiveType(t) && !IsNumberType(t)
    requires forall v | v in xs :: v == JNull || v.JString?
    ensures DecodeValues(key, t, xs).Ok? && |DecodeValues(key, t, xs).value| == |xs|
    ensures forall i | 0 <= i < |xs| :: DecodeValues(key, t, xs).value[i] == StringRead(xs[i])
  {
    if |xs| > 0 {
      assert xs[0] in xs;
      StringValuesRead(key, t, xs[1..]);
      assert DecodeValue(key, t, xs[0]) == Ok(StringRead(xs[0]));
    }
  }

  /** Every part has an id or an extension, so no entry of the companion
      array is `null`. */
  lemma WrittenCompanions(ext0: seq<Element>, ext1: seq<Element>, ext3: seq<Element>)
    requires |ext3| > 0
    ensures var r := CompanionsJson(Written(ext0, ext1, ext3));
      r.Ok? ==> |r.value| == 3 && JNull !in r.value
  {
  }

  /** With well-typed extensions the companion array is written, has
      three entries, none of them `null`, and reads back as the three
      parts' ids and extensions. */
  lemma WrittenCompanionsRead(ext0: seq<Element>, ext1: seq<Element>, ext3: seq<Element>)
    requires |ext3| > 0
    requires forall x | x in Written(ext0, ext1, ext3) :: Writable(x)
    ensures var r := CompanionsJson(Written(ext0, ext1, ext3));
      && r.Ok? && |r.value| == 3 && JNull !in r.value
      && DecodeCompanions(r.value)
         == Ok([Companion(Some("f0"), ext0), Companion(Some("f1"), ext1), Companion(None, ext3)])
  {
    var w := Written(ext0, ext1, ext3);
    CompanionsRoundTrip(w);
    WrittenCompanions(ext0, ext1, ext3);
    var cs := CompanionsOf(w);
    assert cs[0] == Companion(Some("f0"), ext0);
    assert cs[1] == Companion(Some("f1"), ext1);
    assert cs[2] == Companion(None, ext3);
    assert cs == [Companion(Some("f0"), ext0), Companion(Some("f1"), ext1), Companion(None, ext3)];
  }

  /** Reading the value array and the companion array back and merging
      them by index gives the written parts again, each with its own id
      and extensions. */
  lemma WrittenMerged(ext0: seq<Element>, ext1: seq<Element>, ext3: seq<Element>)
    ensures Merge(String, [None, Some("V1"), None],
      [Companion(Some("f0"), ext0), Companion(Some("f1"), ext1), Companion(None, ext3)])
      == Written(ext0, ext1, ext3)
  {
    var values := [None, Some("V1"), None];
    var companions := [Companion(Some("f0"), ext0), Companion(Some("f1"), ext1), Companion(None, ext3)];
    var m := Merge(String, values, companions);
    var w := Written(ext0, ext1, ext3);
    assert |m| == 3;
    assert m[0] == w[0] && m[1] == w[1] && m[2] == w[2];
  }

  /** The value array is read back as no value, `V1`, no value. */
  lemma WrittenValuesRead()
    ensures DecodeValues("family", String, [JNull, JString("V1"), JNull]) == Ok([None, Some("V1"), None])
  {
    var xs := [JNull, JString("V1"), JNull];
    StringValuesRead("family", String, xs);
    var r := DecodeValues("family", String, xs).value;
    assert r[0] == None && r[1] == Some("V1") && r[2] == None;
    assert r == [None, Some("V1"), None];
  }
}
