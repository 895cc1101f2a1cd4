/** A concrete case of a primitive that carries an extension: the
    `acceptUnknown` code of a Conformance. Without a value only the
    companion `_acceptUnknown` is written; with a value the value member
    comes first and the companion follows it. */
module PrimitiveCases {
  import opened Results
  import opened Json
  import opened Catalog
  import opened Elements
  import opened Encoder
  import opened JsonText
  import opened Containment
  import opened Projection
  import opened Pruning
  import opened Codec
  import opened Scenarios
  import opened PruningCases
  import opened DecimalCases
  import opened Literals

  // ---------------------------------------------------------------------
  // The members of a primitive with and without a value

  /** A primitive with neither id nor extensions written as a string is
      one member holding its value. */
  lemma StringMember(key: string, t: TypeName, v: string)
    requires !IsNumberType(t)
    ensures PrimSingleJson(key, t, StringPrim(t, v)) == Ok([Member(key, JString(v))])
  {
    var x := StringPrim(t, v);
    assert !HasCompanion(x);
    assert ObjectsJson(Extension, x.extension) == Ok([]);
    var none: seq<Member> := [];
    assert none + none == none;
    assert CompanionJson(x) == Ok(JObject([]));
    assert [Member(key, JString(v))] + none == [Member(key, JString(v))];
  }

  /** The companion of a primitive with one extension and no id holds
      just the extension array. */
  lemma OneExtensionCompanion(p: Element, o: JValue)
    requires p.Prim? && p.id.None? && |p.extension| == 1
    requires p.extension[0].Comp? && p.extension[0].typeName == Extension
    requires CompositeJson(p.extension[0]) == Ok(o)
    ensures CompanionJson(p) == Ok(JObject([Member("extension", JArray([o]))]))
  {
    assert p.extension == [p.extension[0]];
    OneObjectJson(Extension, p.extension[0]);
    var none: seq<Member> := [];
    assert none + [Member("extension", JArray([o]))] == [Member("extension", JArray([o]))];
  }

  /** Without a value, a primitive with a companion is written as the
      companion alone, under the key with a leading underscore. */
  lemma CompanionOnly(key: string, t: TypeName, p: Element, c: JValue)
    requires p.Prim? && p.value.None? && HasCompanion(p) && CompanionJson(p) == Ok(c)
    ensures PrimSingleJson(key, t, p) == Ok([Member(CompanionKey(key), c)])
  {
    var none: seq<Member> := [];
    assert none + [Member(CompanionKey(key), c)] == [Member(CompanionKey(key), c)];
  }

  /** With a value, the value member comes first and the companion
      follows it. */
  lemma ValueAndCompanion(key: string, t: TypeName, p: Element, c: JValue)
    requires p.Prim? && p.value.Some? && !IsNumberType(t) && HasCompanion(p) && CompanionJson(p) == Ok(c)
    ensures PrimSingleJson(key, t, p) == Ok([Member(key, JString(p.value.value)), Member(CompanionKey(key), c)])
  {
    assert ValueJson(t, p.value.value) == Ok(JString(p.value.value));
    assert [Member(key, JString(p.value.value))] + [Member(CompanionKey(key), c)]
      == [Member(key, JString(p.value.value)), Member(CompanionKey(key), c)];
  }

  /** A non-repeating field of primitive type `t` holding one primitive
      is written as that primitive's members. */
  lemma PrimField(f: FieldDef, t: TypeName, p: Element)
    requires f.ftype == Of(t) && !f.repeating && IsPrimitiveType(t) && p.Prim? && p.typeName == t
    ensures FieldJson(f, Slot([p])) == PrimSingleJson(f.name, t, p)
  {
    assert forall x | x in [p] :: x.Prim? && x.typeName == t;
  }

  /** A choice field holding one primitive of an allowed type is written
      under the field name followed by the capitalised type name. */
  lemma ChoicePrimField(f: FieldDef, t: TypeName, p: Element)
    requires f.ftype.Choice? && t in f.ftype.choices && IsPrimitiveType(t) && p.Prim? && p.typeName == t
    ensures FieldJson(f, Slot([p])) == PrimSingleJson(ValueKey(f, t), t, p)
  {
    assert forall x | x in [p] :: x.Prim? && x.typeName == t;
  }

  // ---------------------------------------------------------------------
  // An extension with a string value

  /** The members from field `i` on are those of field `i` followed by
      those of the fields after it. */
  lemma FieldsStep(fields: seq<FieldDef>, slots: seq<Slot>, i: nat, head: seq<Member>, tail: seq<Member>)
    requires |fields| == |slots| && i < |slots|
    requires FieldJson(fields[i], slots[i]) == Ok(head)
    requires FieldsJson(fields[i + 1..], slots[i + 1..]) == Ok(tail)
    ensures FieldsJson(fields[i..], slots[i..]) == Ok(head + tail)
  {
    assert fields[i..][0] == fields[i] && slots[i..][0] == slots[i];
    assert fields[i..][1..] == fields[i + 1..] && slots[i..][1..] == slots[i + 1..];
  }

  /** A composite whose fields give the members `ms` is written as the
      object of those members, after the `resourceType` when it is a
      resource. */
  lemma FieldsObject(e: Element, ms: seq<Member>)
    requires e.Comp? && IsCompositeType(e.typeName) && |e.slots| == |Fields(e.typeName)|
    requires FieldsJson(Fields(e.typeName), e.slots) == Ok(ms)
    ensures IsResourceType(e.typeName) ==>
      CompositeJson(e) == Ok(JObject([Member(ResourceTypeKey, JString(Name(e.typeName)))] + ms))
    ensures !IsResourceType(e.typeName) ==> CompositeJson(e) == Ok(JObject(ms))
  {
  }

  lemma ExtensionFields()
    ensures |Fields(Extension)| == 4
    ensures Fields(Extension)[1] == One("url", Uri, true)
    ensures Fields(Extension)[ExtensionValue] == FieldDef("value", Choice(ExtensionValueTypes), false, true)
  {
  }

  lemma ValueStringKey(f: FieldDef)
    requires f == FieldDef("value", Choice(ExtensionValueTypes), false, true)
    ensures ValueKey(f, String) == "valueString"
  {
    assert Capitalize(Name(String)) == "String" by {
      assert Name(String) == "string";
    }
    assert "value" + "String" == "valueString";
  }

  lemma UrlField(f: FieldDef, url: string)
    requires f == One("url", Uri, true)
    ensures FieldJson(f, Slot([StringPrim(Uri, url)])) == Ok([Member("url", JString(url))])
  {
    PrimField(f, Uri, StringPrim(Uri, url));
    StringMember("url", Uri, url);
  }

  lemma ValueStringField(f: FieldDef, s: string)
    requires f == FieldDef("value", Choice(ExtensionValueTypes), false, true)
    ensures FieldJson(f, Slot([StringPrim(String, s)])) == Ok([Member("valueString", JString(s))])
  {
    ValueStringKey(f);
    assert String in ExtensionValueTypes;
    ChoicePrimField(f, String, StringPrim(String, s));
    StringMember("valueString", String, s);
  }

  /** An extension with a url and a string value is written as the url
      followed by `valueString`. */
  /** The last of four fields on its own. */
  lemma LastJson(fields: seq<FieldDef>, slots: seq<Slot>, b: seq<Member>)
    requires |fields| == |slots| == 4
    requires FieldJson(fields[3], slots[3]) == Ok(b)
    ensures FieldsJson(fields[3..], slots[3..]) == Ok(b)
  {
    var none: seq<Member> := [];
    assert FieldsJson(fields[4..], slots[4..]) == Ok(none);
    FieldsStep(fields, slots, 3, b, none);
    assert b + none == b;
  }

  /** Of the last two of four fields, only the fourth gives members. */
  lemma FourthJson(fields: seq<FieldDef>, slots: seq<Slot>, b: seq<Member>)
    requires |fields| == |slots| == 4
    requires FieldJson(fields[2], slots[2]) == Ok([]) && FieldJson(fields[3], slots[3]) == Ok(b)
    ensures FieldsJson(fields[2..], slots[2..]) == Ok(b)
  {
    var none: seq<Member> := [];
    LastJson(fields, slots, b);
    FieldsStep(fields, slots, 2, none, b);
    assert none + b == b;
  }

  /** Of the last three of four fields, only the second and the fourth
      give members. */
  lemma SecondJson(fields: seq<FieldDef>, slots: seq<Slot>, a: seq<Member>, b: seq<Member>)
    requires |fields| == |slots| == 4
    requires FieldJson(fields[1], slots[1]) == Ok(a)
    requires FieldJson(fields[2], slots[2]) == Ok([]) && FieldJson(fields[3], slots[3]) == Ok(b)
    ensures FieldsJson(fields[1..], slots[1..]) == Ok(a + b)
  {
    FourthJson(fields, slots, b);
    FieldsStep(fields, slots, 1, a, b);
  }

  /** Of four fields, only the second and the fourth give members. */
  lemma SecondAndFourthJson(fields: seq<FieldDef>, slots: seq<Slot>, a: seq<Member>, b: seq<Member>)
    requires |fields| == |slots| == 4
    requires FieldJson(fields[0], slots[0]) == Ok([]) && FieldJson(fields[1], slots[1]) == Ok(a)
    requires FieldJson(fields[2], slots[2]) == Ok([]) && FieldJson(fields[3], slots[3]) == Ok(b)
    ensures FieldsJson(fields, slots) == Ok(a + b)
  {
    var none: seq<Member> := [];
    SecondJson(fields, slots, a, b);
    FieldsStep(fields, slots, 0, none, a + b);
    assert none + (a + b) == a + b;
    assert fields[0..] == fields && slots[0..] == slots;
  }

  lemma StringExtensionJson(url: string, s: string)
    ensures CompositeJson(ExtensionOf(url, [StringPrim(String, s)]))
      == Ok(JObject([Member("url", JString(url)), Member("valueString", JString(s))]))
  {
    var x := ExtensionOf(url, [StringPrim(String, s)]);
    var fields := Fields(Extension);
    ExtensionFields();
    var a, b := [Member("url", JString(url))], [Member("valueString", JString(s))];
    UrlField(fields[1], url);
    ValueStringField(fields[ExtensionValue], s);
    assert x.slots[1] == Slot([StringPrim(Uri, url)]) && x.slots[3] == Slot([StringPrim(String, s)]);
    assert x.slots[0].items == [] && x.slots[2].items == [];
    SecondAndFourthJson(fields, x.slots, a, b);
    assert a + b == [Member("url", JString(url)), Member("valueString", JString(s))];
    FieldsObject(x, a + b);
  }



  // ---------------------------------------------------------------------
  // The Conformance

  /** The `acceptUnknown` code with an optional value and one extension
      `url` whose value is the string `s`. */
  function AcceptUnknown(v: Option<string>, url: string, s: string): (p: Element)
    ensures p.Prim? && p.typeName == Code
  {
    Prim(Code, None, [ExtensionOf(url, [StringPrim(String, s)])], v)
  }

  /** A Conformance whose only non-empty field is `acceptUnknown`. */
  function ConformanceWith(p: Element): (e: Element)
    ensures IsResource(e) && e.typeName == Conformance && |e.slots| == 8
  {
    Comp(Conformance, EmptySlots(8)[7 := Slot([p])])
  }

  /** The companion of the code: its extension array. */
  function ExtensionCompanion(url: string, s: string): JValue {
    JObject([Member("extension", JArray([JObject([Member("url", JString(url)), Member("valueString", JString(s))])]))])
  }

  lemma AcceptUnknownCompanion(v: Option<string>, url: string, s: string)
    ensures CompanionJson(AcceptUnknown(v, url, s)) == Ok(ExtensionCompanion(url, s))
  {
    StringExtensionJson(url, s);
    OneExtensionCompanion(AcceptUnknown(v, url, s), JObject([Member("url", JString(url)), Member("valueString", JString(s))]));
  }

  lemma AcceptUnknownDef()
    ensures |Fields(Conformance)| == 8
    ensures Fields(Conformance)[7] == One("acceptUnknown", Code, true)
  {
  }

  lemma CompanionKeyName()
    ensures CompanionKey("acceptUnknown") == "_acceptUnknown"
  {
  }

  /** Without a value, a code in `acceptUnknown` contributes only its
      companion. */
  lemma CompanionOnlyIn(f: FieldDef, p: Element, c: JValue)
    requires f == One("acceptUnknown", Code, true)
    requires p.Prim? && p.typeName == Code && p.value.None? && HasCompanion(p) && CompanionJson(p) == Ok(c)
    ensures FieldJson(f, Slot([p])) == Ok([Member("_acceptUnknown", c)])
  {
    PrimField(f, Code, p);
    CompanionKeyName();
    CompanionOnly("acceptUnknown", Code, p, c);
  }

  /** With a value, a code in `acceptUnknown` contributes the value and
      then the companion. */
  lemma ValueAndCompanionIn(f: FieldDef, p: Element, c: JValue)
    requires f == One("acceptUnknown", Code, true)
    requires p.Prim? && p.typeName == Code && p.value.Some? && HasCompanion(p) && CompanionJson(p) == Ok(c)
    ensures FieldJson(f, Slot([p])) == Ok([Member("acceptUnknown", JString(p.value.value)), Member("_acceptUnknown", c)])
  {
    PrimField(f, Code, p);
    CompanionKeyName();
    ValueAndCompanion("acceptUnknown", Code, p, c);
  }

  /** A Conformance that is written as it is and whose only non-empty
      field gives the members `ms` is written as its `resourceType`
      followed by `ms`. */
  lemma ConformanceText(p: Element, ms: seq<Member>)
    requires Prepared(ConformanceWith(p), Defaults) == ConformanceWith(p)
    requires FieldJson(One("acceptUnknown", Code, true), Slot([p])) == Ok(ms)
    ensures Encode(ConformanceWith(p), Defaults) == Ok(Print(JObject([Member(ResourceTypeKey, JString("Conformance"))] + ms)))
  {
    var e := ConformanceWith(p);
    assert e.slots[7] == Slot([p]);
    AcceptUnknownDef();
    OnlyFieldObject(e, 7, ms);
  }

  /** A primitive with a non-empty value and nothing else is kept as it
      is. */
  lemma ValuePruned(t: TypeName, v: string)
    requires v != ""
    ensures IsPruned(StringPrim(t, v)) && !Blank(false, StringPrim(t, v))
  {
    var x := StringPrim(t, v);
    assert x.value != Some("");
    assert ItemsPruned(false, x.extension);
  }

  /** The extension of the code has no links, nothing empty, and says
      something. */
  lemma ExtensionKept(url: string, s: string)
    requires url != "" && s != ""
    ensures var x := ExtensionOf(url, [StringPrim(String, s)]);
      NoLinks(x) && IsPruned(x) && !Blank(false, x)
  {
    var x := ExtensionOf(url, [StringPrim(String, s)]);
    assert NoLinks(x) by {
      assert forall j | 0 <= j < |x.slots| :: SlotNoLinks(x.slots[j]);
    }
    ValuePruned(Uri, url);
    ValuePruned(String, s);
    assert IsPruned(x) by {
      assert forall i | 0 <= i < |x.slots| :: SlotPruned(InTag(Extension, i), x.slots[i]);
    }
    assert |x.slots[ExtensionValue].items| != 0;
  }

  /** The code has no links, nothing empty, and says something. */
  lemma AcceptUnknownKept(v: Option<string>, url: string, s: string)
    requires v != Some("") && url != "" && s != ""
    ensures var p := AcceptUnknown(v, url, s);
      NoLinks(p) && IsPruned(p) && !Blank(false, p)
  {
    var x := ExtensionOf(url, [StringPrim(String, s)]);
    ExtensionKept(url, s);
    assert ItemsPruned(false, [x]);
  }

  /** The Conformance is written as it is: it has no links and nothing in
      it is empty. */
  lemma ConformancePrepared(v: Option<string>, url: string, s: string)
    requires v != Some("") && url != "" && s != ""
    ensures Prepared(ConformanceWith(AcceptUnknown(v, url, s)), Defaults) == ConformanceWith(AcceptUnknown(v, url, s))
  {
    var p := AcceptUnknown(v, url, s);
    var e := ConformanceWith(p);
    AcceptUnknownKept(v, url, s);
    assert NoLinks(e) by {
      assert forall j | 0 <= j < |e.slots| :: SlotNoLinks(e.slots[j]);
    }
    assert IsPruned(e) by {
      assert forall i | 0 <= i < |e.slots| :: SlotPruned(InTag(Conformance, i), e.slots[i]);
    }
    ContainNothing(e);
    ProjectDefaults(e);
    PruneFixes(e);
  }

  /** A Conformance written as it is, whose code has a companion `c` and
      no value, is written as its `resourceType` and `_acceptUnknown`. */
  lemma ConformanceCompanionOnly(p: Element, c: JValue)
    requires p.Prim? && p.typeName == Code && p.value.None? && HasCompanion(p) && CompanionJson(p) == Ok(c)
    requires Prepared(ConformanceWith(p), Defaults) == ConformanceWith(p)
    ensures Encode(ConformanceWith(p), Defaults) == Ok(Print(JObject(
      [Member(ResourceTypeKey, JString("Conformance")), Member("_acceptUnknown", c)])))
  {
    CompanionOnlyIn(One("acceptUnknown", Code, true), p, c);
    var rt := Member(ResourceTypeKey, JString("Conformance"));
    ConformanceText(p, [Member("_acceptUnknown", c)]);
    assert [rt] + [Member("_acceptUnknown", c)] == [rt, Member("_acceptUnknown", c)];
  }

  /** The same with a value: `acceptUnknown` comes before
      `_acceptUnknown`. */
  lemma ConformanceValueAndCompanion(p: Element, c: JValue)
    requires p.Prim? && p.typeName == Code && p.value.Some? && HasCompanion(p) && CompanionJson(p) == Ok(c)
    requires Prepared(ConformanceWith(p), Defaults) == ConformanceWith(p)
    ensures Encode(ConformanceWith(p), Defaults) == Ok(Print(JObject(
      [Member(ResourceTypeKey, JString("Conformance")),
       Member("acceptUnknown", JString(p.value.value)),
       Member("_acceptUnknown", c)])))
  {
    ValueAndCompanionIn(One("acceptUnknown", Code, true), p, c);
    var rt := Member(ResourceTypeKey, JString("Conformance"));
    var ms := [Member("acceptUnknown", JString(p.value.value)), Member("_acceptUnknown", c)];
    ConformanceText(p, ms);
    assert [rt] + ms == [rt, ms[0], ms[1]];
  }

  /** A Conformance whose `acceptUnknown` has no value but an extension
      is written with the `_acceptUnknown` companion and no
      `acceptUnknown` member. */
  lemma ExtensionOnlyJson(url: string, s: string)
    requires url != "" && s != ""
    ensures Encode(ConformanceWith(AcceptUnknown(None, url, s)), Defaults) == Ok(Print(JObject(
      [Member(ResourceTypeKey, JString("Conformance")),
       Member("_acceptUnknown", ExtensionCompanion(url, s))])))
  {
    ConformancePrepared(None, url, s);
    AcceptUnknownCompanion(None, url, s);
    ConformanceCompanionOnly(AcceptUnknown(None, url, s), ExtensionCompanion(url, s));
  }

  /** With the value `elements` as well, the value member comes before
      the companion. */
  lemma ValueAndExtensionJson(url: string, s: string)
    requires url != "" && s != ""
    ensures Encode(ConformanceWith(AcceptUnknown(Some("elements"), url, s)), Defaults) == Ok(Print(JObject(
      [Member(ResourceTypeKey, JString("Conformance")),
       Member("acceptUnknown", JString("elements")),
       Member("_acceptUnknown", ExtensionCompanion(url, s))])))
  {
    ConformancePrepared(Some("elements"), url, s);
    AcceptUnknownCompanion(Some("elements"), url, s);
    ConformanceValueAndCompanion(AcceptUnknown(Some("elements"), url, s), ExtensionCompanion(url, s));
  }

  // ---------------------------------------------------------------------
  // The text

  lemma HeadNames()
    ensures PrintString(ResourceTypeKey) == "\"" + "resourceType" + "\""
    ensures PrintString("Conformance") == "\"" + "Conformance" + "\""
    ensures PrintString("_acceptUnknown") == "\"" + "_acceptUnknown" + "\""
  {
    assert Plain(ResourceTypeKey) && Plain("Conformance") && Plain("_acceptUnknown");
    QuotedPlain(ResourceTypeKey);
    QuotedPlain("Conformance");
    QuotedPlain("_acceptUnknown");
  }

  lemma ValueNames()
    ensures PrintString("acceptUnknown") == "\"" + "acceptUnknown" + "\""
    ensures PrintString("elements") == "\"" + "elements" + "\""
  {
    assert Plain("acceptUnknown") && Plain("elements");
    QuotedPlain("acceptUnknown");
    QuotedPlain("elements");
  }

  lemma ExtensionObjectNames()
    ensures PrintString("url") == "\"" + "url" + "\""
    ensures PrintString("valueString") == "\"" + "valueString" + "\""
  {
    assert Plain("url") && Plain("valueString");
    QuotedPlain("url");
    QuotedPlain("valueString");
  }

  /** The extension object, written compactly. */
  lemma ExtensionObjectText(url: string, s: string)
    requires Plain(url) && Plain(s)
    ensures Print(JObject([Member("url", JString(url)), Member("valueString", JString(s))]))
      == "{" + "\"" + "url" + "\"" + ":" + "\"" + url + "\"" + "," + "\"" + "valueString" + "\"" + ":" + "\"" + s + "\"" + "}"
  {
    TwoMemberObject(Member("url", JString(url)), Member("valueString", JString(s)));
    ExtensionObjectNames();
    QuotedPlain(url);
    QuotedPlain(s);
    StringMembersRegroup("url", url, "valueString", s);
  }

  lemma ExtensionQuoted()
    ensures PrintString("extension") == "\"" + "extension" + "\""
  {
    assert Plain("extension");
    QuotedPlain("extension");
  }

  /** The companion: one member holding a one-item array. */
  lemma CompanionText(o: JValue)
    ensures Print(JObject([Member("extension", JArray([o]))]))
      == "{" + "\"" + "extension" + "\"" + ":" + "[" + Print(o) + "]" + "}"
  {
    OneMemberObject(Member("extension", JArray([o])));
    assert PrintItems([o]) == Print(o);
    ExtensionQuoted();
    ArrayMemberRegroup("extension", Print(o));
  }

  /** The companion written for an extension with url `url` and string
      value `s`. */
  lemma ExtensionCompanionText(url: string, s: string)
    requires Plain(url) && Plain(s)
    ensures Print(ExtensionCompanion(url, s))
      == "{" + "\"" + "extension" + "\"" + ":" + "[" + "{" + "\"" + "url" + "\"" + ":" + "\"" + url + "\"" + "," + "\"" + "valueString" + "\"" + ":" + "\"" + s + "\"" + "}" + "]" + "}"
  {
    CompanionText(JObject([Member("url", JString(url)), Member("valueString", JString(s))]));
    ExtensionObjectText(url, s);
    CompanionFlat(url, s);
  }

  /** An object with three members. */
  lemma ThreeMemberObject(m0: Member, m1: Member, m2: Member)
    ensures Print(JObject([m0, m1, m2])) == "{" + PrintMember(m0) + "," + PrintMember(m1) + "," + PrintMember(m2) + "}"
  {
    assert [m0, m1, m2][1..] == [m1, m2];
    assert [m1, m2][1..] == [m2];
    assert PrintMembers([m1, m2]) == PrintMember(m1) + "," + PrintMember(m2);
    assert PrintMembers([m0, m1, m2]) == PrintMember(m0) + "," + PrintMembers([m1, m2]);
    ThreeItemsRegroup(PrintMember(m0), PrintMember(m1), PrintMember(m2));
  }

  /** The document with only the companion. */
  lemma CompanionDocText(url: string, s: string)
    requires Plain(url) && Plain(s)
    ensures Print(JObject([Member(ResourceTypeKey, JString("Conformance")), Member("_acceptUnknown", ExtensionCompanion(url, s))]))
      == "{" + "\"" + "resourceType" + "\"" + ":" + "\"" + "Conformance" + "\"" + "," + "\"" + "_acceptUnknown" + "\"" + ":" + "{" + "\"" + "extension" + "\"" + ":" + "[" + "{" + "\"" + "url" + "\"" + ":" + "\"" + url + "\"" + "," + "\"" + "valueString" + "\"" + ":" + "\"" + s + "\"" + "}" + "]" + "}" + "}"
  {
    var c := ExtensionCompanion(url, s);
    TwoMemberObject(Member(ResourceTypeKey, JString("Conformance")), Member("_acceptUnknown", c));
    HeadNames();
    StringThenRegroup("resourceType", "Conformance", "_acceptUnknown", Print(c));
    ExtensionCompanionText(url, s);
    CompanionDocFlat(url, s);
  }

  /** The document with the value and the companion. */
  lemma ValueDocText(url: string, s: string)
    requires Plain(url) && Plain(s)
    ensures Print(JObject([Member(ResourceTypeKey, JString("Conformance")), Member("acceptUnknown", JString("elements")), Member("_acceptUnknown", ExtensionCompanion(url, s))]))
      == "{" + "\"" + "resourceType" + "\"" + ":" + "\"" + "Conformance" + "\"" + "," + "\"" + "acceptUnknown" + "\"" + ":" + "\"" + "elements" + "\"" + "," + "\"" + "_acceptUnknown" + "\"" + ":" + "{" + "\"" + "extension" + "\"" + ":" + "[" + "{" + "\"" + "url" + "\"" + ":" + "\"" + url + "\"" + "," + "\"" + "valueString" + "\"" + ":" + "\"" + s + "\"" + "}" + "]" + "}" + "}"
  {
    var c := ExtensionCompanion(url, s);
    ThreeMemberObject(Member(ResourceTypeKey, JString("Conformance")), Member("acceptUnknown", JString("elements")), Member("_acceptUnknown", c));
    HeadNames();
    ValueNames();
    TwoStringsThenRegroup("resourceType", "Conformance", "acceptUnknown", "elements", "_acceptUnknown", Print(c));
    ExtensionCompanionText(url, s);
    ValueDocFlat(url, s);
  }

  lemma FooPlain()
    ensures Plain("http://foo") && Plain("AAA")
  {
  }

  /** The document without a value, as text. */
  lemma CompanionDocPrinted()
    ensures Print(JObject([Member(ResourceTypeKey, JString("Conformance")), Member("_acceptUnknown", ExtensionCompanion("http://foo", "AAA"))]))
      == "{\"resourceType\":\"Conformance\",\"_acceptUnknown\":{\"extension\":[{\"url\":\"http://foo\",\"valueString\":\"AAA\"}]}}"
  {
    FooPlain();
    CompanionDocText("http://foo", "AAA");
    CompanionDocLiteral();
  }

  /** The document with the value `elements`, as text. */
  lemma ValueDocPrinted()
    ensures Print(JObject([Member(ResourceTypeKey, JString("Conformance")), Member("acceptUnknown", JString("elements")), Member("_acceptUnknown", ExtensionCompanion("http://foo", "AAA"))]))
      == "{\"resourceType\":\"Conformance\",\"acceptUnknown\":\"elements\",\"_acceptUnknown\":{\"extension\":[{\"url\":\"http://foo\",\"valueString\":\"AAA\"}]}}"
  {
    FooPlain();
    ValueDocText("http://foo", "AAA");
    ValueDocLiteral();
  }

  /** Without a value: only `_acceptUnknown`, character for character. */
  lemma ExtensionOnlyText()
    ensures Encode(ConformanceWith(AcceptUnknown(None, "http://foo", "AAA")), Defaults)
      == Ok("{\"resourceType\":\"Conformance\",\"_acceptUnknown\":{\"extension\":[{\"url\":\"http://foo\",\"valueString\":\"AAA\"}]}}")
  {
    ExtensionOnlyJson("http://foo", "AAA");
    CompanionDocPrinted();
  }

  /** With the value `elements`: `acceptUnknown` and then
      `_acceptUnknown`, character for character. */
  lemma ValueAndExtensionText()
    ensures Encode(ConformanceWith(AcceptUnknown(Some("elements"), "http://foo", "AAA")), Defaults)
      == Ok("{\"resourceType\":\"Conformance\",\"acceptUnknown\":\"elements\",\"_acceptUnknown\":{\"extension\":[{\"url\":\"http://foo\",\"valueString\":\"AAA\"}]}}")
  {
    ValueAndExtensionJson("http://foo", "AAA");
    ValueDocPrinted();
  }
}
