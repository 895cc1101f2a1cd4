/** Concrete cases of decimals: the lexical form of a decimal, trailing
    zeros included, is written as a JSON number exactly as it is and read
    back exactly as it was. */
module DecimalCases {
  import opened Results
  import opened Json
  import opened Catalog
  import opened Elements
  import opened Encoder
  import opened JsonText
  import opened Containment
  import opened Pruning
  import opened Projection
  import opened Codec
  import opened Scenarios
  import opened Literals

  lemma AllDigits(s: string)
    requires forall i | 0 <= i < |s| :: IsDigit(s[i])
    ensures DigitRun(s) == |s|
  {
  }

  /** `0.` followed by digits is a number lexeme. */
  lemma FractionLexeme(s: string)
    requires |s| >= 3 && s[0] == '0' && s[1] == '.'
    requires forall i | 2 <= i < |s| :: IsDigit(s[i])
    ensures IsNumberLexeme(s)
  {
    assert s[0..] == s;
    AllDigits(s[2..]);
    assert DigitRun(s) == 1;
    assert FractionAt(s, 1);
  }

  lemma LongDigits()
    ensures |LongDecimal| >= 3 && LongDecimal[0] == '0' && LongDecimal[1] == '.'
    ensures forall i | 2 <= i < |LongDecimal| :: IsDigit(LongDecimal[i])
  {
  }

  lemma ShortDigits()
    ensures |ShortDecimal| >= 3 && ShortDecimal[0] == '0' && ShortDecimal[1] == '.'
    ensures forall i | 2 <= i < |ShortDecimal| :: IsDigit(ShortDecimal[i])
  {
  }

  lemma DecimalsAreLexemes()
    ensures IsNumberLexeme(LongDecimal) && IsNumberLexeme(ShortDecimal)
  {
    LongDigits();
    FractionLexeme(LongDecimal);
    ShortDigits();
    FractionLexeme(ShortDecimal);
  }

  function QuantityOf(lex: string): Element {
    Comp(Quantity, EmptySlots(|Fields(Quantity)|)[2 := Slot([StringPrim(Decimal, lex)])])
  }

  /** An Observation whose `value[x]` is a Quantity. */
  function ObservationOf(q: Element): (e: Element)
    ensures IsResource(e)
  {
    Comp(Observation, EmptySlots(|Fields(Observation)|)[9 := Slot([q])])
  }

  lemma QuantityFits(lex: string)
    requires IsNumberLexeme(lex)
    ensures WellTyped(QuantityOf(lex)) && IsPruned(QuantityOf(lex))
  {
    NumberLexemeChars(lex);
    var q := QuantityOf(lex);
    var x := StringPrim(Decimal, lex);
    assert x == Prim(Decimal, None, [], Some(lex));
    assert WellTyped(x);
    assert IsPruned(x);
    assert !Blank(false, x);
    forall i | 0 <= i < |q.slots|
      ensures SlotTyped(Fields(Quantity)[i], q.slots[i]) && SlotPruned(InTag(Quantity, i), q.slots[i])
    {
      if i == 2 {
        assert q.slots[i].items == [x];
      } else {
        assert q.slots[i].items == [];
      }
    }
  }

  lemma ObservationFits(lex: string)
    requires IsNumberLexeme(lex)
    ensures WellTyped(ObservationOf(QuantityOf(lex))) && IsPruned(ObservationOf(QuantityOf(lex)))
  {
    QuantityFits(lex);
    var q := QuantityOf(lex);
    var e := ObservationOf(q);
    assert Quantity in ObservationValueTypes;
    assert !Blank(false, q) by {
      assert |q.slots[2].items| != 0;
    }
    forall i | 0 <= i < |e.slots|
      ensures SlotTyped(Fields(Observation)[i], e.slots[i]) && SlotPruned(InTag(Observation, i), e.slots[i])
    {
      if i == 9 {
        assert e.slots[i].items == [q];
      } else {
        assert e.slots[i].items == [];
      }
    }
  }

  /** An Observation whose Quantity holds any decimal lexeme is read back
      with exactly that lexeme: nothing is rounded, trimmed or rewritten
      with an exponent. */
  lemma DecimalRoundTrip(lex: string)
    requires IsNumberLexeme(lex)
    ensures Encode(ObservationOf(QuantityOf(lex)), Defaults).Ok?
    ensures Decode(Encode(ObservationOf(QuantityOf(lex)), Defaults).value) == Ok(ObservationOf(QuantityOf(lex)))
  {
    ObservationFits(lex);
    DefaultRoundTrip(ObservationOf(QuantityOf(lex)));
  }

  // ---------------------------------------------------------------------
  // The text written for an Observation with a decimal quantity

  /** Only field `k` holds anything, so only field `k` contributes
      members. */
  lemma {:induction false} OnlyFieldJson(fields: seq<FieldDef>, slots: seq<Slot>, k: nat)
    requires |fields| == |slots| && k < |slots|
    requires forall i | 0 <= i < |slots| && i != k :: slots[i].items == []
    ensures FieldsJson(fields, slots) == FieldJson(fields[k], slots[k])
  {
    if k == 0 {
      EmptyFieldsJson(fields[1..], slots[1..]);
      var head := FieldJson(fields[0], slots[0]);
      if head.Ok? {
        assert head.value + [] == head.value;
      }
    } else {
      assert FieldJson(fields[0], slots[0]) == Ok([]);
      OnlyFieldJson(fields[1..], slots[1..], k - 1);
      var tail := FieldsJson(fields[1..], slots[1..]);
      if tail.Ok? {
        assert [] + tail.value == tail.value;
      }
    }
  }

  /** A decimal is written as a number member holding its lexeme. */
  lemma DecimalMember(key: string, lex: string)
    requires IsNumberLexeme(lex)
    ensures PrimSingleJson(key, Decimal, StringPrim(Decimal, lex)) == Ok([Member(key, JNumber(lex))])
  {
    var x := StringPrim(Decimal, lex);
    assert !HasCompanion(x);
    assert ObjectsJson(Extension, x.extension) == Ok([]);
    var none: seq<Member> := [];
    assert none + none == none;
    assert CompanionJson(x) == Ok(JObject([]));
    assert [Member(key, JNumber(lex))] + none == [Member(key, JNumber(lex))];
  }

  lemma QuantityValueField(lex: string)
    requires IsNumberLexeme(lex)
    ensures FieldJson(Fields(Quantity)[2], Slot([StringPrim(Decimal, lex)])) == Ok([Member("value", JNumber(lex))])
  {
    DecimalMember("value", lex);
  }

  /** A composite with one non-empty field is written as the members of
      that field, after the `resourceType` when it is a resource. */
  lemma OnlyFieldObject(e: Element, k: nat, ms: seq<Member>)
    requires e.Comp? && IsCompositeType(e.typeName) && |e.slots| == |Fields(e.typeName)| && k < |e.slots|
    requires forall i | 0 <= i < |e.slots| && i != k :: e.slots[i].items == []
    requires FieldJson(Fields(e.typeName)[k], e.slots[k]) == Ok(ms)
    ensures IsResourceType(e.typeName) ==>
      CompositeJson(e) == Ok(JObject([Member(ResourceTypeKey, JString(Name(e.typeName)))] + ms))
    ensures !IsResourceType(e.typeName) ==> CompositeJson(e) == Ok(JObject(ms))
  {
    OnlyFieldJson(Fields(e.typeName), e.slots, k);
  }

  lemma QuantityJson(lex: string)
    requires IsNumberLexeme(lex)
    ensures CompositeJson(QuantityOf(lex)) == Ok(JObject([Member("value", JNumber(lex))]))
  {
    var q := QuantityOf(lex);
    assert q.slots[2] == Slot([StringPrim(Decimal, lex)]);
    QuantityValueField(lex);
    OnlyFieldObject(q, 2, [Member("value", JNumber(lex))]);
  }

  lemma ValueQuantityKey()
    ensures ValueKey(Fields(Observation)[9], Quantity) == "valueQuantity"
  {
    assert Capitalize(Name(Quantity)) == "Quantity";
    assert "value" + "Quantity" == "valueQuantity";
  }

  /** One datatype item is written as its object. */
  lemma OneObjectJson(t: TypeName, x: Element)
    requires x.Comp? && x.typeName == t && CompositeJson(x).Ok?
    ensures ObjectsJson(t, [x]) == Ok([CompositeJson(x).value])
  {
    assert [x][1..] == [];
    assert [CompositeJson(x).value] + [] == [CompositeJson(x).value];
  }

  lemma ValueQuantityField(lex: string)
    requires IsNumberLexeme(lex)
    ensures FieldJson(Fields(Observation)[9], Slot([QuantityOf(lex)]))
      == Ok([Member("valueQuantity", JObject([Member("value", JNumber(lex))]))])
  {
    QuantityJson(lex);
    OneObjectJson(Quantity, QuantityOf(lex));
    ValueQuantityKey();
    assert Quantity in ObservationValueTypes;
  }

  lemma ObservationJson(lex: string)
    requires IsNumberLexeme(lex)
    ensures EncodeResource(ObservationOf(QuantityOf(lex))) == Ok(JObject([
      Member(ResourceTypeKey, JString("Observation")),
      Member("valueQuantity", JObject([Member("value", JNumber(lex))]))]))
  {
    var e := ObservationOf(QuantityOf(lex));
    assert e.slots[9] == Slot([QuantityOf(lex)]);
    ValueQuantityField(lex);
    var ms := [Member("valueQuantity", JObject([Member("value", JNumber(lex))]))];
    OnlyFieldObject(e, 9, ms);
    assert [Member(ResourceTypeKey, JString("Observation"))] + ms
      == [Member(ResourceTypeKey, JString("Observation")), Member("valueQuantity", JObject([Member("value", JNumber(lex))]))];
  }

  /** An object with one member. */
  lemma OneMemberObject(m: Member)
    ensures Print(JObject([m])) == "{" + PrintMember(m) + "}"
  {
    assert PrintMembers([m]) == PrintMember(m);
  }

  /** An object with two members. */
  lemma TwoMemberObject(m0: Member, m1: Member)
    ensures Print(JObject([m0, m1])) == "{" + PrintMember(m0) + "," + PrintMember(m1) + "}"
  {
    assert [m0, m1][1..] == [m1];
    assert PrintMembers([m1]) == PrintMember(m1);
  }

  lemma Regroup(k0: string, v0: string, k1: string, k2: string, lex: string)
    ensures "{" + (("\"" + k0 + "\"") + ":" + ("\"" + v0 + "\"")) + ","
        + (("\"" + k1 + "\"") + ":" + ("{" + (("\"" + k2 + "\"") + ":" + lex) + "}")) + "}"
      == ("{" + "\"" + k0 + "\"" + ":" + "\"" + v0 + "\"" + "," + "\"" + k1 + "\"" + ":" + "{" + "\"" + k2 + "\"" + ":")
        + lex + "}}"
  {
  }

  lemma QuotedNames()
    ensures PrintString(ResourceTypeKey) == "\"" + "resourceType" + "\""
    ensures PrintString("Observation") == "\"" + "Observation" + "\""
    ensures PrintString("valueQuantity") == "\"" + "valueQuantity" + "\""
    ensures PrintString("value") == "\"" + "value" + "\""
  {
    PlainType();
    QuotedPlain(ResourceTypeKey);
    QuotedPlain("Observation");
    PlainValue();
    QuotedPlain("valueQuantity");
    QuotedPlain("value");
  }

  lemma PlainType()
    ensures Plain(ResourceTypeKey) && Plain("Observation")
  {
  }

  lemma PlainValue()
    ensures Plain("valueQuantity") && Plain("value")
  {
  }

  lemma ObservationText(lex: string)
    ensures Print(JObject([
      Member(ResourceTypeKey, JString("Observation")),
      Member("valueQuantity", JObject([Member("value", JNumber(lex))]))]))
      == ObservationPrefix + lex + "}}"
  {
    var inner := Member("value", JNumber(lex));
    TwoMemberObject(Member(ResourceTypeKey, JString("Observation")), Member("valueQuantity", JObject([inner])));
    OneMemberObject(inner);
    QuotedNames();
    Regroup(ResourceTypeKey, "Observation", "valueQuantity", "value", lex);
    PrefixPieces();
  }

  /** An Observation whose Quantity holds a decimal is written with the
      decimal's lexeme as a bare JSON number, character for character. */
  lemma DecimalText(lex: string)
    requires IsNumberLexeme(lex)
    ensures Encode(ObservationOf(QuantityOf(lex)), Defaults)
      == Ok(ObservationPrefix + lex + "}}")
  {
    var e := ObservationOf(QuantityOf(lex));
    ObservationFits(lex);
    WellTypedHasNoLinks(e);
    ContainNothing(e);
    ProjectDefaults(e);
    PruneFixes(e);
    ObservationJson(lex);
    ObservationText(lex);
  }

  /** `0.000000000000000100` is written as it is, not as `1.0E-16`. */
  lemma LongDecimalText()
    ensures Encode(ObservationOf(QuantityOf(LongDecimal)), Defaults)
      == Ok("{\"resourceType\":\"Observation\",\"valueQuantity\":{\"value\":0.000000000000000100}}")
  {
    DecimalsAreLexemes();
    DecimalText(LongDecimal);
    LongDecimalLiteral();
  }

  /** Reading the text with `0.000000000000000100` gives the Observation
      with exactly that lexeme. */
  lemma LongDecimalRead()
    ensures Decode("{\"resourceType\":\"Observation\",\"valueQuantity\":{\"value\":0.000000000000000100}}")
      == Ok(ObservationOf(QuantityOf(LongDecimal)))
  {
    LongDecimalText();
    DecimalsAreLexemes();
    DecimalRoundTrip(LongDecimal);
    ReadWritten(ObservationOf(QuantityOf(LongDecimal)),
      "{\"resourceType\":\"Observation\",\"valueQuantity\":{\"value\":0.000000000000000100}}");
  }

  /** What is written for a tree that reads back as itself reads as that
      tree. */
  lemma ReadWritten(e: Element, text: string)
    requires Encode(e, Defaults) == Ok(text) && Decode(Encode(e, Defaults).value) == Ok(e)
    ensures Decode(text) == Ok(e)
  {
  }

  /** `0.0000000000000001` is written as it is. */
  lemma ShortDecimalText()
    ensures Encode(ObservationOf(QuantityOf(ShortDecimal)), Defaults)
      == Ok("{\"resourceType\":\"Observation\",\"valueQuantity\":{\"value\":0.0000000000000001}}")
  {
    DecimalsAreLexemes();
    DecimalText(ShortDecimal);
    ShortDecimalLiteral();
  }

  /** Reading the text with `0.0000000000000001` gives the Observation
      with exactly that lexeme, which is written back as it was read. */
  lemma ShortDecimalRead()
    ensures Decode("{\"resourceType\":\"Observation\",\"valueQuantity\":{\"value\":0.0000000000000001}}")
      == Ok(ObservationOf(QuantityOf(ShortDecimal)))
  {
    ShortDecimalText();
    DecimalsAreLexemes();
    DecimalRoundTrip(ShortDecimal);
    ReadWritten(ObservationOf(QuantityOf(ShortDecimal)),
      "{\"resourceType\":\"Observation\",\"valueQuantity\":{\"value\":0.0000000000000001}}");
  }
}
