/** Facts about the concrete catalog: for every composite type, no two
    of its fields can be written under the same JSON key. Each type is
    checked on its own, which keeps every proof small. */
module CatalogFacts {
  import opened Catalog

  /** Choice types are distinct once their capitalised names are known
      to be distinct. */
  lemma ChoicesDistinctByKeys(ts: seq<TypeName>, ks: seq<string>)
    requires |ts| == |ks|
    requires forall i | 0 <= i < |ts| :: Capitalize(Name(ts[i])) == ks[i]
    requires forall i, j | 0 <= i < j < |ks| :: ks[i] != ks[j]
    ensures ChoicesDistinct(ts)
  {
  }

  /** Names are distinct when they are within each part of a split and
      across the two parts. */
  lemma DistinctBySplit(fields: seq<FieldDef>, k: nat)
    requires k <= |fields|
    requires forall i, j | 0 <= i < j < k :: fields[i].name != fields[j].name
    requires forall i, j | k <= i < j < |fields| :: fields[i].name != fields[j].name
    requires forall i, j | 0 <= i < k <= j < |fields| :: fields[i].name != fields[j].name
    ensures NamesDistinct(fields)
  {
  }

  lemma CapitalizeIs(t: string, r: string)
    requires |t| > 0 && |r| == |t| && r[0] == Upper(t[0]) && r[1..] == t[1..]
    ensures Capitalize(t) == r
  {
    assert r == [r[0]] + r[1..];
  }

  /** Strings that differ at some position are not prefixes of each
      other. */
  lemma {:induction false} NotPrefixAt(p: string, s: string, i: nat)
    requires i < |p| && i < |s| && p[i] != s[i]
    ensures !IsPrefix(p, s)
  {
    if i > 0 {
      NotPrefixAt(p[1..], s[1..], i - 1);
    }
  }

  /** A field list without choice fields is trivially prefix free. */
  lemma NoChoices(fields: seq<FieldDef>)
    requires forall i | 0 <= i < |fields| :: !fields[i].ftype.Choice?
    ensures ChoicePrefixFree(fields) && ChoicesSingle(fields)
  {
  }

  /** With a single choice field at `c`, only its name needs checking
      against the others. */
  lemma OneChoice(fields: seq<FieldDef>, c: nat)
    requires c < |fields|
    requires forall i | 0 <= i < |fields| && i != c :: !fields[i].ftype.Choice?
    requires forall j | 0 <= j < |fields| && j != c :: !IsPrefix(fields[c].name, fields[j].name)
    ensures ChoicePrefixFree(fields)
  {
  }

  lemma PatientNamesLow() ensures forall i, j | 0 <= i < j < 6 :: Fields(Patient)[i].name != Fields(Patient)[j].name {}
  lemma PatientNamesHigh() ensures forall i, j | 6 <= i < j < 13 :: Fields(Patient)[i].name != Fields(Patient)[j].name {}
  lemma PatientNamesCross() ensures forall i, j | 0 <= i < 6 <= j < 13 :: Fields(Patient)[i].name != Fields(Patient)[j].name {}
  lemma PatientNamesDistinct() ensures NamesDistinct(Fields(Patient)) {
    PatientNamesLow();
    PatientNamesHigh();
    PatientNamesCross();
    DistinctBySplit(Fields(Patient), 6);
  }
  lemma PatientNamesPlainLow() ensures forall i | 0 <= i < 6 :: PlainName(Fields(Patient)[i].name) {}
  lemma PatientNamesPlainHigh() ensures forall i | 6 <= i < 13 :: PlainName(Fields(Patient)[i].name) {}
  lemma PatientNamesPlain() ensures NamesPlain(Fields(Patient)) {
    PatientNamesPlainLow();
    PatientNamesPlainHigh();
  }
  lemma PatientChoicePrefixFree() ensures ChoicePrefixFree(Fields(Patient)) { NoChoices(Fields(Patient)); }
  lemma PatientChoicesSingle() ensures ChoicesSingle(Fields(Patient)) { NoChoices(Fields(Patient)); }
  lemma PatientWellFormed() ensures FieldsWellFormed(Fields(Patient)) {
    PatientNamesDistinct();
    PatientNamesPlain();
    PatientChoicePrefixFree();
    PatientChoicesSingle();
  }

  lemma ObservationNamesLow() ensures forall i, j | 0 <= i < j < 5 :: Fields(Observation)[i].name != Fields(Observation)[j].name {}
  lemma ObservationNamesHigh() ensures forall i, j | 5 <= i < j < 10 :: Fields(Observation)[i].name != Fields(Observation)[j].name {}
  lemma ObservationNamesCross() ensures forall i, j | 0 <= i < 5 <= j < 10 :: Fields(Observation)[i].name != Fields(Observation)[j].name {}
  lemma ObservationNamesDistinct() ensures NamesDistinct(Fields(Observation)) {
    ObservationNamesLow();
    ObservationNamesHigh();
    ObservationNamesCross();
    DistinctBySplit(Fields(Observation), 5);
  }
  lemma ObservationNamesPlainLow() ensures forall i | 0 <= i < 5 :: PlainName(Fields(Observation)[i].name) {}
  lemma ObservationNamesPlainHigh() ensures forall i | 5 <= i < 10 :: PlainName(Fields(Observation)[i].name) {}
  lemma ObservationNamesPlain() ensures NamesPlain(Fields(Observation)) {
    ObservationNamesPlainLow();
    ObservationNamesPlainHigh();
  }
  lemma ObservationChoicePrefixFree() ensures ChoicePrefixFree(Fields(Observation)) { OneChoice(Fields(Observation), 9); }
  const ObservationChoiceKeys: seq<string> := ["Quantity", "CodeableConcept", "String", "DateTime"]
  lemma ObservationChoiceKeysDistinct() ensures forall i, j | 0 <= i < j < |ObservationChoiceKeys| :: ObservationChoiceKeys[i] != ObservationChoiceKeys[j] {}
  lemma ObservationChoiceKeysNamed()
    ensures |ObservationValueTypes| == |ObservationChoiceKeys|
    ensures forall i | 0 <= i < |ObservationValueTypes| :: Capitalize(Name(ObservationValueTypes[i])) == ObservationChoiceKeys[i] {}
  lemma ObservationChoicesSingle() ensures ChoicesSingle(Fields(Observation)) {
    ObservationChoiceKeysDistinct();
    ObservationChoiceKeysNamed();
    ChoicesDistinctByKeys(ObservationValueTypes, ObservationChoiceKeys);
  }
  lemma ObservationWellFormed() ensures FieldsWellFormed(Fields(Observation)) {
    ObservationNamesDistinct();
    ObservationNamesPlain();
    ObservationChoicePrefixFree();
    ObservationChoicesSingle();
  }

  lemma ConditionNamesLow() ensures forall i, j | 0 <= i < j < 5 :: Fields(Condition)[i].name != Fields(Condition)[j].name {}
  lemma ConditionNamesHigh() ensures forall i, j | 5 <= i < j < 9 :: Fields(Condition)[i].name != Fields(Condition)[j].name {}
  lemma ConditionNamesCross() ensures forall i, j | 0 <= i < 5 <= j < 9 :: Fields(Condition)[i].name != Fields(Condition)[j].name {}
  lemma ConditionNamesDistinct() ensures NamesDistinct(Fields(Condition)) {
    ConditionNamesLow();
    ConditionNamesHigh();
    ConditionNamesCross();
    DistinctBySplit(Fields(Condition), 5);
  }
  lemma ConditionNamesPlainLow() ensures forall i | 0 <= i < 4 :: PlainName(Fields(Condition)[i].name) {}
  lemma ConditionNamesPlainHigh() ensures forall i | 4 <= i < 9 :: PlainName(Fields(Condition)[i].name) {}
  lemma ConditionNamesPlain() ensures NamesPlain(Fields(Condition)) {
    ConditionNamesPlainLow();
    ConditionNamesPlainHigh();
  }
  lemma ConditionChoicePrefixFree() ensures ChoicePrefixFree(Fields(Condition)) { NoChoices(Fields(Condition)); }
  lemma ConditionChoicesSingle() ensures ChoicesSingle(Fields(Condition)) { NoChoices(Fields(Condition)); }
  lemma ConditionWellFormed() ensures FieldsWellFormed(Fields(Condition)) {
    ConditionNamesDistinct();
    ConditionNamesPlain();
    ConditionChoicePrefixFree();
    ConditionChoicesSingle();
  }

  lemma BinaryNamesDistinct() ensures NamesDistinct(Fields(Binary)) {}
  lemma BinaryNamesPlain() ensures NamesPlain(Fields(Binary)) {}
  lemma BinaryChoicePrefixFree() ensures ChoicePrefixFree(Fields(Binary)) { NoChoices(Fields(Binary)); }
  lemma BinaryChoicesSingle() ensures ChoicesSingle(Fields(Binary)) { NoChoices(Fields(Binary)); }
  lemma BinaryWellFormed() ensures FieldsWellFormed(Fields(Binary)) {
    BinaryNamesDistinct();
    BinaryNamesPlain();
    BinaryChoicePrefixFree();
    BinaryChoicesSingle();
  }

  lemma ConformanceNamesDistinct() ensures NamesDistinct(Fields(Conformance)) {}
  lemma ConformanceNamesPlainLow() ensures forall i | 0 <= i < 4 :: PlainName(Fields(Conformance)[i].name) {}
  lemma ConformanceNamesPlainHigh() ensures forall i | 4 <= i < 8 :: PlainName(Fields(Conformance)[i].name) {}
  lemma ConformanceNamesPlain() ensures NamesPlain(Fields(Conformance)) {
    ConformanceNamesPlainLow();
    ConformanceNamesPlainHigh();
  }
  lemma ConformanceChoicePrefixFree() ensures ChoicePrefixFree(Fields(Conformance)) { NoChoices(Fields(Conformance)); }
  lemma ConformanceChoicesSingle() ensures ChoicesSingle(Fields(Conformance)) { NoChoices(Fields(Conformance)); }
  lemma ConformanceWellFormed() ensures FieldsWellFormed(Fields(Conformance)) {
    ConformanceNamesDistinct();
    ConformanceNamesPlain();
    ConformanceChoicePrefixFree();
    ConformanceChoicesSingle();
  }

  lemma HumanNameNamesDistinct() ensures NamesDistinct(Fields(HumanName)) {}
  lemma HumanNameNamesPlain() ensures NamesPlain(Fields(HumanName)) {}
  lemma HumanNameChoicePrefixFree() ensures ChoicePrefixFree(Fields(HumanName)) { NoChoices(Fields(HumanName)); }
  lemma HumanNameChoicesSingle() ensures ChoicesSingle(Fields(HumanName)) { NoChoices(Fields(HumanName)); }
  lemma HumanNameWellFormed() ensures FieldsWellFormed(Fields(HumanName)) {
    HumanNameNamesDistinct();
    HumanNameNamesPlain();
    HumanNameChoicePrefixFree();
    HumanNameChoicesSingle();
  }

  lemma AddressNamesDistinct() ensures NamesDistinct(Fields(Address)) {}
  lemma AddressNamesPlain() ensures NamesPlain(Fields(Address)) {}
  lemma AddressChoicePrefixFree() ensures ChoicePrefixFree(Fields(Address)) { NoChoices(Fields(Address)); }
  lemma AddressChoicesSingle() ensures ChoicesSingle(Fields(Address)) { NoChoices(Fields(Address)); }
  lemma AddressWellFormed() ensures FieldsWellFormed(Fields(Address)) {
    AddressNamesDistinct();
    AddressNamesPlain();
    AddressChoicePrefixFree();
    AddressChoicesSingle();
  }

  lemma IdentifierNamesDistinct() ensures NamesDistinct(Fields(Identifier)) {}
  lemma IdentifierNamesPlain() ensures NamesPlain(Fields(Identifier)) {}
  lemma IdentifierChoicePrefixFree() ensures ChoicePrefixFree(Fields(Identifier)) { NoChoices(Fields(Identifier)); }
  lemma IdentifierChoicesSingle() ensures ChoicesSingle(Fields(Identifier)) { NoChoices(Fields(Identifier)); }
  lemma IdentifierWellFormed() ensures FieldsWellFormed(Fields(Identifier)) {
    IdentifierNamesDistinct();
    IdentifierNamesPlain();
    IdentifierChoicePrefixFree();
    IdentifierChoicesSingle();
  }

  lemma MetaNamesDistinct() ensures NamesDistinct(Fields(Meta)) {}
  lemma MetaNamesPlainLow() ensures forall i | 0 <= i < 3 :: PlainName(Fields(Meta)[i].name) {}
  lemma MetaNamesPlainHigh() ensures forall i | 3 <= i < 7 :: PlainName(Fields(Meta)[i].name) {}
  lemma MetaNamesPlain() ensures NamesPlain(Fields(Meta)) {
    MetaNamesPlainLow();
    MetaNamesPlainHigh();
  }
  lemma MetaChoicePrefixFree() ensures ChoicePrefixFree(Fields(Meta)) { NoChoices(Fields(Meta)); }
  lemma MetaChoicesSingle() ensures ChoicesSingle(Fields(Meta)) { NoChoices(Fields(Meta)); }
  lemma MetaWellFormed() ensures FieldsWellFormed(Fields(Meta)) {
    MetaNamesDistinct();
    MetaNamesPlain();
    MetaChoicePrefixFree();
    MetaChoicesSingle();
  }

  lemma CodingNamesDistinct() ensures NamesDistinct(Fields(Coding)) {}
  lemma CodingNamesPlain() ensures NamesPlain(Fields(Coding)) {}
  lemma CodingChoicePrefixFree() ensures ChoicePrefixFree(Fields(Coding)) { NoChoices(Fields(Coding)); }
  lemma CodingChoicesSingle() ensures ChoicesSingle(Fields(Coding)) { NoChoices(Fields(Coding)); }
  lemma CodingWellFormed() ensures FieldsWellFormed(Fields(Coding)) {
    CodingNamesDistinct();
    CodingNamesPlain();
    CodingChoicePrefixFree();
    CodingChoicesSingle();
  }

  lemma CodeableConceptNamesDistinct() ensures NamesDistinct(Fields(CodeableConcept)) {}
  lemma CodeableConceptNamesPlain() ensures NamesPlain(Fields(CodeableConcept)) {}
  lemma CodeableConceptChoicePrefixFree() ensures ChoicePrefixFree(Fields(CodeableConcept)) { NoChoices(Fields(CodeableConcept)); }
  lemma CodeableConceptChoicesSingle() ensures ChoicesSingle(Fields(CodeableConcept)) { NoChoices(Fields(CodeableConcept)); }
  lemma CodeableConceptWellFormed() ensures FieldsWellFormed(Fields(CodeableConcept)) {
    CodeableConceptNamesDistinct();
    CodeableConceptNamesPlain();
    CodeableConceptChoicePrefixFree();
    CodeableConceptChoicesSingle();
  }

  lemma NarrativeNamesDistinct() ensures NamesDistinct(Fields(Narrative)) {}
  lemma NarrativeNamesPlain() ensures NamesPlain(Fields(Narrative)) {}
  lemma NarrativeChoicePrefixFree() ensures ChoicePrefixFree(Fields(Narrative)) { NoChoices(Fields(Narrative)); }
  lemma NarrativeChoicesSingle() ensures ChoicesSingle(Fields(Narrative)) { NoChoices(Fields(Narrative)); }
  lemma NarrativeWellFormed() ensures FieldsWellFormed(Fields(Narrative)) {
    NarrativeNamesDistinct();
    NarrativeNamesPlain();
    NarrativeChoicePrefixFree();
    NarrativeChoicesSingle();
  }

  lemma QuantityNamesDistinct() ensures NamesDistinct(Fields(Quantity)) {}
  lemma QuantityNamesPlain() ensures NamesPlain(Fields(Quantity)) {}
  lemma QuantityChoicePrefixFree() ensures ChoicePrefixFree(Fields(Quantity)) { NoChoices(Fields(Quantity)); }
  lemma QuantityChoicesSingle() ensures ChoicesSingle(Fields(Quantity)) { NoChoices(Fields(Quantity)); }
  lemma QuantityWellFormed() ensures FieldsWellFormed(Fields(Quantity)) {
    QuantityNamesDistinct();
    QuantityNamesPlain();
    QuantityChoicePrefixFree();
    QuantityChoicesSingle();
  }

  lemma ReferenceNamesDistinct() ensures NamesDistinct(Fields(Reference)) {}
  lemma ReferenceNamesPlain() ensures NamesPlain(Fields(Reference)) {
    NotPrefixAt("resourceType", "reference", 2);
    NotPrefixAt("reference", "resourceType", 2);
  }
  lemma ReferenceChoicePrefixFree() ensures ChoicePrefixFree(Fields(Reference)) { NoChoices(Fields(Reference)); }
  lemma ReferenceChoicesSingle() ensures ChoicesSingle(Fields(Reference)) { NoChoices(Fields(Reference)); }
  lemma ReferenceWellFormed() ensures FieldsWellFormed(Fields(Reference)) {
    ReferenceNamesDistinct();
    ReferenceNamesPlain();
    ReferenceChoicePrefixFree();
    ReferenceChoicesSingle();
  }

  lemma AttachmentNamesDistinct() ensures NamesDistinct(Fields(Attachment)) {}
  lemma AttachmentNamesPlain() ensures NamesPlain(Fields(Attachment)) {}
  lemma AttachmentChoicePrefixFree() ensures ChoicePrefixFree(Fields(Attachment)) { NoChoices(Fields(Attachment)); }
  lemma AttachmentChoicesSingle() ensures ChoicesSingle(Fields(Attachment)) { NoChoices(Fields(Attachment)); }
  lemma AttachmentWellFormed() ensures FieldsWellFormed(Fields(Attachment)) {
    AttachmentNamesDistinct();
    AttachmentNamesPlain();
    AttachmentChoicePrefixFree();
    AttachmentChoicesSingle();
  }

  lemma ExtensionNamesDistinct() ensures NamesDistinct(Fields(Extension)) {}
  lemma ExtensionNamesPlain() ensures NamesPlain(Fields(Extension)) {}
  lemma ExtensionChoicePrefixFree() ensures ChoicePrefixFree(Fields(Extension)) { OneChoice(Fields(Extension), 3); }
  const ExtensionChoiceKeys: seq<string> := ["String", "Code", "Uri", "Date", "DateTime", "Decimal", "Coding", "CodeableConcept", "Quantity", "Reference"]
  lemma ExtensionChoiceKeysDistinct() ensures forall i, j | 0 <= i < j < |ExtensionChoiceKeys| :: ExtensionChoiceKeys[i] != ExtensionChoiceKeys[j] {}
  lemma ExtensionChoiceKey0() ensures Capitalize(Name(ExtensionValueTypes[0])) == ExtensionChoiceKeys[0] {
    assert ExtensionValueTypes[0] == String && Name(String) == "string";
    CapitalizeIs("string", "String");
  }
  lemma ExtensionChoiceKey1() ensures Capitalize(Name(ExtensionValueTypes[1])) == ExtensionChoiceKeys[1] {
    assert ExtensionValueTypes[1] == Code && Name(Code) == "code";
    CapitalizeIs("code", "Code");
  }
  lemma ExtensionChoiceKey2() ensures Capitalize(Name(ExtensionValueTypes[2])) == ExtensionChoiceKeys[2] {
    assert ExtensionValueTypes[2] == Uri && Name(Uri) == "uri";
    CapitalizeIs("uri", "Uri");
  }
  lemma ExtensionChoiceKey3() ensures Capitalize(Name(ExtensionValueTypes[3])) == ExtensionChoiceKeys[3] {
    assert ExtensionValueTypes[3] == Date && Name(Date) == "date";
    CapitalizeIs("date", "Date");
  }
  lemma ExtensionChoiceKey4() ensures Capitalize(Name(ExtensionValueTypes[4])) == ExtensionChoiceKeys[4] {
    assert ExtensionValueTypes[4] == DateTime && Name(DateTime) == "dateTime";
    CapitalizeIs("dateTime", "DateTime");
  }
  lemma ExtensionChoiceKey5() ensures Capitalize(Name(ExtensionValueTypes[5])) == ExtensionChoiceKeys[5] {
    assert ExtensionValueTypes[5] == Decimal && Name(Decimal) == "decimal";
    CapitalizeIs("decimal", "Decimal");
  }
  lemma ExtensionChoiceKey6() ensures Capitalize(Name(ExtensionValueTypes[6])) == ExtensionChoiceKeys[6] {
    assert ExtensionValueTypes[6] == Coding && Name(Coding) == "Coding";
    CapitalizeIs("Coding", "Coding");
  }
  lemma ExtensionChoiceKey7() ensures Capitalize(Name(ExtensionValueTypes[7])) == ExtensionChoiceKeys[7] {
    assert ExtensionValueTypes[7] == CodeableConcept && Name(CodeableConcept) == "CodeableConcept";
    CapitalizeIs("CodeableConcept", "CodeableConcept");
  }
  lemma ExtensionChoiceKey8() ensures Capitalize(Name(ExtensionValueTypes[8])) == ExtensionChoiceKeys[8] {
    assert ExtensionValueTypes[8] == Quantity && Name(Quantity) == "Quantity";
    CapitalizeIs("Quantity", "Quantity");
  }
  lemma ExtensionChoiceKey9() ensures Capitalize(Name(ExtensionValueTypes[9])) == ExtensionChoiceKeys[9] {
    assert ExtensionValueTypes[9] == Reference && Name(Reference) == "Reference";
    CapitalizeIs("Reference", "Reference");
  }
  lemma ExtensionChoiceKeysNamed()
    ensures |ExtensionValueTypes| == |ExtensionChoiceKeys|
    ensures forall i | 0 <= i < |ExtensionValueTypes| :: Capitalize(Name(ExtensionValueTypes[i])) == ExtensionChoiceKeys[i]
  {
    ExtensionChoiceKey0(); ExtensionChoiceKey1(); ExtensionChoiceKey2(); ExtensionChoiceKey3(); ExtensionChoiceKey4();
    ExtensionChoiceKey5(); ExtensionChoiceKey6(); ExtensionChoiceKey7(); ExtensionChoiceKey8(); ExtensionChoiceKey9();
    forall i | 0 <= i < |ExtensionValueTypes| ensures Capitalize(Name(ExtensionValueTypes[i])) == ExtensionChoiceKeys[i] {
    }
  }
  lemma ExtensionChoicesSingle() ensures ChoicesSingle(Fields(Extension)) {
    ExtensionChoiceKeysDistinct();
    ExtensionChoiceKeysNamed();
    ChoicesDistinctByKeys(ExtensionValueTypes, ExtensionChoiceKeys);
  }
  lemma ExtensionWellFormed() ensures FieldsWellFormed(Fields(Extension)) {
    ExtensionNamesDistinct();
    ExtensionNamesPlain();
    ExtensionChoicePrefixFree();
    ExtensionChoicesSingle();
  }

  /** Every composite type of the catalog is well formed. */
  lemma CatalogWellFormed(t: TypeName)
    requires IsCompositeType(t)
    ensures FieldsWellFormed(Lookup(t).fields)
  {
    match t
    case Patient => PatientWellFormed();
    case Observation => ObservationWellFormed();
    case Condition => ConditionWellFormed();
    case Binary => BinaryWellFormed();
    case Conformance => ConformanceWellFormed();
    case HumanName => HumanNameWellFormed();
    case Address => AddressWellFormed();
    case Identifier => IdentifierWellFormed();
    case Meta => MetaWellFormed();
    case Coding => CodingWellFormed();
    case CodeableConcept => CodeableConceptWellFormed();
    case Narrative => NarrativeWellFormed();
    case Quantity => QuantityWellFormed();
    case Reference => ReferenceWellFormed();
    case Attachment => AttachmentWellFormed();
    case Extension => ExtensionWellFormed();
  }
}
