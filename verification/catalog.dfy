/** The definition catalog: for every type the codec knows, either how a
    primitive's lexical value is written in JSON, or the ordered list of a
    composite's fields with their type, cardinality and summary flag. Field
    order here is the order of the members in the JSON output; it is never
    supplied by the caller.

    The catalog covers the STU3 resources Patient, Observation, Condition,
    Binary and Conformance and the datatypes they use. Flags follow the
    STU3 definitions: `text`, `contained`, `extension` and
    `modifierExtension` of a resource are not summary elements, nor are
    `Patient.maritalStatus` and `Patient.photo`; inside a datatype every
    element counts as summary. */
module Catalog {
  import opened Results

  /** Every type the catalog defines: the resources, the datatypes they
      use, and the primitive types. */
  datatype TypeName =
    | Patient | Observation | Condition | Binary | Conformance
    | HumanName | Address | Identifier | Meta | Coding | CodeableConcept
    | Narrative | Quantity | Reference | Attachment | Extension
    | Decimal | String | Code | Uri | Id | Date | DateTime | Instant | Xhtml | Base64Binary

  /** The name a type has in FHIR: the `resourceType` of a resource and,
      capitalised, the suffix of a choice key. */
  function Name(t: TypeName): string {
    match t
    case Patient => "Patient"
    case Observation => "Observation"
    case Condition => "Condition"
    case Binary => "Binary"
    case Conformance => "Conformance"
    case HumanName => "HumanName"
    case Address => "Address"
    case Identifier => "Identifier"
    case Meta => "Meta"
    case Coding => "Coding"
    case CodeableConcept => "CodeableConcept"
    case Narrative => "Narrative"
    case Quantity => "Quantity"
    case Reference => "Reference"
    case Attachment => "Attachment"
    case Extension => "Extension"
    case Decimal => "decimal"
    case String => "string"
    case Code => "code"
    case Uri => "uri"
    case Id => "id"
    case Date => "date"
    case DateTime => "dateTime"
    case Instant => "instant"
    case Xhtml => "xhtml"
    case Base64Binary => "base64Binary"
  }

  /** The resource a `resourceType` value names, if any. */
  function ResourceNamed(s: string): (r: Option<TypeName>)
    ensures r.Some? ==> Name(r.value) == s && IsResourceType(r.value)
  {
    if s == "Patient" then Some(Patient)
    else if s == "Observation" then Some(Observation)
    else if s == "Condition" then Some(Condition)
    else if s == "Binary" then Some(Binary)
    else if s == "Conformance" then Some(Conformance)
    else None
  }

  /** Every resource is found under its own name. */
  lemma ResourceNamedName(t: TypeName)
    requires IsResourceType(t)
    ensures ResourceNamed(Name(t)) == Some(t)
  {
  }

  /** How a primitive's lexical value appears in JSON. */
  datatype JsonKind = JsonString | JsonNumber

  datatype FieldType =
    | Of(typeName: TypeName)          // exactly this catalog type
    | Choice(choices: seq<TypeName>)  // a `value[x]` field: one of these types
    | AnyResource                     // an inline resource (`contained`)

  datatype FieldDef = FieldDef(name: string, ftype: FieldType, repeating: bool, summary: bool)

  datatype TypeDef =
    | PrimitiveDef(kind: JsonKind)
    | CompositeDef(isResource: bool, fields: seq<FieldDef>)

  function One(name: string, t: TypeName, summary: bool): FieldDef {
    FieldDef(name, Of(t), false, summary)
  }

  function Many(name: string, t: TypeName, summary: bool): FieldDef {
    FieldDef(name, Of(t), true, summary)
  }

  /** The types a `value[x]` of an extension may take. */
  const ExtensionValueTypes: seq<TypeName> :=
    [String, Code, Uri, Date, DateTime, Decimal, Coding, CodeableConcept, Quantity, Reference]

  /** The types `Observation.value[x]` may take. */
  const ObservationValueTypes: seq<TypeName> := [Quantity, CodeableConcept, String, DateTime]

  /** The ordered fields of a composite type (none for a primitive). */
  function Fields(t: TypeName): seq<FieldDef> {
    match t
    case Patient => [
      One("id", Id, true),
      One("meta", Meta, true),
      One("text", Narrative, false),
      FieldDef("contained", AnyResource, true, false),
      Many("extension", Extension, false),
      Many("modifierExtension", Extension, false),
      Many("identifier", Identifier, true),
      Many("name", HumanName, true),
      One("gender", Code, true),
      One("birthDate", Date, true),
      Many("address", Address, true),
      One("maritalStatus", CodeableConcept, false),
      Many("photo", Attachment, false)
    ]
    case Observation => [
      One("id", Id, true),
      One("meta", Meta, true),
      One("text", Narrative, false),
      FieldDef("contained", AnyResource, true, false),
      Many("extension", Extension, false),
      Many("modifierExtension", Extension, false),
      One("status", Code, true),
      One("code", CodeableConcept, true),
      One("subject", Reference, true),
      FieldDef("value", Choice(ObservationValueTypes), false, true)
    ]
    case Condition => [
      One("id", Id, true),
      One("meta", Meta, true),
      One("text", Narrative, false),
      FieldDef("contained", AnyResource, true, false),
      Many("extension", Extension, false),
      Many("modifierExtension", Extension, false),
      One("verificationStatus", Code, true),
      One("code", CodeableConcept, true),
      One("subject", Reference, true)
    ]
    case Binary => [
      One("id", Id, true),
      One("meta", Meta, true),
      One("contentType", Code, true),
      One("content", Base64Binary, true)
    ]
    case Conformance => [
      One("id", Id, true),
      One("meta", Meta, true),
      One("text", Narrative, false),
      FieldDef("contained", AnyResource, true, false),
      Many("extension", Extension, false),
      Many("modifierExtension", Extension, false),
      One("status", Code, true),
      One("acceptUnknown", Code, true)
    ]
    case HumanName => [
      One("id", String, true),
      Many("extension", Extension, true),
      One("use", Code, true),
      One("text", String, true),
      Many("family", String, true),
      Many("given", String, true)
    ]
    case Address => [
      One("id", String, true),
      Many("extension", Extension, true),
      One("use", Code, true),
      Many("line", String, true),
      One("city", String, true)
    ]
    case Identifier => [
      One("id", String, true),
      Many("extension", Extension, true),
      One("use", Code, true),
      One("system", Uri, true),
      One("value", String, true)
    ]
    case Meta => [
      One("id", String, true),
      Many("extension", Extension, true),
      One("versionId", Id, true),
      One("lastUpdated", Instant, true),
      Many("profile", Uri, true),
      Many("security", Coding, true),
      Many("tag", Coding, true)
    ]
    case Coding => [
      One("id", String, true),
      Many("extension", Extension, true),
      One("system", Uri, true),
      One("version", String, true),
      One("code", Code, true),
      One("display", String, true)
    ]
    case CodeableConcept => [
      One("id", String, true),
      Many("extension", Extension, true),
      Many("coding", Coding, true),
      One("text", String, true)
    ]
    case Narrative => [
      One("id", String, true),
      Many("extension", Extension, true),
      One("status", Code, true),
      One("div", Xhtml, true)
    ]
    case Quantity => [
      One("id", String, true),
      Many("extension", Extension, true),
      One("value", Decimal, true),
      One("unit", String, true),
      One("system", Uri, true),
      One("code", Code, true)
    ]
    case Reference => [
      One("id", String, true),
      Many("extension", Extension, true),
      One("reference", String, true),
      One("display", String, true)
    ]
    case Attachment => [
      One("id", String, true),
      Many("extension", Extension, true),
      One("contentType", Code, true),
      One("title", String, true)
    ]
    case Extension => [
      One("id", String, true),
      One("url", Uri, true),
      Many("extension", Extension, true),
      FieldDef("value", Choice(ExtensionValueTypes), false, true)
    ]
    case _ => []
  }

  /** Positions, in the lists above, of the fields the codec's stages
      look at by position. */
  const ResourceId: nat := 0
  const ResourceMeta: nat := 1
  const ContainedField: nat := 3
  const ExtensionChildren: nat := 2
  const ExtensionValue: nat := 3
  const CodingSystem: nat := 2
  const CodingCode: nat := 4
  const MetaTag: nat := 6
  const ReferenceField: nat := 2

  function Lookup(t: TypeName): (d: TypeDef)
    ensures d.PrimitiveDef? <==> IsPrimitiveType(t)
    ensures d.CompositeDef? ==> (d.isResource <==> IsResourceType(t)) && d.fields == Fields(t)
    ensures d == PrimitiveDef(JsonNumber) <==> IsNumberType(t)
  {
    if IsPrimitiveType(t) then PrimitiveDef(if t == Decimal then JsonNumber else JsonString)
    else CompositeDef(IsResourceType(t), Fields(t))
  }

  /** The type classes, stated on the type names so that using them does
      not bring in the whole catalog; `Lookup` agrees with them. */
  predicate IsResourceType(t: TypeName) {
    t.Patient? || t.Observation? || t.Condition? || t.Binary? || t.Conformance?
  }

  predicate IsPrimitiveType(t: TypeName) {
    || t.Decimal? || t.String? || t.Code? || t.Uri? || t.Id?
    || t.Date? || t.DateTime? || t.Instant? || t.Xhtml? || t.Base64Binary?
  }

  predicate IsCompositeType(t: TypeName) {
    !IsPrimitiveType(t)
  }

  /** A primitive written as a JSON number rather than a string. */
  predicate IsNumberType(t: TypeName) {
    t == Decimal
  }

  // ---------------------------------------------------------------------
  // JSON keys

  function Upper(c: char): char {
    if 'a' <= c <= 'z' then (c as int - 32) as char else c
  }

  /** `dateTime` becomes `DateTime`: the suffix of a choice key. */
  function Capitalize(t: string): (r: string)
    ensures |r| == |t|
    ensures |t| > 0 ==> r[0] == Upper(t[0]) && r[1..] == t[1..]
  {
    if |t| == 0 then "" else [Upper(t[0])] + t[1..]
  }

  /** The JSON key under which a field holding a value of type `t` is
      written: the field name, or for a choice field the name followed by
      the capitalised type (`value` + `Quantity` = `valueQuantity`). */
  function ValueKey(f: FieldDef, t: TypeName): string {
    if f.ftype.Choice? then f.name + Capitalize(Name(t)) else f.name
  }

  /** The key of the companion that carries a primitive's id and
      extensions. */
  function CompanionKey(key: string): (r: string)
    ensures |r| == |key| + 1 && r[0] == '_' && r[1..] == key
  {
    "_" + key
  }

  predicate IsPrefix(p: string, s: string) {
    |p| == 0 || (|s| > 0 && p[0] == s[0] && IsPrefix(p[1..], s[1..]))
  }

  /** A field list is well formed when no two fields can be written under
      the same JSON key: names are distinct, none looks like a companion
      or like the `resourceType` discriminator, a choice field's name is
      not the start of another field's name, a choice field holds one
      value, and its types give distinct keys. */
  predicate FieldsWellFormed(fields: seq<FieldDef>) {
    NamesDistinct(fields) && NamesPlain(fields) && ChoicePrefixFree(fields) && ChoicesSingle(fields)
  }

  predicate NamesDistinct(fields: seq<FieldDef>) {
    forall i, j | 0 <= i < j < |fields| :: fields[i].name != fields[j].name
  }

  predicate NamesPlain(fields: seq<FieldDef>) {
    forall i | 0 <= i < |fields| :: PlainName(fields[i].name)
  }

  /** A name that can be neither a companion key nor the `resourceType`
      discriminator, nor a prefix of it. */
  predicate PlainName(n: string) {
    |n| > 0 && n[0] != '_' && !IsPrefix("resourceType", n) && !IsPrefix(n, "resourceType")
  }

  predicate ChoicePrefixFree(fields: seq<FieldDef>) {
    forall i, j | 0 <= i < |fields| && 0 <= j < |fields| && i != j && fields[i].ftype.Choice? ::
      !IsPrefix(fields[i].name, fields[j].name)
  }

  predicate ChoicesSingle(fields: seq<FieldDef>) {
    forall i | 0 <= i < |fields| && fields[i].ftype.Choice? ::
      !fields[i].repeating && ChoicesDistinct(fields[i].ftype.choices)
  }

  predicate ChoicesDistinct(ts: seq<TypeName>) {
    forall i, j | 0 <= i < j < |ts| :: Capitalize(Name(ts[i])) != Capitalize(Name(ts[j]))
  }
}
