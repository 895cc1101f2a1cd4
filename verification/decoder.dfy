/** Reading a JSON document tree into an element tree.

    The decoder walks the catalog rather than the JSON: for every field of
    the type it looks up the field's key (and the `_key` companion) in the
    object and builds the slot from what it finds. For a repeating
    primitive the value array and the companion array are merged by
    index; `null` in either stands for "nothing at this index". Keys that
    no field claims are ignored. A JSON value of the wrong kind for its
    field is a format error, and so is an object that should be a
    resource but has no `resourceType`. */
module Decoder {
  import opened Results
  import opened Json
  import opened Catalog
  import opened Elements
  import opened Encoder

  const MissingResourceType: string :=
    "Missing required element 'resourceType' from JSON resource object, unable to parse"

  /** The JSON kind of a value, as error messages name it. */
  function KindName(v: JValue): string {
    match v
    case JNull => "NULL"
    case JBool(_) => "BOOLEAN"
    case JNumber(_) => "NUMBER"
    case JString(_) => "STRING"
    case JArray(_) => "ARRAY"
    case JObject(_) => "OBJECT"
  }

  function ShapeError(expected: string, key: string, found: JValue): Failure {
    FormatError("Syntax error parsing JSON FHIR structure: Expected " + expected + " at element '" + key
      + "', found '" + KindName(found) + "'")
  }

  /** The id and extensions a companion object carries. */
  datatype Companion = Companion(id: Option<string>, extension: seq<Element>)

  predicate CompanionTyped(c: Companion) {
    forall x | x in c.extension :: IsExtension(x) && WellTyped(x)
  }

  /** A whole resource. */
  function DecodeResource(v: JValue): (r: Result<Element>)
    ensures r.Ok? ==> IsResource(r.value) && WellTyped(r.value)
    ensures v.JObject? && (forall m | m in v.members :: m.key != ResourceTypeKey) ==> r == Err(FormatError(MissingResourceType))
    ensures !v.JObject? ==> r.Err?
    decreases v, 6, 0
  {
    match v
    case JObject(ms) => ResourceIn(ms)
    case _ => Err(ShapeError("OBJECT", "(root)", v))
  }

  /** The members of a resource object: `resourceType` names the type,
      the other members are read as that type's fields. */
  function ResourceIn(ms: seq<Member>): (r: Result<Element>)
    ensures r.Ok? ==> IsResource(r.value) && WellTyped(r.value)
    ensures (forall m | m in ms :: m.key != ResourceTypeKey) ==> r == Err(FormatError(MissingResourceType))
    decreases ms, 5, 0
  {
    match Get(ms, ResourceTypeKey)
    case None => Err(FormatError(MissingResourceType))
    case Some(JString(name)) =>
      (match ResourceNamed(name)
       case Some(t) => DecodeComposite(t, ms)
       case None => Err(FormatError("Unknown resource name \"" + name + "\"")))
    case Some(other) => Err(ShapeError("STRING", ResourceTypeKey, other))
  }

  /** An object read as a composite of type `t`. */
  function DecodeComposite(t: TypeName, ms: seq<Member>): (r: Result<Element>)
    requires IsCompositeType(t)
    ensures r.Ok? ==> r.value.Comp? && r.value.typeName == t && WellTyped(r.value)
    decreases ms, 4, 0
  {
    var slots :- DecodeFields(Fields(t), ms);
    Ok(Comp(t, slots))
  }

  /** One slot per field, in field order. */
  function DecodeFields(fields: seq<FieldDef>, ms: seq<Member>): (r: Result<seq<Slot>>)
    ensures r.Ok? ==> |r.value| == |fields|
    ensures r.Ok? ==> forall i | 0 <= i < |fields| :: SlotTyped(fields[i], r.value[i])
    decreases ms, 3, |fields|
  {
    if |fields| == 0 then Ok([])
    else
      var head :- DecodeField(fields[0], ms);
      var tail :- DecodeFields(fields[1..], ms);
      Ok([head] + tail)
  }

  /** The slot of one field. */
  function DecodeField(f: FieldDef, ms: seq<Member>): (r: Result<Slot>)
    ensures r.Ok? ==> SlotTyped(f, r.value)
    decreases ms, 2, 0
  {
    match f.ftype
    case AnyResource => ContainedIn(f, ms)
    case Of(t) => DecodeTyped(f.name, t, f.repeating, ms)
    case Choice(ts) =>
      (match ChooseType(f, ts, ms)
       case None => Ok(Slot([]))
       case Some(t) => DecodeTyped(ValueKey(f, t), t, false, ms))
  }

  /** The resources of a `contained` field: an array of resource objects. */
  function ContainedIn(f: FieldDef, ms: seq<Member>): (r: Result<Slot>)
    requires f.ftype.AnyResource?
    ensures r.Ok? ==> SlotTyped(f, r.value)
    ensures Get(ms, f.name).None? ==> r == Ok(Slot([]))
    decreases ms, 1, 1
  {
    match Get(ms, f.name)
    case None => Ok(Slot([]))
    case Some(JArray(xs)) =>
      var items :- DecodeResources(xs);
      if !f.repeating && |items| > 1 then Err(ShapeError("OBJECT", f.name, JArray(xs)))
      else Ok(Slot(items))
    case Some(other) => Err(ShapeError("ARRAY", f.name, other))
  }

  /** The first type of a choice field whose key, or whose companion key,
      the object holds. */
  function ChooseType(f: FieldDef, ts: seq<TypeName>, ms: seq<Member>): (r: Option<TypeName>)
    ensures r.Some? ==> r.value in ts
    ensures r.Some? ==> Get(ms, ValueKey(f, r.value)).Some? || Get(ms, CompanionKey(ValueKey(f, r.value))).Some?
    ensures r.None? ==> forall t | t in ts :: Get(ms, ValueKey(f, t)).None? && Get(ms, CompanionKey(ValueKey(f, t))).None?
  {
    if |ts| == 0 then None
    else if Get(ms, ValueKey(f, ts[0])).Some? || Get(ms, CompanionKey(ValueKey(f, ts[0]))).Some? then Some(ts[0])
    else ChooseType(f, ts[1..], ms)
  }

  /** The items of type `t` stored under `key` (and `_key`). */
  function DecodeTyped(key: string, t: TypeName, repeating: bool, ms: seq<Member>): (r: Result<Slot>)
    ensures r.Ok? ==> (repeating || |r.value.items| <= 1)
    ensures r.Ok? ==> forall x | x in r.value.items :: !x.Linked? && x.typeName == t && WellTyped(x)
    decreases ms, 1, 0
  {
    if IsPrimitiveType(t) then
      if repeating then DecodePrimitives(key, t, ms) else DecodePrimitive(key, t, ms)
    else DecodeNested(key, t, repeating, ms)
  }

  /** A datatype field: an object, or an array of objects when the field
      repeats. */
  function DecodeNested(key: string, t: TypeName, repeating: bool, ms: seq<Member>): (r: Result<Slot>)
    requires IsCompositeType(t)
    ensures r.Ok? ==> (repeating || |r.value.items| <= 1)
    ensures r.Ok? ==> forall x | x in r.value.items :: x.Comp? && x.typeName == t && WellTyped(x)
    ensures Get(ms, key).None? ==> r == Ok(Slot([]))
    decreases ms, 0, 2
  {
    match Get(ms, key)
    case None => Ok(Slot([]))
    case Some(w) =>
      if repeating then
        match w
        case JArray(xs) =>
          var items :- DecodeObjects(t, xs);
          Ok(Slot(items))
        case other => Err(ShapeError("ARRAY", key, other))
      else
        match w
        case JObject(fs) =>
          var e :- DecodeComposite(t, fs);
          Ok(Slot([e]))
        case other => Err(ShapeError("OBJECT", key, other))
  }

  /** A non-repeating primitive: the value under `key` and the companion
      under `_key` make one item; neither makes none. */
  function DecodePrimitive(key: string, t: TypeName, ms: seq<Member>): (r: Result<Slot>)
    requires IsPrimitiveType(t)
    ensures r.Ok? ==> |r.value.items| <= 1
    ensures r.Ok? ==> forall x | x in r.value.items :: x.Prim? && x.typeName == t && WellTyped(x)
    ensures r.Ok? && |r.value.items| == 1 ==> !PrimEmpty(r.value.items[0])
    decreases ms, 0, 2
  {
    PrimitiveFrom(t, ValueIn(key, t, Get(ms, key)), CompanionIn(ms, CompanionKey(key)))
  }

  /** A repeating primitive: the value array and the companion array,
      merged by index. */
  function DecodePrimitives(key: string, t: TypeName, ms: seq<Member>): (r: Result<Slot>)
    requires IsPrimitiveType(t)
    ensures r.Ok? ==> forall x | x in r.value.items :: x.Prim? && x.typeName == t && WellTyped(x)
    decreases ms, 0, 2
  {
    PrimitivesFrom(t, ValuesIn(key, t, Get(ms, key)), CompanionsIn(ms, CompanionKey(key)))
  }

  /** One primitive from its value and its companion: nothing when both
      are empty. */
  function PrimitiveFrom(t: TypeName, value: Result<Option<string>>, companion: Result<Companion>): (r: Result<Slot>)
    requires IsPrimitiveType(t)
    requires value.Ok? && value.value.Some? && IsNumberType(t) ==> IsNumberLexeme(value.value.value)
    requires companion.Ok? ==> CompanionTyped(companion.value)
    ensures r.Ok? <==> value.Ok? && companion.Ok?
    ensures r.Ok? ==> |r.value.items| <= 1
    ensures r.Ok? ==> forall x | x in r.value.items :: x.Prim? && x.typeName == t && WellTyped(x)
    ensures r.Ok? && |r.value.items| == 1 ==> !PrimEmpty(r.value.items[0])
    ensures r.Ok? && |r.value.items| == 1 ==>
      r.value.items[0].value == value.value && Companion(r.value.items[0].id, r.value.items[0].extension) == companion.value
  {
    var v :- value;
    var c :- companion;
    if v.None? && c.id.None? && |c.extension| == 0 then Ok(Slot([]))
    else Ok(Slot([Prim(t, c.id, c.extension, v)]))
  }

  /** The primitives of a repeating field from the value array and the
      companion array. */
  function PrimitivesFrom(t: TypeName, values: Result<seq<Option<string>>>, companions: Result<seq<Companion>>): (r: Result<Slot>)
    requires IsPrimitiveType(t)
    requires values.Ok? ==> forall i | 0 <= i < |values.value| && values.value[i].Some? && IsNumberType(t) ::
      IsNumberLexeme(values.value[i].value)
    requires companions.Ok? ==> forall c | c in companions.value :: CompanionTyped(c)
    ensures r.Ok? <==> values.Ok? && companions.Ok?
    ensures r.Ok? ==> forall x | x in r.value.items :: x.Prim? && x.typeName == t && WellTyped(x)
  {
    var vs :- values;
    var cs :- companions;
    MergeTyped(t, vs, cs);
    Ok(Slot(Merge(t, vs, cs)))
  }

  /** The value stored under a key, if the key is there. */
  function ValueIn(key: string, t: TypeName, o: Option<JValue>): (r: Result<Option<string>>)
    requires IsPrimitiveType(t)
    ensures r.Ok? && r.value.Some? && IsNumberType(t) ==> IsNumberLexeme(r.value.value)
    ensures o.None? ==> r == Ok(None)
  {
    match o
    case None => Ok(None)
    case Some(w) => DecodeValue(key, t, w)
  }

  /** The value array stored under a key, if the key is there. */
  function ValuesIn(key: string, t: TypeName, o: Option<JValue>): (r: Result<seq<Option<string>>>)
    requires IsPrimitiveType(t)
    ensures r.Ok? ==> forall i | 0 <= i < |r.value| && r.value[i].Some? && IsNumberType(t) ::
      IsNumberLexeme(r.value[i].value)
    ensures o.None? ==> r == Ok([])
  {
    match o
    case None => Ok([])
    case Some(JArray(xs)) => DecodeValues(key, t, xs)
    case Some(other) => Err(ShapeError("ARRAY", key, other))
  }

  /** The companion stored under key `k`, if the key is there. */
  function CompanionIn(ms: seq<Member>, k: string): (r: Result<Companion>)
    ensures r.Ok? ==> CompanionTyped(r.value)
    ensures Get(ms, k).None? ==> r == Ok(Companion(None, []))
    decreases ms, 0, 1
  {
    match Get(ms, k)
    case None => Ok(Companion(None, []))
    case Some(w) => DecodeCompanion(w)
  }

  /** The companion array stored under key `k`, if the key is there. */
  function CompanionsIn(ms: seq<Member>, k: string): (r: Result<seq<Companion>>)
    ensures r.Ok? ==> forall c | c in r.value :: CompanionTyped(c)
    ensures Get(ms, k).None? ==> r == Ok([])
    decreases ms, 0, 1
  {
    match Get(ms, k)
    case None => Ok([])
    case Some(JArray(xs)) => DecodeCompanions(xs)
    case Some(other) => Err(ShapeError("ARRAY", k, other))
  }

  /** A primitive's lexical value: `null` is no value, a decimal is a
      number lexeme, every other type is a string. */
  function DecodeValue(key: string, t: TypeName, v: JValue): (r: Result<Option<string>>)
    requires IsPrimitiveType(t)
    ensures r.Ok? && r.value.Some? && IsNumberType(t) ==> IsNumberLexeme(r.value.value)
    ensures r.Ok? ==> (r.value.None? <==> v == JNull)
    ensures v == JNull ==> r == Ok(None)
  {
    match v
    case JNull => Ok(None)
    case JString(s) =>
      if !IsNumberType(t) then Ok(Some(s)) else Err(ShapeError("NUMBER", key, v))
    case JNumber(lex) =>
      if IsNumberType(t) && IsNumberLexeme(lex) then Ok(Some(lex))
      else Err(ShapeError("STRING", key, v))
    case _ => Err(ShapeError(if IsNumberType(t) then "NUMBER" else "STRING", key, v))
  }

  function DecodeValues(key: string, t: TypeName, xs: seq<JValue>): (r: Result<seq<Option<string>>>)
    requires IsPrimitiveType(t)
    ensures r.Ok? ==> |r.value| == |xs|
    ensures r.Ok? ==> forall i | 0 <= i < |xs| && r.value[i].Some? && IsNumberType(t) ::
      IsNumberLexeme(r.value[i].value)
  {
    if |xs| == 0 then Ok([])
    else
      var head :- DecodeValue(key, t, xs[0]);
      var tail :- DecodeValues(key, t, xs[1..]);
      Ok([head] + tail)
  }

  /** A companion object, or `null` for none. */
  function DecodeCompanion(v: JValue): (r: Result<Companion>)
    ensures r.Ok? ==> CompanionTyped(r.value)
    ensures v == JNull ==> r == Ok(Companion(None, []))
    decreases v, 1, 0
  {
    match v
    case JNull => Ok(Companion(None, []))
    case JObject(cms) =>
      var id :- IdIn(Get(cms, "id"));
      var extension :- ExtensionsIn(cms);
      Ok(Companion(id, extension))
    case other => Err(ShapeError("OBJECT", "_", other))
  }

  /** The element id of a companion object. */
  function IdIn(o: Option<JValue>): (r: Result<Option<string>>)
    ensures o.None? ==> r == Ok(None)
    ensures r.Ok? && r.value.Some? ==> o == Some(JString(r.value.value))
  {
    match o
    case None => Ok(None)
    case Some(JString(s)) => Ok(Some(s))
    case Some(JNull) => Ok(None)
    case Some(other) => Err(ShapeError("STRING", "id", other))
  }

  /** The extensions of a companion object. */
  function ExtensionsIn(cms: seq<Member>): (r: Result<seq<Element>>)
    ensures r.Ok? ==> forall x | x in r.value :: IsExtension(x) && WellTyped(x)
    ensures Get(cms, "extension").None? ==> r == Ok([])
    decreases cms, 0, 1
  {
    match Get(cms, "extension")
    case None => Ok([])
    case Some(JArray(xs)) => DecodeObjects(Extension, xs)
    case Some(other) => Err(ShapeError("ARRAY", "extension", other))
  }

  function DecodeCompanions(xs: seq<JValue>): (r: Result<seq<Companion>>)
    ensures r.Ok? ==> |r.value| == |xs| && forall c | c in r.value :: CompanionTyped(c)
    decreases xs, 2, 0
  {
    if |xs| == 0 then Ok([])
    else
      var head :- DecodeCompanion(xs[0]);
      var tail :- DecodeCompanions(xs[1..]);
      Ok([head] + tail)
  }

  /** Objects read as composites of type `t`. */
  function DecodeObjects(t: TypeName, xs: seq<JValue>): (r: Result<seq<Element>>)
    requires IsCompositeType(t)
    ensures r.Ok? ==> |r.value| == |xs|
    ensures r.Ok? ==> forall x | x in r.value :: x.Comp? && x.typeName == t && WellTyped(x)
    decreases xs, 0, 0
  {
    if |xs| == 0 then Ok([])
    else
      match xs[0]
      case JObject(fs) =>
        var head :- DecodeComposite(t, fs);
        var tail :- DecodeObjects(t, xs[1..]);
        Ok([head] + tail)
      case other => Err(ShapeError("OBJECT", Name(t), other))
  }

  function DecodeResources(xs: seq<JValue>): (r: Result<seq<Element>>)
    ensures r.Ok? ==> |r.value| == |xs|
    ensures r.Ok? ==> forall x | x in r.value :: IsResource(x) && WellTyped(x)
    decreases xs, 0, 0
  {
    if |xs| == 0 then Ok([])
    else
      var head :- DecodeResource(xs[0]);
      var tail :- DecodeResources(xs[1..]);
      Ok([head] + tail)
  }

  /** The primitives of a repeating field, index `i` taking the value at
      index `i` of the value array and the id and extensions at index `i`
      of the companion array; the shorter array counts as `null` beyond
      its end. */
  function Merge(t: TypeName, values: seq<Option<string>>, companions: seq<Companion>): (r: seq<Element>)
    ensures |r| == if |values| < |companions| then |companions| else |values|
  {
    var n := if |values| < |companions| then |companions| else |values|;
    seq(n, i requires 0 <= i < n => Prim(t, CompanionAt(companions, i).id, CompanionAt(companions, i).extension, ValueAt(values, i)))
  }

  function ValueAt(values: seq<Option<string>>, i: nat): Option<string> {
    if i < |values| then values[i] else None
  }

  function CompanionAt(companions: seq<Companion>, i: nat): Companion {
    if i < |companions| then companions[i] else Companion(None, [])
  }

  lemma MergeTyped(t: TypeName, values: seq<Option<string>>, companions: seq<Companion>)
    requires IsPrimitiveType(t)
    requires forall i | 0 <= i < |values| && values[i].Some? && IsNumberType(t) ::
      IsNumberLexeme(values[i].value)
    requires forall c | c in companions :: CompanionTyped(c)
    ensures forall x | x in Merge(t, values, companions) :: x.Prim? && x.typeName == t && WellTyped(x)
  {
    var r := Merge(t, values, companions);
    forall x | x in r ensures x.Prim? && x.typeName == t && WellTyped(x) {
      var i :| 0 <= i < |r| && r[i] == x;
      var c := CompanionAt(companions, i);
      assert c == Companion(None, []) || c in companions;
    }
  }
}
