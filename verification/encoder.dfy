/** Writing an element tree as a JSON document tree, following the JSON
    representation of FHIR STU3 resources.

    A composite becomes an object whose members follow catalog order; a
    resource object starts with `resourceType`. A primitive is written as
    its lexical value under the field's key, and its id and extensions go
    into a companion object under the same key with a leading underscore.
    For a repeating primitive both the value array and the companion
    array have one entry per item, with `null` where an item has no value
    (or no id and extension), so that index `i` of one array always
    belongs with index `i` of the other. An array is written only when at
    least one of its entries is not `null`. A choice field is written
    under its name followed by the capitalised type name. */
module Encoder {
  import opened Results
  import opened Json
  import opened Catalog
  import opened Elements

  const ResourceTypeKey: string := "resourceType"

  /** The JSON for one lexical value: a number for a decimal, a string
      otherwise. The text is copied unchanged in both cases. */
  function ValueJson(t: TypeName, v: string): (r: Result<JValue>)
    ensures r.Ok? ==> Valid(r.value)
    ensures r.Ok? ==> r.value == JNumber(v) || r.value == JString(v)
    ensures r.Ok? && r.value.JNumber? <==> IsNumberType(t) && IsNumberLexeme(v)
    ensures r.Err? <==> IsNumberType(t) && !IsNumberLexeme(v)
  {
    if IsNumberType(t) then
      if IsNumberLexeme(v) then Ok(JNumber(v))
      else Err(EncodingError("Invalid decimal value: " + v))
    else Ok(JString(v))
  }

  predicate HasCompanion(p: Element)
    requires p.Prim?
  {
    p.id.Some? || |p.extension| > 0
  }

  /** The type that decides a slot's key: the type of its item. */
  function SlotType(s: Slot): TypeName {
    if |s.items| > 0 then TypeOf(s.items[0]) else String
  }

  predicate KeyOf(m: Member, key: string) {
    m.key == key || m.key == CompanionKey(key)
  }

  /** A composite element as an object. */
  function CompositeJson(e: Element): (r: Result<JValue>)
    ensures r.Ok? ==> Valid(r.value) && r.value.JObject?
    ensures r.Ok? ==> e.Comp? && IsCompositeType(e.typeName)
    ensures r.Ok? && IsResource(e) ==>
      |r.value.members| > 0 && r.value.members[0] == Member(ResourceTypeKey, JString(Name(e.typeName)))
    decreases e, 0
  {
    match e
    case Comp(t, slots) =>
      (match Lookup(t)
       case CompositeDef(isResource, fields) =>
         if |slots| != |fields| then Err(EncodingError("Wrong number of fields for type " + Name(t)))
         else
           var ms :- FieldsJson(fields, slots);
           if isResource then Ok(JObject([Member(ResourceTypeKey, JString(Name(t)))] + ms))
           else Ok(JObject(ms))
       case PrimitiveDef(_) => Err(EncodingError("Not a composite type: " + Name(t))))
    case Prim(t, _, _, _) => Err(EncodingError("A primitive cannot stand alone: " + Name(t)))
    case Linked(_) => Err(EncodingError("A direct resource link was not resolved"))
  }

  /** The members of a composite: each field's members, in field order. */
  function FieldsJson(fields: seq<FieldDef>, slots: seq<Slot>): (r: Result<seq<Member>>)
    requires |fields| == |slots|
    ensures r.Ok? ==> forall m | m in r.value :: Valid(m.value)
    ensures r.Ok? ==> forall m | m in r.value :: exists i :: 0 <= i < |fields| && KeyOf(m, ValueKey(fields[i], SlotType(slots[i])))
    decreases slots, 0
  {
    if |fields| == 0 then Ok([])
    else
      var head :- FieldJson(fields[0], slots[0]);
      var tail :- FieldsJson(fields[1..], slots[1..]);
      Ok(head + tail)
  }

  /** The members one field contributes: none for an empty slot; else the
      value member, the companion member, or both. */
  function FieldJson(f: FieldDef, s: Slot): (r: Result<seq<Member>>)
    ensures r.Ok? ==> forall m | m in r.value :: Valid(m.value) && KeyOf(m, ValueKey(f, SlotType(s)))
    ensures r.Ok? && |s.items| == 0 ==> r.value == []
    ensures r.Ok? ==> f.repeating || |s.items| <= 1
    ensures r.Ok? && f.ftype.Choice? && |s.items| > 0 ==> SlotType(s) in f.ftype.choices
    decreases s, 0
  {
    if |s.items| == 0 then Ok([])
    else if !f.repeating && |s.items| > 1 then
      Err(EncodingError("Multiple values for the non-repeating field " + f.name))
    else
      match f.ftype
      case AnyResource =>
        var objs :- ResourcesJson(s.items);
        Ok([Member(f.name, JArray(objs))])
      case Of(t) =>
        TypedJson(ValueKey(f, t), t, f.repeating, s.items)
      case Choice(ts) =>
        var t := TypeOf(s.items[0]);
        if t in ts then TypedJson(ValueKey(f, t), t, false, s.items)
        else Err(EncodingError("Type " + Name(t) + " is not allowed for the choice field " + f.name))
  }

  /** The members for the items of one field, all of type `t`. */
  function TypedJson(key: string, t: TypeName, repeating: bool, items: seq<Element>): (r: Result<seq<Member>>)
    requires |items| > 0
    ensures r.Ok? ==> forall m | m in r.value :: Valid(m.value) && KeyOf(m, key)
    ensures r.Ok? ==> TypeOf(items[0]) == t
    decreases items, 3
  {
    if IsPrimitiveType(t) then
      if !forall x | x in items :: x.Prim? && x.typeName == t then
        Err(EncodingError("Expected a primitive of type " + Name(t) + " for " + key))
      else if repeating then PrimArrayJson(key, t, items)
      else PrimSingleJson(key, t, items[0])
    else
      var objs :- ObjectsJson(t, items);
      if repeating then Ok([Member(key, JArray(objs))]) else Ok([Member(key, objs[0])])
  }

  /** A non-repeating primitive: the value under `key`, the companion
      under `_key`. */
  function PrimSingleJson(key: string, t: TypeName, p: Element): (r: Result<seq<Member>>)
    requires p.Prim?
    ensures r.Ok? ==> forall m | m in r.value :: Valid(m.value) && KeyOf(m, key)
    decreases p, 2
  {
    var value :- if p.value.Some? then ValueJson(t, p.value.value) else Ok(JNull);
    var companion :- CompanionJson(p);
    Ok((if p.value.Some? then [Member(key, value)] else [])
      + (if HasCompanion(p) then [Member(CompanionKey(key), companion)] else []))
  }

  /** A repeating primitive: two arrays aligned by index. */
  function PrimArrayJson(key: string, t: TypeName, items: seq<Element>): (r: Result<seq<Member>>)
    requires forall x | x in items :: x.Prim?
    ensures r.Ok? ==> forall m | m in r.value :: Valid(m.value) && KeyOf(m, key)
    decreases items, 2
  {
    var values :- ValuesJson(t, items);
    var companions :- CompanionsJson(items);
    Ok((if AnyValue(items) then [Member(key, JArray(values))] else [])
      + (if AnyCompanion(items) then [Member(CompanionKey(key), JArray(companions))] else []))
  }

  predicate AnyValue(items: seq<Element>)
    requires forall x | x in items :: x.Prim?
  {
    exists x | x in items :: x.value.Some?
  }

  predicate AnyCompanion(items: seq<Element>)
    requires forall x | x in items :: x.Prim?
  {
    exists x | x in items :: HasCompanion(x)
  }

  /** One entry per item: its value, or `null`. */
  function ValuesJson(t: TypeName, items: seq<Element>): (r: Result<seq<JValue>>)
    requires forall x | x in items :: x.Prim?
    ensures r.Ok? ==> |r.value| == |items|
    ensures r.Ok? ==> forall i | 0 <= i < |items| :: Valid(r.value[i])
    ensures r.Ok? ==> forall i | 0 <= i < |items| :: (r.value[i] == JNull <==> items[i].value.None?)
  {
    if |items| == 0 then Ok([])
    else
      var head :- if items[0].value.Some? then ValueJson(t, items[0].value.value) else Ok(JNull);
      var tail :- ValuesJson(t, items[1..]);
      Ok([head] + tail)
  }

  /** One entry per item: its companion object, or `null`. */
  function CompanionsJson(items: seq<Element>): (r: Result<seq<JValue>>)
    requires forall x | x in items :: x.Prim?
    ensures r.Ok? ==> |r.value| == |items|
    ensures r.Ok? ==> forall i | 0 <= i < |items| :: Valid(r.value[i])
    ensures r.Ok? ==> forall i | 0 <= i < |items| :: (r.value[i] == JNull <==> !HasCompanion(items[i]))
    decreases items, 1
  {
    if |items| == 0 then Ok([])
    else
      var head :- if HasCompanion(items[0]) then CompanionJson(items[0]) else Ok(JNull);
      var tail :- CompanionsJson(items[1..]);
      Ok([head] + tail)
  }

  /** The companion object of a primitive: its id and its extensions. */
  function CompanionJson(p: Element): (r: Result<JValue>)
    requires p.Prim?
    ensures r.Ok? ==> Valid(r.value) && r.value.JObject?
    decreases p, 1
  {
    var exts :- ObjectsJson(Extension, p.extension);
    Ok(JObject((if p.id.Some? then [Member("id", JString(p.id.value))] else [])
      + (if |exts| > 0 then [Member("extension", JArray(exts))] else [])))
  }

  /** Datatype items of type `t`, each as an object. */
  function ObjectsJson(t: TypeName, items: seq<Element>): (r: Result<seq<JValue>>)
    ensures r.Ok? ==> |r.value| == |items| && forall v | v in r.value :: Valid(v)
    ensures r.Ok? ==> forall x | x in items :: x.Comp? && x.typeName == t
    decreases items, 2
  {
    if |items| == 0 then Ok([])
    else if !(items[0].Comp? && items[0].typeName == t) then
      Err(EncodingError("Expected an element of type " + Name(t) + ", found " + Name(TypeOf(items[0]))))
    else
      var head :- CompositeJson(items[0]);
      var tail :- ObjectsJson(t, items[1..]);
      Ok([head] + tail)
  }

  /** Contained resources, each as a resource object. */
  function ResourcesJson(items: seq<Element>): (r: Result<seq<JValue>>)
    ensures r.Ok? ==> |r.value| == |items| && forall v | v in r.value :: Valid(v)
    decreases items, 0
  {
    if |items| == 0 then Ok([])
    else if !IsResource(items[0]) then Err(EncodingError("Only a resource can be contained"))
    else
      var head :- CompositeJson(items[0]);
      var tail :- ResourcesJson(items[1..]);
      Ok([head] + tail)
  }

  /** A whole resource as a JSON document tree. */
  function EncodeResource(e: Element): (r: Result<JValue>)
    ensures r.Ok? ==> Valid(r.value) && r.value.JObject?
    ensures r.Ok? ==> e.Comp? && |r.value.members| > 0 && r.value.members[0] == Member(ResourceTypeKey, JString(Name(e.typeName)))
    ensures !IsResource(e) ==> r.Err?
  {
    if IsResource(e) then CompositeJson(e)
    else Err(EncodingError("Only a resource can be encoded"))
  }
}
