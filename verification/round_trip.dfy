/** Reading back what was written gives the same tree.

    For a resource that fits the catalog and in which every primitive
    carries something (a value, an id or an extension), encoding never
    fails and decoding the result gives the resource back: field order,
    choice types, the alignment of repeating primitives with their
    companions, extensions on primitives and contained resources all
    survive. The argument is field by field: in a well-formed field list
    no field reads a key another field writes, so each field decodes from
    the whole object exactly as from its own members. */
module RoundTrip {
  import opened Results
  import opened Json
  import opened Catalog
  import opened CatalogFacts
  import opened Elements
  import opened Encoder
  import opened Decoder
  import opened KeyFacts

  /** An element that fits the catalog and whose primitives all carry
      something. */
  predicate Writable(e: Element) {
    WellTyped(e) && Representable(e)
  }

  // ---------------------------------------------------------------------
  // Object lookups

  lemma GetMissing(ms: seq<Member>, k: string)
    requires forall m | m in ms :: m.key != k
    ensures Get(ms, k) == None
  {
  }

  lemma GetFirst(m: Member, ms: seq<Member>)
    ensures Get([m] + ms, m.key) == Some(m.value)
  {
    assert ([m] + ms)[0] == m;
  }

  /** A pair of optional members with distinct keys: each key finds its
      own member. */
  lemma GetPair(a: seq<Member>, b: seq<Member>, ka: string, kb: string)
    requires ka != kb
    requires forall m | m in a :: m.key == ka
    requires forall m | m in b :: m.key == kb
    requires |a| <= 1 && |b| <= 1
    ensures Get(a + b, ka) == (if |a| == 1 then Some(a[0].value) else None)
    ensures Get(a + b, kb) == (if |b| == 1 then Some(b[0].value) else None)
  {
    GetAppend(a, b, ka);
    GetAppend(a, b, kb);
    GetMissing(b, ka);
    GetMissing(a, kb);
    if |a| == 1 {
      assert a == [a[0]];
      GetSingle(a[0].key, a[0].value, ka);
    }
    if |b| == 1 {
      assert b == [b[0]];
      GetSingle(b[0].key, b[0].value, kb);
    }
  }

  // ---------------------------------------------------------------------
  // Locality: a field's slot depends only on the keys it reads

  lemma DecodeTypedLocal(key: string, t: TypeName, rep: bool, m1: seq<Member>, m2: seq<Member>)
    requires Get(m1, key) == Get(m2, key)
    requires Get(m1, CompanionKey(key)) == Get(m2, CompanionKey(key))
    ensures DecodeTyped(key, t, rep, m1) == DecodeTyped(key, t, rep, m2)
  {
    if IsPrimitiveType(t) {
      if rep {
        DecodePrimitivesLocal(key, t, m1, m2);
      } else {
        DecodePrimitiveLocal(key, t, m1, m2);
      }
    } else if IsCompositeType(t) {
      DecodeNestedLocal(key, t, rep, m1, m2);
    }
  }

  lemma DecodeNestedLocal(key: string, t: TypeName, rep: bool, m1: seq<Member>, m2: seq<Member>)
    requires IsCompositeType(t)
    requires Get(m1, key) == Get(m2, key)
    ensures DecodeNested(key, t, rep, m1) == DecodeNested(key, t, rep, m2)
  {
  }

  lemma CompanionInLocal(m1: seq<Member>, m2: seq<Member>, k: string)
    requires Get(m1, k) == Get(m2, k)
    ensures CompanionIn(m1, k) == CompanionIn(m2, k)
  {
  }

  lemma CompanionsInLocal(m1: seq<Member>, m2: seq<Member>, k: string)
    requires Get(m1, k) == Get(m2, k)
    ensures CompanionsIn(m1, k) == CompanionsIn(m2, k)
  {
  }

  lemma DecodePrimitiveLocal(key: string, t: TypeName, m1: seq<Member>, m2: seq<Member>)
    requires IsPrimitiveType(t)
    requires Get(m1, key) == Get(m2, key)
    requires Get(m1, CompanionKey(key)) == Get(m2, CompanionKey(key))
    ensures DecodePrimitive(key, t, m1) == DecodePrimitive(key, t, m2)
  {
    CompanionInLocal(m1, m2, CompanionKey(key));
  }

  lemma DecodePrimitivesLocal(key: string, t: TypeName, m1: seq<Member>, m2: seq<Member>)
    requires IsPrimitiveType(t)
    requires Get(m1, key) == Get(m2, key)
    requires Get(m1, CompanionKey(key)) == Get(m2, CompanionKey(key))
    ensures DecodePrimitives(key, t, m1) == DecodePrimitives(key, t, m2)
  {
    CompanionsInLocal(m1, m2, CompanionKey(key));
  }

  lemma ContainedInLocal(f: FieldDef, m1: seq<Member>, m2: seq<Member>)
    requires f.ftype.AnyResource?
    requires Get(m1, f.name) == Get(m2, f.name)
    ensures ContainedIn(f, m1) == ContainedIn(f, m2)
  {
  }

  lemma {:induction false} ChooseTypeLocal(f: FieldDef, ts: seq<TypeName>, m1: seq<Member>, m2: seq<Member>)
    requires forall t | t in ts :: Get(m1, ValueKey(f, t)) == Get(m2, ValueKey(f, t))
    requires forall t | t in ts :: Get(m1, CompanionKey(ValueKey(f, t))) == Get(m2, CompanionKey(ValueKey(f, t)))
    ensures ChooseType(f, ts, m1) == ChooseType(f, ts, m2)
  {
    if |ts| > 0 {
      assert ts[0] in ts;
      ChooseTypeLocal(f, ts[1..], m1, m2);
    }
  }

  /** Two objects that agree on every key field `f` reads give `f` the
      same slot. */
  lemma DecodeFieldLocal(f: FieldDef, m1: seq<Member>, m2: seq<Member>)
    requires forall k | Reads(f, k) :: Get(m1, k) == Get(m2, k)
    ensures DecodeField(f, m1) == DecodeField(f, m2)
  {
    match f.ftype
    case AnyResource =>
      assert Reads(f, f.name);
      ContainedInLocal(f, m1, m2);
    case Of(t) =>
      assert Reads(f, f.name) && Reads(f, CompanionKey(f.name));
      DecodeTypedLocal(f.name, t, f.repeating, m1, m2);
    case Choice(ts) =>
      forall t | t in ts
        ensures Get(m1, ValueKey(f, t)) == Get(m2, ValueKey(f, t))
        ensures Get(m1, CompanionKey(ValueKey(f, t))) == Get(m2, CompanionKey(ValueKey(f, t)))
      {
        ReadsOwn(f, t, ValueKey(f, t));
        ReadsOwn(f, t, CompanionKey(ValueKey(f, t)));
      }
      ChooseTypeLocal(f, ts, m1, m2);
      match ChooseType(f, ts, m1)
      case None =>
      case Some(t) =>
        ReadsOwn(f, t, ValueKey(f, t));
        ReadsOwn(f, t, CompanionKey(ValueKey(f, t)));
        DecodeTypedLocal(ValueKey(f, t), t, false, m1, m2);
  }

  /** Among the members of fields `n..`, a key that field `j` reads is
      found exactly where field `j`'s own members put it. */
  lemma {:induction false} FieldsGet(fields: seq<FieldDef>, slots: seq<Slot>, n: nat, j: nat, k: string)
    requires FieldsWellFormed(fields) && |fields| == |slots|
    requires n <= j < |fields|
    requires Reads(fields[j], k)
    requires FieldsJson(fields[n..], slots[n..]).Ok?
    ensures FieldJson(fields[j], slots[j]).Ok?
    ensures Get(FieldsJson(fields[n..], slots[n..]).value, k) == Get(FieldJson(fields[j], slots[j]).value, k)
    decreases j - n
  {
    FieldsCons(fields, slots, n);
    var head := FieldJson(fields[n], slots[n]).value;
    var tail := FieldsJson(fields[n + 1..], slots[n + 1..]).value;
    GetAppend(head, tail, k);
    if n == j {
      TailLacks(fields, slots, j + 1, j, k);
      GetMissing(tail, k);
    } else {
      HeadLacks(fields, slots, n, j, k);
      GetMissing(head, k);
      FieldsGet(fields, slots, n + 1, j, k);
    }
  }

  /** The members of fields `n..` are those of field `n` followed by
      those of fields `n + 1..`. */
  lemma FieldsCons(fields: seq<FieldDef>, slots: seq<Slot>, n: nat)
    requires |fields| == |slots| && n < |fields|
    requires FieldsJson(fields[n..], slots[n..]).Ok?
    ensures FieldJson(fields[n], slots[n]).Ok? && FieldsJson(fields[n + 1..], slots[n + 1..]).Ok?
    ensures FieldsJson(fields[n..], slots[n..]).value
      == FieldJson(fields[n], slots[n]).value + FieldsJson(fields[n + 1..], slots[n + 1..]).value
  {
    assert fields[n..][0] == fields[n] && slots[n..][0] == slots[n];
    assert fields[n..][1..] == fields[n + 1..] && slots[n..][1..] == slots[n + 1..];
  }

  /** No member written by fields `n..`, all after field `j`, carries a
      key field `j` reads. */
  lemma {:induction false} TailLacks(fields: seq<FieldDef>, slots: seq<Slot>, n: nat, j: nat, k: string)
    requires FieldsWellFormed(fields) && |fields| == |slots| && j < n <= |fields|
    requires Reads(fields[j], k)
    requires FieldsJson(fields[n..], slots[n..]).Ok?
    ensures forall m | m in FieldsJson(fields[n..], slots[n..]).value :: m.key != k
    decreases |fields| - n
  {
    if n < |fields| {
      FieldsCons(fields, slots, n);
      HeadLacks(fields, slots, n, j, k);
      TailLacks(fields, slots, n + 1, j, k);
    }
  }

  /** No member of field `n` carries a key a different field `j` reads. */
  lemma HeadLacks(fields: seq<FieldDef>, slots: seq<Slot>, n: nat, j: nat, k: string)
    requires FieldsWellFormed(fields) && |fields| == |slots| && n < |fields| && j < |fields| && n != j
    requires Reads(fields[j], k)
    requires FieldJson(fields[n], slots[n]).Ok?
    ensures forall m | m in FieldJson(fields[n], slots[n]).value :: m.key != k
  {
    forall m | m in FieldJson(fields[n], slots[n]).value ensures m.key != k {
      ReadsOnlyOwn(fields, j, n, SlotType(slots[n]), m.key);
    }
  }

  lemma {:induction false} FieldsOk(fields: seq<FieldDef>, slots: seq<Slot>)
    requires |fields| == |slots|
    requires forall j | 0 <= j < |fields| :: FieldJson(fields[j], slots[j]).Ok?
    ensures FieldsJson(fields, slots).Ok?
  {
    if |fields| > 0 {
      FieldsOk(fields[1..], slots[1..]);
    }
  }

  lemma {:induction false} DecodeFieldsAll(fields: seq<FieldDef>, ms: seq<Member>, slots: seq<Slot>)
    requires |fields| == |slots|
    requires forall j | 0 <= j < |fields| :: DecodeField(fields[j], ms) == Ok(slots[j])
    ensures DecodeFields(fields, ms) == Ok(slots)
  {
    if |fields| > 0 {
      DecodeFieldsAll(fields[1..], ms, slots[1..]);
      DecodeFieldsCons(fields, ms, slots[0], slots[1..]);
      assert slots == [slots[0]] + slots[1..];
    }
  }

  lemma DecodeFieldsCons(fields: seq<FieldDef>, ms: seq<Member>, head: Slot, tail: seq<Slot>)
    requires |fields| > 0
    requires DecodeField(fields[0], ms) == Ok(head) && DecodeFields(fields[1..], ms) == Ok(tail)
    ensures DecodeFields(fields, ms) == Ok([head] + tail)
  {
  }

  // ---------------------------------------------------------------------
  // Choice fields

  lemma ChoiceKeysDiffer(f: FieldDef, t1: TypeName, t2: TypeName)
    requires f.ftype.Choice? && |f.name| > 0 && f.name[0] != '_'
    requires Capitalize(Name(t1)) != Capitalize(Name(t2))
    ensures ValueKey(f, t1) != ValueKey(f, t2)
    ensures ValueKey(f, t1) != CompanionKey(ValueKey(f, t2))
    ensures CompanionKey(ValueKey(f, t1)) != ValueKey(f, t2)
    ensures CompanionKey(ValueKey(f, t1)) != CompanionKey(ValueKey(f, t2))
  {
    var n := f.name;
    assert (n + Capitalize(Name(t1)))[|n|..] == Capitalize(Name(t1));
    assert (n + Capitalize(Name(t2)))[|n|..] == Capitalize(Name(t2));
    assert ValueKey(f, t1)[0] == n[0] && ValueKey(f, t2)[0] == n[0];
    assert CompanionKey(ValueKey(f, t1))[1..] == ValueKey(f, t1);
    assert CompanionKey(ValueKey(f, t2))[1..] == ValueKey(f, t2);
  }

  /** The decoder picks the type the encoder wrote: no other listed type
      gives the same key. */
  lemma {:induction false} ChooseFinds(f: FieldDef, ts: seq<TypeName>, ms: seq<Member>, t: TypeName)
    requires f.ftype.Choice? && |f.name| > 0 && f.name[0] != '_'
    requires t in ts
    requires forall u | u in ts && u != t :: Capitalize(Name(u)) != Capitalize(Name(t))
    requires |ms| > 0 && forall m | m in ms :: KeyOf(m, ValueKey(f, t))
    ensures ChooseType(f, ts, ms) == Some(t)
  {
    if ts[0] == t {
      assert ms[0] in ms;
    } else {
      ChoiceKeysDiffer(f, ts[0], t);
      GetMissing(ms, ValueKey(f, ts[0]));
      GetMissing(ms, CompanionKey(ValueKey(f, ts[0])));
      ChooseFinds(f, ts[1..], ms, t);
    }
  }

  // ---------------------------------------------------------------------
  // Primitive values

  lemma ValueRoundTrip(key: string, t: TypeName, v: string)
    requires IsPrimitiveType(t)
    requires IsNumberType(t) ==> IsNumberLexeme(v)
    ensures ValueJson(t, v).Ok?
    ensures DecodeValue(key, t, ValueJson(t, v).value) == Ok(Some(v))
  {
  }

  /** The decoded values of a repeating primitive's value array. */
  function ValuesOf(items: seq<Element>): (vs: seq<Option<string>>)
    requires forall x | x in items :: x.Prim?
    ensures |vs| == |items| && forall i | 0 <= i < |items| :: vs[i] == items[i].value
  {
    if |items| == 0 then [] else [items[0].value] + ValuesOf(items[1..])
  }

  /** The decoded companions of a repeating primitive's companion array. */
  function CompanionsOf(items: seq<Element>): (cs: seq<Companion>)
    requires forall x | x in items :: x.Prim?
    ensures |cs| == |items| && forall i | 0 <= i < |items| :: cs[i] == Companion(items[i].id, items[i].extension)
  {
    if |items| == 0 then [] else [Companion(items[0].id, items[0].extension)] + CompanionsOf(items[1..])
  }

  predicate PrimsFit(t: TypeName, items: seq<Element>) {
    forall x | x in items :: x.Prim? && x.typeName == t && Writable(x)
  }

  lemma {:induction false} ValuesRoundTrip(key: string, t: TypeName, items: seq<Element>)
    requires IsPrimitiveType(t) && PrimsFit(t, items)
    ensures ValuesJson(t, items).Ok?
    ensures DecodeValues(key, t, ValuesJson(t, items).value) == Ok(ValuesOf(items))
  {
    if |items| > 0 {
      assert items[0] in items;
      if items[0].value.Some? {
        ValueRoundTrip(key, t, items[0].value.value);
      }
      ValuesRoundTrip(key, t, items[1..]);
      var vs := ValuesJson(t, items).value;
      assert vs[0] == if items[0].value.Some? then ValueJson(t, items[0].value.value).value else JNull;
      assert vs[1..] == ValuesJson(t, items[1..]).value;
      assert ValuesOf(items) == [items[0].value] + ValuesOf(items[1..]);
    }
  }

  // ---------------------------------------------------------------------
  // The mutual induction over the tree

  /** A resource encodes, and decodes back to itself. */
  lemma {:induction false} ResourceRoundTrip(e: Element)
    requires IsResource(e) && Writable(e)
    ensures EncodeResource(e).Ok?
    ensures DecodeResource(EncodeResource(e).value) == Ok(e)
    decreases e, 3
  {
    CompositeRoundTrip(e);
    var ms := CompositeJson(e).value.members;
    assert ms == [Member(ResourceTypeKey, JString(Name(e.typeName)))] + ms[1..];
    GetFirst(Member(ResourceTypeKey, JString(Name(e.typeName))), ms[1..]);
    ResourceNamedName(e.typeName);
    assert ResourceIn(ms) == DecodeComposite(e.typeName, ms);
  }

  /** A composite encodes to an object that decodes back to it. */
  lemma {:induction false} CompositeRoundTrip(e: Element)
    requires e.Comp? && Writable(e)
    ensures CompositeJson(e).Ok?
    ensures DecodeComposite(e.typeName, CompositeJson(e).value.members) == Ok(e)
    decreases e, 2
  {
    var t, slots := e.typeName, e.slots;
    var fields := Fields(t);
    CatalogWellFormed(t);
    EachFieldRoundTrip(e);
    FieldsOk(fields, slots);
    var ms := FieldsJson(fields, slots).value;
    var pre: seq<Member> := if IsResourceType(t) then [Member(ResourceTypeKey, JString(Name(t)))] else [];
    assert CompositeJson(e).value.members == pre + ms;
    forall j | 0 <= j < |fields| ensures DecodeField(fields[j], pre + ms) == Ok(slots[j]) {
      FieldInObject(fields, slots, pre, ms, j);
    }
    DecodeFieldsAll(fields, pre + ms, slots);
  }

  /** Each field of a composite, taken alone, reads back its slot. */
  lemma EachFieldRoundTrip(e: Element)
    requires e.Comp? && Writable(e)
    ensures |e.slots| == |Fields(e.typeName)|
    ensures forall j | 0 <= j < |e.slots| ::
      && FieldJson(Fields(e.typeName)[j], e.slots[j]).Ok?
      && DecodeField(Fields(e.typeName)[j], FieldJson(Fields(e.typeName)[j], e.slots[j]).value) == Ok(e.slots[j])
    decreases e, 1
  {
    var fields := Fields(e.typeName);
    CatalogWellFormed(e.typeName);
    forall j | 0 <= j < |fields|
      ensures FieldJson(fields[j], e.slots[j]).Ok?
      ensures DecodeField(fields[j], FieldJson(fields[j], e.slots[j]).value) == Ok(e.slots[j])
    {
      FieldPlainOf(fields, j);
      FieldRoundTrip(fields[j], e.slots[j]);
    }
  }

  /** Field `j` reads back its own slot from the whole object, whatever
      the other fields and the `resourceType` member put beside it. */
  lemma FieldInObject(fields: seq<FieldDef>, slots: seq<Slot>, pre: seq<Member>, ms: seq<Member>, j: nat)
    requires FieldsWellFormed(fields) && |fields| == |slots| && j < |fields|
    requires FieldsJson(fields, slots) == Ok(ms)
    requires forall m | m in pre :: m.key == ResourceTypeKey
    requires FieldJson(fields[j], slots[j]).Ok?
    requires DecodeField(fields[j], FieldJson(fields[j], slots[j]).value) == Ok(slots[j])
    ensures DecodeField(fields[j], pre + ms) == Ok(slots[j])
  {
    var own := FieldJson(fields[j], slots[j]).value;
    assert fields[0..] == fields && slots[0..] == slots;
    NotReadsResourceType(fields, j);
    forall k | Reads(fields[j], k) ensures Get(pre + ms, k) == Get(own, k) {
      FieldsGet(fields, slots, 0, j, k);
      GetMissing(pre, k);
      GetAppend(pre, ms, k);
    }
    DecodeFieldLocal(fields[j], pre + ms, own);
  }

  /** An empty object gives every field an empty slot. */
  lemma EmptyFieldDecodes(f: FieldDef)
    ensures DecodeField(f, []) == Ok(Slot([]))
  {
    match f.ftype
    case AnyResource =>
    case Of(t) =>
      EmptyTypedDecodes(f.name, t, f.repeating);
    case Choice(ts) =>
      assert ChooseType(f, ts, []) == None;
  }

  lemma EmptyTypedDecodes(key: string, t: TypeName, rep: bool)
    ensures DecodeTyped(key, t, rep, []) == Ok(Slot([]))
  {
    if IsPrimitiveType(t) {
      if rep {
        assert Merge(t, [], []) == [];
        assert PrimitivesFrom(t, Ok([]), Ok([])) == Ok(Slot([]));
      } else {
        assert PrimitiveFrom(t, Ok(None), Ok(Companion(None, []))) == Ok(Slot([]));
      }
    }
  }

  /** One field's members decode back to its slot. */
  lemma {:induction false} FieldRoundTrip(f: FieldDef, s: Slot)
    requires FieldPlain(f) && SlotTyped(f, s) && SlotRepresentable(s)
    ensures FieldJson(f, s).Ok?
    ensures DecodeField(f, FieldJson(f, s).value) == Ok(s)
    decreases s, 2
  {
    if |s.items| == 0 {
      assert s == Slot([]);
      EmptyFieldDecodes(f);
    } else {
      match f.ftype
      case AnyResource =>
        ResourcesRoundTrip(s.items);
        var xs := ResourcesJson(s.items).value;
        GetSingle(f.name, JArray(xs), f.name);
        assert ContainedIn(f, [Member(f.name, JArray(xs))]) == Ok(s);
      case Of(t) =>
        TypedRoundTrip(f.name, t, f.repeating, s.items);
      case Choice(ts) =>
        ChoiceRoundTrip(f, ts, s);
    }
  }

  lemma {:induction false} ChoiceRoundTrip(f: FieldDef, ts: seq<TypeName>, s: Slot)
    requires FieldPlain(f) && SlotTyped(f, s) && SlotRepresentable(s)
    requires f.ftype == Choice(ts) && |s.items| > 0
    ensures FieldJson(f, s).Ok?
    ensures DecodeField(f, FieldJson(f, s).value) == Ok(s)
    decreases s, 1
  {
    var t := TypeOf(s.items[0]);
    ChoiceFits(f, ts, s);
    TypedRoundTrip(ValueKey(f, t), t, false, s.items);
    ChoiceWrites(f, ts, s, t);
    var ms := FieldJson(f, s).value;
    ChoicesApart(ts, t);
    ChooseFinds(f, ts, ms, t);
    ChoiceReads(f, ts, t, ms, s);
  }

  /** The item of a choice field fits the type it carries. */
  lemma ChoiceFits(f: FieldDef, ts: seq<TypeName>, s: Slot)
    requires FieldPlain(f) && SlotTyped(f, s) && SlotRepresentable(s)
    requires f.ftype == Choice(ts) && |s.items| > 0
    ensures |s.items| == 1 && TypeOf(s.items[0]) in ts && ItemsFit(TypeOf(s.items[0]), s.items)
  {
    assert s.items[0] in s.items;
  }

  /** A choice field is written as its item under the key of the item's
      type. */
  lemma ChoiceWrites(f: FieldDef, ts: seq<TypeName>, s: Slot, t: TypeName)
    requires f.ftype == Choice(ts) && |s.items| == 1 && !f.repeating
    requires t == TypeOf(s.items[0]) && t in ts
    ensures FieldJson(f, s) == TypedJson(ValueKey(f, t), t, false, s.items)
  {
  }

  lemma ChoicesApart(ts: seq<TypeName>, t: TypeName)
    requires ChoicesDistinct(ts) && t in ts
    ensures forall u | u in ts && u != t :: Capitalize(Name(u)) != Capitalize(Name(t))
  {
    forall u | u in ts && u != t ensures Capitalize(Name(u)) != Capitalize(Name(t)) {
      var a :| 0 <= a < |ts| && ts[a] == u;
      var b :| 0 <= b < |ts| && ts[b] == t;
    }
  }

  lemma ChoiceReads(f: FieldDef, ts: seq<TypeName>, t: TypeName, ms: seq<Member>, s: Slot)
    requires f.ftype == Choice(ts) && ChooseType(f, ts, ms) == Some(t)
    requires DecodeTyped(ValueKey(f, t), t, false, ms) == Ok(s)
    ensures DecodeField(f, ms) == Ok(s)
  {
  }

  predicate ItemsFit(t: TypeName, items: seq<Element>) {
    forall x | x in items :: !x.Linked? && x.typeName == t && Writable(x) && (x.Prim? ==> !PrimEmpty(x))
  }

  /** The items of one field, all of type `t`, decode back from their
      members. */
  lemma {:induction false} TypedRoundTrip(key: string, t: TypeName, rep: bool, items: seq<Element>)
    requires |items| > 0 && (rep || |items| == 1)
    requires ItemsFit(t, items)
    ensures TypedJson(key, t, rep, items).Ok?
    ensures |TypedJson(key, t, rep, items).value| > 0
    ensures DecodeTyped(key, t, rep, TypedJson(key, t, rep, items).value) == Ok(Slot(items))
    decreases items, 5
  {
    if IsPrimitiveType(t) {
      PrimTypedRoundTrip(key, t, rep, items);
    } else {
      NestedRoundTrip(key, t, rep, items);
      ViaNested(key, t, rep, items);
    }
  }

  lemma {:induction false} PrimTypedRoundTrip(key: string, t: TypeName, rep: bool, items: seq<Element>)
    requires IsPrimitiveType(t) && |items| > 0 && (rep || |items| == 1)
    requires ItemsFit(t, items)
    ensures TypedJson(key, t, rep, items).Ok?
    ensures |TypedJson(key, t, rep, items).value| > 0
    ensures DecodeTyped(key, t, rep, TypedJson(key, t, rep, items).value) == Ok(Slot(items))
    decreases items, 4
  {
    assert items[0] in items;
    assert PrimsFit(t, items);
    if rep {
      PrimArrayRoundTrip(key, t, items);
      ViaArray(key, t, items);
    } else {
      assert items == [items[0]];
      PrimSingleRoundTrip(key, t, items[0]);
      ViaSingle(key, t, items);
    }
  }

  lemma ViaArray(key: string, t: TypeName, items: seq<Element>)
    requires IsPrimitiveType(t) && |items| > 0
    requires forall x | x in items :: x.Prim? && x.typeName == t
    requires PrimArrayJson(key, t, items).Ok?
    requires DecodePrimitives(key, t, PrimArrayJson(key, t, items).value) == Ok(Slot(items))
    ensures TypedJson(key, t, true, items) == PrimArrayJson(key, t, items)
    ensures DecodeTyped(key, t, true, PrimArrayJson(key, t, items).value) == Ok(Slot(items))
  {
  }

  lemma ViaSingle(key: string, t: TypeName, items: seq<Element>)
    requires IsPrimitiveType(t) && |items| == 1 && items[0].Prim? && items[0].typeName == t
    requires PrimSingleJson(key, t, items[0]).Ok?
    requires DecodePrimitive(key, t, PrimSingleJson(key, t, items[0]).value) == Ok(Slot(items))
    ensures TypedJson(key, t, false, items) == PrimSingleJson(key, t, items[0])
    ensures DecodeTyped(key, t, false, PrimSingleJson(key, t, items[0]).value) == Ok(Slot(items))
  {
    assert items[0] in items;
  }

  lemma ViaNested(key: string, t: TypeName, rep: bool, items: seq<Element>)
    requires IsCompositeType(t) && |items| > 0
    requires ObjectsJson(t, items).Ok?
    requires DecodeNested(key, t, rep, NestedMembers(key, rep, ObjectsJson(t, items).value)) == Ok(Slot(items))
    ensures TypedJson(key, t, rep, items) == Ok(NestedMembers(key, rep, ObjectsJson(t, items).value))
    ensures DecodeTyped(key, t, rep, NestedMembers(key, rep, ObjectsJson(t, items).value)) == Ok(Slot(items))
  {
  }

  lemma {:induction false} NestedRoundTrip(key: string, t: TypeName, rep: bool, items: seq<Element>)
    requires IsCompositeType(t) && |items| > 0 && (rep || |items| == 1)
    requires forall x | x in items :: x.Comp? && x.typeName == t && Writable(x)
    ensures ObjectsJson(t, items).Ok?
    ensures DecodeNested(key, t, rep, NestedMembers(key, rep, ObjectsJson(t, items).value)) == Ok(Slot(items))
    decreases items, 3
  {
    ObjectsRoundTrip(t, items);
    var objs := ObjectsJson(t, items).value;
    GetSingle(key, if rep then JArray(objs) else objs[0], key);
    if !rep {
      assert items == [items[0]];
      CompositeRoundTrip(items[0]);
      assert objs[0] == CompositeJson(items[0]).value;
    }
  }

  /** The member a datatype field is written as. */
  function NestedMembers(key: string, rep: bool, objs: seq<JValue>): seq<Member>
    requires |objs| > 0
  {
    if rep then [Member(key, JArray(objs))] else [Member(key, objs[0])]
  }

  lemma {:induction false} PrimSingleRoundTrip(key: string, t: TypeName, p: Element)
    requires IsPrimitiveType(t) && p.Prim? && p.typeName == t && Writable(p) && !PrimEmpty(p)
    ensures PrimSingleJson(key, t, p).Ok?
    ensures |PrimSingleJson(key, t, p).value| > 0
    ensures DecodePrimitive(key, t, PrimSingleJson(key, t, p).value) == Ok(Slot([p]))
    decreases p, 2
  {
    if p.value.Some? {
      ValueRoundTrip(key, t, p.value.value);
    }
    CompanionRoundTrip(p);
    SingleMembers(key, t, p);
    SingleDecodes(key, t, p, PrimSingleJson(key, t, p).value);
  }

  /** The members of a non-repeating primitive: the value when there is
      one, the companion when there is an id or an extension. */
  lemma SingleMembers(key: string, t: TypeName, p: Element)
    requires p.Prim? && CompanionJson(p).Ok?
    requires p.value.Some? ==> ValueJson(t, p.value.value).Ok?
    ensures PrimSingleJson(key, t, p).Ok?
    ensures PrimSingleJson(key, t, p).value ==
      (if p.value.Some? then [Member(key, ValueJson(t, p.value.value).value)] else [])
      + (if HasCompanion(p) then [Member(CompanionKey(key), CompanionJson(p).value)] else [])
  {
  }

  lemma SingleDecodes(key: string, t: TypeName, p: Element, ms: seq<Member>)
    requires IsPrimitiveType(t) && p.Prim? && p.typeName == t && WellTyped(p) && !PrimEmpty(p)
    requires p.value.Some? ==> ValueJson(t, p.value.value).Ok? && DecodeValue(key, t, ValueJson(t, p.value.value).value) == Ok(p.value)
    requires CompanionJson(p).Ok? && DecodeCompanion(CompanionJson(p).value) == Ok(Companion(p.id, p.extension))
    requires ms ==
      (if p.value.Some? then [Member(key, ValueJson(t, p.value.value).value)] else [])
      + (if HasCompanion(p) then [Member(CompanionKey(key), CompanionJson(p).value)] else [])
    ensures |ms| > 0
    ensures DecodePrimitive(key, t, ms) == Ok(Slot([p]))
  {
    var a: seq<Member> := if p.value.Some? then [Member(key, ValueJson(t, p.value.value).value)] else [];
    var b: seq<Member> := if HasCompanion(p) then [Member(CompanionKey(key), CompanionJson(p).value)] else [];
    GetPair(a, b, key, CompanionKey(key));
    SingleValueBack(key, t, p, Get(ms, key));
    SingleCompanionBack(p, ms, CompanionKey(key));
    SingleFrom(t, p);
  }

  lemma SingleValueBack(key: string, t: TypeName, p: Element, o: Option<JValue>)
    requires IsPrimitiveType(t) && p.Prim? && p.typeName == t
    requires p.value.Some? ==> ValueJson(t, p.value.value).Ok? && o == Some(ValueJson(t, p.value.value).value)
    requires p.value.Some? ==> DecodeValue(key, t, ValueJson(t, p.value.value).value) == Ok(p.value)
    requires p.value.None? ==> o.None?
    ensures ValueIn(key, t, o) == Ok(p.value)
  {
  }

  lemma SingleCompanionBack(p: Element, ms: seq<Member>, ck: string)
    requires p.Prim? && CompanionJson(p).Ok?
    requires DecodeCompanion(CompanionJson(p).value) == Ok(Companion(p.id, p.extension))
    requires Get(ms, ck) == if HasCompanion(p) then Some(CompanionJson(p).value) else None
    ensures CompanionIn(ms, ck) == Ok(Companion(p.id, p.extension))
  {
  }

  lemma SingleFrom(t: TypeName, p: Element)
    requires IsPrimitiveType(t) && p.Prim? && p.typeName == t && !PrimEmpty(p)
    requires p.value.Some? && IsNumberType(t) ==> IsNumberLexeme(p.value.value)
    requires forall x | x in p.extension :: IsExtension(x) && WellTyped(x)
    ensures PrimitiveFrom(t, Ok(p.value), Ok(Companion(p.id, p.extension))) == Ok(Slot([p]))
  {
  }

  lemma {:induction false} PrimArrayRoundTrip(key: string, t: TypeName, items: seq<Element>)
    requires IsPrimitiveType(t) && |items| > 0 && PrimsFit(t, items)
    requires forall x | x in items :: !PrimEmpty(x)
    ensures PrimArrayJson(key, t, items).Ok?
    ensures |PrimArrayJson(key, t, items).value| > 0
    ensures DecodePrimitives(key, t, PrimArrayJson(key, t, items).value) == Ok(Slot(items))
    decreases items, 2
  {
    ValuesRoundTrip(key, t, items);
    CompanionsRoundTrip(items);
    ArrayMembers(key, t, items);
    PrimsTyped(t, items);
    ArrayDecodes(key, t, items, ValuesJson(t, items).value, CompanionsJson(items).value, PrimArrayJson(key, t, items).value);
  }

  lemma ArrayDecodes(key: string, t: TypeName, items: seq<Element>, vs: seq<JValue>, cs: seq<JValue>, ms: seq<Member>)
    requires IsPrimitiveType(t) && |items| > 0
    requires forall x | x in items :: x.Prim? && x.typeName == t && !PrimEmpty(x)
    requires forall i | 0 <= i < |items| && items[i].value.Some? && IsNumberType(t) :: IsNumberLexeme(items[i].value.value)
    requires forall x | x in items :: CompanionTyped(Companion(x.id, x.extension))
    requires DecodeValues(key, t, vs) == Ok(ValuesOf(items))
    requires DecodeCompanions(cs) == Ok(CompanionsOf(items))
    requires ms == (if AnyValue(items) then [Member(key, JArray(vs))] else [])
      + (if AnyCompanion(items) then [Member(CompanionKey(key), JArray(cs))] else [])
    ensures |ms| > 0
    ensures DecodePrimitives(key, t, ms) == Ok(Slot(items))
  {
    var a: seq<Member> := if AnyValue(items) then [Member(key, JArray(vs))] else [];
    var b: seq<Member> := if AnyCompanion(items) then [Member(CompanionKey(key), JArray(cs))] else [];
    assert items[0] in items;
    GetPair(a, b, key, CompanionKey(key));
    ArrayValuesBack(key, t, items, vs, Get(ms, key));
    ArrayCompanionsBack(items, cs, ms, CompanionKey(key));
    ArrayFrom(t, items);
  }

  /** The members of a repeating primitive: the value array when some
      item has a value, the companion array when some item has an id or
      an extension. */
  lemma ArrayMembers(key: string, t: TypeName, items: seq<Element>)
    requires forall x | x in items :: x.Prim?
    requires ValuesJson(t, items).Ok? && CompanionsJson(items).Ok?
    ensures PrimArrayJson(key, t, items).Ok?
    ensures PrimArrayJson(key, t, items).value ==
      (if AnyValue(items) then [Member(key, JArray(ValuesJson(t, items).value))] else [])
      + (if AnyCompanion(items) then [Member(CompanionKey(key), JArray(CompanionsJson(items).value))] else [])
  {
  }

  lemma PrimsTyped(t: TypeName, items: seq<Element>)
    requires PrimsFit(t, items)
    ensures forall i | 0 <= i < |items| && items[i].value.Some? && IsNumberType(t) :: IsNumberLexeme(items[i].value.value)
    ensures forall x | x in items :: CompanionTyped(Companion(x.id, x.extension))
  {
    forall i | 0 <= i < |items| && items[i].value.Some? && IsNumberType(t) ensures IsNumberLexeme(items[i].value.value) {
      assert items[i] in items;
    }
  }

  lemma ArrayValuesBack(key: string, t: TypeName, items: seq<Element>, vs: seq<JValue>, o: Option<JValue>)
    requires IsPrimitiveType(t) && forall x | x in items :: x.Prim?
    requires DecodeValues(key, t, vs) == Ok(ValuesOf(items))
    requires o == if AnyValue(items) then Some(JArray(vs)) else None
    ensures ValuesIn(key, t, o) == Ok(if AnyValue(items) then ValuesOf(items) else [])
  {
  }

  lemma ArrayCompanionsBack(items: seq<Element>, cs: seq<JValue>, ms: seq<Member>, ck: string)
    requires forall x | x in items :: x.Prim?
    requires DecodeCompanions(cs) == Ok(CompanionsOf(items))
    requires Get(ms, ck) == if AnyCompanion(items) then Some(JArray(cs)) else None
    ensures CompanionsIn(ms, ck) == Ok(if AnyCompanion(items) then CompanionsOf(items) else [])
  {
  }

  lemma ArrayFrom(t: TypeName, items: seq<Element>)
    requires IsPrimitiveType(t) && |items| > 0
    requires forall x | x in items :: x.Prim? && x.typeName == t && !PrimEmpty(x)
    requires forall i | 0 <= i < |items| && items[i].value.Some? && IsNumberType(t) :: IsNumberLexeme(items[i].value.value)
    requires forall x | x in items :: CompanionTyped(Companion(x.id, x.extension))
    ensures PrimitivesFrom(t, Ok(if AnyValue(items) then ValuesOf(items) else []),
      Ok(if AnyCompanion(items) then CompanionsOf(items) else [])) == Ok(Slot(items))
  {
    MergeBack(t, items);
  }

  /** Merging the decoded value array and companion array of a repeating
      primitive gives back its items. */
  lemma MergeBack(t: TypeName, items: seq<Element>)
    requires |items| > 0 && forall x | x in items :: x.Prim? && x.typeName == t && !PrimEmpty(x)
    ensures Merge(t, if AnyValue(items) then ValuesOf(items) else [], if AnyCompanion(items) then CompanionsOf(items) else []) == items
  {
    var values := if AnyValue(items) then ValuesOf(items) else [];
    var companions := if AnyCompanion(items) then CompanionsOf(items) else [];
    assert items[0] in items;
    forall i | 0 <= i < |items|
      ensures ValueAt(values, i) == items[i].value
      ensures CompanionAt(companions, i) == Companion(items[i].id, items[i].extension)
    {
      MergeItem(items, i);
    }
    MergeIs(t, values, companions, items);
  }

  /** `Merge` gives `items` when every index of the two arrays holds the
      parts of the item at that index. */
  lemma MergeIs(t: TypeName, values: seq<Option<string>>, companions: seq<Companion>, items: seq<Element>)
    requires |items| == if |values| < |companions| then |companions| else |values|
    requires forall i | 0 <= i < |items| :: items[i].Prim? && items[i].typeName == t
    requires forall i | 0 <= i < |items| :: ValueAt(values, i) == items[i].value
    requires forall i | 0 <= i < |items| :: CompanionAt(companions, i) == Companion(items[i].id, items[i].extension)
    ensures Merge(t, values, companions) == items
  {
    var merged := Merge(t, values, companions);
    forall i | 0 <= i < |items| ensures merged[i] == items[i] {
    }
  }

  /** Index `i` of either decoded array gives back item `i`'s part: an
      array left out because no item uses it reads as all `null`. */
  lemma MergeItem(items: seq<Element>, i: nat)
    requires i < |items| && forall x | x in items :: x.Prim?
    ensures ValueAt(if AnyValue(items) then ValuesOf(items) else [], i) == items[i].value
    ensures CompanionAt(if AnyCompanion(items) then CompanionsOf(items) else [], i) == Companion(items[i].id, items[i].extension)
  {
    assert items[i] in items;
    if !AnyValue(items) {
      assert items[i].value.None?;
    }
    if !AnyCompanion(items) {
      assert !HasCompanion(items[i]);
    }
  }

  lemma {:induction false} CompanionsRoundTrip(items: seq<Element>)
    requires forall x | x in items :: x.Prim? && Writable(x)
    ensures CompanionsJson(items).Ok?
    ensures DecodeCompanions(CompanionsJson(items).value) == Ok(CompanionsOf(items))
    decreases items, 1
  {
    if |items| > 0 {
      assert items[0] in items;
      CompanionRoundTrip(items[0]);
      CompanionsRoundTrip(items[1..]);
      var cs := CompanionsJson(items).value;
      assert cs[0] == if HasCompanion(items[0]) then CompanionJson(items[0]).value else JNull;
      assert cs[1..] == CompanionsJson(items[1..]).value;
      assert CompanionsOf(items) == [Companion(items[0].id, items[0].extension)] + CompanionsOf(items[1..]);
    }
  }

  /** A primitive's companion object gives back its id and extensions. */
  lemma {:induction false} CompanionRoundTrip(p: Element)
    requires p.Prim? && Writable(p)
    ensures CompanionJson(p).Ok?
    ensures DecodeCompanion(CompanionJson(p).value) == Ok(Companion(p.id, p.extension))
    decreases p, 1
  {
    ObjectsRoundTrip(Extension, p.extension);
    var exts := ObjectsJson(Extension, p.extension).value;
    var a: seq<Member> := if p.id.Some? then [Member("id", JString(p.id.value))] else [];
    var b: seq<Member> := if |exts| > 0 then [Member("extension", JArray(exts))] else [];
    var ms := a + b;
    CompanionJsonIs(p, exts, a, b);
    GetPair(a, b, "id", "extension");
    CompanionMembersBack(p, exts, ms);
  }

  lemma CompanionJsonIs(p: Element, exts: seq<JValue>, a: seq<Member>, b: seq<Member>)
    requires p.Prim? && ObjectsJson(Extension, p.extension) == Ok(exts)
    requires a == if p.id.Some? then [Member("id", JString(p.id.value))] else []
    requires b == if |exts| > 0 then [Member("extension", JArray(exts))] else []
    ensures CompanionJson(p) == Ok(JObject(a + b))
  {
  }

  lemma CompanionMembersBack(p: Element, exts: seq<JValue>, ms: seq<Member>)
    requires p.Prim?
    requires |exts| == |p.extension| && DecodeObjects(Extension, exts) == Ok(p.extension)
    requires Get(ms, "id") == if p.id.Some? then Some(JString(p.id.value)) else None
    requires Get(ms, "extension") == if |exts| > 0 then Some(JArray(exts)) else None
    ensures DecodeCompanion(JObject(ms)) == Ok(Companion(p.id, p.extension))
  {
    assert IdIn(Get(ms, "id")) == Ok(p.id);
    assert ExtensionsIn(ms) == Ok(p.extension);
  }

  lemma {:induction false} ObjectsRoundTrip(t: TypeName, xs: seq<Element>)
    requires IsCompositeType(t)
    requires forall x | x in xs :: x.Comp? && x.typeName == t && Writable(x)
    ensures ObjectsJson(t, xs).Ok?
    ensures DecodeObjects(t, ObjectsJson(t, xs).value) == Ok(xs)
    decreases xs, 0
  {
    if |xs| > 0 {
      assert xs[0] in xs;
      CompositeRoundTrip(xs[0]);
      ObjectsRoundTrip(t, xs[1..]);
      ObjectsStep(t, xs);
    }
  }

  lemma ObjectsStep(t: TypeName, xs: seq<Element>)
    requires IsCompositeType(t) && |xs| > 0 && xs[0].Comp? && xs[0].typeName == t
    requires CompositeJson(xs[0]).Ok? && DecodeComposite(t, CompositeJson(xs[0]).value.members) == Ok(xs[0])
    requires ObjectsJson(t, xs[1..]).Ok? && DecodeObjects(t, ObjectsJson(t, xs[1..]).value) == Ok(xs[1..])
    ensures ObjectsJson(t, xs).Ok? && DecodeObjects(t, ObjectsJson(t, xs).value) == Ok(xs)
  {
    var head := CompositeJson(xs[0]).value;
    var tail := ObjectsJson(t, xs[1..]).value;
    ObjectsJsonCons(t, xs);
    ObjectsCons(t, head, tail, xs[0], xs[1..]);
    assert xs == [xs[0]] + xs[1..];
  }

  /** Encoding an array of objects one object at a time. */
  lemma ObjectsJsonCons(t: TypeName, xs: seq<Element>)
    requires |xs| > 0 && xs[0].Comp? && xs[0].typeName == t
    requires CompositeJson(xs[0]).Ok? && ObjectsJson(t, xs[1..]).Ok?
    ensures ObjectsJson(t, xs) == Ok([CompositeJson(xs[0]).value] + ObjectsJson(t, xs[1..]).value)
  {
  }

  lemma ResourcesJsonCons(xs: seq<Element>)
    requires |xs| > 0 && IsResource(xs[0])
    requires CompositeJson(xs[0]).Ok? && ResourcesJson(xs[1..]).Ok?
    ensures ResourcesJson(xs) == Ok([CompositeJson(xs[0]).value] + ResourcesJson(xs[1..]).value)
  {
  }

  /** Decoding an array of objects one object at a time. */
  lemma ObjectsCons(t: TypeName, head: JValue, tail: seq<JValue>, x: Element, rest: seq<Element>)
    requires IsCompositeType(t) && head.JObject?
    requires DecodeComposite(t, head.members) == Ok(x) && DecodeObjects(t, tail) == Ok(rest)
    ensures DecodeObjects(t, [head] + tail) == Ok([x] + rest)
  {
    var xs := [head] + tail;
    assert xs[0] == JObject(head.members) && xs[1..] == tail;
  }

  lemma {:induction false} ResourcesRoundTrip(xs: seq<Element>)
    requires forall x | x in xs :: IsResource(x) && Writable(x)
    ensures ResourcesJson(xs).Ok?
    ensures DecodeResources(ResourcesJson(xs).value) == Ok(xs)
    decreases xs, 0
  {
    if |xs| > 0 {
      assert xs[0] in xs;
      ResourceRoundTrip(xs[0]);
      assert EncodeResource(xs[0]) == CompositeJson(xs[0]);
      ResourcesRoundTrip(xs[1..]);
      ResourcesStep(xs);
    }
  }

  lemma ResourcesStep(xs: seq<Element>)
    requires |xs| > 0 && IsResource(xs[0])
    requires CompositeJson(xs[0]).Ok? && DecodeResource(CompositeJson(xs[0]).value) == Ok(xs[0])
    requires ResourcesJson(xs[1..]).Ok? && DecodeResources(ResourcesJson(xs[1..]).value) == Ok(xs[1..])
    ensures ResourcesJson(xs).Ok? && DecodeResources(ResourcesJson(xs).value) == Ok(xs)
  {
    var head := CompositeJson(xs[0]).value;
    var tail := ResourcesJson(xs[1..]).value;
    ResourcesJsonCons(xs);
    ResourcesCons(head, tail, xs[0], xs[1..]);
    assert xs == [xs[0]] + xs[1..];
  }

  lemma ResourcesCons(head: JValue, tail: seq<JValue>, x: Element, rest: seq<Element>)
    requires DecodeResource(head) == Ok(x) && DecodeResources(tail) == Ok(rest)
    ensures DecodeResources([head] + tail) == Ok([x] + rest)
  {
    assert ([head] + tail)[1..] == tail;
  }
}
