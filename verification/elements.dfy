/** The in-memory element tree the codec reads and writes.

    A composite holds one slot per catalog field, in catalog order, so the
    declared order of its children is part of its shape. A primitive keeps
    its value as lexical text, together with an optional element id and
    its extensions. `Linked` is a reference made directly to another
    resource object (a reference built from a resource rather than from a
    URL); the encoder turns it into a contained resource and a `#n`
    reference. */
module Elements {
  import opened Results
  import opened Json
  import opened Catalog

  datatype Element =
    | Prim(typeName: TypeName, id: Option<string>, extension: seq<Element>, value: Option<string>)
    | Comp(typeName: TypeName, slots: seq<Slot>)
    | Linked(target: Element)

  /** The children held by one field: none, one, or (for a repeating
      field) several, in order. */
  datatype Slot = Slot(items: seq<Element>)

  /** The catalog type an element stands for; a direct link stands for a
      Reference. */
  function TypeOf(e: Element): TypeName {
    match e
    case Prim(t, _, _, _) => t
    case Comp(t, _) => t
    case Linked(_) => Reference
  }

  /** The catalog fields of a composite type (none for anything else). */
  function FieldsOf(t: TypeName): (fs: seq<FieldDef>)
    ensures IsCompositeType(t) ==> fs == Lookup(t).fields
    ensures IsPrimitiveType(t) ==> fs == []
  {
    match Lookup(t)
    case CompositeDef(_, fields) => fields
    case PrimitiveDef(_) => []
  }

  predicate IsResource(e: Element) {
    e.Comp? && IsResourceType(e.typeName)
  }

  /** A primitive with no value, no id and no extension: nothing to say. */
  predicate PrimEmpty(e: Element)
    requires e.Prim?
  {
    e.value.None? && e.id.None? && |e.extension| == 0
  }

  /** The element agrees with the catalog: its type is known, a composite
      has one slot per field, every slot holds at most one item unless the
      field repeats, every item has the field's type (one of the listed
      types for a choice field, a resource for `contained`), an extension
      list holds Extension composites, a number primitive holds an
      RFC 8259 number lexeme, and no direct links remain. */
  predicate WellTyped(e: Element)
    decreases e, 1
  {
    match e
    case Prim(t, _, ext, v) =>
      && IsPrimitiveType(t)
      && (v.Some? && IsNumberType(t) ==> IsNumberLexeme(v.value))
      && (forall x | x in ext :: IsExtension(x) && WellTyped(x))
    case Comp(t, slots) =>
      && IsCompositeType(t)
      && |slots| == |Lookup(t).fields|
      && (forall i | 0 <= i < |slots| :: SlotTyped(Lookup(t).fields[i], slots[i]))
    case Linked(_) => false
  }

  predicate IsExtension(e: Element) {
    e.Comp? && e.typeName == Extension
  }

  predicate SlotTyped(f: FieldDef, s: Slot)
    decreases s, 0
  {
    && (!f.repeating ==> |s.items| <= 1)
    && (forall x | x in s.items :: ItemFits(f.ftype, x) && WellTyped(x))
  }

  predicate ItemFits(ft: FieldType, x: Element) {
    match ft
    case Of(t) => !x.Linked? && x.typeName == t
    case Choice(ts) => !x.Linked? && x.typeName in ts
    case AnyResource => IsResource(x)
  }

  /** Every primitive that sits in a field says something (a value, an id
      or an extension). Such a tree can be written to JSON and read back
      without losing or inventing an item. */
  predicate Representable(e: Element)
    decreases e, 1
  {
    match e
    case Prim(_, _, ext, _) => forall x | x in ext :: Representable(x)
    case Comp(_, slots) => forall i | 0 <= i < |slots| :: SlotRepresentable(slots[i])
    case Linked(t) => Representable(t)
  }

  predicate SlotRepresentable(s: Slot)
    decreases s, 0
  {
    forall x | x in s.items :: (x.Prim? ==> !PrimEmpty(x)) && Representable(x)
  }

  /** No direct resource links anywhere in the tree. */
  predicate NoLinks(e: Element)
    decreases e, 1
  {
    match e
    case Prim(_, _, ext, _) => forall x | x in ext :: NoLinks(x)
    case Comp(_, slots) => forall i | 0 <= i < |slots| :: SlotNoLinks(slots[i])
    case Linked(_) => false
  }

  predicate SlotNoLinks(s: Slot)
    decreases s, 0
  {
    forall x | x in s.items :: NoLinks(x)
  }

  lemma {:induction false} WellTypedHasNoLinks(e: Element)
    requires WellTyped(e)
    ensures NoLinks(e)
    decreases e, 1
  {
    match e
    case Prim(_, _, ext, _) =>
      forall x | x in ext ensures NoLinks(x) {
        WellTypedHasNoLinks(x);
      }
    case Comp(t, slots) =>
      forall i | 0 <= i < |slots| ensures SlotNoLinks(slots[i]) {
        SlotWellTypedHasNoLinks(Lookup(t).fields[i], slots[i]);
      }
  }

  lemma {:induction false} SlotWellTypedHasNoLinks(f: FieldDef, s: Slot)
    requires SlotTyped(f, s)
    ensures SlotNoLinks(s)
    decreases s, 0
  {
    forall x | x in s.items ensures NoLinks(x) {
      WellTypedHasNoLinks(x);
    }
  }

  // ---------------------------------------------------------------------
  // Small constructors used by the encoder stages

  function StringPrim(t: TypeName, v: string): Element {
    Prim(t, None, [], Some(v))
  }

  /** `n` empty slots. */
  function EmptySlots(n: nat): (ss: seq<Slot>)
    ensures |ss| == n && forall i | 0 <= i < n :: ss[i].items == []
  {
    seq(n, _ => Slot([]))
  }

  /** The element stored in slot `i`, when it holds exactly one. */
  function Single(e: Element, i: nat): Option<Element>
    requires e.Comp?
  {
    if i < |e.slots| && |e.slots[i].items| == 1 then Some(e.slots[i].items[0]) else None
  }

  /** The value of a single primitive stored in slot `i`. */
  function SingleValue(e: Element, i: nat): Option<string>
    requires e.Comp?
  {
    match Single(e, i)
    case Some(Prim(_, _, _, Some(v))) => Some(v)
    case _ => None
  }

  /** A copy of `e` with slot `i` replaced. */
  function WithSlot(e: Element, i: nat, s: Slot): (r: Element)
    requires e.Comp? && i < |e.slots|
    ensures r.Comp? && r.typeName == e.typeName && |r.slots| == |e.slots|
    ensures r.slots[i] == s && forall j | 0 <= j < |e.slots| && j != i :: r.slots[j] == e.slots[j]
  {
    Comp(e.typeName, e.slots[i := s])
  }
}
