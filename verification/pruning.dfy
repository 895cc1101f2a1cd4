/** Dropping empty content before writing.

    A primitive whose value is the empty string counts as having no value.
    Bottom-up, a child that says nothing is removed from its field: a
    primitive with no value, no id and no extension; an extension with
    neither a value nor child extensions (its url and id do not count); a
    tag of `Meta` whose coding has neither a system nor a code (a display
    alone does not keep it); any other datatype whose fields are all
    empty. A resource is never removed, so an empty resource is still
    written with its `resourceType`. */
module Pruning {
  import opened Results
  import opened Catalog
  import opened Elements

  lemma FieldPositions()
    ensures Fields(Extension)[ExtensionChildren].name == "extension"
    ensures Fields(Extension)[ExtensionValue].name == "value"
    ensures Fields(Coding)[CodingSystem].name == "system"
    ensures Fields(Coding)[CodingCode].name == "code"
    ensures Fields(Meta)[MetaTag].name == "tag"
  {
  }

  /** The empty string is no value. */
  function PruneValue(v: Option<string>): (r: Option<string>)
    ensures r.Some? <==> v.Some? && v.value != ""
    ensures r.Some? ==> r == v
  {
    if v == Some("") then None else v
  }

  predicate SlotEmpty(slots: seq<Slot>, i: nat) {
    i >= |slots| || |slots[i].items| == 0
  }

  /** Slot `i` of type `t` is the tag list of a `Meta`. */
  predicate InTag(t: TypeName, i: nat) {
    t == Meta && i == MetaTag
  }

  /** A child, already pruned, that says nothing and is left out of its
      field; `inTag` tells whether the field is `Meta.tag`. */
  predicate Blank(inTag: bool, x: Element) {
    match x
    case Prim(_, _, _, _) => PrimEmpty(x)
    case Comp(t, slots) =>
      && !IsResourceType(t)
      && (if t == Extension then SlotEmpty(slots, ExtensionChildren) && SlotEmpty(slots, ExtensionValue)
          else if inTag && t == Coding then SlotEmpty(slots, CodingSystem) && SlotEmpty(slots, CodingCode)
          else forall i | 0 <= i < |slots| :: |slots[i].items| == 0)
    case Linked(_) => false
  }

  function Prune(e: Element): (r: Element)
    ensures TypeOf(r) == TypeOf(e)
    ensures r.Prim? == e.Prim? && r.Comp? == e.Comp? && r.Linked? == e.Linked?
    ensures r.Comp? ==> |r.slots| == |e.slots|
    decreases e, 1
  {
    match e
    case Prim(t, id, ext, v) => Prim(t, id, PruneItems(false, ext), PruneValue(v))
    case Comp(t, slots) =>
      Comp(t, seq(|slots|, i requires 0 <= i < |slots| => Slot(PruneItems(InTag(t, i), slots[i].items))))
    case Linked(target) => Linked(Prune(target))
  }

  /** The pruned children of one field, in order, without the blank
      ones. */
  function PruneItems(inTag: bool, items: seq<Element>): (r: seq<Element>)
    ensures |r| <= |items|
    ensures forall x | x in r :: !Blank(inTag, x)
    decreases items, 0
  {
    if |items| == 0 then []
    else
      var x := Prune(items[0]);
      (if Blank(inTag, x) then [] else [x]) + PruneItems(inTag, items[1..])
  }

  /** Nothing left to prune: no empty-string value and no blank child
      anywhere. */
  predicate IsPruned(e: Element)
    decreases e, 1
  {
    match e
    case Prim(_, _, ext, v) => v != Some("") && ItemsPruned(false, ext)
    case Comp(t, slots) => forall i | 0 <= i < |slots| :: SlotPruned(InTag(t, i), slots[i])
    case Linked(target) => IsPruned(target)
  }

  predicate SlotPruned(inTag: bool, s: Slot)
    decreases s, 0
  {
    ItemsPruned(inTag, s.items)
  }

  predicate ItemsPruned(inTag: bool, items: seq<Element>)
    decreases items, 0
  {
    forall x | x in items :: !Blank(inTag, x) && IsPruned(x)
  }

  // ---------------------------------------------------------------------
  // Pruning leaves nothing to prune, and changes nothing that is pruned

  lemma {:induction false} PruneIsPruned(e: Element)
    ensures IsPruned(Prune(e))
    decreases e, 1
  {
    match e
    case Prim(t, id, ext, v) =>
      PruneItemsPruned(false, ext);
    case Comp(t, slots) =>
      var r := Prune(e);
      forall i | 0 <= i < |slots| ensures SlotPruned(InTag(t, i), r.slots[i]) {
        PruneItemsPruned(InTag(t, i), slots[i].items);
      }
    case Linked(target) =>
      PruneIsPruned(target);
  }

  lemma {:induction false} PruneItemsPruned(inTag: bool, items: seq<Element>)
    ensures ItemsPruned(inTag, PruneItems(inTag, items))
    decreases items, 0
  {
    if |items| > 0 {
      PruneIsPruned(items[0]);
      PruneItemsPruned(inTag, items[1..]);
    }
  }

  lemma {:induction false} PruneFixes(e: Element)
    requires IsPruned(e)
    ensures Prune(e) == e
    decreases e, 1
  {
    match e
    case Prim(t, id, ext, v) =>
      PruneItemsFixes(false, ext);
    case Comp(t, slots) =>
      var r := Prune(e);
      forall i | 0 <= i < |slots| ensures r.slots[i] == slots[i] {
        PruneItemsFixes(InTag(t, i), slots[i].items);
      }
      assert r.slots == slots;
    case Linked(target) =>
      PruneFixes(target);
  }

  lemma {:induction false} PruneItemsFixes(inTag: bool, items: seq<Element>)
    requires ItemsPruned(inTag, items)
    ensures PruneItems(inTag, items) == items
    decreases items, 0
  {
    if |items| > 0 {
      PruneFixes(items[0]);
      PruneItemsFixes(inTag, items[1..]);
      assert [items[0]] + items[1..] == items;
    }
  }

  /** Pruning twice is pruning once. */
  lemma PruneIdempotent(e: Element)
    ensures Prune(Prune(e)) == Prune(e)
  {
    PruneIsPruned(e);
    PruneFixes(Prune(e));
  }

  // ---------------------------------------------------------------------
  // What pruning keeps

  /** A pruned tree has no primitive that says nothing, so it can be
      written and read back. */
  lemma {:induction false} PrunedRepresentable(e: Element)
    requires IsPruned(e)
    ensures Representable(e)
    decreases e, 1
  {
    match e
    case Prim(_, _, ext, _) =>
      forall x | x in ext ensures Representable(x) {
        PrunedRepresentable(x);
      }
    case Comp(t, slots) =>
      forall i | 0 <= i < |slots| ensures SlotRepresentable(slots[i]) {
        assert SlotPruned(InTag(t, i), slots[i]);
        assert ItemsPruned(InTag(t, i), slots[i].items);
        forall x | x in slots[i].items ensures (x.Prim? ==> !PrimEmpty(x)) && Representable(x) {
          assert !Blank(InTag(t, i), x) && IsPruned(x);
          PrunedRepresentable(x);
        }
      }
    case Linked(target) =>
      PrunedRepresentable(target);
  }

  /** Every child kept by pruning is the pruned form of a child that was
      there; `j` says which. */
  lemma {:induction false} PruneItemsFrom(inTag: bool, items: seq<Element>, y: Element) returns (j: nat)
    requires y in PruneItems(inTag, items)
    ensures j < |items| && y == Prune(items[j])
    decreases items
  {
    var x := Prune(items[0]);
    var rest := PruneItems(inTag, items[1..]);
    if !Blank(inTag, x) && y == x {
      j := 0;
    } else {
      assert y in rest;
      var k := PruneItemsFrom(inTag, items[1..], y);
      j := k + 1;
    }
  }

  /** Every non-blank pruned child is kept, in its place. */
  lemma {:induction false} PruneItemsKeeps(inTag: bool, items: seq<Element>, j: nat)
    requires j < |items| && !Blank(inTag, Prune(items[j]))
    ensures Prune(items[j]) in PruneItems(inTag, items)
    decreases items
  {
    if j > 0 {
      PruneItemsKeeps(inTag, items[1..], j - 1);
    }
  }

  /** Pruning keeps an element's fit with the catalog. */
  lemma {:induction false} PruneWellTyped(e: Element)
    requires WellTyped(e)
    ensures WellTyped(Prune(e))
    decreases e, 1
  {
    match e
    case Prim(t, id, ext, v) =>
      var kept := PruneItems(false, ext);
      forall y | y in kept ensures IsExtension(y) && WellTyped(y) {
        var j := PruneItemsFrom(false, ext, y);
        assert ext[j] in ext;
        PruneWellTyped(ext[j]);
      }
    case Comp(t, slots) =>
      var r := Prune(e);
      forall i | 0 <= i < |slots| ensures SlotTyped(Lookup(t).fields[i], r.slots[i]) {
        PruneSlotTyped(Lookup(t).fields[i], InTag(t, i), slots[i]);
      }
  }

  lemma {:induction false} PruneSlotTyped(f: FieldDef, inTag: bool, s: Slot)
    requires SlotTyped(f, s)
    ensures SlotTyped(f, Slot(PruneItems(inTag, s.items)))
    decreases s
  {
    var kept := PruneItems(inTag, s.items);
    forall y | y in kept ensures ItemFits(f.ftype, y) && WellTyped(y) {
      var j := PruneItemsFrom(inTag, s.items, y);
      assert s.items[j] in s.items;
      PruneWellTyped(s.items[j]);
    }
  }

  /** What pruning gives can always be written and read back. */
  lemma PruneRepresentable(e: Element)
    ensures Representable(Prune(e))
  {
    PruneIsPruned(e);
    PrunedRepresentable(Prune(e));
  }
}
