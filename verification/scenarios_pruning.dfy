/** Concrete cases of dropping empty content: extensions with no value,
    tags with neither system nor code, and the empty resource text that
    remains when everything in a resource is dropped. */
module PruningCases {
  import opened Results
  import opened Json
  import opened Catalog
  import opened Elements
  import opened Encoder
  import opened JsonText
  import opened Containment
  import opened Projection
  import opened Pruning
  import opened Codec
  import opened Scenarios

  /** A Patient whose only non-empty field is field `i`. */
  function PatientWith(i: nat, items: seq<Element>): (e: Element)
    requires i < |Fields(Patient)|
    ensures IsResource(e) && |e.slots| == |Fields(Patient)|
  {
    Comp(Patient, EmptySlots(|Fields(Patient)|)[i := Slot(items)])
  }

  /** An extension with a url and the given value slot. */
  function ExtensionOf(url: string, value: seq<Element>): Element {
    Comp(Extension, [Slot([]), Slot([StringPrim(Uri, url)]), Slot([]), Slot(value)])
  }

  /** A slot holding one primitive when there is a value. */
  function OptSlot(t: TypeName, v: Option<string>): Slot {
    if v.Some? then Slot([StringPrim(t, v.value)]) else Slot([])
  }

  function CodingOf(system: Option<string>, code: Option<string>, display: Option<string>): Element {
    Comp(Coding, [Slot([]), Slot([]), OptSlot(Uri, system), Slot([]), OptSlot(Code, code), OptSlot(String, display)])
  }

  function MetaWithTags(tags: seq<Element>): Element {
    Comp(Meta, EmptySlots(|Fields(Meta)|)[MetaTag := Slot(tags)])
  }

  // ---------------------------------------------------------------------
  // A resource that prunes to nothing is written as its resourceType

  /** With the default options, a resource whose every field prunes to
      nothing is written as an object holding only its `resourceType`. */
  lemma EmptyAfterPruning(e: Element)
    requires IsResource(e) && NoLinks(e) && |e.slots| == |Fields(e.typeName)|
    requires forall i | 0 <= i < |e.slots| :: PruneItems(InTag(e.typeName, i), e.slots[i].items) == []
    ensures Encode(e, Defaults) == Ok(Print(JObject([Member(ResourceTypeKey, JString(Name(e.typeName)))])))
  {
    PreparedIsPruned(e);
    EmptyResourceJson(Prune(e));
  }

  lemma PreparedIsPruned(e: Element)
    requires e.Comp? && NoLinks(e)
    requires forall i | 0 <= i < |e.slots| :: PruneItems(InTag(e.typeName, i), e.slots[i].items) == []
    ensures Prepared(e, Defaults) == Prune(e)
    ensures forall i | 0 <= i < |Prune(e).slots| :: Prune(e).slots[i].items == []
  {
    ContainNothing(e);
    ProjectDefaults(e);
  }

  lemma PatientText()
    ensures Print(JObject([Member(ResourceTypeKey, JString("Patient"))])) == "{\"resourceType\":\"Patient\"}"
  {
    assert Plain("Patient");
    TypeOnlyText("Patient");
    assert "{\"resourceType\":\"" + "Patient" + "\"}" == "{\"resourceType\":\"Patient\"}";
  }

  /** A Patient whose only field prunes to nothing is written as
      `{"resourceType":"Patient"}`. */
  lemma PatientPrunedAway(i: nat, items: seq<Element>)
    requires i < |Fields(Patient)| && forall x | x in items :: NoLinks(x)
    requires PruneItems(false, items) == []
    ensures Encode(PatientWith(i, items), Defaults) == Ok("{\"resourceType\":\"Patient\"}")
  {
    var e := PatientWith(i, items);
    assert NoLinks(e) by {
      assert forall j | 0 <= j < |e.slots| :: SlotNoLinks(e.slots[j]);
    }
    assert forall j | 0 <= j < |e.slots| :: PruneItems(InTag(Patient, j), e.slots[j].items) == [];
    EmptyAfterPruning(e);
    PatientText();
  }

  // ---------------------------------------------------------------------
  // Extensions without a value

  /** The three extensions without a value: no value at all, a string
      value that is not set, and the empty string. */
  predicate NoValue(value: seq<Element>) {
    value == [] || value == [Prim(String, None, [], None)] || value == [StringPrim(String, "")]
  }

  lemma NoValuePrunes(value: seq<Element>)
    requires NoValue(value)
    ensures PruneItems(false, value) == [] && forall x | x in value :: NoLinks(x)
  {
    if value != [] {
      assert Prune(value[0]) == Prim(String, None, [], None);
      assert value[1..] == [];
    }
  }

  /** An extension with a url but no value says nothing and is dropped. */
  lemma NullExtensionDropped(url: string, value: seq<Element>)
    requires NoValue(value)
    ensures PruneItems(false, [ExtensionOf(url, value)]) == []
    ensures NoLinks(ExtensionOf(url, value))
  {
    NoValuePrunes(value);
    var x := ExtensionOf(url, value);
    var p := Prune(x);
    assert p.slots[ExtensionValue].items == [] && p.slots[ExtensionChildren].items == [];
    assert Blank(false, p);
    assert NoLinks(x) by {
      assert forall j | 0 <= j < |x.slots| :: SlotNoLinks(x.slots[j]);
    }
  }

  /** A Patient whose only extension has a url but no value is written as
      `{"resourceType":"Patient"}`. */
  lemma NullExtensionText(url: string, value: seq<Element>)
    requires NoValue(value)
    ensures Encode(PatientWith(4, [ExtensionOf(url, value)]), Defaults) == Ok("{\"resourceType\":\"Patient\"}")
  {
    NullExtensionDropped(url, value);
    PatientPrunedAway(4, [ExtensionOf(url, value)]);
  }

  // ---------------------------------------------------------------------
  // Tags without a system and a code

  lemma CodingPrunes(system: Option<string>, code: Option<string>, display: Option<string>)
    requires system != Some("") && code != Some("") && display != Some("")
    ensures Prune(CodingOf(system, code, display)) == CodingOf(system, code, display)
  {
    var c := CodingOf(system, code, display);
    var p := Prune(c);
    forall i | 0 <= i < |c.slots| ensures p.slots[i] == c.slots[i] {
      if |c.slots[i].items| == 1 {
        var x := c.slots[i].items[0];
        assert x.value.Some? && x.value.value != "";
        assert Prune(x) == x;
        assert c.slots[i].items[1..] == [];
      }
    }
  }

  /** An empty coding and a coding with only a display are both dropped
      from the tags. */
  lemma EmptyTagsDropped()
    ensures PruneItems(true, [CodingOf(None, None, None), CodingOf(None, None, Some("Label"))]) == []
  {
    CodingPrunes(None, None, None);
    CodingPrunes(None, None, Some("Label"));
    var tags := [CodingOf(None, None, None), CodingOf(None, None, Some("Label"))];
    assert tags[1..][1..] == [];
  }

  /** A tag with a system and a code stays; the display-only tag next to
      it is dropped. */
  lemma DisplayTagDropped()
    ensures PruneItems(true, [CodingOf(None, None, Some("Label"))]) == []
  {
    CodingPrunes(None, None, Some("Label"));
    assert [CodingOf(None, None, Some("Label"))][1..] == [];
  }

  lemma SchemeTagKept()
    ensures PruneItems(true, [CodingOf(Some("scheme"), Some("code"), None), CodingOf(None, None, Some("Label"))])
      == [CodingOf(Some("scheme"), Some("code"), None)]
  {
    var t := CodingOf(Some("scheme"), Some("code"), None);
    var tags := [t, CodingOf(None, None, Some("Label"))];
    CodingPrunes(Some("scheme"), Some("code"), None);
    assert !Blank(true, t);
    assert tags[1..] == [CodingOf(None, None, Some("Label"))];
    DisplayTagDropped();
    assert PruneItems(true, tags) == [t] + PruneItems(true, tags[1..]);
  }

  /** A meta whose tags are all dropped is dropped itself. */
  lemma EmptyTagMetaDropped()
    ensures PruneItems(false, [MetaWithTags([CodingOf(None, None, None), CodingOf(None, None, Some("Label"))])]) == []
  {
    var m := MetaWithTags([CodingOf(None, None, None), CodingOf(None, None, Some("Label"))]);
    EmptyTagsDropped();
    var p := Prune(m);
    assert forall i | 0 <= i < |p.slots| :: p.slots[i].items == [];
  }

  lemma CodingNoLinks(system: Option<string>, code: Option<string>, display: Option<string>)
    ensures NoLinks(CodingOf(system, code, display))
  {
    var c := CodingOf(system, code, display);
    assert forall j | 0 <= j < |c.slots| :: SlotNoLinks(c.slots[j]);
  }

  /** A Patient whose meta holds only an empty tag and a display-only tag
      is written as `{"resourceType":"Patient"}`: no `tag`, no `meta`. */
  lemma EmptyTagText()
    ensures Encode(PatientWith(ResourceMeta, [MetaWithTags([CodingOf(None, None, None), CodingOf(None, None, Some("Label"))])]), Defaults)
      == Ok("{\"resourceType\":\"Patient\"}")
  {
    var tags := [CodingOf(None, None, None), CodingOf(None, None, Some("Label"))];
    var m := MetaWithTags(tags);
    CodingNoLinks(None, None, None);
    CodingNoLinks(None, None, Some("Label"));
    assert NoLinks(m) by {
      assert forall j | 0 <= j < |m.slots| :: SlotNoLinks(m.slots[j]);
    }
    EmptyTagMetaDropped();
    PatientPrunedAway(ResourceMeta, [m]);
  }
}
