/** The encoder options that choose which parts of a resource are
    written.

    Summary mode writes only the fields flagged as summary elements, so
    the narrative `text`, `contained`, the extension lists and fields such
    as `Patient.maritalStatus` are left out. Narrative suppression leaves
    out the `text` of the resource and of every contained resource and
    nothing else. Omitting the resource id leaves out the id of the
    resource itself; a contained resource keeps its id. The deny-list and
    allow-list are applied as described in `PathFilter`.

    When the output is a subset of the resource (summary mode, narrative
    suppression or an allow-list) and `meta` is not denied, the resource's
    meta gets the tag with system `http://hl7.org/fhir/v3/ObservationValue`
    and code `SUBSETTED` after any tags it already has, unless such a tag
    is already there. */
module Projection {
  import opened Results
  import opened Catalog
  import opened Elements
  import opened PathFilter

  datatype Options = Options(
    summaryMode: bool,
    suppressNarratives: bool,
    omitResourceId: bool,
    deny: seq<string>,
    allow: seq<string>)

  const Defaults: Options := Options(false, false, false, [], [])

  const SubsettedSystem: string := "http://hl7.org/fhir/v3/ObservationValue"
  const SubsettedCode: string := "SUBSETTED"

  /** Every resource starts with its id and its meta, both summary
      elements. */
  lemma ResourceHeads(t: TypeName)
    requires IsResourceType(t)
    ensures |Fields(t)| > ResourceMeta
    ensures Fields(t)[ResourceId] == FieldDef("id", Of(Id), false, true)
    ensures Fields(t)[ResourceMeta] == FieldDef("meta", Of(Meta), false, true)
  {
  }

  lemma MetaAndCodingPositions()
    ensures |Fields(Meta)| == 7 && Fields(Meta)[MetaTag] == FieldDef("tag", Of(Coding), true, true)
    ensures |Fields(Coding)| == 6
    ensures Fields(Coding)[CodingSystem] == FieldDef("system", Of(Uri), false, true)
    ensures Fields(Coding)[CodingCode] == FieldDef("code", Of(Code), false, true)
  {
  }

  /** Field `i` of `t` is a narrative `text`. */
  predicate IsNarrative(t: TypeName, i: nat) {
    i < |FieldsOf(t)| && FieldsOf(t)[i].name == "text" && FieldsOf(t)[i].ftype == Of(Narrative)
  }

  predicate IsSummary(t: TypeName, i: nat) {
    i < |FieldsOf(t)| ==> FieldsOf(t)[i].summary
  }

  predicate IsContained(t: TypeName, i: nat) {
    i < |FieldsOf(t)| && FieldsOf(t)[i].ftype == AnyResource
  }

  /** The output is a subset of the resource. */
  predicate Subsets(opts: Options) {
    opts.summaryMode || opts.suppressNarratives || |opts.allow| > 0
  }

  // ---------------------------------------------------------------------
  // Leaving out fields

  /** A resource without its narrative. */
  function WithoutNarrative(x: Element): (r: Element)
    ensures TypeOf(r) == TypeOf(x) && r.Comp? == x.Comp? && r.Prim? == x.Prim? && r.Linked? == x.Linked?
    ensures r.Comp? ==> |r.slots| == |x.slots| && forall i | 0 <= i < |x.slots| ::
      r.slots[i] == (if IsNarrative(x.typeName, i) then Slot([]) else x.slots[i])
  {
    match x
    case Comp(t, slots) => Comp(t, seq(|slots|, i requires 0 <= i < |slots| => if IsNarrative(t, i) then Slot([]) else slots[i]))
    case _ => x
  }

  /** What becomes of slot `i` of the resource under the options. */
  function TrimSlot(t: TypeName, i: nat, s: Slot, opts: Options): Slot {
    if opts.summaryMode && !IsSummary(t, i) then Slot([])
    else if (opts.summaryMode || opts.suppressNarratives) && IsNarrative(t, i) then Slot([])
    else if opts.omitResourceId && i == ResourceId then Slot([])
    else if opts.suppressNarratives && IsContained(t, i) then
      Slot(seq(|s.items|, j requires 0 <= j < |s.items| => WithoutNarrative(s.items[j])))
    else s
  }

  function Trim(e: Element, opts: Options): (r: Element)
    requires e.Comp?
    ensures r.Comp? && r.typeName == e.typeName && |r.slots| == |e.slots|
    ensures forall i | 0 <= i < |e.slots| :: r.slots[i] == TrimSlot(e.typeName, i, e.slots[i], opts)
  {
    Comp(e.typeName, seq(|e.slots|, i requires 0 <= i < |e.slots| => TrimSlot(e.typeName, i, e.slots[i], opts)))
  }

  // ---------------------------------------------------------------------
  // The subsetted tag

  function SubsettedTag(): Element {
    Comp(Coding, EmptySlots(6)
      [CodingSystem := Slot([StringPrim(Uri, SubsettedSystem)])]
      [CodingCode := Slot([StringPrim(Code, SubsettedCode)])])
  }

  /** A tag with the subsetted system and code, whatever else it holds. */
  predicate IsSubsetted(x: Element) {
    x.Comp? && x.typeName == Coding
    && SingleValue(x, CodingSystem) == Some(SubsettedSystem)
    && SingleValue(x, CodingCode) == Some(SubsettedCode)
  }

  /** A meta holding the subsetted tag. */
  predicate MetaSubsetted(m: Element) {
    m.Comp? && |m.slots| > MetaTag && exists x | x in m.slots[MetaTag].items :: IsSubsetted(x)
  }

  /** The resource's meta holds the subsetted tag. */
  predicate HasSubsetted(e: Element)
    requires e.Comp?
  {
    |e.slots| > ResourceMeta && |e.slots[ResourceMeta].items| > 0 && MetaSubsetted(e.slots[ResourceMeta].items[0])
  }

  /** A meta with the subsetted tag appended, unless it holds one. */
  function TagMeta(m: Element): (r: Element)
    ensures TypeOf(r) == TypeOf(m) && r.Comp? == m.Comp?
    ensures m.Comp? && |m.slots| > MetaTag ==> MetaSubsetted(r)
    ensures MetaSubsetted(m) ==> r == m
  {
    if !m.Comp? || |m.slots| <= MetaTag || MetaSubsetted(m) then m
    else
      var tags := m.slots[MetaTag].items;
      assert SubsettedTag() in tags + [SubsettedTag()];
      WithSlot(m, MetaTag, Slot(tags + [SubsettedTag()]))
  }

  function NewMeta(): Element {
    Comp(Meta, EmptySlots(7)[MetaTag := Slot([SubsettedTag()])])
  }

  /** The resource with the subsetted tag in its meta. */
  function AddSubsetted(e: Element): (r: Element)
    requires e.Comp?
    ensures r.Comp? && r.typeName == e.typeName && |r.slots| == |e.slots|
    ensures forall i | 0 <= i < |e.slots| && i != ResourceMeta :: r.slots[i] == e.slots[i]
  {
    if |e.slots| <= ResourceMeta then e
    else
      var metas := e.slots[ResourceMeta].items;
      if |metas| == 0 then WithSlot(e, ResourceMeta, Slot([NewMeta()]))
      else WithSlot(e, ResourceMeta, Slot([TagMeta(metas[0])] + metas[1..]))
  }

  // ---------------------------------------------------------------------
  // The whole stage

  function Project(e: Element, opts: Options): (r: Element)
    requires e.Comp?
    ensures r.Comp? && r.typeName == e.typeName && |r.slots| == |e.slots|
  {
    var deny := Patterns(opts.deny);
    var filtered := FilterResource(Trim(e, opts), deny, Patterns(opts.allow));
    if Subsets(opts) && !Denied(deny, [Name(e.typeName), "meta"]) then AddSubsetted(filtered)
    else filtered
  }

  // ---------------------------------------------------------------------
  // What the options guarantee

  /** With the default options the resource is written as it is. */
  lemma ProjectDefaults(e: Element)
    requires e.Comp?
    ensures Project(e, Defaults) == e
  {
    var t := Trim(e, Defaults);
    assert t.slots == e.slots;
    assert Patterns([]) == [];
    FilterNothing(e, [Name(e.typeName)]);
  }

  /** A field that the options empty at the resource level stays empty,
      unless it is the meta, which may receive the subsetted tag. */
  lemma ProjectEmpties(e: Element, opts: Options, i: nat)
    requires e.Comp? && i < |e.slots| && i != ResourceMeta
    requires |TrimSlot(e.typeName, i, e.slots[i], opts).items| == 0
    ensures |Project(e, opts).slots[i].items| == 0
  {
    var trimmed := Trim(e, opts);
    FilterSlotAt(trimmed, [Name(e.typeName)], Patterns(opts.deny), Patterns(opts.allow), i);
  }

  /** In summary mode no field that is not a summary element is
      written. */
  lemma SummaryOnly(e: Element, opts: Options, i: nat)
    requires e.Comp? && IsResourceType(e.typeName) && i < |e.slots|
    requires opts.summaryMode && !IsSummary(e.typeName, i)
    ensures |Project(e, opts).slots[i].items| == 0
  {
    ResourceHeads(e.typeName);
    ProjectEmpties(e, opts, i);
  }

  /** In summary mode or with narratives suppressed, the narrative is not
      written. */
  lemma NoNarrative(e: Element, opts: Options, i: nat)
    requires e.Comp? && IsResourceType(e.typeName) && i < |e.slots|
    requires (opts.summaryMode || opts.suppressNarratives) && IsNarrative(e.typeName, i)
    ensures |Project(e, opts).slots[i].items| == 0
  {
    ResourceHeads(e.typeName);
    ProjectEmpties(e, opts, i);
  }

  /** Omitting the resource id leaves out the id. */
  lemma NoResourceId(e: Element, opts: Options)
    requires e.Comp? && |e.slots| > ResourceId && opts.omitResourceId
    ensures |Project(e, opts).slots[ResourceId].items| == 0
  {
    ProjectEmpties(e, opts, ResourceId);
  }

  /** Without path patterns, the options leave out nothing else: a
      field that is a summary element (or any field outside summary
      mode), that is not a narrative being left out, not the contained
      resources losing their narratives, and not the id being omitted, is
      written as it is. */
  lemma KeepsRest(e: Element, opts: Options, i: nat)
    requires e.Comp? && IsResourceType(e.typeName) && i < |e.slots| && i != ResourceMeta
    requires opts.deny == [] && opts.allow == []
    requires !opts.summaryMode || IsSummary(e.typeName, i)
    requires !IsNarrative(e.typeName, i) || (!opts.summaryMode && !opts.suppressNarratives)
    requires !IsContained(e.typeName, i) || !opts.suppressNarratives
    requires !opts.omitResourceId || i != ResourceId
    ensures Project(e, opts).slots[i] == e.slots[i]
  {
    var trimmed := Trim(e, opts);
    assert Patterns([]) == [];
    FilterNothing(trimmed, [Name(e.typeName)]);
    assert trimmed.slots[i] == e.slots[i];
  }

  /** A field of the resource that a deny pattern covers is not written;
      a denied meta does not receive the subsetted tag either. */
  lemma DeniedFieldEmpty(e: Element, opts: Options, i: nat)
    requires e.Comp? && IsResourceType(e.typeName) && i < |e.slots|
    requires Denied(Patterns(opts.deny), [Name(e.typeName), FieldName(e.typeName, i)])
    ensures |Project(e, opts).slots[i].items| == 0
  {
    var trimmed := Trim(e, opts);
    ResourceHeads(e.typeName);
    FilterSlotAt(trimmed, [Name(e.typeName)], Patterns(opts.deny), Patterns(opts.allow), i);
    assert [Name(e.typeName)] + [FieldName(e.typeName, i)] == [Name(e.typeName), FieldName(e.typeName, i)];
  }

  /** With an allow-list, a field of the resource that no allow pattern
      reaches is not written, except the id and meta. */
  lemma NotAllowedFieldEmpty(e: Element, opts: Options, i: nat)
    requires e.Comp? && IsResourceType(e.typeName) && i < |e.slots|
    requires !Exempt([Name(e.typeName), FieldName(e.typeName, i)])
    requires !Allowed(Patterns(opts.allow), [Name(e.typeName), FieldName(e.typeName, i)])
    ensures |Project(e, opts).slots[i].items| == 0
  {
    var trimmed := Trim(e, opts);
    ResourceHeads(e.typeName);
    FilterSlotAt(trimmed, [Name(e.typeName)], Patterns(opts.deny), Patterns(opts.allow), i);
    assert [Name(e.typeName)] + [FieldName(e.typeName, i)] == [Name(e.typeName), FieldName(e.typeName, i)];
  }

  /** The resource id is written whatever the allow-list says, unless it
      is omitted or denied. */
  lemma IdKept(e: Element, opts: Options)
    requires IsResource(e) && WellTyped(e)
    requires !opts.omitResourceId && !Denied(Patterns(opts.deny), [Name(e.typeName), "id"])
    ensures Project(e, opts).slots[ResourceId] == e.slots[ResourceId]
  {
    var trimmed := Trim(e, opts);
    var deny, allow := Patterns(opts.deny), Patterns(opts.allow);
    ResourceHeads(e.typeName);
    assert SlotTyped(Fields(e.typeName)[ResourceId], e.slots[ResourceId]);
    assert trimmed.slots[ResourceId] == e.slots[ResourceId];
    FilterSlotAt(trimmed, [Name(e.typeName)], deny, allow, ResourceId);
    var path := [Name(e.typeName)] + [FieldName(e.typeName, ResourceId)];
    assert path == [Name(e.typeName), "id"] && Exempt(path);
    var items := e.slots[ResourceId].items;
    assert FilterItems(path, items, deny, []) == items by {
      forall j | 0 <= j < |items| ensures !Descends(items[j]) {
        assert items[j] in items;
      }
    }
  }

  /** The subsetted tag is added when the output is a subset and meta is
      written. */
  lemma SubsettedAdded(e: Element, opts: Options)
    requires IsResource(e) && WellTyped(e)
    requires Subsets(opts) && !Denied(Patterns(opts.deny), [Name(e.typeName), "meta"])
    ensures HasSubsetted(Project(e, opts))
  {
    var deny, allow := Patterns(opts.deny), Patterns(opts.allow);
    var trimmed := Trim(e, opts);
    var filtered := FilterResource(trimmed, deny, allow);
    ResourceHeads(e.typeName);
    FilterSlotAt(trimmed, [Name(e.typeName)], deny, allow, ResourceMeta);
    MetaKeepsShape(e, opts, filtered);
    AddSubsettedHas(filtered);
  }

  lemma MetaKeepsShape(e: Element, opts: Options, filtered: Element)
    requires IsResource(e) && WellTyped(e)
    requires filtered == FilterResource(Trim(e, opts), Patterns(opts.deny), Patterns(opts.allow))
    ensures |filtered.slots| > ResourceMeta
    ensures forall x | x in filtered.slots[ResourceMeta].items :: x.Comp? && |x.slots| == 7
  {
    var deny, allow := Patterns(opts.deny), Patterns(opts.allow);
    var trimmed := Trim(e, opts);
    ResourceHeads(e.typeName);
    MetaAndCodingPositions();
    var meta := e.slots[ResourceMeta];
    assert SlotTyped(Fields(e.typeName)[ResourceMeta], meta);
    assert trimmed.slots[ResourceMeta] == meta;
    var path := [Name(e.typeName), "meta"];
    assert FieldName(e.typeName, ResourceMeta) == "meta";
    FilterSlotAt(trimmed, [Name(e.typeName)], deny, allow, ResourceMeta);
    var kept := filtered.slots[ResourceMeta].items;
    forall x | x in kept ensures x.Comp? && |x.slots| == 7 {
      var j :| 0 <= j < |kept| && kept[j] == x;
      assert meta.items[j] in meta.items;
      assert meta.items[j].Comp? && |meta.items[j].slots| == 7;
    }
  }

  lemma AddSubsettedHas(e: Element)
    requires e.Comp? && |e.slots| > ResourceMeta
    requires forall x | x in e.slots[ResourceMeta].items :: x.Comp? && |x.slots| == 7
    ensures HasSubsetted(AddSubsetted(e))
  {
    var metas := e.slots[ResourceMeta].items;
    if |metas| == 0 {
      NewMetaSubsetted();
    } else {
      assert metas[0] in metas;
    }
  }

  lemma NewMetaSubsetted()
    ensures MetaSubsetted(NewMeta())
  {
    var m := NewMeta();
    assert m.slots[MetaTag].items == [SubsettedTag()];
    assert IsSubsetted(SubsettedTag());
  }

  /** The tag is added once: a resource that has it is left as it is. */
  lemma AddSubsettedOnce(e: Element)
    requires e.Comp? && HasSubsetted(e)
    ensures AddSubsetted(e) == e
  {
    var metas := e.slots[ResourceMeta].items;
    assert [metas[0]] + metas[1..] == metas;
  }

  /** The tag goes after the tags the meta already holds. */
  lemma SubsettedLast(e: Element)
    requires e.Comp? && |e.slots| > ResourceMeta && |e.slots[ResourceMeta].items| > 0
    requires var m := e.slots[ResourceMeta].items[0]; m.Comp? && |m.slots| > MetaTag && !MetaSubsetted(m)
    ensures var m := e.slots[ResourceMeta].items[0];
      AddSubsetted(e).slots[ResourceMeta].items[0].slots[MetaTag].items == m.slots[MetaTag].items + [SubsettedTag()]
  {
  }

  // ---------------------------------------------------------------------
  // The options keep the fit with the catalog

  lemma WithoutNarrativeTyped(x: Element)
    requires WellTyped(x)
    ensures WellTyped(WithoutNarrative(x))
  {
    if x.Comp? {
      var r := WithoutNarrative(x);
      forall i | 0 <= i < |x.slots| ensures SlotTyped(Lookup(x.typeName).fields[i], r.slots[i]) {
        assert SlotTyped(Lookup(x.typeName).fields[i], x.slots[i]);
      }
    }
  }

  lemma TrimSlotTyped(t: TypeName, i: nat, f: FieldDef, s: Slot, opts: Options)
    requires SlotTyped(f, s)
    ensures SlotTyped(f, TrimSlot(t, i, s, opts))
  {
    var r := TrimSlot(t, i, s, opts);
    if !(opts.summaryMode && !IsSummary(t, i)) && !((opts.summaryMode || opts.suppressNarratives) && IsNarrative(t, i))
      && !(opts.omitResourceId && i == ResourceId) && opts.suppressNarratives && IsContained(t, i) {
      forall j | 0 <= j < |s.items| ensures ItemFits(f.ftype, r.items[j]) && WellTyped(r.items[j]) {
        assert s.items[j] in s.items;
        WithoutNarrativeTyped(s.items[j]);
      }
    }
  }

  lemma TrimTyped(e: Element, opts: Options)
    requires e.Comp? && WellTyped(e)
    ensures WellTyped(Trim(e, opts))
  {
    var r := Trim(e, opts);
    var fields := Lookup(e.typeName).fields;
    forall i | 0 <= i < |e.slots| ensures SlotTyped(fields[i], r.slots[i]) {
      TrimSlotTyped(e.typeName, i, fields[i], e.slots[i], opts);
    }
  }

  lemma SubsettedTagTyped()
    ensures WellTyped(SubsettedTag())
  {
    var c := SubsettedTag();
    MetaAndCodingPositions();
    forall i | 0 <= i < 6 ensures SlotTyped(Lookup(Coding).fields[i], c.slots[i]) {
      if i == CodingSystem || i == CodingCode {
        assert c.slots[i].items[0].Prim?;
      }
    }
  }

  lemma NewMetaTyped()
    ensures WellTyped(NewMeta())
  {
    var m := NewMeta();
    MetaAndCodingPositions();
    SubsettedTagTyped();
    forall i | 0 <= i < 7 ensures SlotTyped(Lookup(Meta).fields[i], m.slots[i]) {
      if i == MetaTag {
        assert m.slots[i].items == [SubsettedTag()];
      }
    }
  }

  lemma TagMetaTyped(m: Element)
    requires WellTyped(m) && m.Comp? && m.typeName == Meta
    ensures WellTyped(TagMeta(m))
  {
    var r := TagMeta(m);
    MetaAndCodingPositions();
    SubsettedTagTyped();
    if r != m {
      var tags := m.slots[MetaTag].items;
      assert SlotTyped(Fields(Meta)[MetaTag], m.slots[MetaTag]);
      assert r.slots[MetaTag].items == tags + [SubsettedTag()];
      forall i | 0 <= i < 7 ensures SlotTyped(Lookup(Meta).fields[i], r.slots[i]) {
        if i != MetaTag {
          assert SlotTyped(Lookup(Meta).fields[i], m.slots[i]);
        }
      }
    }
  }

  lemma AddSubsettedTyped(e: Element)
    requires IsResource(e) && WellTyped(e)
    ensures WellTyped(AddSubsetted(e))
  {
    var r := AddSubsetted(e);
    var fields := Lookup(e.typeName).fields;
    ResourceHeads(e.typeName);
    MetaSlotTyped(e.slots[ResourceMeta], r.slots[ResourceMeta]);
    forall i | 0 <= i < |e.slots| ensures SlotTyped(fields[i], r.slots[i]) {
      if i != ResourceMeta {
        assert SlotTyped(fields[i], e.slots[i]);
      }
    }
  }

  /** The meta slot of a resource, with the tag added, still holds at
      most one fitting `Meta`. */
  lemma MetaSlotTyped(s: Slot, r: Slot)
    requires SlotTyped(FieldDef("meta", Of(Meta), false, true), s)
    requires |s.items| == 0 ==> r == Slot([NewMeta()])
    requires |s.items| > 0 ==> r == Slot([TagMeta(s.items[0])] + s.items[1..])
    ensures SlotTyped(FieldDef("meta", Of(Meta), false, true), r)
  {
    if |s.items| == 0 {
      NewMetaTyped();
    } else {
      assert s.items[0] in s.items;
      TagMetaTyped(s.items[0]);
      assert r.items == [TagMeta(s.items[0])];
    }
  }

  /** Whatever the options, a resource that fits the catalog still fits
      it after this stage. */
  lemma ProjectTyped(e: Element, opts: Options)
    requires IsResource(e) && WellTyped(e)
    ensures IsResource(Project(e, opts)) && WellTyped(Project(e, opts))
  {
    var deny, allow := Patterns(opts.deny), Patterns(opts.allow);
    TrimTyped(e, opts);
    var filtered := FilterResource(Trim(e, opts), deny, allow);
    FilterWellTyped(Trim(e, opts), [Name(e.typeName)], deny, allow);
    AddSubsettedTyped(filtered);
  }
}
