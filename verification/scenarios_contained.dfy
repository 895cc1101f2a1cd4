/** A concrete case of contained resources: a Patient with a birth date
    and one extension whose value links directly to a Condition that has
    no id. The Condition is contained under the local id `1`, and the link
    becomes the reference `#1`. */
module ContainedCases {
  import opened Results
  import opened Catalog
  import opened Elements
  import opened Containment
  import opened Scenarios
  import opened PruningCases

  // ---------------------------------------------------------------------
  // A tree with one occupied slot

  /** All slots of `x` but slot `k` are free of links. */
  predicate OthersNoLinks(x: Element, k: nat)
    requires x.Comp?
  {
    forall j | 0 <= j < |x.slots| && j != k :: SlotNoLinks(x.slots[j])
  }

  /** When every slot but slot `i` is free of links, the targets are those
      met in slot `i`. */
  lemma {:induction false} OneSlotCollect(slots: seq<Slot>, i: nat)
    requires i < |slots|
    requires forall j | 0 <= j < |slots| && j != i :: SlotNoLinks(slots[j])
    ensures CollectSlots(slots) == CollectItems(slots[i].items)
  {
    if i == 0 {
      forall j | 0 <= j < |slots[1..]| ensures SlotNoLinks(slots[1..][j]) {
        assert slots[1..][j] == slots[j + 1];
      }
      NoTargetsInSlots(slots[1..]);
      assert CollectItems(slots[0].items) + [] == CollectItems(slots[0].items);
    } else {
      assert SlotNoLinks(slots[0]);
      NoTargetsInItems(slots[0].items);
      forall j | 0 <= j < |slots[1..]| && j != i - 1 ensures SlotNoLinks(slots[1..][j]) {
        assert slots[1..][j] == slots[j + 1];
      }
      OneSlotCollect(slots[1..], i - 1);
    }
  }

  /** The targets of a tree whose only link-bearing slot holds one
      element are the targets of that element. */
  lemma SingleItemCollect(x: Element, k: nat, y: Element)
    requires x.Comp? && k < |x.slots| && x.slots[k].items == [y] && OthersNoLinks(x, k)
    ensures Collect(x) == Collect(y)
  {
    OneSlotCollect(x.slots, k);
    assert [y][1..] == [];
    assert Collect(y) + [] == Collect(y);
  }

  /** A direct link to a resource without id or links has that resource
      as its only target. */
  lemma LinkCollect(c: Element)
    requires NoLinks(c) && IdOf(c).None?
    ensures Collect(Linked(c)) == [c]
  {
    NoLinksNoTargets(c);
    assert [c] + [] == [c];
  }

  /** Resolving a tree whose only link-bearing slot holds one element
      resolves that element and keeps the rest. */
  lemma SingleItemResolve(x: Element, k: nat, y: Element, tab: Table)
    requires TableOk(tab)
    requires x.Comp? && k < |x.slots| && x.slots[k].items == [y] && OthersNoLinks(x, k)
    ensures Resolve(x, tab) == WithSlot(x, k, Slot([Resolve(y, tab)]))
  {
    var r := Resolve(x, tab);
    var w := WithSlot(x, k, Slot([Resolve(y, tab)]));
    forall j | 0 <= j < |x.slots| ensures r.slots[j] == w.slots[j] {
      if j == k {
        assert r.slots[k].items[0] == Resolve(y, tab);
      } else {
        assert SlotNoLinks(x.slots[j]);
        forall m | 0 <= m < |x.slots[j].items| ensures r.slots[j].items[m] == x.slots[j].items[m] {
          ResolveNothing(x.slots[j].items[m], tab);
        }
      }
    }
  }

  // ---------------------------------------------------------------------
  // A resource with one target

  lemma SingleTable(e: Element, c: Element)
    requires HasContained(e) && Collect(e) == [c]
    ensures TableOf(e).targets == [c]
  {
    assert Dedupe([c][..0]) == [];
  }

  /** A resource that contains nothing yet and whose only target is `c`
      contains `c` with the id `1` after this stage, and a link to `c` is
      written as `#1`. */
  lemma SingleTarget(e: Element, c: Element)
    requires HasContained(e) && e.slots[ContainedField].items == [] && Collect(e) == [c]
    requires NoLinks(c) && c.Comp? && |c.slots| > ResourceId
    ensures RefFor(c, TableOf(e)) == Some("#1")
    ensures Contain(e).slots[ContainedField].items == [WithId(c, "1")]
  {
    assert UsedIds(e) == {};
    FirstLinkIsOne(e);
    var tab := TableOf(e);
    SingleTable(e, c);
    ResolveNothing(c, tab);
    var items := Contain(e).slots[ContainedField].items;
    var resolved := Resolve(e, tab);
    assert resolved.slots[ContainedField].items == [];
    assert |NewContained(tab)| == 1;
    assert |items| == 1;
  }

  // ---------------------------------------------------------------------
  // The Patient, its extension and the Condition

  /** The Condition the extension links to. */
  function Target(): (c: Element)
    ensures IsResource(c) && c.typeName == Condition
  {
    EmptyOf(Condition)
  }

  /** The extension `test` whose value is the link. */
  function LinkExtension(): Element {
    ExtensionOf("test", [Linked(Target())])
  }

  const BirthDate: Element := StringPrim(Date, "2016-04-05")

  /** A Patient with a birth date and the linking extension. */
  function LinkingPatient(): (e: Element)
    ensures e.Comp? && e.typeName == Patient && |e.slots| == 13
  {
    Comp(Patient, EmptySlots(13)[9 := Slot([BirthDate])][4 := Slot([LinkExtension()])])
  }

  lemma TargetFacts()
    ensures NoLinks(Target()) && IdOf(Target()).None? && |Target().slots| > ResourceId
  {
    EmptyNoLinks(Target());
  }

  lemma ExtensionTargets()
    ensures OthersNoLinks(LinkExtension(), ExtensionValue)
    ensures Collect(LinkExtension()) == [Target()]
  {
    var x := LinkExtension();
    assert NoLinks(StringPrim(Uri, "test"));
    assert OthersNoLinks(x, ExtensionValue);
    SingleItemCollect(x, ExtensionValue, Linked(Target()));
    TargetFacts();
    LinkCollect(Target());
  }

  lemma PatientShape()
    ensures HasContained(LinkingPatient())
    ensures LinkingPatient().slots[ContainedField].items == []
    ensures LinkingPatient().slots[4].items == [LinkExtension()]
    ensures OthersNoLinks(LinkingPatient(), 4)
  {
    PatientFlags();
    assert NoLinks(BirthDate);
  }

  /** The Patient's only target is the Condition. */
  lemma PatientTargets()
    ensures Collect(LinkingPatient()) == [Target()]
  {
    PatientShape();
    SingleItemCollect(LinkingPatient(), 4, LinkExtension());
    ExtensionTargets();
  }

  /** The Condition is the only resource contained, with the id `1`, and
      a link to it is written as `#1`. */
  lemma ConditionContained()
    ensures RefFor(Target(), TableOf(LinkingPatient())) == Some("#1")
    ensures Contain(LinkingPatient()).slots[ContainedField].items == [WithId(Target(), "1")]
  {
    PatientShape();
    PatientTargets();
    TargetFacts();
    SingleTarget(LinkingPatient(), Target());
  }

  lemma ExtensionResolved(tab: Table)
    requires TableOk(tab) && RefFor(Target(), tab) == Some("#1")
    ensures Resolve(LinkExtension(), tab) == ExtensionOf("test", [ReferenceTo("#1")])
  {
    ExtensionTargets();
    SingleItemResolve(LinkExtension(), ExtensionValue, Linked(Target()), tab);
    assert Resolve(Linked(Target()), tab) == ReferenceTo("#1");
    var w := WithSlot(LinkExtension(), ExtensionValue, Slot([ReferenceTo("#1")]));
    assert w.slots == ExtensionOf("test", [ReferenceTo("#1")]).slots;
  }

  /** The extension keeps its url and its value becomes a Reference to
      `#1`; the birth date is kept as it is. */
  lemma LinkReplaced()
    ensures Contain(LinkingPatient()).slots[4].items == [ExtensionOf("test", [ReferenceTo("#1")])]
    ensures Contain(LinkingPatient()).slots[9] == LinkingPatient().slots[9]
  {
    var e := LinkingPatient();
    PatientShape();
    ConditionContained();
    var tab := TableOf(e);
    SingleItemResolve(e, 4, LinkExtension(), tab);
    ExtensionResolved(tab);
  }
}
