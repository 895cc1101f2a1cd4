/** Concrete cases of the deny-list and the allow-list on a Patient:
    `*.meta` and `*.id`, `Patient.meta` and `Patient.id`,
    `Patient.name.family`, and the allow-list `Patient.name` together
    with the deny-list `Patient.meta`. */
module PathCases {
  import opened Catalog
  import opened Elements
  import opened PathFilter
  import opened Projection
  import opened Scenarios

  // ---------------------------------------------------------------------
  // Patterns that stay away from a path

  /** Pattern `p` differs from `base` in a segment both have, so it names
      nothing at or below `base`. */
  predicate Diverges(p: Path, base: Path) {
    exists i | 0 <= i < |p| && i < |base| :: !SegmentFits(p, base, i)
  }

  /** `path` is `base` or lies below it. */
  predicate Extends(path: Path, base: Path) {
    |base| <= |path| && path[..|base|] == base
  }

  lemma DivergesBelow(p: Path, base: Path, path: Path)
    requires Diverges(p, base) && Extends(path, base)
    ensures !Covers(p, path)
  {
    var i :| 0 <= i < |p| && i < |base| && !SegmentFits(p, base, i);
    assert path[i] == path[..|base|][i] == base[i];
    assert !SegmentFits(p, path, i);
  }

  lemma ExtendsOneMore(path: Path, base: Path, s: string)
    requires Extends(path, base)
    ensures Extends(path + [s], base)
  {
    assert (path + [s])[..|base|] == path[..|base|];
  }

  /** No deny pattern that diverges from `base` removes anything at or
      below it. */
  lemma {:induction false} DivergedNoneDenied(e: Element, path: Path, base: Path, deny: seq<Path>)
    requires Extends(path, base) && forall p | p in deny :: Diverges(p, base)
    ensures NoneDenied(e, path, deny)
    decreases e
  {
    if e.Comp? {
      forall i | 0 <= i < |e.slots| ensures SlotNoneDenied(path + [FieldName(e.typeName, i)], e.slots[i], deny) {
        var q := path + [FieldName(e.typeName, i)];
        ExtendsOneMore(path, base, FieldName(e.typeName, i));
        forall p | p in deny ensures !Covers(p, q) {
          DivergesBelow(p, base, q);
        }
        forall x | x in e.slots[i].items && Descends(x) ensures NoneDenied(x, q, deny) {
          DivergedNoneDenied(x, q, base, deny);
        }
      }
    }
  }

  lemma CoversOneMore(p: Path, path: Path, s: string)
    requires Covers(p, path)
    ensures Covers(p, path + [s])
  {
    forall i | 0 <= i < |p| ensures SegmentFits(p, path + [s], i) {
      assert SegmentFits(p, path, i);
    }
  }

  /** Everything at or below a path an allow pattern covers is allowed. */
  lemma {:induction false} CoveredAllAllowed(e: Element, path: Path, p: Path, allow: seq<Path>)
    requires p in allow && Covers(p, path)
    ensures AllAllowed(e, path, allow)
    decreases e
  {
    if e.Comp? {
      forall i | 0 <= i < |e.slots| ensures SlotAllAllowed(path + [FieldName(e.typeName, i)], e.slots[i], allow) {
        var q := path + [FieldName(e.typeName, i)];
        CoversOneMore(p, path, FieldName(e.typeName, i));
        forall x | x in e.slots[i].items && Descends(x) ensures AllAllowed(x, q, allow) {
          CoveredAllAllowed(x, q, p, allow);
        }
      }
    }
  }

  // ---------------------------------------------------------------------
  // One field of the resource

  /** The options switch off summary mode, narrative suppression and the
      omitted id, leaving only the patterns. */
  predicate OnlyPatterns(opts: Options) {
    !opts.summaryMode && !opts.suppressNarratives && !opts.omitResourceId
  }

  /** With only patterns, a field other than meta is the filtered field. */
  lemma PatternedSlot(e: Element, opts: Options, i: nat)
    requires e.Comp? && i < |e.slots| && i != ResourceMeta && OnlyPatterns(opts)
    ensures Project(e, opts).slots[i]
      == FilterSlot([Name(e.typeName), FieldName(e.typeName, i)], e.slots[i], Patterns(opts.deny), Patterns(opts.allow))
  {
    var trimmed := Trim(e, opts);
    assert trimmed.slots[i] == e.slots[i];
    FilterSlotAt(trimmed, [Name(e.typeName)], Patterns(opts.deny), Patterns(opts.allow), i);
    assert [Name(e.typeName)] + [FieldName(e.typeName, i)] == [Name(e.typeName), FieldName(e.typeName, i)];
  }

  /** A field that every deny pattern stays away from, and that the
      allow-list covers or there is none, is written as it is. */
  lemma UntouchedSlot(e: Element, opts: Options, i: nat)
    requires e.Comp? && i < |e.slots| && i != ResourceMeta && OnlyPatterns(opts)
    requires forall p | p in Patterns(opts.deny) :: Diverges(p, [Name(e.typeName), FieldName(e.typeName, i)])
    requires |opts.allow| == 0
      || exists a | a in Patterns(opts.allow) :: Covers(a, [Name(e.typeName), FieldName(e.typeName, i)])
    ensures Project(e, opts).slots[i] == e.slots[i]
  {
    var base := [Name(e.typeName), FieldName(e.typeName, i)];
    var deny, allow := Patterns(opts.deny), Patterns(opts.allow);
    var s := e.slots[i];
    PatternedSlot(e, opts, i);
    assert Extends(base, base);
    forall p | p in deny ensures !Covers(p, base) {
      DivergesBelow(p, base, base);
    }
    forall x | x in s.items && Descends(x) ensures NoneDenied(x, base, deny) && AllAllowed(x, base, allow) {
      DivergedNoneDenied(x, base, base, deny);
      if |opts.allow| == 0 {
        assert allow == [];
        NoPatternsNoChange(x, base);
      } else {
        var a :| a in allow && Covers(a, base);
        CoveredAllAllowed(x, base, a, allow);
      }
    }
    assert Allowed(allow, base);
    FilterSlotKeeps(base, s, deny, allow);
  }

  // ---------------------------------------------------------------------
  // The patterns as text

  lemma DotAssoc(a: string, b: string, c: string)
    ensures a + "." + (b + "." + c) == a + "." + b + "." + c
  {
  }

  lemma ThreeSegments(a: string, b: string, c: string)
    requires NoDot(a) && NoDot(b) && NoDot(c)
    ensures Split(a + "." + b + "." + c) == [a, b, c]
  {
    var segs := [a, b, c];
    assert forall k | 0 <= k < |segs| :: NoDot(segs[k]);
    SplitJoin(segs);
    assert segs[1..] == [b, c] && [b, c][1..] == [c];
    assert Join([c]) == c;
    assert Join([b, c]) == b + "." + c;
    assert Join(segs) == a + "." + (b + "." + c);
    DotAssoc(a, b, c);
  }

  lemma PatientNoDot()
    ensures NoDot("Patient")
  {
  }

  /** `Patient.` followed by a dot-free field name. */
  lemma PatientField(f: string)
    requires NoDot(f)
    ensures Split("Patient" + "." + f) == ["Patient", f]
  {
    PatientNoDot();
    TwoSegments("Patient", f);
  }

  /** The two-segment Patient patterns the cases use. */
  lemma PatientFieldSplits()
    ensures Split("Patient.meta") == ["Patient", "meta"]
    ensures Split("Patient.id") == ["Patient", "id"]
    ensures Split("Patient.name") == ["Patient", "name"]
  {
    PatientField("meta");
    assert "Patient" + "." + "meta" == "Patient.meta";
    PatientField("id");
    assert "Patient" + "." + "id" == "Patient.id";
    PatientField("name");
    assert "Patient" + "." + "name" == "Patient.name";
  }

  lemma FamilyPattern()
    ensures Patterns(["Patient.name.family"]) == [["Patient", "name", "family"]]
  {
    PatientNoDot();
    ThreeSegments("Patient", "name", "family");
    assert "Patient" + "." + "name" + "." + "family" == "Patient.name.family";
  }

  lemma HumanNameNames()
    ensures FieldName(HumanName, 4) == "family" && FieldName(HumanName, 5) == "given"
    ensures !IsResourceType(HumanName)
  {
  }

  // ---------------------------------------------------------------------
  // The Patient cases

  /** A Patient with its thirteen fields. */
  predicate IsPatient(e: Element) {
    e.Comp? && e.typeName == Patient && |e.slots| == 13
  }

  /** What `*.meta` and `*.id`, or `Patient.meta` and `Patient.id`,
      name in a Patient: its id and its meta, and nothing at or below its
      names or addresses. */
  lemma PatientIdMetaPatterns()
    ensures Patterns(["Patient.meta", "Patient.id"]) == [["Patient", "meta"], ["Patient", "id"]]
  {
    PatientFieldSplits();
  }

  lemma IdMetaPaths(h: string)
    requires h == "*" || h == "Patient"
    ensures var ps := [[h, "meta"], [h, "id"]];
      && Denied(ps, ["Patient", "id"]) && Denied(ps, ["Patient", "meta"])
      && forall p | p in ps :: Diverges(p, ["Patient", "name"]) && Diverges(p, ["Patient", "address"])
  {
    var ps := [[h, "meta"], [h, "id"]];
    assert Covers(ps[1], ["Patient", "id"]);
    assert Covers(ps[0], ["Patient", "meta"]);
    forall p | p in ps ensures Diverges(p, ["Patient", "name"]) && Diverges(p, ["Patient", "address"]) {
      assert !SegmentFits(p, ["Patient", "name"], 1);
      assert !SegmentFits(p, ["Patient", "address"], 1);
    }
  }

  lemma PatientFieldNames()
    ensures Name(Patient) == "Patient"
    ensures FieldName(Patient, ResourceId) == "id" && FieldName(Patient, ResourceMeta) == "meta"
    ensures FieldName(Patient, 7) == "name" && FieldName(Patient, 10) == "address"
  {
    PatientNames();
  }

  /** `*.meta` and `*.id`, or `Patient.meta` and `Patient.id`, leave out
      the id and the meta of a Patient and keep its names and addresses. */
  lemma IdMetaDenied(e: Element, opts: Options)
    requires IsPatient(e) && OnlyPatterns(opts) && opts.allow == []
    requires opts.deny == ["*.meta", "*.id"] || opts.deny == ["Patient.meta", "Patient.id"]
    ensures |Project(e, opts).slots[ResourceId].items| == 0
    ensures |Project(e, opts).slots[ResourceMeta].items| == 0
    ensures Project(e, opts).slots[7] == e.slots[7]
    ensures Project(e, opts).slots[10] == e.slots[10]
  {
    PatientFieldNames();
    if opts.deny == ["*.meta", "*.id"] {
      StarPatterns();
      IdMetaPaths("*");
    } else {
      PatientIdMetaPatterns();
      IdMetaPaths("Patient");
    }
    DeniedFieldEmpty(e, opts, ResourceId);
    DeniedFieldEmpty(e, opts, ResourceMeta);
    UntouchedSlot(e, opts, 7);
    UntouchedSlot(e, opts, 10);
  }

  /** Inside a name, `Patient.name.family` removes the family. */
  lemma FamilyRemoved(x: Element)
    requires x.Comp? && x.typeName == HumanName && |x.slots| == 6
    ensures FilterAt(x, ["Patient", "name"], [["Patient", "name", "family"]], []).slots[4].items == []
  {
    HumanNameNames();
    var deny: seq<Path> := [["Patient", "name", "family"]];
    var path := ["Patient", "name"];
    var n := FilterAt(x, path, deny, []);
    assert path + ["family"] == ["Patient", "name", "family"];
    assert n.slots[4] == FilterSlot(["Patient", "name", "family"], x.slots[4], deny, []);
    assert Covers(deny[0], ["Patient", "name", "family"]);
  }

  /** Inside a name, `Patient.name.family` keeps the given names. */
  lemma GivenKept(x: Element)
    requires x.Comp? && x.typeName == HumanName && |x.slots| == 6
    ensures FilterAt(x, ["Patient", "name"], [["Patient", "name", "family"]], []).slots[5] == x.slots[5]
  {
    HumanNameNames();
    var deny: seq<Path> := [["Patient", "name", "family"]];
    var allow: seq<Path> := [];
    var path := ["Patient", "name"];
    var n := FilterAt(x, path, deny, allow);
    var given := ["Patient", "name", "given"];
    assert path + ["given"] == given;
    assert n.slots[5] == FilterSlot(given, x.slots[5], deny, allow);
    assert Diverges(deny[0], given) by {
      assert !SegmentFits(deny[0], given, 2);
    }
    assert Extends(given, given);
    DivergesBelow(deny[0], given, given);
    forall y | y in x.slots[5].items && Descends(y) ensures NoneDenied(y, given, deny) && AllAllowed(y, given, allow) {
      DivergedNoneDenied(y, given, given, deny);
      NoPatternsNoChange(y, given);
    }
    FilterSlotKeeps(given, x.slots[5], deny, allow);
  }

  /** With `Patient.name.family` denied, each name is filtered inside. */
  lemma NamesFiltered(e: Element)
    requires IsPatient(e)
    ensures Project(e, Options(false, false, false, ["Patient.name.family"], [])).slots[7]
      == Slot(FilterItems(["Patient", "name"], e.slots[7].items, [["Patient", "name", "family"]], []))
  {
    var opts := Options(false, false, false, ["Patient.name.family"], []);
    PatientFieldNames();
    FamilyPattern();
    var deny: seq<Path> := [["Patient", "name", "family"]];
    assert Patterns([]) == [];
    PatternedSlot(e, opts, 7);
    assert !Denied(deny, ["Patient", "name"]);
    assert !Exempt(["Patient", "name"]);
  }

  /** `Patient.name.family` leaves out the family of every name and keeps
      its given names. */
  lemma FamilyDenied(e: Element, j: nat)
    requires IsPatient(e) && j < |e.slots[7].items|
    requires e.slots[7].items[j].Comp? && e.slots[7].items[j].typeName == HumanName
    requires |e.slots[7].items[j].slots| == 6
    ensures var names := Project(e, Options(false, false, false, ["Patient.name.family"], [])).slots[7].items;
      && j < |names| && names[j].Comp? && |names[j].slots| == 6
      && names[j].slots[4].items == [] && names[j].slots[5] == e.slots[7].items[j].slots[5]
  {
    NamesFiltered(e);
    HumanNameNames();
    FamilyRemoved(e.slots[7].items[j]);
    GivenKept(e.slots[7].items[j]);
  }

  /** What the allow-list `Patient.name` and the deny-list `Patient.meta`
      name in a Patient. */
  lemma NameMetaPatterns()
    ensures Patterns(["Patient.meta"]) == [["Patient", "meta"]]
    ensures Patterns(["Patient.name"]) == [["Patient", "name"]]
  {
    PatientFieldSplits();
  }

  lemma NameMetaPaths(deny: seq<Path>, allow: seq<Path>)
    requires deny == [["Patient", "meta"]] && allow == [["Patient", "name"]]
    ensures Denied(deny, ["Patient", "meta"]) && !Denied(deny, ["Patient", "id"])
    ensures forall p | p in deny :: Diverges(p, ["Patient", "name"])
    ensures exists a | a in allow :: Covers(a, ["Patient", "name"])
    ensures !Allowed(allow, ["Patient", "address"])
  {
    assert Covers(deny[0], ["Patient", "meta"]);
    assert !SegmentFits(deny[0], ["Patient", "id"], 1);
    assert !SegmentFits(deny[0], ["Patient", "name"], 1);
    assert Covers(allow[0], ["Patient", "name"]);
    assert !SegmentFits(allow[0], ["Patient", "address"], 1);
  }

  /** A deny-list naming only `Patient.meta` leaves out the meta and
      keeps the id. */
  lemma MetaOnlyDenied(e: Element, opts: Options)
    requires IsPatient(e) && WellTyped(e) && OnlyPatterns(opts)
    requires Patterns(opts.deny) == [["Patient", "meta"]] && Patterns(opts.allow) == [["Patient", "name"]]
    ensures |Project(e, opts).slots[ResourceMeta].items| == 0
    ensures Project(e, opts).slots[ResourceId] == e.slots[ResourceId]
  {
    PatientFieldNames();
    NameMetaPaths(Patterns(opts.deny), Patterns(opts.allow));
    DeniedFieldEmpty(e, opts, ResourceMeta);
    IdKept(e, opts);
  }

  /** An allow-list naming only `Patient.name` keeps the names and leaves
      out the addresses, when the deny-list names only `Patient.meta`. */
  lemma NameOnlyAllowed(e: Element, opts: Options)
    requires IsPatient(e) && OnlyPatterns(opts)
    requires Patterns(opts.deny) == [["Patient", "meta"]] && Patterns(opts.allow) == [["Patient", "name"]]
    ensures Project(e, opts).slots[7] == e.slots[7]
    ensures |Project(e, opts).slots[10].items| == 0
  {
    PatientFieldNames();
    NameMetaPaths(Patterns(opts.deny), Patterns(opts.allow));
    assert !Exempt(["Patient", "address"]);
    NotAllowedFieldEmpty(e, opts, 10);
    UntouchedSlot(e, opts, 7);
  }

  /** The allow-list `Patient.name` with the deny-list `Patient.meta`
      keeps the names and the id, and leaves out the addresses and the
      meta. */
  lemma NameAllowedMetaDenied(e: Element)
    requires IsPatient(e) && WellTyped(e)
    ensures var r := Project(e, Options(false, false, false, ["Patient.meta"], ["Patient.name"]));
      && r.slots[7] == e.slots[7]
      && r.slots[ResourceId] == e.slots[ResourceId]
      && |r.slots[10].items| == 0
      && |r.slots[ResourceMeta].items| == 0
  {
    NameMetaPatterns();
    MetaOnlyDenied(e, Options(false, false, false, ["Patient.meta"], ["Patient.name"]));
    NameOnlyAllowed(e, Options(false, false, false, ["Patient.meta"], ["Patient.name"]));
  }
}
