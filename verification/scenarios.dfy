/** Concrete cases of the parser's behaviour shared by the other case
    modules: the exact text of an empty resource, summary mode and
    narrative suppression on a Patient, and the text of two-segment path
    patterns. */
module Scenarios {
  import opened Results
  import opened Json
  import opened Catalog
  import opened Elements
  import opened Encoder
  import opened JsonText
  import opened Containment
  import opened Projection
  import opened Pruning
  import opened PathFilter
  import opened Codec

  // ---------------------------------------------------------------------
  // An empty resource is written as its resourceType alone

  /** Text without quotes, backslashes or control characters. */
  predicate Plain(s: string) {
    forall i | 0 <= i < |s| :: ' ' <= s[i] && s[i] != '"' && s[i] != '\\'
  }

  /** Plain text is written between the quotes as it is. */
  lemma {:induction false} EscapePlain(s: string)
    requires Plain(s)
    ensures Escape(s) == s
  {
    if |s| > 0 {
      EscapePlain(s[1..]);
      assert [s[0]] + s[1..] == s;
    }
  }

  /** Fields that are all empty contribute no members. */
  lemma {:induction false} EmptyFieldsJson(fields: seq<FieldDef>, slots: seq<Slot>)
    requires |fields| == |slots| && forall i | 0 <= i < |slots| :: slots[i].items == []
    ensures FieldsJson(fields, slots) == Ok([])
  {
    if |fields| > 0 {
      assert FieldJson(fields[0], slots[0]) == Ok([]);
      EmptyFieldsJson(fields[1..], slots[1..]);
      var none: seq<Member> := [];
      assert none + none == none;
    }
  }

  /** The document of a resource whose fields are all empty. */
  lemma EmptyResourceJson(e: Element)
    requires IsResource(e) && |e.slots| == |Fields(e.typeName)|
    requires forall i | 0 <= i < |e.slots| :: e.slots[i].items == []
    ensures EncodeResource(e) == Ok(JObject([Member(ResourceTypeKey, JString(Name(e.typeName)))]))
  {
    assert Lookup(e.typeName) == CompositeDef(true, Fields(e.typeName));
    EmptyFieldsJson(Fields(e.typeName), e.slots);
    assert [Member(ResourceTypeKey, JString(Name(e.typeName)))] + [] == [Member(ResourceTypeKey, JString(Name(e.typeName)))];
  }

  lemma QuotedPlain(s: string)
    requires Plain(s)
    ensures PrintString(s) == "\"" + s + "\""
  {
    EscapePlain(s);
  }

  lemma Regroup(k: string, v: string)
    ensures "{" + (("\"" + k + "\"") + ":" + ("\"" + v + "\"")) + "}" == "{\"" + k + "\":\"" + v + "\"}"
  {
  }

  /** An object with one string member, written compactly. */
  lemma OneMemberText(k: string, v: string)
    requires Plain(k)
    requires Plain(v)
    ensures Print(JObject([Member(k, JString(v))])) == "{\"" + k + "\":\"" + v + "\"}"
  {
    QuotedPlain(k);
    QuotedPlain(v);
    var m := Member(k, JString(v));
    assert Print(m.value) == PrintString(v);
    assert PrintMembers([m]) == PrintMember(m);
    assert Print(JObject([m])) == "{" + (PrintString(k) + ":" + PrintString(v)) + "}";
    Regroup(k, v);
  }

  function EmptyOf(t: TypeName): (e: Element)
    requires IsResourceType(t)
    ensures IsResource(e)
  {
    Comp(t, EmptySlots(|Fields(t)|))
  }

  lemma EmptyNoLinks(e: Element)
    requires e.Comp? && forall i | 0 <= i < |e.slots| :: e.slots[i].items == []
    ensures NoLinks(e) && IsPruned(e)
  {
  }

  /** With the default options a resource whose fields are all empty is
      written as it is. */
  lemma EmptyPrepared(e: Element)
    requires IsResource(e) && forall i | 0 <= i < |e.slots| :: e.slots[i].items == []
    ensures Prepared(e, Defaults) == e
  {
    EmptyNoLinks(e);
    ContainNothing(e);
    ProjectDefaults(e);
    PruneFixes(e);
  }

  /** A resource whose fields are all empty is written as an object
      holding only its `resourceType`. */
  lemma EmptyResourceText(e: Element)
    requires IsResource(e) && |e.slots| == |Fields(e.typeName)|
    requires forall i | 0 <= i < |e.slots| :: e.slots[i].items == []
    ensures Encode(e, Defaults) == Ok(Print(JObject([Member(ResourceTypeKey, JString(Name(e.typeName)))])))
  {
    EmptyPrepared(e);
    EmptyResourceJson(e);
  }

  /** The text of an object holding only a `resourceType` whose name is
      plain. */
  lemma TypeOnlyText(name: string)
    requires Plain(name)
    ensures Print(JObject([Member(ResourceTypeKey, JString(name))])) == "{\"resourceType\":\"" + name + "\"}"
  {
    assert Plain(ResourceTypeKey);
    OneMemberText(ResourceTypeKey, name);
  }

  lemma BinaryText()
    ensures Print(JObject([Member(ResourceTypeKey, JString("Binary"))])) == "{\"resourceType\":\"Binary\"}"
  {
    assert Plain("Binary");
    TypeOnlyText("Binary");
    assert "{\"resourceType\":\"" + "Binary" + "\"}" == "{\"resourceType\":\"Binary\"}";
  }

  /** An empty Binary is written as `{"resourceType":"Binary"}`. */
  lemma EmptyBinary()
    ensures Encode(EmptyOf(Binary), Defaults) == Ok("{\"resourceType\":\"Binary\"}")
  {
    var e := EmptyOf(Binary);
    assert |e.slots| == |Fields(Binary)|;
    EmptyResourceText(e);
    BinaryText();
  }

  // ---------------------------------------------------------------------
  // Summary mode and narrative suppression on a Patient

  lemma PatientNames()
    ensures FieldName(Patient, 0) == "id" && FieldName(Patient, 1) == "meta"
    ensures FieldName(Patient, 7) == "name" && FieldName(Patient, 10) == "address"
    ensures FieldName(Patient, 11) == "maritalStatus"
  {
  }

  lemma PatientFlags()
    ensures IsNarrative(Patient, 2) && IsContained(Patient, 3)
    ensures IsSummary(Patient, 7) && !IsSummary(Patient, 11)
    ensures !IsNarrative(Patient, 7) && !IsNarrative(Patient, 11)
    ensures !IsContained(Patient, 7) && !IsContained(Patient, 11)
  {
  }

  /** In summary mode a Patient keeps its names, loses its narrative and
      marital status, and is tagged as subsetted. */
  lemma PatientSummary(e: Element)
    requires IsResource(e) && e.typeName == Patient && WellTyped(e)
    ensures var r := Project(e, Options(true, false, false, [], []));
      && r.slots[7] == e.slots[7]
      && |r.slots[2].items| == 0
      && |r.slots[11].items| == 0
      && HasSubsetted(r)
  {
    var opts := Options(true, false, false, [], []);
    PatientFlags();
    KeepsRest(e, opts, 7);
    NoNarrative(e, opts, 2);
    SummaryOnly(e, opts, 11);
    assert Patterns([]) == [];
    SubsettedAdded(e, opts);
  }

  /** With narratives suppressed a Patient loses only its narrative; its
      names and marital status stay, and it is tagged as subsetted. */
  lemma PatientNarrativeSuppressed(e: Element)
    requires IsResource(e) && e.typeName == Patient && WellTyped(e)
    ensures var r := Project(e, Options(false, true, false, [], []));
      && r.slots[7] == e.slots[7]
      && r.slots[11] == e.slots[11]
      && |r.slots[2].items| == 0
      && HasSubsetted(r)
  {
    var opts := Options(false, true, false, [], []);
    PatientFlags();
    KeepsRest(e, opts, 7);
    KeepsRest(e, opts, 11);
    NoNarrative(e, opts, 2);
    assert Patterns([]) == [];
    SubsettedAdded(e, opts);
  }

  // ---------------------------------------------------------------------
  // Two-segment path patterns

  /** A pattern of two dot-free segments. */
  lemma TwoSegments(a: string, b: string)
    requires NoDot(a) && NoDot(b)
    ensures Split(a + "." + b) == [a, b]
  {
    SplitJoin([a, b]);
    assert Join([a, b]) == a + "." + Join([b]);
  }

  lemma StarPatterns()
    ensures Patterns(["*.meta", "*.id"]) == [["*", "meta"], ["*", "id"]]
  {
    TwoSegments("*", "meta");
    TwoSegments("*", "id");
    assert "*" + "." + "meta" == "*.meta";
    assert "*" + "." + "id" == "*.id";
  }
}
