/** Concrete cases of refused input: text that is not JSON at all, and a
    contained resource object without `resourceType`, which fails the
    whole resource with the parser's message for a missing type. */
module ErrorCases {
  import opened Results
  import opened Json
  import opened Catalog
  import opened Elements
  import opened Encoder
  import opened Decoder
  import opened JsonText
  import opened Codec

  // ---------------------------------------------------------------------
  // Text that is not JSON

  /** Text that starts with a character no JSON value starts with is
      refused. */
  lemma UnexpectedStart(s: string)
    requires |s| > 0 && !IsWhitespace(s[0]) && !IsDigit(s[0])
    requires s[0] != '{' && s[0] != '[' && s[0] != '"' && s[0] != '-'
    requires s[0] != 't' && s[0] != 'f' && s[0] != 'n'
    ensures Parse(s) == Err(FormatError("Unexpected character in JSON content"))
  {
    assert SkipWs(s) == s;
    assert !StartsWith(s, "true") by {
      if 4 <= |s| { assert s[..4][0] == s[0]; }
    }
    assert !StartsWith(s, "false") by {
      if 5 <= |s| { assert s[..5][0] == s[0]; }
    }
    assert !StartsWith(s, "null") by {
      if 4 <= |s| { assert s[..4][0] == s[0]; }
    }
  }

  /** `FOO` is not a JSON value, so it is not read as a resource. */
  lemma NotJson()
    ensures Decode("FOO") == Err(FormatError("Unexpected character in JSON content"))
  {
    UnexpectedStart("FOO");
  }

  // ---------------------------------------------------------------------
  // A contained object without a type

  /** The contained object names its type under the wrong key. */
  const Untyped: JValue := JObject([Member("rezType", JString("Organization"))])

  /** A Patient object whose only contained object is `Untyped`. */
  const PatientMembers: seq<Member> :=
    [Member(ResourceTypeKey, JString("Patient")), Member("contained", JArray([Untyped]))]

  /** A failing field fails all the fields when every field before it is
      read. */
  lemma {:induction false} FieldsFail(fields: seq<FieldDef>, ms: seq<Member>, k: nat, err: Failure)
    requires k < |fields|
    requires forall i | 0 <= i < k :: DecodeField(fields[i], ms).Ok?
    requires DecodeField(fields[k], ms) == Err(err)
    ensures DecodeFields(fields, ms) == Err(err)
  {
    if k > 0 {
      assert DecodeField(fields[0], ms).Ok?;
      forall i | 0 <= i < k - 1 ensures DecodeField(fields[1..][i], ms).Ok? {
        assert fields[1..][i] == fields[i + 1];
      }
      FieldsFail(fields[1..], ms, k - 1, err);
    }
  }

  lemma PatientFieldsBefore()
    ensures Fields(Patient)[0] == One("id", Id, true)
    ensures Fields(Patient)[1] == One("meta", Meta, true)
    ensures Fields(Patient)[2] == One("text", Narrative, false)
    ensures Fields(Patient)[ContainedField] == FieldDef("contained", AnyResource, true, false)
  {
  }

  /** The Patient object holds no key but `resourceType` and
      `contained`. */
  lemma AbsentKey(k: string)
    requires k != ResourceTypeKey && k != "contained"
    ensures Get(PatientMembers, k).None?
  {
  }

  /** An absent single primitive, with no companion, is read as
      nothing. */
  lemma AbsentPrimitive(key: string, t: TypeName, ms: seq<Member>)
    requires IsPrimitiveType(t) && Get(ms, key).None? && Get(ms, CompanionKey(key)).None?
    ensures DecodeTyped(key, t, false, ms) == Ok(Slot([]))
  {
    assert ValueIn(key, t, Get(ms, key)) == Ok(None);
  }

  /** An absent datatype field is read as nothing. */
  lemma AbsentNested(key: string, t: TypeName, repeating: bool, ms: seq<Member>)
    requires IsCompositeType(t) && Get(ms, key).None?
    ensures DecodeTyped(key, t, repeating, ms) == Ok(Slot([]))
  {
  }

  lemma IdAbsent()
    ensures DecodeField(Fields(Patient)[0], PatientMembers) == Ok(Slot([]))
  {
    PatientFieldsBefore();
    AbsentKey("id");
    AbsentKey("_id");
    assert CompanionKey("id") == "_id";
    AbsentPrimitive("id", Id, PatientMembers);
  }

  lemma MetaAbsent()
    ensures DecodeField(Fields(Patient)[1], PatientMembers) == Ok(Slot([]))
  {
    PatientFieldsBefore();
    AbsentKey("meta");
    AbsentNested("meta", Meta, false, PatientMembers);
  }

  lemma TextAbsent()
    ensures DecodeField(Fields(Patient)[2], PatientMembers) == Ok(Slot([]))
  {
    PatientFieldsBefore();
    AbsentKey("text");
    AbsentNested("text", Narrative, false, PatientMembers);
  }

  /** The id, meta and text of the Patient are absent and read as
      nothing. */
  lemma AbsentFieldsRead()
    ensures forall i | 0 <= i < ContainedField :: DecodeField(Fields(Patient)[i], PatientMembers).Ok?
  {
    IdAbsent();
    MetaAbsent();
    TextAbsent();
  }

  /** The contained field fails with the missing-type message. */
  lemma ContainedFails()
    ensures DecodeField(Fields(Patient)[ContainedField], PatientMembers)
      == Err(FormatError(MissingResourceType))
  {
    PatientFieldsBefore();
    assert Get(PatientMembers, "contained") == Some(JArray([Untyped]));
    assert DecodeResource(Untyped) == Err(FormatError(MissingResourceType));
    assert DecodeResources([Untyped]) == Err(FormatError(MissingResourceType));
  }

  /** A Patient whose contained object has no `resourceType` is refused
      with the message for a missing `resourceType`. */
  lemma UntypedContained()
    ensures DecodeResource(JObject(PatientMembers)) == Err(FormatError(MissingResourceType))
  {
    AbsentFieldsRead();
    ContainedFails();
    FieldsFail(Fields(Patient), PatientMembers, ContainedField, FormatError(MissingResourceType));
    assert Get(PatientMembers, ResourceTypeKey) == Some(JString("Patient"));
    assert ResourceNamed("Patient") == Some(Patient);
    assert DecodeComposite(Patient, PatientMembers) == Err(FormatError(MissingResourceType));
    assert ResourceIn(PatientMembers) == Err(FormatError(MissingResourceType));
  }

  /** The same holds for the object's text. */
  lemma UntypedContainedText()
    ensures Decode(Print(JObject(PatientMembers))) == Err(FormatError(MissingResourceType))
  {
    assert Valid(Untyped);
    assert Valid(JObject(PatientMembers));
    PrintParse(JObject(PatientMembers));
    UntypedContained();
  }
}
