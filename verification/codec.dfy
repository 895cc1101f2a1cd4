/** The parser's two entry points, as a composition of the stages.

    Writing a resource resolves its direct links into contained
    resources, applies the options (summary mode, narrative suppression,
    resource id, deny-list and allow-list, subsetted tag), drops empty
    content, builds the JSON document tree and prints it compactly.
    Reading parses the text and reads the document tree as a resource. */
module Codec {
  import opened Results
  import opened Json
  import opened Catalog
  import opened Elements
  import opened Encoder
  import opened Decoder
  import opened JsonText
  import opened Containment
  import opened Projection
  import opened Pruning
  import opened RoundTrip

  /** The tree that is actually written for `e` under `opts`. */
  function Prepared(e: Element, opts: Options): (r: Element)
    requires e.Comp?
    ensures r.Comp? && r.typeName == e.typeName
  {
    Prune(Project(Contain(e), opts))
  }

  /** Writing a resource: only a resource can be written, and a resource
      that fits the catalog always is. EncodeParses states what the text
      is. */
  function Encode(e: Element, opts: Options): (r: Result<string>)
    ensures !IsResource(e) ==> r.Err?
    ensures IsResource(e) && WellTyped(e) ==> r.Ok?
  {
    if !IsResource(e) then Err(EncodingError("Only a resource can be encoded"))
    else
      WellTypedWrites(e, opts);
      var v :- EncodeResource(Prepared(e, opts));
      Ok(Print(v))
  }

  /** The written text is a JSON object whose first member is
      `resourceType`, naming the resource's type. */
  lemma EncodeParses(e: Element, opts: Options)
    requires Encode(e, opts).Ok?
    ensures var d := Parse(Encode(e, opts).value);
      && d.Ok? && d.value.JObject? && |d.value.members| > 0
      && d.value.members[0] == Member(ResourceTypeKey, JString(Name(e.typeName)))
  {
    PrintParse(EncodeResource(Prepared(e, opts)).value);
  }

  function Decode(text: string): (r: Result<Element>)
    ensures r.Ok? ==> IsResource(r.value) && WellTyped(r.value)
    ensures Parse(text).Err? ==> r.Err?
    ensures (Parse(text).Ok? && Parse(text).value.JObject?
      && forall m | m in Parse(text).value.members :: m.key != ResourceTypeKey)
      ==> r == Err(FormatError(MissingResourceType))
  {
    var v :- Parse(text);
    DecodeResource(v)
  }

  // ---------------------------------------------------------------------
  // Reading what was written

  /** The tree written for a resource that fits the catalog is the
      resource with the options applied and empty content dropped, and it
      can be written and read back. */
  lemma WrittenTree(e: Element, opts: Options)
    requires IsResource(e) && WellTyped(e)
    ensures Prepared(e, opts) == Prune(Project(e, opts))
    ensures IsResource(Prepared(e, opts)) && Writable(Prepared(e, opts))
  {
    WellTypedHasNoLinks(e);
    ContainNothing(e);
    ProjectTyped(e, opts);
    var p := Project(e, opts);
    PruneWellTyped(p);
    PruneRepresentable(p);
  }

  /** The tree written for a resource that fits the catalog always
      becomes a JSON document. */
  lemma WellTypedWrites(e: Element, opts: Options)
    requires e.Comp?
    ensures IsResource(e) && WellTyped(e) ==> EncodeResource(Prepared(e, opts)).Ok?
  {
    if IsResource(e) && WellTyped(e) {
      WrittenTree(e, opts);
      ResourceRoundTrip(Prepared(e, opts));
    }
  }

  /** A resource that fits the catalog is always written, and reading the
      text back gives exactly the tree that was written: the resource
      with the options applied and empty content dropped. */
  lemma EncodeDecode(e: Element, opts: Options)
    requires IsResource(e) && WellTyped(e)
    ensures Encode(e, opts).Ok?
    ensures Decode(Encode(e, opts).value) == Ok(Prune(Project(e, opts)))
  {
    WrittenTree(e, opts);
    var w := Prepared(e, opts);
    ResourceRoundTrip(w);
    PrintParse(EncodeResource(w).value);
  }

  /** With the default options, a resource that has no empty content
      comes back unchanged. */
  lemma DefaultRoundTrip(e: Element)
    requires IsResource(e) && WellTyped(e) && IsPruned(e)
    ensures Encode(e, Defaults).Ok? && Decode(Encode(e, Defaults).value) == Ok(e)
  {
    EncodeDecode(e, Defaults);
    ProjectDefaults(e);
    PruneFixes(e);
  }

  /** Whatever was read can be written; reading it again gives what was
      read, less any empty content. */
  lemma DecodeEncode(text: string)
    requires Decode(text).Ok?
    ensures Encode(Decode(text).value, Defaults).Ok?
    ensures Decode(Encode(Decode(text).value, Defaults).value) == Ok(Prune(Decode(text).value))
  {
    var e := Decode(text).value;
    EncodeDecode(e, Defaults);
    ProjectDefaults(e);
  }

  /** With the default options, writing a resource and writing it with
      its empty content dropped give the same text. */
  lemma EncodePruned(e: Element)
    requires IsResource(e) && WellTyped(e)
    ensures Encode(Prune(e), Defaults) == Encode(e, Defaults)
  {
    WrittenTree(e, Defaults);
    ProjectDefaults(e);
    PruneWellTyped(e);
    WrittenTree(Prune(e), Defaults);
    ProjectDefaults(Prune(e));
    PruneIdempotent(e);
  }

  /** Writing is stable: writing what was read from the written text gives
      the same text again. */
  lemma EncodeStable(e: Element)
    requires IsResource(e) && WellTyped(e)
    ensures Encode(e, Defaults).Ok?
    ensures var d := Decode(Encode(e, Defaults).value);
      d.Ok? && Encode(d.value, Defaults) == Encode(e, Defaults)
  {
    EncodeDecode(e, Defaults);
    ProjectDefaults(e);
    EncodePruned(e);
  }
}
