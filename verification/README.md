# FHIR STU3 JSON codec

A Dafny model of the JSON parser of HAPI FHIR for FHIR STU3 (DSTU3), as
its behaviour is pinned down by the test class `JsonParserDstu3Test`. The
model covers the parts of the parser that decide what text a resource
becomes and what resource a text becomes:

- **Element tree** (`Elements`): resources and datatypes as composites
  with one slot per catalog field, primitives with a lexical value, an
  element id and extensions, and direct links to other resource objects.
- **Catalog** (`Catalog`, `CatalogFacts`): the types the codec knows,
  namely Patient, Observation, Condition, Binary and Conformance and the
  datatypes they use (HumanName, Meta, Coding, Extension, Quantity,
  Reference, Narrative and others). Each type has its fields in output
  order, with cardinality and summary flags. `value[x]` choice fields
  are written under the field name plus the type name.
- **JSON** (`Json`, `JsonText`): the document tree, a compact printer
  and a parser. Decimal numbers are kept as lexemes, so their precision
  survives in both directions. An escaped UTF-16 surrogate pair in a
  string is read as the one character it encodes.
- **Encoding** (`Containment`, `PathFilter`, `Projection`, `Pruning`,
  `Encoder`, `Codec`). The pipeline runs in this order:
  - direct links become contained resources with local ids `1`, `2`, …,
    and references `#1`, `#2`, …;
  - the encoder options apply: summary mode, narrative suppression,
    omitting the resource id, and the deny-list and allow-list of dotted
    paths;
  - the `SUBSETTED` tag is added to `meta` in summary mode, when
    narratives are suppressed, or when an allow-list is given;
  - empty content is pruned: empty primitives, extensions without a
    value, and tags with neither system nor code;
  - the tree is written as JSON. A primitive's id and extensions go into
    a `_field` companion. For a repeating primitive, the value array and
    the companion array stay aligned by index, with `null` placeholders.
- **Decoding** (`Decoder`, `Codec`): text is parsed and read back
  against the catalog. Value arrays and companion arrays are merged by
  index. A resource object without `resourceType` fails with the message
  "Missing required element 'resourceType' from JSON resource object,
  unable to parse".
- **Properties** (`RoundTrip`, `KeyFacts`, `Codec`):
  - writing and then reading a well-typed resource gives back its pruned
    projection, and with the default options gives back the resource
    itself;
  - writing is stable under a read and a second write;
  - pruning, filtering and containment are idempotent.
- **Cases** (`Scenarios`, `PruningCases`, `ValueCases`, `DecimalCases`,
  `ContainedCases`, `ErrorCases`, `PathCases`, `PrimitiveCases`): the
  concrete documents and outcomes the test class asserts, proved about
  the model. `Literals` holds the character-level facts that the
  exact-text cases need.

The reads from and writes to `Reader`/`Writer` objects, and the logging,
are not modelled: `Encode` returns the text and `Decode` takes it.

## Model

| member | source | states |
|---|---|---|
| Codec.Encode | hapi-fhir-structures-dstu3/src/test/java/ca/uhn/fhir/parser/JsonParserDstu3Test.java:430-433 | Only a resource can be written, and every well-typed resource is written without error under any options. |
| Codec.EncodeParses | hapi-fhir-structures-dstu3/src/test/java/ca/uhn/fhir/parser/JsonParserDstu3Test.java:430-433 | The written text parses as a JSON object whose first member is `resourceType`, holding the resource's type name. |
| Codec.WellTypedWrites | hapi-fhir-structures-dstu3/src/test/java/ca/uhn/fhir/parser/JsonParserDstu3Test.java:430-433 | The tree prepared from a well-typed resource always becomes a JSON document. |
| Codec.Decode | hapi-fhir-structures-dstu3/src/test/java/ca/uhn/fhir/parser/JsonParserDstu3Test.java:1357-1367 | A successful read yields a well-typed resource; text that is not JSON is rejected; an object without `resourceType` is rejected with exactly the message "Missing required element 'resourceType' from JSON resource object, unable to parse". |
| Codec.WrittenTree | hapi-fhir-structures-dstu3/src/test/java/ca/uhn/fhir/parser/JsonParserDstu3Test.java:715-781 | For a well-typed resource, the tree that gets written is the pruned projection of the resource, and that tree is a writable resource. |
| Codec.EncodeDecode | hapi-fhir-structures-dstu3/src/test/java/ca/uhn/fhir/parser/JsonParserDstu3Test.java:87-168 | Any well-typed resource, under any options, is written without error, and reading the text back gives the pruned projection of the resource. |
| Codec.DefaultRoundTrip | hapi-fhir-structures-dstu3/src/test/java/ca/uhn/fhir/parser/JsonParserDstu3Test.java:271-299 | With the default options, a well-typed resource that holds no empty content is read back exactly as it was written. |
| Codec.DecodeEncode | hapi-fhir-structures-dstu3/src/test/java/ca/uhn/fhir/parser/JsonParserDstu3Test.java:829-838 | Text that was read successfully can be written again, and reading that text gives the first tree with empty content pruned. |
| Codec.EncodePruned | hapi-fhir-structures-dstu3/src/test/java/ca/uhn/fhir/parser/JsonParserDstu3Test.java:797-815 | With the default options, empty content never reaches the output: pruning a resource before writing it leaves the text unchanged. |
| Codec.EncodeStable | hapi-fhir-structures-dstu3/src/test/java/ca/uhn/fhir/parser/JsonParserDstu3Test.java:829-838 | With the default options, writing, reading and writing again gives the same text as the first write. |
| Encoder.ValueJson | hapi-fhir-structures-dstu3/src/test/java/ca/uhn/fhir/parser/JsonParserDstu3Test.java:818-826 | A decimal whose text is a JSON number is written as that same number, digits unchanged; other primitives are written as strings; a decimal whose text is not a number is an error. |
| Encoder.CompositeJson | hapi-fhir-structures-dstu3/src/test/java/ca/uhn/fhir/parser/JsonParserDstu3Test.java:430-433 | Only a composite is written as an object; the object written for a resource begins with the `resourceType` member naming its type. |
| Encoder.FieldsJson | hapi-fhir-structures-dstu3/src/test/java/ca/uhn/fhir/parser/JsonParserDstu3Test.java:268 | Every member written for a composite belongs to one of its catalog fields, either under the field's key or under the `_` companion key. |
| Encoder.FieldJson | hapi-fhir-structures-dstu3/src/test/java/ca/uhn/fhir/parser/JsonParserDstu3Test.java:268 | An empty field writes nothing; a field that does not repeat writes at most one item; a `value[x]` field writes only one of its allowed types. |
| Encoder.ValuesJson | hapi-fhir-structures-dstu3/src/test/java/ca/uhn/fhir/parser/JsonParserDstu3Test.java:268 | The value array holds one entry per item, and entry `i` is `null` exactly when item `i` has no value. |
| Encoder.CompanionsJson | hapi-fhir-structures-dstu3/src/test/java/ca/uhn/fhir/parser/JsonParserDstu3Test.java:268 | The companion array holds one entry per item, and entry `i` is `null` exactly when item `i` has neither an id nor an extension. |
| Encoder.ObjectsJson | hapi-fhir-structures-dstu3/src/test/java/ca/uhn/fhir/parser/JsonParserDstu3Test.java:87-168 | A repeating composite field is written as one object per item, all of the field's type. |
| Encoder.ResourcesJson | hapi-fhir-structures-dstu3/src/test/java/ca/uhn/fhir/parser/JsonParserDstu3Test.java:386-416 | The contained array holds one object per contained resource. |
| Encoder.EncodeResource | hapi-fhir-structures-dstu3/src/test/java/ca/uhn/fhir/parser/JsonParserDstu3Test.java:430-433 | Anything other than a resource is an error; a resource's object starts with its `resourceType`. |
| Decoder.DecodeResource | hapi-fhir-structures-dstu3/src/test/java/ca/uhn/fhir/parser/JsonParserDstu3Test.java:1357-1367 | Anything other than an object is an error; an object without `resourceType` fails with the missing-resourceType message; a success is a well-typed resource. |
| Decoder.ResourceIn | hapi-fhir-structures-dstu3/src/test/java/ca/uhn/fhir/parser/JsonParserDstu3Test.java:1357-1367 | The members of an object without `resourceType` fail with the missing-resourceType message; a success is a well-typed resource. |
| Decoder.ContainedIn | hapi-fhir-structures-dstu3/src/test/java/ca/uhn/fhir/parser/JsonParserDstu3Test.java:1357-1367 | An absent `contained` key reads as an empty field; what is read is typed as the field demands. |
| Decoder.DecodeResources | hapi-fhir-structures-dstu3/src/test/java/ca/uhn/fhir/parser/JsonParserDstu3Test.java:1357-1367 | Every entry of the contained array must read as a resource, one resource per entry. |
| Decoder.ChooseType | hapi-fhir-structures-dstu3/src/test/java/ca/uhn/fhir/parser/JsonParserDstu3Test.java:829-838 | For `value[x]`, the type chosen is one the field allows and its key or its `_` key is present; when none is chosen, no allowed key is present. |
| Decoder.DecodeValue | hapi-fhir-structures-dstu3/src/test/java/ca/uhn/fhir/parser/JsonParserDstu3Test.java:271-299 | `null` in a value array reads as "no value", and only `null` does; a decimal that is read is a valid JSON number. |
| Decoder.DecodeValues | hapi-fhir-structures-dstu3/src/test/java/ca/uhn/fhir/parser/JsonParserDstu3Test.java:271-299 | A value array reads as one optional value per entry. |
| Decoder.DecodeCompanion | hapi-fhir-structures-dstu3/src/test/java/ca/uhn/fhir/parser/JsonParserDstu3Test.java:271-299 | A `null` companion reads as no id and no extensions. |
| Decoder.DecodeCompanions | hapi-fhir-structures-dstu3/src/test/java/ca/uhn/fhir/parser/JsonParserDstu3Test.java:271-299 | A companion array reads as one companion per entry, each with well-typed extensions. |
| Decoder.ExtensionsIn | hapi-fhir-structures-dstu3/src/test/java/ca/uhn/fhir/parser/JsonParserDstu3Test.java:87-168 | Everything read from an `extension` array is a well-typed extension; an absent array reads as none. |
| Decoder.PrimitiveFrom | hapi-fhir-structures-dstu3/src/test/java/ca/uhn/fhir/parser/JsonParserDstu3Test.java:472-497 | A single primitive reads successfully exactly when its value and its companion both read; the item gets that value, id and extensions, and is never empty. |
| Decoder.Merge | hapi-fhir-structures-dstu3/src/test/java/ca/uhn/fhir/parser/JsonParserDstu3Test.java:271-299 | Merging a value array with a companion array by index yields as many items as the longer array. |
| Decoder.MergeTyped | hapi-fhir-structures-dstu3/src/test/java/ca/uhn/fhir/parser/JsonParserDstu3Test.java:271-299 | Every merged item is a well-typed primitive of the field's type. |
| Pruning.PruneValue | hapi-fhir-structures-dstu3/src/test/java/ca/uhn/fhir/parser/JsonParserDstu3Test.java:809-813 | A value survives pruning exactly when it is present and not the empty string. |
| Pruning.PruneItems | hapi-fhir-structures-dstu3/src/test/java/ca/uhn/fhir/parser/JsonParserDstu3Test.java:797-815 | After pruning a field, none of its items says nothing, and there are never more items than before. |
| Pruning.PruneIsPruned | hapi-fhir-structures-dstu3/src/test/java/ca/uhn/fhir/parser/JsonParserDstu3Test.java:440-468 | Pruning leaves no empty primitive, no value-less extension and no tag without system and code anywhere in the tree. |
| Pruning.PruneFixes | hapi-fhir-structures-dstu3/src/test/java/ca/uhn/fhir/parser/JsonParserDstu3Test.java:797-815 | A tree that holds no empty content is left unchanged by pruning. |
| Pruning.PruneIdempotent | hapi-fhir-structures-dstu3/src/test/java/ca/uhn/fhir/parser/JsonParserDstu3Test.java:797-815 | Pruning twice is the same as pruning once. |
| Pruning.PruneItemsFrom | hapi-fhir-structures-dstu3/src/test/java/ca/uhn/fhir/parser/JsonParserDstu3Test.java:258-264 | Every item kept by pruning is the pruned form of some input item. |
| Pruning.PruneItemsKeeps | hapi-fhir-structures-dstu3/src/test/java/ca/uhn/fhir/parser/JsonParserDstu3Test.java:258-264 | Every input item whose pruned form says something is kept. |
| Pruning.PruneWellTyped | hapi-fhir-structures-dstu3/src/test/java/ca/uhn/fhir/parser/JsonParserDstu3Test.java:797-815 | Pruning keeps a tree well typed. |
| Pruning.PrunedRepresentable | hapi-fhir-structures-dstu3/src/test/java/ca/uhn/fhir/parser/JsonParserDstu3Test.java:472-497 | Every primitive left after pruning has a value, an id or an extension, so it can be written. |
| Projection.Project | hapi-fhir-structures-dstu3/src/test/java/ca/uhn/fhir/parser/JsonParserDstu3Test.java:581-651 | Projection keeps a resource's type and its number of fields. |
| Projection.ProjectDefaults | hapi-fhir-structures-dstu3/src/test/java/ca/uhn/fhir/parser/JsonParserDstu3Test.java:430-433 | With the default options, projection changes nothing. |
| Projection.SummaryOnly | hapi-fhir-structures-dstu3/src/test/java/ca/uhn/fhir/parser/JsonParserDstu3Test.java:613-631 | In summary mode, a field that is not a summary field is written empty. |
| Projection.NoNarrative | hapi-fhir-structures-dstu3/src/test/java/ca/uhn/fhir/parser/JsonParserDstu3Test.java:582-598 | In summary mode or with narratives suppressed, the narrative `text` is written empty. |
| Projection.NoResourceId | hapi-fhir-structures-dstu3/src/test/java/ca/uhn/fhir/parser/JsonParserDstu3Test.java:904-912 | With the resource id omitted, the resource's `id` is written empty. |
| Projection.KeepsRest | hapi-fhir-structures-dstu3/src/test/java/ca/uhn/fhir/parser/JsonParserDstu3Test.java:582-598 | A field that no option removes is kept exactly as it was. |
| Projection.DeniedFieldEmpty | hapi-fhir-structures-dstu3/src/test/java/ca/uhn/fhir/parser/JsonParserDstu3Test.java:715-745 | A field whose path a deny pattern covers is written empty. |
| Projection.NotAllowedFieldEmpty | hapi-fhir-structures-dstu3/src/test/java/ca/uhn/fhir/parser/JsonParserDstu3Test.java:768-780 | When allow patterns are given, a field other than `id` and `meta` that none of them allows is written empty. |
| Projection.IdKept | hapi-fhir-structures-dstu3/src/test/java/ca/uhn/fhir/parser/JsonParserDstu3Test.java:768-780 | Unless the id is omitted or denied, the resource's `id` is kept. |
| Projection.SubsettedAdded | hapi-fhir-structures-dstu3/src/test/java/ca/uhn/fhir/parser/JsonParserDstu3Test.java:582-651 | In summary mode, with narratives suppressed or with an allow-list, and with `meta` not denied, the resource carries the subsetted tag. |
| Projection.AddSubsettedOnce | hapi-fhir-structures-dstu3/src/test/java/ca/uhn/fhir/parser/JsonParserDstu3Test.java:634-651 | A resource that already carries the subsetted tag is not tagged again. |
| Projection.SubsettedLast | hapi-fhir-structures-dstu3/src/test/java/ca/uhn/fhir/parser/JsonParserDstu3Test.java:634-651 | When the resource has a meta without the subsetted tag, the tag is appended after the tags it already has. |
| Projection.TagMeta | hapi-fhir-structures-dstu3/src/test/java/ca/uhn/fhir/parser/JsonParserDstu3Test.java:634-651 | A meta gets the subsetted tag, and one that already has it is left as it is. |
| Projection.AddSubsetted | hapi-fhir-structures-dstu3/src/test/java/ca/uhn/fhir/parser/JsonParserDstu3Test.java:613-631 | Adding the tag changes only the `meta` field. |
| Projection.ProjectTyped | hapi-fhir-structures-dstu3/src/test/java/ca/uhn/fhir/parser/JsonParserDstu3Test.java:581-651 | Projection keeps a resource well typed. |
| PathFilter.JoinSplit | hapi-fhir-structures-dstu3/src/test/java/ca/uhn/fhir/parser/JsonParserDstu3Test.java:715-781 | Joining the segments of a pattern with dots gives the pattern back. |
| PathFilter.SplitJoin | hapi-fhir-structures-dstu3/src/test/java/ca/uhn/fhir/parser/JsonParserDstu3Test.java:715-781 | Splitting dot-free segments joined with dots gives the segments back. |
| PathFilter.StarCovers | hapi-fhir-structures-dstu3/src/test/java/ca/uhn/fhir/parser/JsonParserDstu3Test.java:715-729 | A pattern whose first segment is `*` covers a path exactly when the same pattern with the path's resource type in place of `*` does. |
| PathFilter.FilterNoneDenied | hapi-fhir-structures-dstu3/src/test/java/ca/uhn/fhir/parser/JsonParserDstu3Test.java:715-754 | After filtering, nothing is left at or below a path that a deny pattern covers. |
| PathFilter.FilterAllAllowed | hapi-fhir-structures-dstu3/src/test/java/ca/uhn/fhir/parser/JsonParserDstu3Test.java:768-780 | After filtering with allow patterns, everything left lies on or below an allowed path, or leads to one. |
| PathFilter.FilterKeeps | hapi-fhir-structures-dstu3/src/test/java/ca/uhn/fhir/parser/JsonParserDstu3Test.java:715-781 | A tree with nothing denied and everything allowed passes the filter unchanged. |
| PathFilter.FilterIdempotent | hapi-fhir-structures-dstu3/src/test/java/ca/uhn/fhir/parser/JsonParserDstu3Test.java:715-781 | Filtering twice is the same as filtering once. |
| PathFilter.FilterNothing | hapi-fhir-structures-dstu3/src/test/java/ca/uhn/fhir/parser/JsonParserDstu3Test.java:715-781 | Without patterns, the filter changes nothing. |
| PathFilter.FilterSlotAt | hapi-fhir-structures-dstu3/src/test/java/ca/uhn/fhir/parser/JsonParserDstu3Test.java:746-754 | A field of a filtered element is its slot filtered at the field's path, and it is either emptied or keeps its number of items. |
| PathFilter.FilterWellTyped | hapi-fhir-structures-dstu3/src/test/java/ca/uhn/fhir/parser/JsonParserDstu3Test.java:715-781 | Filtering keeps a tree well typed. |
| Containment.NatToString | hapi-fhir-structures-dstu3/src/test/java/ca/uhn/fhir/parser/JsonParserDstu3Test.java:386-416 | A local id is a non-empty run of decimal digits, and it is one digit long exactly for numbers below ten. |
| Containment.NatToStringInjective | hapi-fhir-structures-dstu3/src/test/java/ca/uhn/fhir/parser/JsonParserDstu3Test.java:386-416 | Different numbers get different local ids. |
| Containment.FreshIds | hapi-fhir-structures-dstu3/src/test/java/ca/uhn/fhir/parser/JsonParserDstu3Test.java:386-416 | The new local ids are non-empty, pairwise distinct, and none is already used by a contained resource. |
| Containment.FreshIdsNumbered | hapi-fhir-structures-dstu3/src/test/java/ca/uhn/fhir/parser/JsonParserDstu3Test.java:386-416 | When none of `1` to `n` is used, the `n` fresh ids are exactly `1`, `2`, …, `n` in order. |
| Containment.FreshNumbersNoGap | hapi-fhir-structures-dstu3/src/test/java/ca/uhn/fhir/parser/JsonParserDstu3Test.java:386-416 | The ids are the next free ones: every number below the first id chosen, and every number between two ids chosen, is already used. |
| Containment.Collect | hapi-fhir-structures-dstu3/src/test/java/ca/uhn/fhir/parser/JsonParserDstu3Test.java:386-416 | Every link target met in the tree has no id of its own. |
| Containment.Dedupe | hapi-fhir-structures-dstu3/src/test/java/ca/uhn/fhir/parser/JsonParserDstu3Test.java:386-416 | Each target appears once, and the same targets remain. |
| Containment.DedupeOrder | hapi-fhir-structures-dstu3/src/test/java/ca/uhn/fhir/parser/JsonParserDstu3Test.java:386-416 | The distinct targets come in the order in which they are first met. |
| Containment.TableOf | hapi-fhir-structures-dstu3/src/test/java/ca/uhn/fhir/parser/JsonParserDstu3Test.java:386-416 | The table holds exactly the targets met in the resource, and every id in it is non-empty. |
| Containment.TableOrder | hapi-fhir-structures-dstu3/src/test/java/ca/uhn/fhir/parser/JsonParserDstu3Test.java:386-416 | Each distinct target is in the table once, in the order first met. The ids are distinct, and no contained resource already uses them. |
| Containment.TableNumbered | hapi-fhir-structures-dstu3/src/test/java/ca/uhn/fhir/parser/JsonParserDstu3Test.java:386-416 | When none of `1` to `n` is used, the table's ids are `1`, `2`, …, `n`, in the order the targets are first met. |
| Containment.Contain | hapi-fhir-structures-dstu3/src/test/java/ca/uhn/fhir/parser/JsonParserDstu3Test.java:386-416 | Containment keeps the type and the number of fields. |
| Containment.ContainNoLinks | hapi-fhir-structures-dstu3/src/test/java/ca/uhn/fhir/parser/JsonParserDstu3Test.java:386-416 | After containment, no in-memory link is left in a resource that can contain. |
| Containment.ContainNothing | hapi-fhir-structures-dstu3/src/test/java/ca/uhn/fhir/parser/JsonParserDstu3Test.java:430-433 | A resource without links is left unchanged. |
| Containment.ContainIdempotent | hapi-fhir-structures-dstu3/src/test/java/ca/uhn/fhir/parser/JsonParserDstu3Test.java:386-416 | Containing twice is the same as containing once. |
| Containment.ContainedIds | hapi-fhir-structures-dstu3/src/test/java/ca/uhn/fhir/parser/JsonParserDstu3Test.java:386-416 | Resources that were already contained keep their ids; each new one carries exactly the id the table gave its target when the resolved target has an id field, and no id otherwise. |
| Containment.NewContainedAt | hapi-fhir-structures-dstu3/src/test/java/ca/uhn/fhir/parser/JsonParserDstu3Test.java:386-416 | The target with table index `k` is contained after the existing ones, with its id. |
| Containment.OnlyOneWithId | hapi-fhir-structures-dstu3/src/test/java/ca/uhn/fhir/parser/JsonParserDstu3Test.java:386-416 | No other contained resource carries the id given to a target. |
| Containment.LinkResolves | hapi-fhir-structures-dstu3/src/test/java/ca/uhn/fhir/parser/JsonParserDstu3Test.java:386-416 | Every link target ends up as a contained resource with a unique id, and a link to it is written as `#` plus that id. |
| Containment.FirstLinkIsOne | hapi-fhir-structures-dstu3/src/test/java/ca/uhn/fhir/parser/JsonParserDstu3Test.java:386-416 | When `1` is not yet used, the first target gets the id `1` and a link to it becomes `#1`. |
| Containment.LinkNumbered | hapi-fhir-structures-dstu3/src/test/java/ca/uhn/fhir/parser/JsonParserDstu3Test.java:386-416 | When ids `1` to `n` are free, a link to the target first met after `k` other distinct targets is written as `#` followed by `k + 1`. That target is contained with that id. |
| Containment.ResolveKeepsId | hapi-fhir-structures-dstu3/src/test/java/ca/uhn/fhir/parser/JsonParserDstu3Test.java:386-416 | Replacing links never changes an element's own id. |
| RoundTrip.ResourceRoundTrip | hapi-fhir-structures-dstu3/src/test/java/ca/uhn/fhir/parser/JsonParserDstu3Test.java:87-168 | The object written for a writable resource reads back as the same resource. |
| RoundTrip.CompositeRoundTrip | hapi-fhir-structures-dstu3/src/test/java/ca/uhn/fhir/parser/JsonParserDstu3Test.java:537-579 | The object written for a writable composite, such as an extension with child extensions, reads back as the same composite. |
| RoundTrip.EachFieldRoundTrip | hapi-fhir-structures-dstu3/src/test/java/ca/uhn/fhir/parser/JsonParserDstu3Test.java:87-168 | Each field of a writable composite is written without error and reads back as the same field. |
| RoundTrip.FieldRoundTrip | hapi-fhir-structures-dstu3/src/test/java/ca/uhn/fhir/parser/JsonParserDstu3Test.java:87-168 | A well-typed field is written without error and read back unchanged. |
| RoundTrip.ChoiceRoundTrip | hapi-fhir-structures-dstu3/src/test/java/ca/uhn/fhir/parser/JsonParserDstu3Test.java:829-838 | A non-empty `value[x]` field is written and read back with the same type and content. |
| RoundTrip.ChoicesApart | hapi-fhir-structures-dstu3/src/test/java/ca/uhn/fhir/parser/JsonParserDstu3Test.java:829-838 | The allowed types of a `value[x]` field have distinct key suffixes. |
| RoundTrip.TypedRoundTrip | hapi-fhir-structures-dstu3/src/test/java/ca/uhn/fhir/parser/JsonParserDstu3Test.java:87-168 | Items of one type written under a key read back as the same items. |
| RoundTrip.NestedRoundTrip | hapi-fhir-structures-dstu3/src/test/java/ca/uhn/fhir/parser/JsonParserDstu3Test.java:537-579 | Nested objects under a key read back as the same composites, in order. |
| RoundTrip.PrimSingleRoundTrip | hapi-fhir-structures-dstu3/src/test/java/ca/uhn/fhir/parser/JsonParserDstu3Test.java:472-497 | A single primitive with a value, an extension or both reads back with the same value, id and extensions. |
| RoundTrip.PrimArrayRoundTrip | hapi-fhir-structures-dstu3/src/test/java/ca/uhn/fhir/parser/JsonParserDstu3Test.java:253-299 | A repeating primitive written as a value array and a companion array reads back as the same items, in order. |
| RoundTrip.ValueRoundTrip | hapi-fhir-structures-dstu3/src/test/java/ca/uhn/fhir/parser/JsonParserDstu3Test.java:829-838 | Writing a value and reading it gives the same text. |
| RoundTrip.ValuesRoundTrip | hapi-fhir-structures-dstu3/src/test/java/ca/uhn/fhir/parser/JsonParserDstu3Test.java:271-299 | The value array reads back as the items' values, position by position. |
| RoundTrip.CompanionRoundTrip | hapi-fhir-structures-dstu3/src/test/java/ca/uhn/fhir/parser/JsonParserDstu3Test.java:472-497 | A companion object reads back as the item's id and extensions. |
| RoundTrip.CompanionsRoundTrip | hapi-fhir-structures-dstu3/src/test/java/ca/uhn/fhir/parser/JsonParserDstu3Test.java:271-299 | The companion array reads back as the items' ids and extensions, position by position. |
| RoundTrip.MergeBack | hapi-fhir-structures-dstu3/src/test/java/ca/uhn/fhir/parser/JsonParserDstu3Test.java:271-299 | Merging the values and companions that were written gives the original items back. |
| RoundTrip.MergeIs | hapi-fhir-structures-dstu3/src/test/java/ca/uhn/fhir/parser/JsonParserDstu3Test.java:271-299 | When entry `i` of both arrays matches item `i`, merging gives exactly the items. |
| RoundTrip.ObjectsRoundTrip | hapi-fhir-structures-dstu3/src/test/java/ca/uhn/fhir/parser/JsonParserDstu3Test.java:87-168 | An array of composites reads back as the same composites. |
| RoundTrip.ResourcesRoundTrip | hapi-fhir-structures-dstu3/src/test/java/ca/uhn/fhir/parser/JsonParserDstu3Test.java:386-416 | The contained array reads back as the same resources. |
| JsonText.PrintParse | hapi-fhir-structures-dstu3/src/test/java/ca/uhn/fhir/parser/JsonParserDstu3Test.java:268 | Infrastructure for the round trip: parsing the compact text of a JSON value gives the value back. |
| JsonText.ValueRoundTrip | hapi-fhir-structures-dstu3/src/test/java/ca/uhn/fhir/parser/JsonParserDstu3Test.java:268 | A printed value followed by a delimiter parses back as the value, leaving the delimiter. |
| JsonText.StringRoundTrip | hapi-fhir-structures-dstu3/src/test/java/ca/uhn/fhir/parser/JsonParserDstu3Test.java:87-168 | An escaped string parses back as the original characters. |
| JsonText.UnicodeEscape | hapi-fhir-structures-dstu3/src/test/java/ca/uhn/fhir/parser/JsonParserDstu3Test.java:271 | A `\u` escape takes six characters, or twelve exactly when a high and a low surrogate together name a character beyond U+FFFF. |
| JsonText.SurrogatesSplit | hapi-fhir-structures-dstu3/src/test/java/ca/uhn/fhir/parser/JsonParserDstu3Test.java:271 | Infrastructure for reading escaped text: the character decoded from a high and a low surrogate splits back into the same two surrogates. |
| JsonText.SurrogatePairStep | hapi-fhir-structures-dstu3/src/test/java/ca/uhn/fhir/parser/JsonParserDstu3Test.java:271 | A high-surrogate escape followed by a low-surrogate escape reads as the one character they encode, then the rest of the literal. |
| JsonText.SurrogatePairRead | hapi-fhir-structures-dstu3/src/test/java/ca/uhn/fhir/parser/JsonParserDstu3Test.java:271 | The escaped pair `\uD83D\uDE00` reads as the single character U+1F600. |
| JsonText.LoneSurrogateRefused | hapi-fhir-structures-dstu3/src/test/java/ca/uhn/fhir/parser/JsonParserDstu3Test.java:271 | A high surrogate with no low one after it, or a low surrogate alone, is refused. |
| KeyFacts.ReadsOwn | hapi-fhir-structures-dstu3/src/test/java/ca/uhn/fhir/parser/JsonParserDstu3Test.java:268 | Infrastructure for the round trip: a key written for a field is one that field reads. |
| KeyFacts.ReadsOnlyOwn | hapi-fhir-structures-dstu3/src/test/java/ca/uhn/fhir/parser/JsonParserDstu3Test.java:268 | Infrastructure for the round trip: a key written for one field is never read by another field of the same type. |
| KeyFacts.NotReadsResourceType | hapi-fhir-structures-dstu3/src/test/java/ca/uhn/fhir/parser/JsonParserDstu3Test.java:1357-1367 | No field reads the `resourceType` key. |
| Catalog.Lookup | hapi-fhir-structures-dstu3/src/test/java/ca/uhn/fhir/parser/JsonParserDstu3Test.java:430-433 | Infrastructure for the catalog: a type is primitive, a datatype or a resource as the catalog says, and only decimals are JSON numbers. |
| Catalog.ResourceNamedName | hapi-fhir-structures-dstu3/src/test/java/ca/uhn/fhir/parser/JsonParserDstu3Test.java:1357-1367 | The name of every resource type reads back as that type. |
| CatalogFacts.CatalogWellFormed | hapi-fhir-structures-dstu3/src/test/java/ca/uhn/fhir/parser/JsonParserDstu3Test.java:386-416 | Every catalog type has distinct, plain field names, and its `value[x]` keys cannot be mistaken for other fields. |
| Json.Get | hapi-fhir-structures-dstu3/src/test/java/ca/uhn/fhir/parser/JsonParserDstu3Test.java:268 | Infrastructure for reading objects: looking up a key finds a member with that key, and finds nothing exactly when no member has it. |
| Json.GetAppend | hapi-fhir-structures-dstu3/src/test/java/ca/uhn/fhir/parser/JsonParserDstu3Test.java:268 | Infrastructure for reading objects: looking up a key in two lists of members finds it in the first list before the second. |
| Scenarios.EmptyResourceText | hapi-fhir-structures-dstu3/src/test/java/ca/uhn/fhir/parser/JsonParserDstu3Test.java:430-433 | A resource whose fields are all empty is written as an object holding only its `resourceType`. |
| Scenarios.EmptyBinary | hapi-fhir-structures-dstu3/src/test/java/ca/uhn/fhir/parser/JsonParserDstu3Test.java:430-433 | An empty Binary is written as `{"resourceType":"Binary"}`. |
| Scenarios.PatientSummary | hapi-fhir-structures-dstu3/src/test/java/ca/uhn/fhir/parser/JsonParserDstu3Test.java:613-631 | In summary mode, a Patient keeps its names, loses its narrative and marital status, and carries the subsetted tag. |
| Scenarios.PatientNarrativeSuppressed | hapi-fhir-structures-dstu3/src/test/java/ca/uhn/fhir/parser/JsonParserDstu3Test.java:582-598 | With narratives suppressed, a Patient loses only its narrative, keeps its names and marital status, and carries the subsetted tag. |
| Scenarios.StarPatterns | hapi-fhir-structures-dstu3/src/test/java/ca/uhn/fhir/parser/JsonParserDstu3Test.java:725 | `*.meta` and `*.id` split into `*` plus the field name. |
| PruningCases.EmptyAfterPruning | hapi-fhir-structures-dstu3/src/test/java/ca/uhn/fhir/parser/JsonParserDstu3Test.java:797-815 | A resource whose every field prunes to nothing is written as its `resourceType` alone. |
| PruningCases.NullExtensionDropped | hapi-fhir-structures-dstu3/src/test/java/ca/uhn/fhir/parser/JsonParserDstu3Test.java:797-815 | An extension with a url but no value, an unset string value or an empty string value is dropped. |
| PruningCases.NullExtensionText | hapi-fhir-structures-dstu3/src/test/java/ca/uhn/fhir/parser/JsonParserDstu3Test.java:797-815 | A Patient whose only extension has no value is written as `{"resourceType":"Patient"}`. |
| PruningCases.EmptyTagsDropped | hapi-fhir-structures-dstu3/src/test/java/ca/uhn/fhir/parser/JsonParserDstu3Test.java:440-450 | An empty coding and a display-only coding are both dropped from the tags. |
| PruningCases.SchemeTagKept | hapi-fhir-structures-dstu3/src/test/java/ca/uhn/fhir/parser/JsonParserDstu3Test.java:456-468 | A tag with system and code stays; the display-only tag next to it is dropped. |
| PruningCases.EmptyTagMetaDropped | hapi-fhir-structures-dstu3/src/test/java/ca/uhn/fhir/parser/JsonParserDstu3Test.java:440-450 | A meta whose tags are all dropped is dropped itself. |
| PruningCases.EmptyTagText | hapi-fhir-structures-dstu3/src/test/java/ca/uhn/fhir/parser/JsonParserDstu3Test.java:440-450 | A Patient whose meta holds only empty and display-only tags is written as `{"resourceType":"Patient"}`, with no tag. |
| ValueCases.FamiliesPruned | hapi-fhir-structures-dstu3/src/test/java/ca/uhn/fhir/parser/JsonParserDstu3Test.java:258-264 | Of the four family parts, the one with nothing in it is dropped and the other three stay in order. |
| ValueCases.WrittenValues | hapi-fhir-structures-dstu3/src/test/java/ca/uhn/fhir/parser/JsonParserDstu3Test.java:268 | The family value array is `[null,"V1",null]`. |
| ValueCases.WrittenCompanions | hapi-fhir-structures-dstu3/src/test/java/ca/uhn/fhir/parser/JsonParserDstu3Test.java:268 | If the family companion array is written, it has three entries and none of them is `null`. |
| ValueCases.WrittenCompanionsRead | hapi-fhir-structures-dstu3/src/test/java/ca/uhn/fhir/parser/JsonParserDstu3Test.java:268-283 | With well-typed extensions the family companion array is written with three entries, none of them `null`, and reads back as the ids `f0`, `f1`, none with each part's own extensions. |
| ValueCases.WrittenMerged | hapi-fhir-structures-dstu3/src/test/java/ca/uhn/fhir/parser/JsonParserDstu3Test.java:271-299 | Merging the read values and companions gives three parts with the same values, ids and extensions at each index. |
| ValueCases.WrittenValuesRead | hapi-fhir-structures-dstu3/src/test/java/ca/uhn/fhir/parser/JsonParserDstu3Test.java:271-285 | `[null,"V1",null]` reads as no value, `V1`, no value. |
| ValueCases.StringValuesJson | hapi-fhir-structures-dstu3/src/test/java/ca/uhn/fhir/parser/JsonParserDstu3Test.java:268 | For a string-typed field, entry `i` of the value array is item `i`'s value as a string, or `null`. |
| ValueCases.StringValuesRead | hapi-fhir-structures-dstu3/src/test/java/ca/uhn/fhir/parser/JsonParserDstu3Test.java:271-299 | An array of strings and `null`s reads entry by entry: a string is a value, `null` is none. |
| DecimalCases.DecimalsAreLexemes | hapi-fhir-structures-dstu3/src/test/java/ca/uhn/fhir/parser/JsonParserDstu3Test.java:818-838 | `0.000000000000000100` and `0.0000000000000001` are valid JSON numbers. |
| DecimalCases.DecimalRoundTrip | hapi-fhir-structures-dstu3/src/test/java/ca/uhn/fhir/parser/JsonParserDstu3Test.java:1370-1380 | An Observation with a decimal quantity reads back with the decimal text unchanged. |
| DecimalCases.ObservationJson | hapi-fhir-structures-dstu3/src/test/java/ca/uhn/fhir/parser/JsonParserDstu3Test.java:818-826 | The Observation is written as `resourceType` followed by `valueQuantity` holding the number. |
| DecimalCases.LongDecimalText | hapi-fhir-structures-dstu3/src/test/java/ca/uhn/fhir/parser/JsonParserDstu3Test.java:818-826 | `0.000000000000000100` is written exactly as `{"resourceType":"Observation","valueQuantity":{"value":0.000000000000000100}}`. |
| DecimalCases.LongDecimalRead | hapi-fhir-structures-dstu3/src/test/java/ca/uhn/fhir/parser/JsonParserDstu3Test.java:1370-1375 | That text reads as the Observation whose decimal text is `0.000000000000000100`. |
| DecimalCases.ShortDecimalText | hapi-fhir-structures-dstu3/src/test/java/ca/uhn/fhir/parser/JsonParserDstu3Test.java:829-838 | `0.0000000000000001` is written back exactly as it was read. |
| DecimalCases.ShortDecimalRead | hapi-fhir-structures-dstu3/src/test/java/ca/uhn/fhir/parser/JsonParserDstu3Test.java:829-833 | `{"resourceType":"Observation","valueQuantity":{"value":0.0000000000000001}}` reads as the Observation with that decimal text. |
| ContainedCases.PatientTargets | hapi-fhir-structures-dstu3/src/test/java/ca/uhn/fhir/parser/JsonParserDstu3Test.java:386-390 | The Patient's only link target is the Condition. |
| ContainedCases.ConditionContained | hapi-fhir-structures-dstu3/src/test/java/ca/uhn/fhir/parser/JsonParserDstu3Test.java:386-416 | The Condition is the only contained resource, with the id `1`, and a link to it becomes `#1`. |
| ContainedCases.LinkReplaced | hapi-fhir-structures-dstu3/src/test/java/ca/uhn/fhir/parser/JsonParserDstu3Test.java:386-416 | The extension keeps its url and its value becomes a Reference to `#1`; the birth date is unchanged. |
| ContainedCases.SingleTarget | hapi-fhir-structures-dstu3/src/test/java/ca/uhn/fhir/parser/JsonParserDstu3Test.java:386-416 | A resource with nothing contained yet and one link target contains that target as `1`. |
| ErrorCases.UnexpectedStart | hapi-fhir-structures-dstu3/src/test/java/ca/uhn/fhir/parser/JsonParserDstu3Test.java:1256-1258 | Text that starts with a character no JSON value can start with fails to parse with a format error. |
| ErrorCases.NotJson | hapi-fhir-structures-dstu3/src/test/java/ca/uhn/fhir/parser/JsonParserDstu3Test.java:1256-1258 | Reading `FOO` fails with a format error. |
| ErrorCases.ContainedFails | hapi-fhir-structures-dstu3/src/test/java/ca/uhn/fhir/parser/JsonParserDstu3Test.java:1357-1367 | The Patient's contained field fails with the missing-resourceType message. |
| ErrorCases.UntypedContained | hapi-fhir-structures-dstu3/src/test/java/ca/uhn/fhir/parser/JsonParserDstu3Test.java:1357-1367 | The Patient object whose contained entry has no `resourceType` fails with exactly the missing-resourceType message. |
| ErrorCases.UntypedContainedText | hapi-fhir-structures-dstu3/src/test/java/ca/uhn/fhir/parser/JsonParserDstu3Test.java:1357-1367 | Reading the text of that object fails with the same message. |
| PathCases.DivergedNoneDenied | hapi-fhir-structures-dstu3/src/test/java/ca/uhn/fhir/parser/JsonParserDstu3Test.java:715-745 | Below a path that every deny pattern diverges from, nothing is denied. |
| PathCases.CoveredAllAllowed | hapi-fhir-structures-dstu3/src/test/java/ca/uhn/fhir/parser/JsonParserDstu3Test.java:768-780 | Below a path an allow pattern covers, everything is allowed. |
| PathCases.UntouchedSlot | hapi-fhir-structures-dstu3/src/test/java/ca/uhn/fhir/parser/JsonParserDstu3Test.java:715-781 | A field that no deny pattern reaches and that is allowed is written unchanged. |
| PathCases.IdMetaDenied | hapi-fhir-structures-dstu3/src/test/java/ca/uhn/fhir/parser/JsonParserDstu3Test.java:715-767 | `*.meta`/`*.id` and `Patient.meta`/`Patient.id` both empty a Patient's id and meta and keep its names and addresses. |
| PathCases.FamilyRemoved | hapi-fhir-structures-dstu3/src/test/java/ca/uhn/fhir/parser/JsonParserDstu3Test.java:746-754 | `Patient.name.family` empties `family` in a name. |
| PathCases.GivenKept | hapi-fhir-structures-dstu3/src/test/java/ca/uhn/fhir/parser/JsonParserDstu3Test.java:746-754 | `Patient.name.family` keeps `given` in a name. |
| PathCases.FamilyDenied | hapi-fhir-structures-dstu3/src/test/java/ca/uhn/fhir/parser/JsonParserDstu3Test.java:746-754 | Under `Patient.name.family`, every name of the Patient loses its family and keeps its given names. |
| PathCases.NameAllowedMetaDenied | hapi-fhir-structures-dstu3/src/test/java/ca/uhn/fhir/parser/JsonParserDstu3Test.java:768-780 | Allowing `Patient.name` and denying `Patient.meta` keeps the names and the id and empties the addresses and the meta. |
| PrimitiveCases.CompanionOnly | hapi-fhir-structures-dstu3/src/test/java/ca/uhn/fhir/parser/JsonParserDstu3Test.java:472-482 | A primitive with an extension but no value is written as its `_` companion alone. |
| PrimitiveCases.ValueAndCompanion | hapi-fhir-structures-dstu3/src/test/java/ca/uhn/fhir/parser/JsonParserDstu3Test.java:484-496 | A primitive with a value and an extension is written as its value and then its `_` companion. |
| PrimitiveCases.StringExtensionJson | hapi-fhir-structures-dstu3/src/test/java/ca/uhn/fhir/parser/JsonParserDstu3Test.java:472-482 | An extension with a string value is written as its `url` and then `valueString`. |
| PrimitiveCases.ExtensionOnlyJson | hapi-fhir-structures-dstu3/src/test/java/ca/uhn/fhir/parser/JsonParserDstu3Test.java:472-482 | The Conformance whose `acceptUnknown` has only an extension is written as `resourceType` and then `_acceptUnknown`. |
| PrimitiveCases.ValueAndExtensionJson | hapi-fhir-structures-dstu3/src/test/java/ca/uhn/fhir/parser/JsonParserDstu3Test.java:484-496 | With the value `elements` as well, it is written as `resourceType`, `acceptUnknown` and `_acceptUnknown`, in that order. |
| PrimitiveCases.ExtensionOnlyText | hapi-fhir-structures-dstu3/src/test/java/ca/uhn/fhir/parser/JsonParserDstu3Test.java:472-482 | The first document is exactly `{"resourceType":"Conformance","_acceptUnknown":{"extension":[{"url":"http://foo","valueString":"AAA"}]}}`. |
| PrimitiveCases.ValueAndExtensionText | hapi-fhir-structures-dstu3/src/test/java/ca/uhn/fhir/parser/JsonParserDstu3Test.java:484-496 | The second document is exactly `{"resourceType":"Conformance","acceptUnknown":"elements","_acceptUnknown":{"extension":[{"url":"http://foo","valueString":"AAA"}]}}`. |

## Left out

- The websocket integration test is not modelled: it opens network
  connections to a server and does not exercise the codec.
- XML encoding and namespaces are not modelled; only JSON is in scope.
- Pretty printing is not modelled. The model writes compact text only,
  and every exact-text case is a compact one.
- JsonText.ParseStringBody: an escaped surrogate that is not half of a
  high-then-low pair is refused. The Java parser keeps such a lone UTF-16
  unit inside a string, but the model's characters are Unicode scalar
  values and cannot hold one.
- Narrative generation through a template engine is not modelled. The
  narrative is a `Narrative` datatype whose `div` is kept as text.
- `fhir_comments` is not modelled: comments are neither read nor
  written.
- base64 content, `IdType` URL parsing and versioned ids are not
  modelled. Ids are plain strings.
- Enumeration binding and custom resource types are not modelled: the
  catalog is fixed, and codes are plain strings.
- Tests that read example files from the classpath are not modelled.
  Those files are not part of this model.
- Decimal arithmetic is not modelled. A decimal is its lexeme; it is
  never converted to a binary number, and that is what keeps
  `0.000000000000000100` intact.
- The remaining tests of the class are not modelled, and the catalog
  does not cover the types they use:
  - meta profiles, security labels and tag encoding;
  - bundles and Parameters;
  - ids derived from URLs or UUIDs;
  - linkage;
  - parsing the example metadata, contained and extension fixtures;
  - custom report types.
- The QuestionnaireResponse test of a `_linkId` companion is not
  modelled: QuestionnaireResponse is not in the catalog. The same
  pattern is proved on Conformance by PrimitiveCases.ValueAndCompanion
  and PrimitiveCases.ValueAndExtensionText.
- Decoder.DecodeResource: keys that no field claims are ignored rather
  than reported. This includes a `value[x]` key whose suffix names no
  allowed type. This follows the parser's default lenient error handler;
  a strict handler that fails on such keys is not modelled.
- Decoder.DecodeResource: a JSON value of the wrong kind for its field
  fails with the message format "Syntax error parsing JSON FHIR
  structure: Expected … at element '…', found '…'", following the message
  the test class quotes for a misplaced object.
- PathFilter.FilterAt: the filter does not look inside contained
  resources or into the extensions of primitives; these are written
  whole.
- Containment.Contain: targets are gathered into the top-level
  resource only. Binary, the one resource type in the catalog without a
  `contained` field, keeps its direct links.
- Containment.Contain: a linked resource that already has an id is
  referred to by that id and is not contained. Resolving such an id
  against a server is not modelled.
- Containment.Dedupe: link targets are told apart by value, not by
  object identity. Two separately built but equal resources linked from
  one tree are contained once, and both links point at the same local
  id. The parser keeps separate objects apart and would contain two.
- Codec.Decode: a `#id` reference is read as a plain Reference string.
  It is not linked back to the contained resource it names. The test
  class's own check of that re-linking is disabled.
- Codec.EncodeDecode: stated for well-typed trees, and a tree that
  still holds a direct link is not well-typed. For such a tree, what is
  proved is the containment step (Containment.ContainNoLinks,
  Containment.LinkResolves); the text round trip is not stated.
- ErrorCases.UntypedContainedText: the contained-type error is proved on
  the compact text of the test's object rather than on the test's
  spaced string. The parser treats the whitespace as insignificant.
- ContainedCases.ConditionContained: the containment is proved on the
  element tree; the key order of the written text is not proved for
  this case.
- Projection.SubsettedAdded: the tag is added to the top-level resource
  only, and only when `meta` itself is not denied. A deny-list alone never
  adds the tag, even when it drops a field; any allow-list adds it, even
  when nothing is dropped. The test class does not check for the tag when
  only a deny-list is set, except where `meta` itself is denied.
- ValueCases.WrittenCompanions: this holds only when the array is
  written; ValueCases.WrittenCompanionsRead states that it is written when
  the extensions are well typed. Neither spells out the exact text of the
  companion objects; they are pinned down by what they read back as.
