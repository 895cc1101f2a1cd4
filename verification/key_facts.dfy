/** Which JSON keys each field writes and reads, and why, in a well-formed
    field list, a field never reads a key that another field writes. This
    is what lets every field be decoded from the whole object as if it
    were alone. */
module KeyFacts {
  import opened Catalog

  /** The keys the decoder consults for field `f`: its name and companion
      for a plain field; anything starting with its name or companion for
      a choice field. */
  predicate Reads(f: FieldDef, k: string) {
    if f.ftype.Choice? then IsPrefix(f.name, k) || IsPrefix(CompanionKey(f.name), k)
    else k == f.name || k == CompanionKey(f.name)
  }

  /** The keys the encoder may use for field `f` holding a value of type
      `t`. */
  predicate Writes(f: FieldDef, t: TypeName, k: string) {
    k == ValueKey(f, t) || k == CompanionKey(ValueKey(f, t))
  }

  /** What the round trip needs to know about a single field. */
  predicate FieldPlain(f: FieldDef) {
    && |f.name| > 0 && f.name[0] != '_'
    && (f.ftype.Choice? ==> !f.repeating && ChoicesDistinct(f.ftype.choices))
  }

  lemma {:induction false} PrefixMeans(p: string, s: string)
    ensures IsPrefix(p, s) <==> |p| <= |s| && s[..|p|] == p
    decreases |p|
  {
    if |p| > 0 && |s| > 0 {
      PrefixMeans(p[1..], s[1..]);
      if |p| <= |s| {
        assert s[..|p|] == [s[0]] + s[1..][..|p| - 1];
        assert p == [p[0]] + p[1..];
      }
    }
  }

  lemma FieldPlainOf(fields: seq<FieldDef>, i: nat)
    requires FieldsWellFormed(fields) && i < |fields|
    ensures FieldPlain(fields[i])
  {
  }

  /** A field reads every key it writes. */
  lemma ReadsOwn(f: FieldDef, t: TypeName, k: string)
    requires Writes(f, t, k)
    ensures Reads(f, k)
  {
    if f.ftype.Choice? {
      var n := f.name;
      PrefixMeans(n, n + Capitalize(Name(t)));
      PrefixMeans(CompanionKey(n), CompanionKey(n) + Capitalize(Name(t)));
      assert CompanionKey(n + Capitalize(Name(t))) == CompanionKey(n) + Capitalize(Name(t));
    }
  }

  /** Nobody reads the `resourceType` discriminator. */
  lemma NotReadsResourceType(fields: seq<FieldDef>, i: nat)
    requires FieldsWellFormed(fields) && i < |fields|
    ensures !Reads(fields[i], "resourceType")
  {
    var n := fields[i].name;
    PrefixMeans("resourceType", n);
    PrefixMeans(CompanionKey(n), "resourceType");
    if !fields[i].ftype.Choice? {
      assert n != "resourceType";
    }
  }

  /** A value key of field `j` is not the name of a different plain
      field `i`. */
  lemma ValueKeyNotName(fields: seq<FieldDef>, i: nat, j: nat, t: TypeName)
    requires FieldsWellFormed(fields) && i < |fields| && j < |fields| && i != j
    ensures ValueKey(fields[j], t) != fields[i].name
  {
    var ni, nj := fields[i].name, fields[j].name;
    if fields[j].ftype.Choice? {
      PrefixMeans(nj, ni);
      assert (nj + Capitalize(Name(t)))[..|nj|] == nj;
    }
  }

  /** The name of a different choice field `i` does not start a value key
      of field `j`. */
  lemma ChoiceNameNotPrefix(fields: seq<FieldDef>, i: nat, j: nat, t: TypeName)
    requires FieldsWellFormed(fields) && i < |fields| && j < |fields| && i != j
    requires fields[i].ftype.Choice?
    ensures !IsPrefix(fields[i].name, ValueKey(fields[j], t))
  {
    var ni, nj := fields[i].name, fields[j].name;
    var kv := ValueKey(fields[j], t);
    assert !IsPrefix(ni, nj);
    PrefixMeans(ni, nj);
    PrefixMeans(ni, kv);
    if fields[j].ftype.Choice? {
      assert !IsPrefix(nj, ni);
      PrefixMeans(nj, ni);
    }
  }

  /** In a well-formed field list no field reads a key that a different
      field writes. */
  lemma ReadsOnlyOwn(fields: seq<FieldDef>, i: nat, j: nat, t: TypeName, k: string)
    requires FieldsWellFormed(fields) && i < |fields| && j < |fields| && i != j
    requires Writes(fields[j], t, k)
    ensures !Reads(fields[i], k)
  {
    var ni, nj := fields[i].name, fields[j].name;
    var kv := ValueKey(fields[j], t);
    assert kv[0] == nj[0];
    if fields[i].ftype.Choice? {
      ChoiceNameNotPrefix(fields, i, j, t);
      PrefixMeans(ni, kv);
      PrefixMeans(ni, CompanionKey(kv));
      PrefixMeans(CompanionKey(ni), kv);
      PrefixMeans(CompanionKey(ni), CompanionKey(kv));
      if |ni| <= |kv| {
        assert CompanionKey(kv)[..|ni| + 1] == CompanionKey(kv[..|ni|]);
      }
    } else {
      ValueKeyNotName(fields, i, j, t);
      assert CompanionKey(kv) != CompanionKey(ni) by {
        assert CompanionKey(kv)[1..] == kv;
      }
    }
  }
}
