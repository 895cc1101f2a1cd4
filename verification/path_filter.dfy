/** The element filter set on an encoder: a deny-list and an allow-list of
    dotted paths such as `Patient.name.family` or `*.meta`.

    A path names a field by the resource type followed by field names; a
    `*` in first place stands for any resource type. A field is left out
    when a deny pattern is its path or the path of one of its ancestors.
    When an allow-list is given, a field is written only when an allow
    pattern is its path or that of an ancestor (everything below an
    allowed field is written) or of a descendant (the fields leading to
    an allowed field are written). The id and the meta of the resource
    itself are not subject to the allow-list. Contained resources and the
    extensions of primitives are written whole. */
module PathFilter {
  import opened Catalog
  import opened Elements

  type Path = seq<string>

  // ---------------------------------------------------------------------
  // Patterns as text

  /** The segments of a dotted pattern. */
  function Split(s: string): (r: Path)
    ensures |r| > 0
    decreases |s|
  {
    if |s| == 0 then [""]
    else
      var rest := Split(s[1..]);
      if s[0] == '.' then [""] + rest
      else [[s[0]] + rest[0]] + rest[1..]
  }

  /** The dotted text of a path. */
  function Join(segs: Path): string
    requires |segs| > 0
    decreases |segs|
  {
    if |segs| == 1 then segs[0] else segs[0] + "." + Join(segs[1..])
  }

  function Patterns(ss: seq<string>): (r: seq<Path>)
    ensures |r| == |ss| && forall i | 0 <= i < |ss| :: r[i] == Split(ss[i])
  {
    seq(|ss|, i requires 0 <= i < |ss| => Split(ss[i]))
  }

  predicate NoDot(seg: string) {
    forall i | 0 <= i < |seg| :: seg[i] != '.'
  }

  lemma {:induction false} SplitNoDots(s: string)
    ensures forall k | 0 <= k < |Split(s)| :: NoDot(Split(s)[k])
    decreases |s|
  {
    if |s| > 0 {
      SplitNoDots(s[1..]);
      var rest := Split(s[1..]);
      if s[0] != '.' {
        assert NoDot(rest[0]);
        assert NoDot([s[0]] + rest[0]) by {
          forall i | 0 <= i < |[s[0]] + rest[0]| ensures ([s[0]] + rest[0])[i] != '.' {
            if i > 0 {
              assert ([s[0]] + rest[0])[i] == rest[0][i - 1];
            }
          }
        }
      }
    }
  }

  /** Joining the segments of a pattern gives the pattern back. */
  lemma {:induction false} JoinSplit(s: string)
    ensures Join(Split(s)) == s
    decreases |s|
  {
    if |s| > 0 {
      JoinSplit(s[1..]);
      var rest := Split(s[1..]);
      if s[0] == '.' {
        assert ([""] + rest)[1..] == rest;
        assert "" + "." + s[1..] == s;
      } else {
        var r := Split(s);
        assert r[0] == [s[0]] + rest[0] && r[1..] == rest[1..];
        if |rest| == 1 {
          assert [s[0]] + rest[0] == s;
        } else {
          assert Join(rest) == rest[0] + "." + Join(rest[1..]);
          assert [s[0]] + rest[0] + "." + Join(rest[1..]) == [s[0]] + (rest[0] + "." + Join(rest[1..]));
          assert [s[0]] + s[1..] == s;
        }
      }
    }
  }

  /** Splitting text that starts with a dot-free word. */
  lemma {:induction false} SplitWord(w: string, s: string)
    requires NoDot(w)
    ensures Split(w + s) == [w + Split(s)[0]] + Split(s)[1..]
    decreases |w|
  {
    if |w| > 0 {
      assert (w + s)[1..] == w[1..] + s;
      assert w[0] != '.';
      SplitWord(w[1..], s);
      assert [w[0]] + (w[1..] + Split(s)[0]) == w + Split(s)[0];
    } else {
      assert w + s == s;
      assert w + Split(s)[0] == Split(s)[0];
      assert [Split(s)[0]] + Split(s)[1..] == Split(s);
    }
  }

  /** Splitting the dotted text of dot-free segments gives the segments
      back. */
  lemma {:induction false} SplitJoin(segs: Path)
    requires |segs| > 0 && forall k | 0 <= k < |segs| :: NoDot(segs[k])
    ensures Split(Join(segs)) == segs
    decreases |segs|
  {
    if |segs| == 1 {
      SplitWord(segs[0], "");
      assert segs[0] + "" == segs[0];
    } else {
      var tail := Join(segs[1..]);
      SplitJoin(segs[1..]);
      assert Split("." + tail) == [""] + Split(tail) by {
        assert ("." + tail)[1..] == tail;
      }
      assert segs[0] + "." + tail == segs[0] + ("." + tail);
      SplitWord(segs[0], "." + tail);
      assert segs[0] + "" == segs[0];
      assert [segs[0]] + segs[1..] == segs;
    }
  }

  // ---------------------------------------------------------------------
  // Matching

  predicate SegmentFits(p: Path, path: Path, i: nat)
    requires i < |p| && i < |path|
  {
    p[i] == path[i] || (i == 0 && p[0] == "*")
  }

  /** Pattern `p` names `path` or one of its ancestors. */
  predicate Covers(p: Path, path: Path) {
    |p| <= |path| && forall i | 0 <= i < |p| :: SegmentFits(p, path, i)
  }

  /** `path` leads to what pattern `p` names. */
  predicate Leads(path: Path, p: Path) {
    |path| <= |p| && forall i | 0 <= i < |path| :: SegmentFits(p, path, i)
  }

  predicate Denied(deny: seq<Path>, path: Path) {
    exists p | p in deny :: Covers(p, path)
  }

  predicate Allowed(allow: seq<Path>, path: Path) {
    |allow| == 0 || exists p | p in allow :: Covers(p, path) || Leads(path, p)
  }

  /** The resource's own id and meta, which the allow-list does not
      remove. */
  predicate Exempt(path: Path) {
    |path| == 2 && (path[1] == "id" || path[1] == "meta")
  }

  /** A leading `*` matches every resource type. */
  lemma StarCovers(rest: Path, path: Path)
    requires |path| > 0
    ensures Covers(["*"] + rest, path) <==> Covers([path[0]] + rest, path)
  {
    var p1, p2 := ["*"] + rest, [path[0]] + rest;
    if Covers(p1, path) {
      forall i | 0 <= i < |p2| ensures SegmentFits(p2, path, i) {
        assert SegmentFits(p1, path, i);
      }
    }
    if Covers(p2, path) {
      forall i | 0 <= i < |p1| ensures SegmentFits(p1, path, i) {
        assert SegmentFits(p2, path, i);
      }
    }
  }

  // ---------------------------------------------------------------------
  // Filtering a tree

  /** The name of field `i` of type `t`. */
  function FieldName(t: TypeName, i: nat): string {
    if i < |FieldsOf(t)| then FieldsOf(t)[i].name else ""
  }

  /** Only datatypes are filtered inside; a contained resource and a
      primitive are kept whole. */
  predicate Descends(x: Element) {
    x.Comp? && !IsResourceType(x.typeName)
  }

  /** The filtered form of `e`, found at `path`. */
  function FilterAt(e: Element, path: Path, deny: seq<Path>, allow: seq<Path>): (r: Element)
    ensures TypeOf(r) == TypeOf(e) && r.Comp? == e.Comp? && r.Prim? == e.Prim? && r.Linked? == e.Linked?
    ensures r.Comp? ==> |r.slots| == |e.slots|
    decreases e, 1
  {
    match e
    case Comp(t, slots) =>
      Comp(t, seq(|slots|, i requires 0 <= i < |slots| => FilterSlot(path + [FieldName(t, i)], slots[i], deny, allow)))
    case _ => e
  }

  function FilterSlot(path: Path, s: Slot, deny: seq<Path>, allow: seq<Path>): (r: Slot)
    ensures |r.items| == |s.items| || |r.items| == 0
    decreases s, 0
  {
    if Denied(deny, path) then Slot([])
    else if Exempt(path) then Slot(FilterItems(path, s.items, deny, []))
    else if Allowed(allow, path) then Slot(FilterItems(path, s.items, deny, allow))
    else Slot([])
  }

  function FilterItems(path: Path, items: seq<Element>, deny: seq<Path>, allow: seq<Path>): (r: seq<Element>)
    ensures |r| == |items|
    decreases items, 0
  {
    seq(|items|, j requires 0 <= j < |items| =>
      if Descends(items[j]) then FilterAt(items[j], path, deny, allow) else items[j])
  }

  /** The filtered form of a whole resource. */
  function FilterResource(e: Element, deny: seq<Path>, allow: seq<Path>): (r: Element)
    requires e.Comp?
    ensures r.Comp? && r.typeName == e.typeName && |r.slots| == |e.slots|
  {
    FilterAt(e, [Name(e.typeName)], deny, allow)
  }

  // ---------------------------------------------------------------------
  // What the filter guarantees

  /** No field on a denied path has content, at `path` or below. */
  predicate NoneDenied(e: Element, path: Path, deny: seq<Path>)
    decreases e, 1
  {
    match e
    case Comp(t, slots) =>
      forall i | 0 <= i < |slots| :: SlotNoneDenied(path + [FieldName(t, i)], slots[i], deny)
    case _ => true
  }

  predicate SlotNoneDenied(path: Path, s: Slot, deny: seq<Path>)
    decreases s, 0
  {
    && (Denied(deny, path) ==> |s.items| == 0)
    && (forall x | x in s.items && Descends(x) :: NoneDenied(x, path, deny))
  }

  /** Every field with content, at `path` or below, is allowed, or lies
      in the resource's own id or meta. */
  predicate AllAllowed(e: Element, path: Path, allow: seq<Path>)
    decreases e, 1
  {
    match e
    case Comp(t, slots) =>
      forall i | 0 <= i < |slots| :: SlotAllAllowed(path + [FieldName(t, i)], slots[i], allow)
    case _ => true
  }

  predicate SlotAllAllowed(path: Path, s: Slot, allow: seq<Path>)
    decreases s, 0
  {
    || Exempt(path)
    || |s.items| == 0
    || (Allowed(allow, path) && forall x | x in s.items && Descends(x) :: AllAllowed(x, path, allow))
  }

  lemma {:induction false} FilterNoneDenied(e: Element, path: Path, deny: seq<Path>, allow: seq<Path>)
    ensures NoneDenied(FilterAt(e, path, deny, allow), path, deny)
    decreases e, 1
  {
    if e.Comp? {
      var r := FilterAt(e, path, deny, allow);
      forall i | 0 <= i < |e.slots| ensures SlotNoneDenied(path + [FieldName(e.typeName, i)], r.slots[i], deny) {
        var q := path + [FieldName(e.typeName, i)];
        assert r.slots[i] == FilterSlot(q, e.slots[i], deny, allow);
        FilterSlotNoneDenied(q, e.slots[i], deny, allow);
      }
    }
  }

  lemma {:induction false} FilterSlotNoneDenied(path: Path, s: Slot, deny: seq<Path>, allow: seq<Path>)
    ensures SlotNoneDenied(path, FilterSlot(path, s, deny, allow), deny)
    decreases s, 0
  {
    if !Denied(deny, path) {
      var a := if Exempt(path) then [] else allow;
      if Exempt(path) || Allowed(allow, path) {
        assert FilterSlot(path, s, deny, allow) == Slot(FilterItems(path, s.items, deny, a));
        FilterItemsNoneDenied(path, s.items, deny, a);
      }
    }
  }

  lemma {:induction false} FilterItemsNoneDenied(path: Path, items: seq<Element>, deny: seq<Path>, allow: seq<Path>)
    ensures forall x | x in FilterItems(path, items, deny, allow) && Descends(x) :: NoneDenied(x, path, deny)
    decreases items, 0
  {
    var r := FilterItems(path, items, deny, allow);
    forall j | 0 <= j < |items| && Descends(r[j]) ensures NoneDenied(r[j], path, deny) {
      FilterNoneDenied(items[j], path, deny, allow);
    }
  }

  lemma {:induction false} FilterAllAllowed(e: Element, path: Path, deny: seq<Path>, allow: seq<Path>)
    ensures AllAllowed(FilterAt(e, path, deny, allow), path, allow)
    decreases e, 1
  {
    if e.Comp? {
      var r := FilterAt(e, path, deny, allow);
      forall i | 0 <= i < |e.slots| ensures SlotAllAllowed(path + [FieldName(e.typeName, i)], r.slots[i], allow) {
        var q := path + [FieldName(e.typeName, i)];
        assert r.slots[i] == FilterSlot(q, e.slots[i], deny, allow);
        FilterSlotAllAllowed(q, e.slots[i], deny, allow);
      }
    }
  }

  lemma {:induction false} FilterSlotAllAllowed(path: Path, s: Slot, deny: seq<Path>, allow: seq<Path>)
    ensures SlotAllAllowed(path, FilterSlot(path, s, deny, allow), allow)
    decreases s, 0
  {
    if !Denied(deny, path) && !Exempt(path) && Allowed(allow, path) {
      assert FilterSlot(path, s, deny, allow) == Slot(FilterItems(path, s.items, deny, allow));
      FilterItemsAllAllowed(path, s.items, deny, allow);
    }
  }

  lemma {:induction false} FilterItemsAllAllowed(path: Path, items: seq<Element>, deny: seq<Path>, allow: seq<Path>)
    ensures forall x | x in FilterItems(path, items, deny, allow) && Descends(x) :: AllAllowed(x, path, allow)
    decreases items, 0
  {
    var r := FilterItems(path, items, deny, allow);
    forall j | 0 <= j < |items| && Descends(r[j]) ensures AllAllowed(r[j], path, allow) {
      FilterAllAllowed(items[j], path, deny, allow);
    }
  }

  /** The filter removes nothing that is neither denied nor outside the
      allow-list. */
  lemma {:induction false} FilterKeeps(e: Element, path: Path, deny: seq<Path>, allow: seq<Path>)
    requires NoneDenied(e, path, deny) && AllAllowed(e, path, allow)
    ensures FilterAt(e, path, deny, allow) == e
    decreases e, 1
  {
    if e.Comp? {
      var r := FilterAt(e, path, deny, allow);
      forall i | 0 <= i < |e.slots| ensures r.slots[i] == e.slots[i] {
        var q := path + [FieldName(e.typeName, i)];
        assert r.slots[i] == FilterSlot(q, e.slots[i], deny, allow);
        FilterSlotKeeps(q, e.slots[i], deny, allow);
      }
      assert r.slots == e.slots;
    }
  }

  lemma {:induction false} FilterSlotKeeps(path: Path, s: Slot, deny: seq<Path>, allow: seq<Path>)
    requires SlotNoneDenied(path, s, deny) && SlotAllAllowed(path, s, allow)
    ensures FilterSlot(path, s, deny, allow) == s
    decreases s, 0
  {
    if |s.items| > 0 {
      if Exempt(path) {
        forall x | x in s.items && Descends(x) ensures AllAllowed(x, path, []) {
          NoPatternsNoChange(x, path);
        }
        FilterItemsKeeps(path, s.items, deny, []);
      } else {
        FilterItemsKeeps(path, s.items, deny, allow);
      }
    }
  }

  lemma {:induction false} FilterItemsKeeps(path: Path, items: seq<Element>, deny: seq<Path>, allow: seq<Path>)
    requires forall x | x in items && Descends(x) :: NoneDenied(x, path, deny) && AllAllowed(x, path, allow)
    ensures FilterItems(path, items, deny, allow) == items
    decreases items, 0
  {
    var r := FilterItems(path, items, deny, allow);
    forall j | 0 <= j < |items| ensures r[j] == items[j] {
      if Descends(items[j]) {
        assert items[j] in items;
        FilterKeeps(items[j], path, deny, allow);
      }
    }
  }

  /** A field that is empty stays empty, and one with content is either
      kept at the same length or emptied. */
  lemma FilterSlotAt(e: Element, path: Path, deny: seq<Path>, allow: seq<Path>, i: nat)
    requires e.Comp? && i < |e.slots|
    ensures FilterAt(e, path, deny, allow).slots[i] == FilterSlot(path + [FieldName(e.typeName, i)], e.slots[i], deny, allow)
    ensures |FilterAt(e, path, deny, allow).slots[i].items| == 0 || |FilterAt(e, path, deny, allow).slots[i].items| == |e.slots[i].items|
  {
  }

  /** Filtering twice is filtering once. */
  lemma FilterIdempotent(e: Element, path: Path, deny: seq<Path>, allow: seq<Path>)
    ensures FilterAt(FilterAt(e, path, deny, allow), path, deny, allow) == FilterAt(e, path, deny, allow)
  {
    FilterNoneDenied(e, path, deny, allow);
    FilterAllAllowed(e, path, deny, allow);
    FilterKeeps(FilterAt(e, path, deny, allow), path, deny, allow);
  }

  /** With no patterns at all, nothing is removed. */
  lemma {:induction false} NoPatternsNoChange(e: Element, path: Path)
    ensures NoneDenied(e, path, []) && AllAllowed(e, path, [])
    decreases e, 1
  {
    if e.Comp? {
      forall i | 0 <= i < |e.slots|
        ensures SlotNoneDenied(path + [FieldName(e.typeName, i)], e.slots[i], [])
        ensures SlotAllAllowed(path + [FieldName(e.typeName, i)], e.slots[i], [])
      {
        forall x | x in e.slots[i].items && Descends(x)
          ensures NoneDenied(x, path + [FieldName(e.typeName, i)], [])
          ensures AllAllowed(x, path + [FieldName(e.typeName, i)], [])
        {
          NoPatternsNoChange(x, path + [FieldName(e.typeName, i)]);
        }
      }
    }
  }

  lemma FilterNothing(e: Element, path: Path)
    ensures FilterAt(e, path, [], []) == e
  {
    NoPatternsNoChange(e, path);
    FilterKeeps(e, path, [], []);
  }

  /** The filter keeps the fit with the catalog. */
  lemma {:induction false} FilterWellTyped(e: Element, path: Path, deny: seq<Path>, allow: seq<Path>)
    requires WellTyped(e)
    ensures WellTyped(FilterAt(e, path, deny, allow))
    decreases e, 1
  {
    if e.Comp? {
      var t := e.typeName;
      var r := FilterAt(e, path, deny, allow);
      forall i | 0 <= i < |e.slots| ensures SlotTyped(Lookup(t).fields[i], r.slots[i]) {
        var q := path + [FieldName(t, i)];
        assert r.slots[i] == FilterSlot(q, e.slots[i], deny, allow);
        FilterSlotTyped(Lookup(t).fields[i], q, e.slots[i], deny, allow);
      }
    }
  }

  lemma {:induction false} FilterSlotTyped(f: FieldDef, path: Path, s: Slot, deny: seq<Path>, allow: seq<Path>)
    requires SlotTyped(f, s)
    ensures SlotTyped(f, FilterSlot(path, s, deny, allow))
    decreases s, 0
  {
    var a := if Exempt(path) then [] else allow;
    var kept := FilterItems(path, s.items, deny, a);
    forall j | 0 <= j < |kept| ensures ItemFits(f.ftype, kept[j]) && WellTyped(kept[j]) {
      assert s.items[j] in s.items;
      if Descends(s.items[j]) {
        FilterWellTyped(s.items[j], path, deny, a);
      }
    }
    assert FilterSlot(path, s, deny, allow) == Slot([]) || FilterSlot(path, s, deny, allow) == Slot(kept);
  }
}
