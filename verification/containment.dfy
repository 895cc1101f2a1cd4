/** Turning direct resource links into contained resources.

    A reference built from a resource object rather than from a URL is a
    `Linked` element. Before a resource is written, its tree is walked
    depth-first: a linked resource that has an id is referred to by that
    id and is not written; one without an id is a target. Each distinct
    target, in the order first met, receives the next local id "1", "2",
    ... that no resource already contained uses, is appended to the
    `contained` field with that id, and every link to it becomes a
    Reference whose `reference` is `#` followed by the id. The walk goes
    into the targets too, so a target's own links are resolved the same
    way. A resource type without a `contained` field is left as it is. */
module Containment {
  import opened Results
  import opened Catalog
  import opened Elements

  lemma FieldPositions()
    ensures Fields(Reference)[ReferenceField] == FieldDef("reference", Of(String), false, true)
    ensures |Fields(Reference)| == 4
  {
  }

  // ---------------------------------------------------------------------
  // Local ids

  function DigitChar(d: nat): (c: char)
    requires d < 10
    ensures '0' <= c <= '9'
  {
    "0123456789"[d]
  }

  /** The decimal text of `n`, without leading zeros. */
  function NatToString(n: nat): (s: string)
    ensures |s| > 0 && forall i | 0 <= i < |s| :: '0' <= s[i] <= '9'
    ensures |s| == 1 <==> n < 10
  {
    if n < 10 then [DigitChar(n)]
    else NatToString(n / 10) + [DigitChar(n % 10)]
  }

  lemma DigitCharInjective(a: nat, b: nat)
    requires a < 10 && b < 10 && DigitChar(a) == DigitChar(b)
    ensures a == b
  {
  }

  /** Different numbers have different decimal texts. */
  lemma {:induction false} NatToStringInjective(a: nat, b: nat)
    requires NatToString(a) == NatToString(b)
    ensures a == b
  {
    var s := NatToString(a);
    if a < 10 {
      DigitCharInjective(a, b);
    } else {
      var sa, sb := NatToString(a / 10), NatToString(b / 10);
      assert sa == s[..|s| - 1] && sb == s[..|s| - 1];
      DigitCharInjective(a % 10, b % 10);
      NatToStringInjective(a / 10, b / 10);
    }
  }

  /** Every number from `lo` up to but not including `hi` has its text in
      `used`. */
  predicate AllUsed(lo: nat, hi: nat, used: set<string>) {
    forall n: nat | lo <= n < hi :: NatToString(n) in used
  }

  /** `count` numbers from `next` upwards, in increasing order, whose
      texts are not in `used`. */
  function FreshNumbers(count: nat, next: nat, used: set<string>): (r: seq<nat>)
    ensures |r| == count
    ensures forall i | 0 <= i < |r| :: r[i] >= next && NatToString(r[i]) !in used
    ensures forall i, j | 0 <= i < j < |r| :: r[i] < r[j]
    decreases count, |used|
  {
    if count == 0 then []
    else if NatToString(next) in used then
      var r := FreshNumbers(count, next + 1, used - {NatToString(next)});
      assert forall i | 0 <= i < |r| :: NatToString(r[i]) != NatToString(next) by {
        forall i | 0 <= i < |r| ensures NatToString(r[i]) != NatToString(next) {
          if NatToString(r[i]) == NatToString(next) {
            NatToStringInjective(r[i], next);
          }
        }
      }
      r
    else
      [next] + FreshNumbers(count - 1, next + 1, used)
  }

  lemma AllUsedWiden(lo: nat, hi: nat, small: set<string>, used: set<string>)
    requires small <= used && AllUsed(lo, hi, small)
    ensures AllUsed(lo, hi, used)
  {
  }

  lemma AllUsedExtend(lo: nat, hi: nat, small: set<string>, used: set<string>)
    requires NatToString(lo) in used && small <= used && AllUsed(lo + 1, hi, small)
    ensures AllUsed(lo, hi, used)
  {
  }

  /** No free number is skipped in `r`, chosen from `next` upwards: every
      number below the first one chosen, and every number between two
      chosen ones, is used. */
  predicate NoGap(r: seq<nat>, next: nat, used: set<string>) {
    && (|r| > 0 ==> AllUsed(next, r[0], used))
    && forall i | 0 < i < |r| :: AllUsed(r[i - 1] + 1, r[i], used)
  }

  /** Numbers chosen after skipping a used one leave no free gap. */
  lemma SkipNoGap(r: seq<nat>, next: nat, small: set<string>, used: set<string>)
    requires |r| > 0 && NatToString(next) in used && small <= used
    requires NoGap(r, next + 1, small)
    ensures NoGap(r, next, used)
  {
    AllUsedExtend(next, r[0], small, used);
    forall i | 0 < i < |r| ensures AllUsed(r[i - 1] + 1, r[i], used) {
      AllUsedWiden(r[i - 1] + 1, r[i], small, used);
    }
  }

  /** Taking the free number `next` first leaves no free gap. */
  lemma TakeNoGap(rest: seq<nat>, next: nat, used: set<string>)
    requires NoGap(rest, next + 1, used)
    ensures NoGap([next] + rest, next, used)
  {
    var r := [next] + rest;
    forall i | 0 < i < |r| ensures AllUsed(r[i - 1] + 1, r[i], used) {
      if i > 1 {
        assert AllUsed(rest[i - 2] + 1, rest[i - 1], used);
      }
    }
  }

  /** The numbers chosen skip no free number. */
  lemma {:induction false} FreshNumbersNoGap(count: nat, next: nat, used: set<string>)
    ensures NoGap(FreshNumbers(count, next, used), next, used)
    decreases count, |used|
  {
    if count == 0 {
    } else if NatToString(next) in used {
      var smaller := used - {NatToString(next)};
      var r := FreshNumbers(count, next + 1, smaller);
      assert FreshNumbers(count, next, used) == r;
      FreshNumbersNoGap(count, next + 1, smaller);
      SkipNoGap(r, next, smaller, used);
    } else {
      var rest := FreshNumbers(count - 1, next + 1, used);
      assert FreshNumbers(count, next, used) == [next] + rest;
      FreshNumbersNoGap(count - 1, next + 1, used);
      TakeNoGap(rest, next, used);
    }
  }

  /** When none of the numbers from `next` on is used, the chosen numbers
      are consecutive. */
  lemma {:induction false} FreshNumbersConsecutive(count: nat, next: nat, used: set<string>)
    ensures (forall n: nat | next <= n < next + count :: NatToString(n) !in used) ==>
      forall k | 0 <= k < count :: FreshNumbers(count, next, used)[k] == next + k
    decreases count
  {
    if count > 0 && forall n: nat | next <= n < next + count :: NatToString(n) !in used {
      assert NatToString(next) !in used;
      FreshNumbersConsecutive(count - 1, next + 1, used);
    }
  }

  /** The first free local ids, skipping those in `used`; all different
      and none empty. */
  function FreshIds(count: nat, used: set<string>): (ids: seq<string>)
    ensures |ids| == count
    ensures forall i | 0 <= i < count :: ids[i] !in used
    ensures forall i, j | 0 <= i < j < count :: ids[i] != ids[j]
    ensures forall i | 0 <= i < count :: ids[i] != ""
  {
    var nums := FreshNumbers(count, 1, used);
    var ids := seq(count, k requires 0 <= k < count => NatToString(nums[k]));
    assert forall i, j | 0 <= i < j < count :: ids[i] != ids[j] by {
      forall i, j | 0 <= i < j < count ensures ids[i] != ids[j] {
        if ids[i] == ids[j] {
          NatToStringInjective(nums[i], nums[j]);
        }
      }
    }
    ids
  }

  /** When none of "1" to the text of `count` is used, the fresh ids are
      exactly "1", "2", ... in order. */
  lemma FreshIdsNumbered(count: nat, used: set<string>)
    requires forall n: nat | 1 <= n <= count :: NatToString(n) !in used
    ensures forall k | 0 <= k < count :: FreshIds(count, used)[k] == NatToString(k + 1)
  {
    FreshNumbersConsecutive(count, 1, used);
  }

  // ---------------------------------------------------------------------
  // Finding the targets

  /** The id a resource carries, if it is not empty. */
  function IdOf(x: Element): Option<string> {
    if x.Comp? then
      match SingleValue(x, ResourceId)
      case Some(v) => if v != "" then Some(v) else None
      case None => None
    else None
  }

  /** The links met in a depth-first walk whose target has no id, each
      followed by the links inside it, in order and with repeats. */
  function Collect(e: Element): (r: seq<Element>)
    ensures forall t | t in r :: IdOf(t).None?
    decreases e, 2
  {
    match e
    case Prim(_, _, ext, _) => CollectItems(ext)
    case Comp(_, slots) => CollectSlots(slots)
    case Linked(t) => if IdOf(t).None? then [t] + Collect(t) else []
  }

  function CollectSlots(slots: seq<Slot>): (r: seq<Element>)
    ensures forall t | t in r :: IdOf(t).None?
    decreases slots, 1
  {
    if |slots| == 0 then [] else CollectItems(slots[0].items) + CollectSlots(slots[1..])
  }

  function CollectItems(items: seq<Element>): (r: seq<Element>)
    ensures forall t | t in r :: IdOf(t).None?
    decreases items, 0
  {
    if |items| == 0 then [] else Collect(items[0]) + CollectItems(items[1..])
  }

  /** The distinct elements of `xs`, each once. DedupeOrder states that
      they come in the order in which they first occur. */
  function Dedupe<T(==,!new)>(xs: seq<T>): (r: seq<T>)
    ensures forall x :: x in r <==> x in xs
    ensures forall i, j | 0 <= i < j < |r| :: r[i] != r[j]
    ensures |r| <= |xs|
  {
    if |xs| == 0 then []
    else
      var d := Dedupe(xs[..|xs| - 1]);
      assert xs == xs[..|xs| - 1] + [xs[|xs| - 1]];
      if xs[|xs| - 1] in d then d else d + [xs[|xs| - 1]]
  }

  /** The distinct elements come in the order in which they first occur
      in `xs`. */
  lemma {:induction false} DedupeOrder<T(!new)>(xs: seq<T>)
    ensures FirstMetOrder(xs, Dedupe(xs))
  {
    if |xs| > 0 {
      var init, last := xs[..|xs| - 1], xs[|xs| - 1];
      var d := Dedupe(init);
      DedupeOrder(init);
      assert FirstMetOrder(init, d);
      assert xs == init + [last];
      IndexOfInit(xs);
      var r := Dedupe(xs);
      assert r == if last in d then d else d + [last];
      forall i, j | 0 <= i < j < |r| ensures r[i] in xs && r[j] in xs && IndexOf(xs, r[i]) < IndexOf(xs, r[j]) {
        assert r[i] == d[i] && d[i] in init;
        if j < |d| {
          assert r[j] == d[j] && d[j] in init;
          assert IndexOf(init, d[i]) < IndexOf(init, d[j]);
        } else {
          assert last !in init;
          IndexOfLast(xs);
          assert IndexOf(init, d[i]) < |init|;
        }
      }
    }
  }

  /** The entries of `r` occur in `xs`, and each occurs there first before
      the entries after it. */
  predicate FirstMetOrder<T(==)>(xs: seq<T>, r: seq<T>) {
    forall i, j | 0 <= i < j < |r| :: r[i] in xs && r[j] in xs && IndexOf(xs, r[i]) < IndexOf(xs, r[j])
  }

  /** Where `x` first occurs in `xs`. */
  function IndexOf<T(==)>(xs: seq<T>, x: T): (k: nat)
    requires x in xs
    ensures k < |xs| && xs[k] == x && x !in xs[..k]
  {
    if xs[0] == x then 0
    else
      var k := IndexOf(xs[1..], x);
      assert xs[1..][..k] == xs[1..k + 1];
      k + 1
  }

  /** An element of all but the last entry occurs first where it first
      occurs in that prefix. */
  lemma {:induction false} IndexOfPrefix<T>(xs: seq<T>, n: nat, y: T)
    requires n <= |xs| && y in xs[..n]
    ensures y in xs && IndexOf(xs, y) == IndexOf(xs[..n], y)
  {
    if xs[0] != y {
      assert xs[1..][..n - 1] == xs[..n][1..];
      IndexOfPrefix(xs[1..], n - 1, y);
    }
  }

  lemma IndexOfInit<T>(xs: seq<T>)
    requires |xs| > 0
    ensures forall y | y in xs[..|xs| - 1] :: y in xs && IndexOf(xs, y) == IndexOf(xs[..|xs| - 1], y)
  {
    forall y | y in xs[..|xs| - 1] ensures y in xs && IndexOf(xs, y) == IndexOf(xs[..|xs| - 1], y) {
      IndexOfPrefix(xs, |xs| - 1, y);
    }
  }

  /** The last entry, when it occurs nowhere before, first occurs last. */
  lemma IndexOfLast<T>(xs: seq<T>)
    requires |xs| > 0 && xs[|xs| - 1] !in xs[..|xs| - 1]
    ensures IndexOf(xs, xs[|xs| - 1]) == |xs| - 1
  {
  }

  // ---------------------------------------------------------------------
  // Resolving links

  /** A Reference whose `reference` is `ref`. */
  function ReferenceTo(ref: string): (r: Element)
    ensures r.Comp? && r.typeName == Reference && |r.slots| == 4
    ensures SingleValue(r, ReferenceField) == Some(ref)
  {
    Comp(Reference, EmptySlots(4)[ReferenceField := Slot([StringPrim(String, ref)])])
  }

  /** The table of targets: target `k` gets the local id `ids[k]`. */
  datatype Table = Table(targets: seq<Element>, ids: seq<string>)

  predicate TableOk(tab: Table) {
    |tab.targets| == |tab.ids|
  }

  /** What a link to `t` is written as. */
  function RefFor(t: Element, tab: Table): Option<string>
    requires TableOk(tab)
  {
    match IdOf(t)
    case Some(v) => Some(v)
    case None => if t in tab.targets then Some("#" + tab.ids[IndexOf(tab.targets, t)]) else None
  }

  /** The tree with every link the table knows replaced by a Reference. */
  function Resolve(e: Element, tab: Table): (r: Element)
    requires TableOk(tab)
    ensures r.Comp? ==> e.Comp? || e.Linked?
    ensures e.Comp? ==> r.Comp? && r.typeName == e.typeName && |r.slots| == |e.slots|
    ensures e.Prim? ==> r.Prim? && r.typeName == e.typeName && r.id == e.id && r.value == e.value
    decreases e
  {
    match e
    case Prim(t, id, ext, v) => Prim(t, id, seq(|ext|, j requires 0 <= j < |ext| => Resolve(ext[j], tab)), v)
    case Comp(t, slots) =>
      Comp(t, seq(|slots|, i requires 0 <= i < |slots| =>
        Slot(seq(|slots[i].items|, j requires 0 <= j < |slots[i].items| => Resolve(slots[i].items[j], tab)))))
    case Linked(t) =>
      match RefFor(t, tab)
      case Some(ref) => ReferenceTo(ref)
      case None => e
  }

  /** A resource with its id set to `id`. */
  function WithId(x: Element, id: string): (r: Element)
    ensures x.Comp? && |x.slots| > ResourceId ==> r.Comp? && IdOf(r) == (if id != "" then Some(id) else None)
    ensures r.Comp? == x.Comp? && TypeOf(r) == TypeOf(x)
    ensures id != "" ==> IdOf(r) == Some(id) || IdOf(r) == None
  {
    if x.Comp? && |x.slots| > ResourceId then WithSlot(x, ResourceId, Slot([Prim(Id, None, [], Some(id))])) else x
  }

  // ---------------------------------------------------------------------
  // The whole stage

  predicate HasContained(e: Element) {
    e.Comp? && ContainedField < |FieldsOf(e.typeName)| && |e.slots| > ContainedField
    && FieldsOf(e.typeName)[ContainedField].ftype == AnyResource
  }

  /** The ids the resources already contained in `e` use. */
  function UsedIds(e: Element): set<string>
    requires HasContained(e)
  {
    set x | x in e.slots[ContainedField].items && IdOf(x).Some? :: IdOf(x).value
  }

  /** The targets of `e` and the local ids they receive. TableOrder
      states the order and the numbering. */
  function TableOf(e: Element): (tab: Table)
    requires HasContained(e)
    ensures TableOk(tab)
    ensures forall t :: t in tab.targets <==> t in Collect(e)
    ensures forall k | 0 <= k < |tab.ids| :: tab.ids[k] != ""
  {
    var targets := Dedupe(Collect(e));
    Table(targets, FreshIds(|targets|, UsedIds(e)))
  }

  /** The targets, resolved, each with its local id. */
  function NewContained(tab: Table): (r: seq<Element>)
    requires TableOk(tab)
    ensures |r| == |tab.targets|
  {
    seq(|tab.targets|, k requires 0 <= k < |tab.targets| => WithId(Resolve(tab.targets[k], tab), tab.ids[k]))
  }

  function Contain(e: Element): (r: Element)
    ensures TypeOf(r) == TypeOf(e) && r.Comp? == e.Comp?
    ensures r.Comp? ==> |r.slots| == |e.slots|
  {
    if !HasContained(e) then e
    else
      var tab := TableOf(e);
      var resolved := Resolve(e, tab);
      WithSlot(resolved, ContainedField, Slot(resolved.slots[ContainedField].items + NewContained(tab)))
  }

  // ---------------------------------------------------------------------
  // Where the targets come from

  lemma {:induction false} CollectItemsHas(items: seq<Element>, j: nat, t: Element)
    requires j < |items| && t in Collect(items[j])
    ensures t in CollectItems(items)
    decreases items
  {
    if j > 0 {
      CollectItemsHas(items[1..], j - 1, t);
    }
  }

  lemma {:induction false} CollectSlotsHas(slots: seq<Slot>, i: nat, t: Element)
    requires i < |slots| && t in CollectItems(slots[i].items)
    ensures t in CollectSlots(slots)
    decreases slots
  {
    if i > 0 {
      CollectSlotsHas(slots[1..], i - 1, t);
    }
  }

  lemma {:induction false} CollectItemsFrom(items: seq<Element>, t: Element) returns (j: nat)
    requires t in CollectItems(items)
    ensures j < |items| && t in Collect(items[j])
    decreases items
  {
    if t in Collect(items[0]) {
      j := 0;
    } else {
      var k := CollectItemsFrom(items[1..], t);
      j := k + 1;
    }
  }

  lemma {:induction false} CollectSlotsFrom(slots: seq<Slot>, t: Element) returns (i: nat)
    requires t in CollectSlots(slots)
    ensures i < |slots| && t in CollectItems(slots[i].items)
    decreases slots
  {
    if t in CollectItems(slots[0].items) {
      i := 0;
    } else {
      var k := CollectSlotsFrom(slots[1..], t);
      i := k + 1;
    }
  }

  /** The links inside a target are links of the whole tree. */
  lemma {:induction false} CollectClosed(e: Element, t: Element, u: Element)
    requires t in Collect(e) && u in Collect(t)
    ensures u in Collect(e)
    decreases e
  {
    match e
    case Prim(_, _, ext, _) =>
      var j := CollectItemsFrom(ext, t);
      CollectClosed(ext[j], t, u);
      CollectItemsHas(ext, j, u);
    case Comp(_, slots) =>
      var i := CollectSlotsFrom(slots, t);
      var j := CollectItemsFrom(slots[i].items, t);
      CollectClosed(slots[i].items[j], t, u);
      CollectItemsHas(slots[i].items, j, u);
      CollectSlotsHas(slots, i, u);
    case Linked(target) =>
      if t != target {
        CollectClosed(target, t, u);
      }
  }

  // ---------------------------------------------------------------------
  // No link is left

  /** A table that knows every target of `e` resolves every link in
      `e`. */
  lemma {:induction false} ResolveNoLinks(e: Element, tab: Table)
    requires TableOk(tab) && forall t | t in Collect(e) :: t in tab.targets
    ensures NoLinks(Resolve(e, tab))
    decreases e
  {
    var r := Resolve(e, tab);
    match e
    case Prim(_, _, ext, _) =>
      forall j | 0 <= j < |ext| ensures NoLinks(r.extension[j]) {
        forall t | t in Collect(ext[j]) ensures t in tab.targets {
          CollectItemsHas(ext, j, t);
        }
        ResolveNoLinks(ext[j], tab);
      }
    case Comp(_, slots) =>
      forall i | 0 <= i < |slots| ensures SlotNoLinks(r.slots[i]) {
        forall j | 0 <= j < |slots[i].items| ensures NoLinks(r.slots[i].items[j]) {
          forall t | t in Collect(slots[i].items[j]) ensures t in tab.targets {
            CollectItemsHas(slots[i].items, j, t);
            CollectSlotsHas(slots, i, t);
          }
          ResolveNoLinks(slots[i].items[j], tab);
        }
      }
    case Linked(t) =>
      var ref := RefFor(t, tab);
      assert ref.Some?;
      ReferenceNoLinks(ref.value);
  }

  lemma ReferenceNoLinks(ref: string)
    ensures NoLinks(ReferenceTo(ref))
  {
    var r := ReferenceTo(ref);
    assert forall i | 0 <= i < 4 :: i != ReferenceField ==> r.slots[i].items == [];
  }

  lemma WithIdNoLinks(x: Element, id: string)
    requires NoLinks(x)
    ensures NoLinks(WithId(x, id))
  {
    if x.Comp? && |x.slots| > ResourceId {
      var r := WithId(x, id);
      forall i | 0 <= i < |x.slots| ensures SlotNoLinks(r.slots[i]) {
        if i != ResourceId {
          assert SlotNoLinks(x.slots[i]);
        }
      }
    }
  }

  /** After this stage no direct link is left anywhere, in the resource
      or in what it contains. */
  lemma ContainNoLinks(e: Element)
    requires HasContained(e)
    ensures NoLinks(Contain(e))
  {
    var tab := TableOf(e);
    var resolved := Resolve(e, tab);
    ResolveNoLinks(e, tab);
    var added := NewContained(tab);
    forall k | 0 <= k < |added| ensures NoLinks(added[k]) {
      var t := tab.targets[k];
      forall u | u in Collect(t) ensures u in tab.targets {
        CollectClosed(e, t, u);
      }
      ResolveNoLinks(t, tab);
      WithIdNoLinks(Resolve(t, tab), tab.ids[k]);
    }
    var items := resolved.slots[ContainedField].items + added;
    assert SlotNoLinks(resolved.slots[ContainedField]);
    assert forall x | x in items :: NoLinks(x);
    var r := Contain(e);
    forall i | 0 <= i < |r.slots| ensures SlotNoLinks(r.slots[i]) {
      if i != ContainedField {
        assert SlotNoLinks(resolved.slots[i]);
      }
    }
  }

  // ---------------------------------------------------------------------
  // A tree without links is left as it is

  lemma {:induction false} NoLinksNoTargets(e: Element)
    requires NoLinks(e)
    ensures Collect(e) == []
    decreases e, 2
  {
    match e
    case Prim(_, _, ext, _) => NoTargetsInItems(ext);
    case Comp(_, slots) => NoTargetsInSlots(slots);
  }

  lemma {:induction false} NoTargetsInSlots(slots: seq<Slot>)
    requires forall i | 0 <= i < |slots| :: SlotNoLinks(slots[i])
    ensures CollectSlots(slots) == []
    decreases slots, 1
  {
    if |slots| > 0 {
      NoTargetsInItems(slots[0].items);
      NoTargetsInSlots(slots[1..]);
    }
  }

  lemma {:induction false} NoTargetsInItems(items: seq<Element>)
    requires forall x | x in items :: NoLinks(x)
    ensures CollectItems(items) == []
    decreases items, 0
  {
    if |items| > 0 {
      NoLinksNoTargets(items[0]);
      NoTargetsInItems(items[1..]);
    }
  }

  lemma {:induction false} ResolveNothing(e: Element, tab: Table)
    requires TableOk(tab) && NoLinks(e)
    ensures Resolve(e, tab) == e
    decreases e
  {
    var r := Resolve(e, tab);
    match e
    case Prim(_, _, ext, _) =>
      forall j | 0 <= j < |ext| ensures r.extension[j] == ext[j] {
        ResolveNothing(ext[j], tab);
      }
      assert r.extension == ext;
    case Comp(_, slots) =>
      forall i | 0 <= i < |slots| ensures r.slots[i] == slots[i] {
        assert SlotNoLinks(slots[i]);
        forall j | 0 <= j < |slots[i].items| ensures r.slots[i].items[j] == slots[i].items[j] {
          ResolveNothing(slots[i].items[j], tab);
        }
        assert r.slots[i].items == slots[i].items;
      }
      assert r.slots == slots;
  }

  /** A resource with no direct links is not changed by this stage. */
  lemma ContainNothing(e: Element)
    requires NoLinks(e)
    ensures Contain(e) == e
  {
    if HasContained(e) {
      NoLinksNoTargets(e);
      var tab := TableOf(e);
      assert tab.targets == [];
      ResolveNothing(e, tab);
      assert NewContained(tab) == [];
      assert e.slots[ContainedField].items + [] == e.slots[ContainedField].items;
      assert e.slots[ContainedField := e.slots[ContainedField]] == e.slots;
    }
  }

  /** Containing twice is containing once. */
  lemma ContainIdempotent(e: Element)
    ensures Contain(Contain(e)) == Contain(e)
  {
    if HasContained(e) {
      ContainNoLinks(e);
      ContainNothing(Contain(e));
    }
  }

  // ---------------------------------------------------------------------
  // Every link resolves

  lemma ResolveKeepsId(x: Element, tab: Table)
    requires TableOk(tab)
    ensures IdOf(Resolve(x, tab)) == IdOf(x)
  {
    var r := Resolve(x, tab);
    if x.Comp? && |x.slots| > ResourceId && |x.slots[ResourceId].items| == 1 {
      var y := x.slots[ResourceId].items[0];
      assert r.slots[ResourceId].items[0] == Resolve(y, tab);
    }
  }

  /** The contained field after this stage: the resources already there,
      resolved, then the new ones. */
  lemma ContainedItems(e: Element)
    requires HasContained(e)
    ensures var tab := TableOf(e);
      && |Resolve(e, tab).slots[ContainedField].items| == |e.slots[ContainedField].items|
      && Contain(e).slots[ContainedField].items
        == Resolve(e, tab).slots[ContainedField].items + NewContained(tab)
  {
  }

  /** Entry `index` of the new contained resources, after any prefix. */
  lemma NewEntryAt(pre: seq<Element>, tab: Table, index: nat)
    requires TableOk(tab) && index < |tab.targets|
    ensures |pre| + index < |pre + NewContained(tab)|
    ensures (pre + NewContained(tab))[|pre| + index] == WithId(Resolve(tab.targets[index], tab), tab.ids[index])
  {
  }

  /** A resource already contained keeps its id. */
  lemma OldContainedId(e: Element, k: nat)
    requires HasContained(e) && k < |e.slots[ContainedField].items|
    ensures k < |Contain(e).slots[ContainedField].items|
    ensures IdOf(Contain(e).slots[ContainedField].items[k]) == IdOf(e.slots[ContainedField].items[k])
  {
    var tab := TableOf(e);
    var x := e.slots[ContainedField].items[k];
    ContainedItems(e);
    assert Resolve(e, tab).slots[ContainedField].items[k] == Resolve(x, tab);
    ResolveKeepsId(x, tab);
  }

  /** A new contained resource carries the id its target was given when
      the resolved target has an id field; a target without one (only a
      composite has one) stays without an id, as it was collected. */
  lemma NewContainedId(e: Element, k: nat)
    requires HasContained(e)
    requires |e.slots[ContainedField].items| <= k < |Contain(e).slots[ContainedField].items|
    ensures var tab := TableOf(e); var n := |e.slots[ContainedField].items|;
      var x := Resolve(tab.targets[k - n], tab);
      var id := IdOf(Contain(e).slots[ContainedField].items[k]);
      if x.Comp? && |x.slots| > ResourceId then id == Some(tab.ids[k - n]) else id == None
  {
    var tab := TableOf(e);
    var n := |e.slots[ContainedField].items|;
    ContainedItems(e);
    NewEntryAt(Resolve(e, tab).slots[ContainedField].items, tab, k - n);
    var t := tab.targets[k - n];
    var x := Resolve(t, tab);
    if !(x.Comp? && |x.slots| > ResourceId) {
      assert WithId(x, tab.ids[k - n]) == x;
      assert t in Collect(e);
      ResolveKeepsId(t, tab);
    }
  }

  /** The id of the `k`-th contained resource after this stage: those
      already there keep theirs, the new ones have the fresh ids. */
  lemma ContainedIds(e: Element, k: nat)
    requires HasContained(e)
    requires k < |Contain(e).slots[ContainedField].items|
    ensures var n := |e.slots[ContainedField].items|;
      var id := IdOf(Contain(e).slots[ContainedField].items[k]);
      if k < n then id == IdOf(e.slots[ContainedField].items[k])
      else
        var x := Resolve(TableOf(e).targets[k - n], TableOf(e));
        if x.Comp? && |x.slots| > ResourceId then id == Some(TableOf(e).ids[k - n]) else id == None
  {
    if k < |e.slots[ContainedField].items| {
      OldContainedId(e, k);
    } else {
      NewContainedId(e, k);
    }
  }

  /** The target at `index` is appended after the `n` resources already
      contained, with its fresh id. */
  lemma NewContainedAt(e: Element, index: nat)
    requires HasContained(e) && index < |TableOf(e).targets|
    requires TableOf(e).targets[index].Comp? && |TableOf(e).targets[index].slots| > ResourceId
    ensures var tab := TableOf(e); var items := Contain(e).slots[ContainedField].items;
      var k := |e.slots[ContainedField].items| + index;
      k < |items| && items[k] == WithId(Resolve(tab.targets[index], tab), tab.ids[index])
      && IdOf(items[k]) == Some(tab.ids[index])
  {
    var tab := TableOf(e);
    var n := |e.slots[ContainedField].items|;
    ContainedItems(e);
    NewEntryAt(Resolve(e, tab).slots[ContainedField].items, tab, index);
  }

  /** No other contained resource has the id of a new one. */
  lemma OnlyOneWithId(e: Element, index: nat, m: nat)
    requires HasContained(e) && index < |TableOf(e).targets|
    requires m < |Contain(e).slots[ContainedField].items| && m != |e.slots[ContainedField].items| + index
    ensures IdOf(Contain(e).slots[ContainedField].items[m]) != Some(TableOf(e).ids[index])
  {
    var n := |e.slots[ContainedField].items|;
    ContainedIds(e, m);
    if m < n {
      var x := e.slots[ContainedField].items[m];
      if IdOf(x).Some? {
        assert IdOf(x).value in UsedIds(e);
      }
    }
  }

  /** A link to a target becomes the reference `#id`, and exactly one
      contained resource has that id: the target itself, resolved, at
      position `k`. */
  lemma LinkResolves(e: Element, t: Element) returns (k: nat)
    requires HasContained(e) && t in Collect(e) && t.Comp? && |t.slots| > ResourceId
    ensures var tab := TableOf(e); var items := Contain(e).slots[ContainedField].items;
      && k < |items|
      && IdOf(items[k]).Some?
      && RefFor(t, tab) == Some("#" + IdOf(items[k]).value)
      && items[k] == WithId(Resolve(t, tab), IdOf(items[k]).value)
      && forall m | 0 <= m < |items| && m != k :: IdOf(items[m]) != IdOf(items[k])
  {
    var tab := TableOf(e);
    var index := IndexOf(tab.targets, t);
    k := |e.slots[ContainedField].items| + index;
    NewContainedAt(e, index);
    var items := Contain(e).slots[ContainedField].items;
    assert IdOf(t).None?;
    forall m | 0 <= m < |items| && m != k ensures IdOf(items[m]) != IdOf(items[k]) {
      OnlyOneWithId(e, index, m);
    }
  }

  lemma {:induction false} DedupeHead<T(!new)>(xs: seq<T>)
    requires |xs| > 0
    ensures Dedupe(xs)[0] == xs[0]
  {
    if |xs| > 1 {
      DedupeHead(xs[..|xs| - 1]);
    }
  }

  /** The first fresh id is "1" when it is free. */
  lemma FirstFreshIsOne(count: nat, used: set<string>)
    requires count > 0 && "1" !in used
    ensures FreshIds(count, used)[0] == "1"
  {
    assert NatToString(1) == "1";
    assert FreshNumbers(count, 1, used)[0] == 1;
  }

  lemma FirstTableEntry(e: Element)
    requires HasContained(e) && |Collect(e)| > 0 && "1" !in UsedIds(e)
    ensures |TableOf(e).targets| > 0 && TableOf(e).targets[0] == Collect(e)[0] && TableOf(e).ids[0] == "1"
  {
    DedupeHead(Collect(e));
    FirstFreshIsOne(|TableOf(e).targets|, UsedIds(e));
  }

  /** A link to the first target is written as `#` and the first id. */
  lemma RefForFirst(t: Element, tab: Table)
    requires TableOk(tab) && IdOf(t).None? && |tab.targets| > 0 && tab.targets[0] == t
    ensures RefFor(t, tab) == Some("#" + tab.ids[0])
  {
    assert IndexOf(tab.targets, t) == 0;
  }

  /** The first link met gets the local id "1" when no contained resource
      already uses it, so it is written as the reference "#1". */
  lemma FirstLinkIsOne(e: Element)
    requires HasContained(e) && |Collect(e)| > 0 && "1" !in UsedIds(e)
    ensures RefFor(Collect(e)[0], TableOf(e)) == Some("#1")
    ensures Collect(e)[0].Comp? && |Collect(e)[0].slots| > ResourceId ==>
      Contain(e).slots[ContainedField].items[|e.slots[ContainedField].items|]
        == WithId(Resolve(Collect(e)[0], TableOf(e)), "1")
  {
    var tab := TableOf(e);
    var t := Collect(e)[0];
    assert IdOf(t).None?;
    FirstTableEntry(e);
    RefForFirst(t, tab);
    assert "#" + tab.ids[0] == "#1" by {
      assert ("#" + tab.ids[0])[1] == '1';
    }
    if t.Comp? && |t.slots| > ResourceId {
      NewContainedAt(e, 0);
    }
  }

  // ---------------------------------------------------------------------
  // Numbering in the order first met

  /** The table holds each distinct target once, in the order first met,
      with distinct ids that no contained resource uses. */
  lemma TableOrder(e: Element)
    requires HasContained(e)
    ensures var tab := TableOf(e);
      && (forall i, j | 0 <= i < j < |tab.targets| :: tab.targets[i] != tab.targets[j])
      && FirstMetOrder(Collect(e), tab.targets)
      && (forall k | 0 <= k < |tab.ids| :: tab.ids[k] !in UsedIds(e))
      && (forall i, j | 0 <= i < j < |tab.ids| :: tab.ids[i] != tab.ids[j])
  {
    var c := Collect(e);
    assert TableOf(e).targets == Dedupe(c);
    DedupeOrder(c);
  }

  /** When none of the ids "1" to "n" is used, the table's ids are "1",
      "2", ... in order. */
  lemma TableNumbered(e: Element)
    requires HasContained(e)
    requires forall n: nat | 1 <= n <= |TableOf(e).ids| :: NatToString(n) !in UsedIds(e)
    ensures forall k | 0 <= k < |TableOf(e).ids| :: TableOf(e).ids[k] == NatToString(k + 1)
  {
    var tab := TableOf(e);
    assert tab.ids == FreshIds(|tab.ids|, UsedIds(e));
    FreshIdsNumbered(|tab.ids|, UsedIds(e));
  }

  /** In a list of the distinct elements of `xs` ordered by first
      occurrence, the entries before position `k` are exactly the elements
      first met before entry `k`. */
  lemma FirstMetBefore<T>(xs: seq<T>, r: seq<T>, k: nat)
    requires k < |r|
    requires forall x :: x in r <==> x in xs
    requires forall i, j | 0 <= i < j < |r| :: r[i] != r[j]
    requires FirstMetOrder(xs, r)
    ensures r[k] in xs
    ensures forall u | u in xs :: IndexOf(xs, u) < IndexOf(xs, r[k]) <==> u in r[..k]
  {
    assert r[k] in r;
    forall u | u in xs ensures IndexOf(xs, u) < IndexOf(xs, r[k]) <==> u in r[..k] {
      var j := IndexOf(r, u);
      if j < k {
        assert u in r[..k];
      } else if j > k {
        assert u !in r[..k];
      }
    }
  }

  /** When no contained resource uses the ids "1" to "n", a link to the
      target first met after `k` other distinct targets is written as
      `#` and the text of `k + 1`, and that target is contained with that
      id. */
  lemma LinkNumbered(e: Element, t: Element) returns (k: nat)
    requires HasContained(e) && t in Collect(e)
    requires forall n: nat | 1 <= n <= |TableOf(e).ids| :: NatToString(n) !in UsedIds(e)
    ensures var tab := TableOf(e);
      && k < |tab.targets| && tab.targets[k] == t
      && RefFor(t, tab) == Some("#" + NatToString(k + 1))
      && forall u | u in Collect(e) :: IndexOf(Collect(e), u) < IndexOf(Collect(e), t) <==> u in tab.targets[..k]
    ensures t.Comp? && |t.slots| > ResourceId ==>
      var items := Contain(e).slots[ContainedField].items;
      var m := |e.slots[ContainedField].items| + k;
      m < |items| && items[m] == WithId(Resolve(t, TableOf(e)), NatToString(k + 1))
  {
    var tab := TableOf(e);
    k := IndexOf(tab.targets, t);
    assert k < |tab.targets| && tab.targets[k] == t && tab.ids[k] == NatToString(k + 1) by {
      TableNumbered(e);
    }
    assert RefFor(t, tab) == Some("#" + NatToString(k + 1)) by {
      TableOrder(e);
      assert IdOf(t).None?;
    }
    assert forall u | u in Collect(e) :: IndexOf(Collect(e), u) < IndexOf(Collect(e), t) <==> u in tab.targets[..k] by {
      TableOrder(e);
      FirstMetBefore(Collect(e), tab.targets, k);
    }
    if t.Comp? && |t.slots| > ResourceId {
      NewContainedAt(e, k);
    }
  }
}
