/**
 * The flattened struct layout of Lookups/Lookup.cs: a type's entries are its base type's entries,
 * then its own fields, then a barrier that closes the type. The two index scans over a layout are
 * stated here as functions of the entry list; the Lookup class runs them as loops.
 */
module StructLayout {
  import opened Wrappers
  import opened Ir
  import opened Metadata

  /**
   * A layout entry. The entry classes are not part of this model; these are the three kinds the
   * struct-body builder tells apart. A Barrier stands where the closed type's class vtable pointer
   * goes, so the body builder reads it as its ClassVTable entry.
   */
  datatype StructEntry = FieldEntry(field: FieldDef) | Barrier(owner: TypeId) | InterfaceTable

  /** The type's own fields in declaration order, less the compiler-generated ones (name starts with '<'). */
  function OwnEntries(fields: seq<FieldDef>): (r: seq<StructEntry>)
    requires forall f | f in fields :: f.name != []
    ensures forall e | e in r :: e.FieldEntry? && e.field in fields && e.field.name[0] != '<'
    ensures forall f | f in fields && f.name[0] != '<' :: FieldEntry(f) in r
    ensures |r| <= |fields|
  {
    if fields == [] then []
    else (if fields[0].name[0] != '<' then [FieldEntry(fields[0])] else []) + OwnEntries(fields[1..])
  }

  /** GetStructLayout's result: empty without a base type, else base layout, own fields, barrier. */
  function Layout(m: Types, t: TypeId): seq<StructEntry>
    requires WellFormed(m) && t in m
    decreases m[t].depth
  {
    match m[t].baseType
    case None => []
    case Some(b) => Layout(m, b) + OwnEntries(m[t].fields) + [Barrier(t)]
  }

  /** Non-static field entries: what GetClassVTableIndex counts. */
  function InstanceFieldCount(entries: seq<StructEntry>): nat {
    if entries == [] then 0
    else (if entries[0].FieldEntry? && !entries[0].field.isStatic then 1 else 0) + InstanceFieldCount(entries[1..])
  }

  /**
   * Entries that take a slot in the body of a type with a vtable: barriers, interface tables and
   * non-static fields. GetFieldIndex counts these.
   */
  function SlotCount(entries: seq<StructEntry>): nat {
    if entries == [] then 0
    else (if entries[0].FieldEntry? && entries[0].field.isStatic then 0 else 1) + SlotCount(entries[1..])
  }

  /** Adds `k` to a found index. */
  function Shift(r: Result<nat>, k: nat): Result<nat> {
    if r.Success? then Success(r.value + k) else r
  }

  /**
   * GetClassVTableIndex's scan: the barrier of `t` answers the count so far; other barriers and
   * static fields are passed over; an interface-table entry fails the cast to a field entry; an
   * exhausted list fails.
   */
  function ClassVTableIndexOf(entries: seq<StructEntry>, t: TypeId): Result<nat> {
    if entries == [] then Failure(LookupFailed)
    else match entries[0]
      case Barrier(o) => if o == t then Success(0) else ClassVTableIndexOf(entries[1..], t)
      case InterfaceTable => Failure(InvalidCast)
      case FieldEntry(g) =>
        if g.isStatic then ClassVTableIndexOf(entries[1..], t) else Shift(ClassVTableIndexOf(entries[1..], t), 1)
  }

  /**
   * GetFieldIndex's scan: every barrier counts one; static fields are passed over before the
   * comparison; the field answers the count so far; an exhausted list fails.
   */
  function FieldIndexOf(entries: seq<StructEntry>, f: FieldDef): Result<nat> {
    if entries == [] then Failure(LookupFailed)
    else match entries[0]
      case Barrier(_) => Shift(FieldIndexOf(entries[1..], f), 1)
      case InterfaceTable => Failure(InvalidCast)
      case FieldEntry(g) =>
        if g.isStatic then FieldIndexOf(entries[1..], f)
        else if g == f then Success(0)
        else Shift(FieldIndexOf(entries[1..], f), 1)
  }

  /**
   * The class-vtable index as the struct body needs it: like the field scan, every barrier and
   * interface-table entry before the type's barrier counts one slot, as it does in a body with a
   * vtable. The scan as written (ClassVTableIndexOf) passes over other barriers instead.
   */
  function ClassVTableSlotOf(entries: seq<StructEntry>, t: TypeId): Result<nat> {
    if entries == [] then Failure(LookupFailed)
    else match entries[0]
      case Barrier(o) => if o == t then Success(0) else Shift(ClassVTableSlotOf(entries[1..], t), 1)
      case InterfaceTable => Shift(ClassVTableSlotOf(entries[1..], t), 1)
      case FieldEntry(g) =>
        if g.isStatic then ClassVTableSlotOf(entries[1..], t) else Shift(ClassVTableSlotOf(entries[1..], t), 1)
  }

  /**
   * The slot of a non-static field in a struct body: the corrected GetFieldIndex. A barrier takes
   * a slot only in a body with a vtable, and an interface-table entry always takes one.
   */
  function FieldSlotOf(entries: seq<StructEntry>, f: FieldDef, hasVTable: bool): Result<nat> {
    if entries == [] then Failure(LookupFailed)
    else match entries[0]
      case Barrier(_) => Shift(FieldSlotOf(entries[1..], f, hasVTable), if hasVTable then 1 else 0)
      case InterfaceTable => Shift(FieldSlotOf(entries[1..], f, hasVTable), 1)
      case FieldEntry(g) =>
        if g.isStatic then FieldSlotOf(entries[1..], f, hasVTable)
        else if g == f then Success(0)
        else Shift(FieldSlotOf(entries[1..], f, hasVTable), 1)
  }

  /** The slots of a type's own fields: the non-static ones that are not compiler-generated. */
  function OwnSlots(fields: seq<FieldDef>): nat
    requires forall f | f in fields :: f.name != []
  {
    if fields == [] then 0
    else (if fields[0].name[0] != '<' && !fields[0].isStatic then 1 else 0) + OwnSlots(fields[1..])
  }

  /** The slots of a type's layout, counted type by type up the base-type chain. */
  function LayoutSlots(m: Types, t: TypeId): nat
    requires WellFormed(m) && t in m
    decreases m[t].depth
  {
    match m[t].baseType
    case None => 0
    case Some(b) => LayoutSlots(m, b) + OwnSlots(m[t].fields) + 1
  }

  /**
   * Where a type's class vtable pointer sits in a body with a vtable: after every slot of its base
   * type and of its own fields. A type without a base type has no barrier, so no such slot.
   */
  function VTableSlot(m: Types, t: TypeId): Result<nat>
    requires WellFormed(m) && t in m
  {
    match m[t].baseType
    case None => Failure(LookupFailed)
    case Some(b) => Success(LayoutSlots(m, b) + OwnSlots(m[t].fields))
  }

  /** The first position of `e`. */
  function Position(entries: seq<StructEntry>, e: StructEntry): (r: nat)
    requires e in entries
    ensures r < |entries| && entries[r] == e && e !in entries[..r]
  {
    if entries[0] == e then 0
    else
      var k := Position(entries[1..], e);
      assert entries[..k + 1] == [entries[0]] + entries[1..][..k];
      k + 1
  }

  lemma CountsDistribute(a: seq<StructEntry>, b: seq<StructEntry>)
    ensures InstanceFieldCount(a + b) == InstanceFieldCount(a) + InstanceFieldCount(b)
    ensures SlotCount(a + b) == SlotCount(a) + SlotCount(b)
  {
    if a != [] {
      assert (a + b)[0] == a[0];
      assert (a + b)[1..] == a[1..] + b;
      CountsDistribute(a[1..], b);
    } else {
      assert a + b == b;
    }
  }

  /** The class-vtable scan stops at the first barrier of `t` with the instance fields before it. */
  lemma {:induction false} ClassVTableScanFinds(pre: seq<StructEntry>, t: TypeId, post: seq<StructEntry>)
    requires Barrier(t) !in pre && InterfaceTable !in pre
    ensures ClassVTableIndexOf(pre + [Barrier(t)] + post, t) == Success(InstanceFieldCount(pre))
  {
    if pre != [] {
      assert (pre + [Barrier(t)] + post)[1..] == pre[1..] + [Barrier(t)] + post;
      ClassVTableScanFinds(pre[1..], t, post);
    }
  }

  /** The corrected scan stops at the first barrier of `t` with all the slots before it. */
  lemma {:induction false} ClassVTableSlotFinds(pre: seq<StructEntry>, t: TypeId, post: seq<StructEntry>)
    requires Barrier(t) !in pre
    ensures ClassVTableSlotOf(pre + [Barrier(t)] + post, t) == Success(SlotCount(pre))
  {
    if pre != [] {
      assert (pre + [Barrier(t)] + post)[1..] == pre[1..] + [Barrier(t)] + post;
      ClassVTableSlotFinds(pre[1..], t, post);
    }
  }

  /** Without a barrier of `t` (and no interface entry) the class-vtable scan fails. */
  lemma {:induction false} ClassVTableScanMisses(entries: seq<StructEntry>, t: TypeId)
    requires Barrier(t) !in entries && InterfaceTable !in entries
    ensures ClassVTableIndexOf(entries, t) == Failure(LookupFailed)
  {
    if entries != [] {
      ClassVTableScanMisses(entries[1..], t);
    }
  }

  /** The field scan stops at the first entry of a non-static `f` with the slots before it. */
  lemma {:induction false} FieldScanFinds(pre: seq<StructEntry>, f: FieldDef, post: seq<StructEntry>)
    requires FieldEntry(f) !in pre && InterfaceTable !in pre && !f.isStatic
    ensures FieldIndexOf(pre + [FieldEntry(f)] + post, f) == Success(SlotCount(pre))
  {
    if pre != [] {
      assert (pre + [FieldEntry(f)] + post)[1..] == pre[1..] + [FieldEntry(f)] + post;
      FieldScanFinds(pre[1..], f, post);
    }
  }

  /** A static or absent field is never found: static entries are passed over before the comparison. */
  lemma {:induction false} FieldScanMisses(entries: seq<StructEntry>, f: FieldDef)
    requires (f.isStatic || FieldEntry(f) !in entries) && InterfaceTable !in entries
    ensures FieldIndexOf(entries, f) == Failure(LookupFailed)
  {
    if entries != [] {
      FieldScanMisses(entries[1..], f);
    }
  }

  /**
   * What a layout holds: no interface-table entry; barriers only of `t` and its base types, each
   * closing a type that has a base; fields only of `t` and its base types, none compiler-generated.
   */
  lemma {:induction false} LayoutEntries(m: Types, t: TypeId)
    requires WellFormed(m) && t in m
    ensures InterfaceTable !in Layout(m, t)
    ensures forall e | e in Layout(m, t) && e.Barrier? ::
      e.owner in m && IsAncestorOrSelf(m, e.owner, t) && m[e.owner].baseType.Some? && m[e.owner].depth <= m[t].depth
    ensures forall e | e in Layout(m, t) && e.FieldEntry? ::
      e.field.declaringType in m && IsAncestorOrSelf(m, e.field.declaringType, t)
      && e.field.name != [] && e.field.name[0] != '<'
    decreases m[t].depth
  {
    match m[t].baseType
    case None =>
    case Some(b) =>
      LayoutEntries(m, b);
      var own := OwnEntries(m[t].fields);
      assert Layout(m, t) == Layout(m, b) + own + [Barrier(t)];
      forall e | e in Layout(m, t) && e.Barrier?
        ensures e.owner in m && IsAncestorOrSelf(m, e.owner, t) && m[e.owner].baseType.Some?
        ensures m[e.owner].depth <= m[t].depth
      {
        if e in Layout(m, b) {
        } else {
          assert e !in own;
          assert e == Barrier(t);
        }
      }
      forall e | e in Layout(m, t) && e.FieldEntry?
        ensures e.field.declaringType in m && IsAncestorOrSelf(m, e.field.declaringType, t)
        ensures e.field.name != [] && e.field.name[0] != '<'
      {
        if e !in Layout(m, b) {
          assert e in own;
          assert e.field in m[t].fields;
        }
      }
  }

  /** The layout of a base type (or the type itself) is a prefix of the type's layout. */
  lemma {:induction false} AncestorLayoutIsPrefix(m: Types, a: TypeId, t: TypeId)
    requires WellFormed(m) && t in m && IsAncestorOrSelf(m, a, t)
    ensures a in m && Layout(m, a) <= Layout(m, t)
    decreases m[t].depth
  {
    if a != t {
      var b := m[t].baseType.value;
      AncestorLayoutIsPrefix(m, a, b);
    }
  }

  /** A type's barrier is in its layout exactly when it has a base type, and its base layout lacks it. */
  lemma OwnBarrier(m: Types, t: TypeId)
    requires WellFormed(m) && t in m
    ensures Barrier(t) in Layout(m, t) <==> m[t].baseType.Some?
    ensures m[t].baseType.Some? ==> Barrier(t) !in Layout(m, m[t].baseType.value)
  {
    if m[t].baseType.Some? {
      var b := m[t].baseType.value;
      LayoutEntries(m, b);
      assert Layout(m, t) == Layout(m, b) + OwnEntries(m[t].fields) + [Barrier(t)];
    }
  }

  /**
   * Barrier(o) is in the layout of `t` exactly when `o` is `t` or one of its base types and
   * itself has a base type.
   */
  lemma BarrierInLayout(m: Types, o: TypeId, t: TypeId)
    requires WellFormed(m) && t in m
    ensures Barrier(o) in Layout(m, t) <==> IsAncestorOrSelf(m, o, t) && o in m && m[o].baseType.Some?
  {
    LayoutEntries(m, t);
    if IsAncestorOrSelf(m, o, t) && o in m && m[o].baseType.Some? {
      AncestorLayoutIsPrefix(m, o, t);
      OwnBarrier(m, o);
      var k := Position(Layout(m, o), Barrier(o));
      assert Layout(m, t)[k] == Barrier(o);
    }
  }

  /**
   * GetClassVTableIndex on a layout: with a base type, the number of non-static fields before
   * the type's own barrier, barriers of base types not counted; with none, a lookup failure.
   */
  lemma ClassVTableIndexCounts(m: Types, t: TypeId)
    requires WellFormed(m) && t in m
    ensures m[t].baseType.None? ==> ClassVTableIndexOf(Layout(m, t), t) == Failure(LookupFailed)
    ensures m[t].baseType.Some? ==>
      ClassVTableIndexOf(Layout(m, t), t) == Success(InstanceFieldCount(Layout(m, t)[..|Layout(m, t)| - 1]))
  {
    if m[t].baseType.Some? {
      var b := m[t].baseType.value;
      var pre := Layout(m, b) + OwnEntries(m[t].fields);
      OwnBarrier(m, t);
      LayoutEntries(m, b);
      assert Layout(m, t) == pre + [Barrier(t)] + [];
      assert Layout(m, t)[..|Layout(m, t)| - 1] == pre;
      ClassVTableScanFinds(pre, t, []);
    }
  }

  /** The field scan over any list without interface entries. */
  lemma FieldScanCharacterised(entries: seq<StructEntry>, f: FieldDef)
    requires InterfaceTable !in entries
    ensures FieldIndexOf(entries, f).Success? <==> !f.isStatic && FieldEntry(f) in entries
    ensures FieldIndexOf(entries, f).Success? ==>
      FieldIndexOf(entries, f).value == SlotCount(entries[..Position(entries, FieldEntry(f))])
  {
    if !f.isStatic && FieldEntry(f) in entries {
      var k := Position(entries, FieldEntry(f));
      assert entries == entries[..k] + [FieldEntry(f)] + entries[k + 1..];
      FieldScanFinds(entries[..k], f, entries[k + 1..]);
    } else {
      FieldScanMisses(entries, f);
    }
  }

  /**
   * GetFieldIndex on the layout of the declaring type: found exactly for a non-static field whose
   * entry is there, and then the number of slots (barriers included) before its first entry.
   */
  lemma FieldIndexCounts(m: Types, f: FieldDef)
    requires WellFormed(m) && f.declaringType in m
    ensures FieldIndexOf(Layout(m, f.declaringType), f).Success? <==>
      !f.isStatic && FieldEntry(f) in Layout(m, f.declaringType)
    ensures FieldIndexOf(Layout(m, f.declaringType), f).Success? ==>
      FieldIndexOf(Layout(m, f.declaringType), f).value ==
        SlotCount(Layout(m, f.declaringType)[..Position(Layout(m, f.declaringType), FieldEntry(f))])
  {
    LayoutEntries(m, f.declaringType);
    FieldScanCharacterised(Layout(m, f.declaringType), f);
  }

  /** A type with a base type has all its own non-generated fields in its layout. */
  lemma OwnFieldsInLayout(m: Types, t: TypeId, f: FieldDef)
    requires WellFormed(m) && t in m && m[t].baseType.Some?
    requires f in m[t].fields && f.name[0] != '<'
    ensures FieldEntry(f) in Layout(m, t)
  {
    var b := m[t].baseType.value;
    assert Layout(m, t) == Layout(m, b) + OwnEntries(m[t].fields) + [Barrier(t)];
  }

  lemma {:induction false} OwnSlotsCounted(fields: seq<FieldDef>)
    requires forall f | f in fields :: f.name != []
    ensures SlotCount(OwnEntries(fields)) == OwnSlots(fields)
  {
    if fields != [] {
      OwnSlotsCounted(fields[1..]);
      var head: seq<StructEntry> := if fields[0].name[0] != '<' then [FieldEntry(fields[0])] else [];
      CountsDistribute(head, OwnEntries(fields[1..]));
    }
  }

  /** Counting type by type agrees with counting the flattened layout. */
  lemma {:induction false} LayoutSlotsCounted(m: Types, t: TypeId)
    requires WellFormed(m) && t in m
    ensures SlotCount(Layout(m, t)) == LayoutSlots(m, t)
    decreases m[t].depth
  {
    match m[t].baseType
    case None =>
    case Some(b) =>
      LayoutSlotsCounted(m, b);
      OwnSlotsCounted(m[t].fields);
      CountsDistribute(Layout(m, b), OwnEntries(m[t].fields));
      CountsDistribute(Layout(m, b) + OwnEntries(m[t].fields), [Barrier(t)]);
  }

  /** The non-static fields of a type's layout, counted type by type up the base-type chain. */
  function LayoutFieldCount(m: Types, t: TypeId): nat
    requires WellFormed(m) && t in m
    decreases m[t].depth
  {
    match m[t].baseType
    case None => 0
    case Some(b) => LayoutFieldCount(m, b) + InstanceFieldCount(OwnEntries(m[t].fields))
  }

  /**
   * The index GetClassVTableIndex answers, counted type by type: the non-static fields of the
   * type's layout up to its own barrier. A type without a base type has no barrier, so the scan
   * fails.
   */
  function ClassVTableIndex(m: Types, t: TypeId): Result<nat>
    requires WellFormed(m) && t in m
  {
    if m[t].baseType.None? then Failure(LookupFailed) else Success(LayoutFieldCount(m, t))
  }

  /** The type-by-type count is the count over the layout. */
  lemma {:induction false} LayoutFieldsCounted(m: Types, t: TypeId)
    requires WellFormed(m) && t in m
    ensures InstanceFieldCount(Layout(m, t)) == LayoutFieldCount(m, t)
    decreases m[t].depth
  {
    if m[t].baseType.Some? {
      var b := m[t].baseType.value;
      LayoutFieldsCounted(m, b);
      CountsDistribute(Layout(m, b), OwnEntries(m[t].fields));
      CountsDistribute(Layout(m, b) + OwnEntries(m[t].fields), [Barrier(t)]);
    }
  }

  /** A derived type's layout without its closing barrier is the base layout and its own entries. */
  lemma LayoutBeforeBarrier(m: Types, t: TypeId, b: TypeId)
    requires WellFormed(m) && t in m && m[t].baseType == Some(b)
    ensures b in m && |Layout(m, t)| > 0
    ensures Layout(m, t)[..|Layout(m, t)| - 1] == Layout(m, b) + OwnEntries(m[t].fields)
  {
  }

  /** GetClassVTableIndex's scan of a type's own layout answers ClassVTableIndex, failure included. */
  lemma ClassVTableIndexIsScan(m: Types, t: TypeId)
    requires WellFormed(m) && t in m
    ensures ClassVTableIndexOf(Layout(m, t), t) == ClassVTableIndex(m, t)
  {
    if m[t].baseType.Some? {
      var b := m[t].baseType.value;
      var pre := Layout(m, b) + OwnEntries(m[t].fields);
      assert ClassVTableIndexOf(Layout(m, t), t) == Success(InstanceFieldCount(pre)) by {
        ClassVTableIndexCounts(m, t);
        LayoutBeforeBarrier(m, t, b);
      }
      assert InstanceFieldCount(pre) == LayoutFieldCount(m, t) by {
        CountsDistribute(Layout(m, b), OwnEntries(m[t].fields));
        LayoutFieldsCounted(m, b);
      }
    } else {
      ClassVTableIndexCounts(m, t);
    }
  }

  /**
   * The corrected scan of a type's own layout finds its barrier exactly at VTableSlot: the scan
   * and the type-by-type count agree, failure included.
   */
  lemma VTableSlotIsScan(m: Types, t: TypeId)
    requires WellFormed(m) && t in m
    ensures ClassVTableSlotOf(Layout(m, t), t) == VTableSlot(m, t)
  {
    if m[t].baseType.Some? {
      ClosedLayoutSlot(m, t);
    } else {
      assert Layout(m, t) == [];
    }
  }

  lemma ClosedLayoutSlot(m: Types, t: TypeId)
    requires WellFormed(m) && t in m && m[t].baseType.Some?
    ensures ClassVTableSlotOf(Layout(m, t), t) == VTableSlot(m, t)
  {
    ClosedLayoutScan(m, t);
    VTableSlotCounted(m, t);
  }

  /** The arithmetic slot is the number of slots before the type's barrier. */
  lemma VTableSlotCounted(m: Types, t: TypeId)
    requires WellFormed(m) && t in m && m[t].baseType.Some?
    ensures VTableSlot(m, t) == Success(SlotCount(Layout(m, m[t].baseType.value)) + SlotCount(OwnEntries(m[t].fields)))
  {
    LayoutSlotsCounted(m, m[t].baseType.value);
    OwnSlotsCounted(m[t].fields);
  }

  /** A type's barrier closes its layout, after the slots of its base layout and own fields. */
  lemma ClosedLayoutScan(m: Types, t: TypeId)
    requires WellFormed(m) && t in m && m[t].baseType.Some?
    ensures ClassVTableSlotOf(Layout(m, t), t) ==
      Success(SlotCount(Layout(m, m[t].baseType.value)) + SlotCount(OwnEntries(m[t].fields)))
  {
    var base := Layout(m, m[t].baseType.value);
    var own := OwnEntries(m[t].fields);
    BaseLacksBarrier(m, t);
    assert Barrier(t) !in own;
    ClosedScan(base, own, t);
    assert Layout(m, t) == base + own + [Barrier(t)];
  }

  /** The base layout of a type holds no barrier of the type. */
  lemma BaseLacksBarrier(m: Types, t: TypeId)
    requires WellFormed(m) && t in m && m[t].baseType.Some?
    ensures Barrier(t) !in Layout(m, m[t].baseType.value)
  {
    LayoutEntries(m, m[t].baseType.value);
  }

  lemma ClosedScan(base: seq<StructEntry>, own: seq<StructEntry>, t: TypeId)
    requires Barrier(t) !in base && Barrier(t) !in own
    ensures ClassVTableSlotOf(base + own + [Barrier(t)], t) == Success(SlotCount(base) + SlotCount(own))
  {
    assert base + own + [Barrier(t)] == (base + own) + [Barrier(t)] + [];
    ClassVTableSlotFinds(base + own, t, []);
    CountsDistribute(base, own);
  }

  /** In a body with a vtable the scan as written and the corrected one agree. */
  lemma {:induction false} FieldIndexIsSlotWithVTable(entries: seq<StructEntry>, f: FieldDef)
    requires InterfaceTable !in entries
    ensures FieldIndexOf(entries, f) == FieldSlotOf(entries, f, true)
  {
    if entries != [] {
      FieldIndexIsSlotWithVTable(entries[1..], f);
    }
  }

  /** The corrected field scan finds exactly the non-static fields that have an entry. */
  lemma {:induction false} FieldSlotFound(entries: seq<StructEntry>, f: FieldDef, hasVTable: bool)
    ensures FieldSlotOf(entries, f, hasVTable).Success? <==> !f.isStatic && FieldEntry(f) in entries
  {
    if entries != [] {
      FieldSlotFound(entries[1..], f, hasVTable);
      assert entries == [entries[0]] + entries[1..];
    }
  }

  /** Entries after a found field do not move it. */
  lemma {:induction false} FieldSlotPrefix(a: seq<StructEntry>, b: seq<StructEntry>, f: FieldDef, hasVTable: bool)
    requires FieldSlotOf(a, f, hasVTable).Success?
    ensures FieldSlotOf(a + b, f, hasVTable) == FieldSlotOf(a, f, hasVTable)
  {
    assert (a + b)[0] == a[0];
    assert (a + b)[1..] == a[1..] + b;
    if !(a[0].FieldEntry? && !a[0].field.isStatic && a[0].field == f) {
      FieldSlotPrefix(a[1..], b, f, hasVTable);
    }
  }

  /** Entries after a found barrier do not move it. */
  lemma {:induction false} ClassSlotPrefix(a: seq<StructEntry>, b: seq<StructEntry>, t: TypeId)
    requires ClassVTableSlotOf(a, t).Success?
    ensures ClassVTableSlotOf(a + b, t) == ClassVTableSlotOf(a, t)
  {
    assert (a + b)[0] == a[0];
    assert (a + b)[1..] == a[1..] + b;
    if a[0] != Barrier(t) {
      ClassSlotPrefix(a[1..], b, t);
    }
  }
}
