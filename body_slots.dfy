/**
 * How the indices the symbol table hands out line up with the struct bodies the type compiler
 * builds: a class vtable pointer stored by a `newobj` routine and a field stored by `stfld` land
 * in the slot of the body that was made for them.
 */
module BodySlots {
  import opened Wrappers
  import opened Ir
  import opened Metadata
  import opened StructLayout
  import opened TypeCompilation

  /** Bodies are built entry by entry, so the body of a concatenation is the concatenation of bodies. */
  lemma {:induction false} BodyOfAppend(env: Env, owner: TypeId, hasVTable: bool, a: seq<StructEntry>, b: seq<StructEntry>)
    ensures BodyOf(env, owner, hasVTable, a + b) == BodyOf(env, owner, hasVTable, a) + BodyOf(env, owner, hasVTable, b)
    decreases |b|
  {
    if b == [] {
      assert a + b == a;
    } else {
      var front := b[..|b| - 1];
      assert (a + b)[..|a + b| - 1] == a + front;
      assert (a + b)[|a + b| - 1] == b[|b| - 1];
      BodyOfAppend(env, owner, hasVTable, a, front);
    }
  }

  lemma BodyOfCons(env: Env, owner: TypeId, hasVTable: bool, e: StructEntry, rest: seq<StructEntry>)
    ensures BodyOf(env, owner, hasVTable, [e] + rest) == EntrySlots(env, owner, hasVTable, e) + BodyOf(env, owner, hasVTable, rest)
  {
    BodyOfAppend(env, owner, hasVTable, [e], rest);
    assert [e][..0] == [];
  }

  /** Where the corrected field scan stops, the body holds the field's IR type. */
  lemma {:induction false} FieldSlotInBody(env: Env, owner: TypeId, hasVTable: bool, entries: seq<StructEntry>, f: FieldDef)
    requires FieldSlotOf(entries, f, hasVTable).Success?
    ensures FieldSlotOf(entries, f, hasVTable).value < |BodyOf(env, owner, hasVTable, entries)|
    ensures BodyOf(env, owner, hasVTable, entries)[FieldSlotOf(entries, f, hasVTable).value] == env.typeRef(f.fieldType)
  {
    var e := entries[0];
    var rest := entries[1..];
    var head := EntrySlots(env, owner, hasVTable, e);
    assert entries == [e] + rest;
    BodyOfCons(env, owner, hasVTable, e, rest);
    FieldSlotStep(env, owner, hasVTable, e, rest, f);
    if !(e.FieldEntry? && !e.field.isStatic && e.field == f) {
      FieldSlotInBody(env, owner, hasVTable, rest, f);
      var i := FieldSlotOf(rest, f, hasVTable).value;
      assert FieldSlotOf(entries, f, hasVTable).value == |head| + i;
      assert (head + BodyOf(env, owner, hasVTable, rest))[|head| + i] == BodyOf(env, owner, hasVTable, rest)[i];
    }
  }

  /** One step of the corrected field scan skips exactly the slots its entry takes in the body. */
  lemma FieldSlotStep(env: Env, owner: TypeId, hasVTable: bool, e: StructEntry, rest: seq<StructEntry>, f: FieldDef)
    ensures FieldSlotOf([e] + rest, f, hasVTable) ==
      if e.FieldEntry? && !e.field.isStatic && e.field == f then Success(0)
      else Shift(FieldSlotOf(rest, f, hasVTable), |EntrySlots(env, owner, hasVTable, e)|)
  {
    assert ([e] + rest)[1..] == rest;
  }

  /** Where the corrected class-vtable scan stops, a body with a vtable holds that class's vtable pointer. */
  lemma {:induction false} ClassSlotInBody(env: Env, owner: TypeId, entries: seq<StructEntry>, t: TypeId)
    requires ClassVTableSlotOf(entries, t).Success?
    ensures ClassVTableSlotOf(entries, t).value < |BodyOf(env, owner, true, entries)|
    ensures BodyOf(env, owner, true, entries)[ClassVTableSlotOf(entries, t).value] == Pointer(env.vtableEntryType(owner, t))
  {
    var e := entries[0];
    var rest := entries[1..];
    var head := EntrySlots(env, owner, true, e);
    assert entries == [e] + rest;
    BodyOfCons(env, owner, true, e, rest);
    ClassSlotStep(env, owner, e, rest, t);
    if e != Barrier(t) {
      ClassSlotInBody(env, owner, rest, t);
      var i := ClassVTableSlotOf(rest, t).value;
      assert ClassVTableSlotOf(entries, t).value == |head| + i;
      assert (head + BodyOf(env, owner, true, rest))[|head| + i] == BodyOf(env, owner, true, rest)[i];
    }
  }

  /** One step of the corrected vtable scan skips exactly the slots its entry takes in a body with a vtable. */
  lemma ClassSlotStep(env: Env, owner: TypeId, e: StructEntry, rest: seq<StructEntry>, t: TypeId)
    ensures ClassVTableSlotOf([e] + rest, t) ==
      if e == Barrier(t) then Success(0) else Shift(ClassVTableSlotOf(rest, t), |EntrySlots(env, owner, true, e)|)
  {
    assert ([e] + rest)[1..] == rest;
  }

  /**
   * The slot VTableSlot gives a class `k` holds, in the body of every type `d` derived from it
   * (or `k` itself) that has a vtable, the pointer to `d`'s vtable entry for `k`.
   */
  lemma VTableSlotHoldsPointer(env: Env, m: Types, k: TypeId, d: TypeId)
    requires WellFormed(m) && d in m && k in m && IsAncestorOrSelf(m, k, d) && m[k].baseType.Some?
    ensures VTableSlot(m, k).Success?
    ensures VTableSlot(m, k).value < |BodyOf(env, d, true, Layout(m, d))|
    ensures BodyOf(env, d, true, Layout(m, d))[VTableSlot(m, k).value] == Pointer(env.vtableEntryType(d, k))
  {
    VTableSlotCounted(m, k);
    VTableSlotIsScan(m, k);
    var a := Layout(m, k);
    AncestorLayoutIsPrefix(m, k, d);
    var rest := Layout(m, d)[|a|..];
    assert Layout(m, d) == a + rest;
    ClassSlotInLongerBody(env, d, a, rest, k);
  }

  /** A class's vtable slot found in a list of entries stays where it is when more entries follow. */
  lemma ClassSlotInLongerBody(env: Env, owner: TypeId, a: seq<StructEntry>, b: seq<StructEntry>, t: TypeId)
    requires ClassVTableSlotOf(a, t).Success?
    ensures ClassVTableSlotOf(a, t).value < |BodyOf(env, owner, true, a + b)|
    ensures BodyOf(env, owner, true, a + b)[ClassVTableSlotOf(a, t).value] == Pointer(env.vtableEntryType(owner, t))
  {
    ClassSlotPrefix(a, b, t);
    ClassSlotInBody(env, owner, a + b, t);
  }

  /** A field found in a list of entries stays where it is when more entries follow. */
  lemma FieldSlotInLongerBody(env: Env, owner: TypeId, hasVTable: bool, a: seq<StructEntry>, b: seq<StructEntry>, f: FieldDef)
    requires FieldSlotOf(a, f, hasVTable).Success?
    ensures FieldSlotOf(a, f, hasVTable).value < |BodyOf(env, owner, hasVTable, a + b)|
    ensures BodyOf(env, owner, hasVTable, a + b)[FieldSlotOf(a, f, hasVTable).value] == env.typeRef(f.fieldType)
  {
    FieldSlotPrefix(a, b, f, hasVTable);
    FieldSlotInBody(env, owner, hasVTable, a + b, f);
  }

  /**
   * The slot the corrected field scan gives a field of `decl` holds the field's IR type in the
   * body of `decl` and of every type derived from it that is built the same way.
   */
  lemma FieldSlotHoldsField(env: Env, m: Types, f: FieldDef, d: TypeId, hasVTable: bool)
    requires WellFormed(m) && d in m && f.declaringType in m && IsAncestorOrSelf(m, f.declaringType, d)
    requires FieldSlotOf(Layout(m, f.declaringType), f, hasVTable).Success?
    ensures FieldSlotOf(Layout(m, f.declaringType), f, hasVTable).value < |BodyOf(env, d, hasVTable, Layout(m, d))|
    ensures BodyOf(env, d, hasVTable, Layout(m, d))[FieldSlotOf(Layout(m, f.declaringType), f, hasVTable).value]
      == env.typeRef(f.fieldType)
  {
    var a := Layout(m, f.declaringType);
    AncestorLayoutIsPrefix(m, f.declaringType, d);
    var rest := Layout(m, d)[|a|..];
    assert Layout(m, d) == a + rest;
    FieldSlotInLongerBody(env, d, hasVTable, a, rest, f);
  }
}
