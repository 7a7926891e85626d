/**
 * Two small type hierarchies on which the indices Lookups.cs hands out miss the slots
 * TypeCompiler.cs gives the struct body, next to the corrected indices that hit them.
 */
module Findings {
  import opened Wrappers
  import opened Ir
  import opened Metadata
  import opened StructLayout
  import opened TypeCompilation

  /** A reference type with the given base and no fields, interfaces or size attributes. */
  function PlainClass(name: string, base: Option<TypeId>, depth: nat): TypeDef {
    TypeDef(name, base, [], false, false, false, -1, 0, false, depth)
  }

  /** System.Object (0) <- C (1) <- D (2), none of them declaring fields. */
  function ClassChain(): (m: Types)
    ensures WellFormed(m) && 0 in m && 1 in m && 2 in m
  {
    map[0 := PlainClass("System.Object", None, 0),
        1 := PlainClass("C", Some(0), 1),
        2 := PlainClass("D", Some(1), 2)]
  }

  lemma ClassChainLayouts()
    ensures Layout(ClassChain(), 1) == [Barrier(1)]
    ensures Layout(ClassChain(), 2) == [Barrier(1), Barrier(2)]
  {
    var m := ClassChain();
    assert Layout(m, 0) == [];
    assert Layout(m, 1) == [] + OwnEntries([]) + [Barrier(1)];
    assert Layout(m, 2) == Layout(m, 1) + OwnEntries([]) + [Barrier(2)];
  }

  /**
   * As written, GetClassVTableIndex answers 0 for both C and D; NewobjStoresCollide shows what the
   * `newobj` routine of D does with that.
   */
  lemma VTableIndicesCollide()
    ensures ClassVTableIndexOf(Layout(ClassChain(), 1), 1) == Success(0)
    ensures ClassVTableIndexOf(Layout(ClassChain(), 2), 2) == Success(0)
  {
    ClassChainLayouts();
    assert [Barrier(1), Barrier(2)][1..] == [Barrier(2)];
  }

  /**
   * D needing virtual calls, with class entries for C and then D: the `newobj` routine as written
   * stores C's vtable pointer into slot 0 and then D's over it, while the corrected routine stores
   * them into slots 0 and 1, the slots of D's body.
   */
  lemma NewobjStoresCollide(env: Env, typeRef: IrType, id: nat, tableC: Value, tableD: Value)
    requires env.needsVirtualCall(2) && env.classEntries(2) == [(1, tableC), (2, tableD)]
    ensures var entry := Block(id);
      var objPtr := Malloc(id + 1, typeRef);
      var asWritten := NewobjCode(env, ClassChain(), 2, typeRef, true, id, true);
      var corrected := NewobjCode(env, ClassChain(), 2, typeRef, true, id, false);
      && asWritten.Success? && |asWritten.value| == 7
      && asWritten.value[3] == Store(entry, tableC, SlotPointer(objPtr, 0), false)
      && asWritten.value[5] == Store(entry, tableD, SlotPointer(objPtr, 0), false)
      && corrected.Success? && |corrected.value| == 7
      && corrected.value[3] == Store(entry, tableC, SlotPointer(objPtr, 0), false)
      && corrected.value[5] == Store(entry, tableD, SlotPointer(objPtr, 1), false)
  {
    VTableIndicesCollide();
    ClassVTableIndexIsScan(ClassChain(), 1);
    ClassVTableIndexIsScan(ClassChain(), 2);
    VTableSlotsDistinct();
    ChainNewobjCode(env, typeRef, id, tableC, tableD, true, 0, 0);
    ChainNewobjCode(env, typeRef, id, tableC, tableD, false, 0, 1);
  }

  /** D's `newobj` routine when C's pointer goes to slot `i` and D's to slot `j`. */
  lemma ChainNewobjCode(env: Env, typeRef: IrType, id: nat, tableC: Value, tableD: Value, asWritten: bool, i: nat, j: nat)
    requires env.needsVirtualCall(2) && env.classEntries(2) == [(1, tableC), (2, tableD)]
    requires StoreIndex(ClassChain(), 1, asWritten) == Success(i) && StoreIndex(ClassChain(), 2, asWritten) == Success(j)
    ensures var entry := Block(id);
      var objPtr := Malloc(id + 1, typeRef);
      NewobjCode(env, ClassChain(), 2, typeRef, true, id, asWritten) ==
        Success([AddFunction(NewobjFunction(env, ClassChain()[2]), true, entry), Def(entry, objPtr),
                 Def(entry, SlotPointer(objPtr, i)), Store(entry, tableC, SlotPointer(objPtr, i), false),
                 Def(entry, SlotPointer(objPtr, j)), Store(entry, tableD, SlotPointer(objPtr, j), false),
                 Ret(entry, objPtr)])
  {
    var m := ClassChain();
    var entry := Block(id);
    var objPtr := Malloc(id + 1, typeRef);
    var pairs := env.classEntries(2);
    var first := [Def(entry, SlotPointer(objPtr, i)), Store(entry, tableC, SlotPointer(objPtr, i), false)];
    var second := [Def(entry, SlotPointer(objPtr, j)), Store(entry, tableD, SlotPointer(objPtr, j), false)];
    var indices := StoreIndices(m, pairs, asWritten);
    assert indices[0] == Success(i) && indices[1] == Success(j);
    assert VTableStoreCode(entry, objPtr, pairs, indices, 1) == Success([] + first);
    assert VTableStoreCode(entry, objPtr, pairs, indices, 2) == Success([] + first + second);
    assert InterfaceCode(env, 2, m[2], entry, objPtr) == [];
    assert NewobjStores(env, m, 2, entry, objPtr, true, asWritten) == Success([] + first + second);
    var body := [Def(entry, objPtr)] + ([] + first + second) + [] + [Ret(entry, objPtr)];
    assert NewobjBody(env, m, 2, entry, objPtr, true, asWritten) == Success(body);
    assert [AddFunction(NewobjFunction(env, m[2]), true, entry)] + body
        == [AddFunction(NewobjFunction(env, m[2]), true, entry), Def(entry, objPtr),
            Def(entry, SlotPointer(objPtr, i)), Store(entry, tableC, SlotPointer(objPtr, i), false),
            Def(entry, SlotPointer(objPtr, j)), Store(entry, tableD, SlotPointer(objPtr, j), false),
            Ret(entry, objPtr)];
  }

  /** The body of D with a vtable has a slot per barrier: C's pointer, then D's. */
  lemma ChainBodyWithVTable(env: Env)
    ensures BodyOf(env, 2, true, Layout(ClassChain(), 2)) ==
      [Pointer(env.vtableEntryType(2, 1)), Pointer(env.vtableEntryType(2, 2))]
  {
    var layout := [Barrier(1), Barrier(2)];
    ClassChainLayouts();
    assert layout[..1] == [Barrier(1)];
    assert [Barrier(1)][..0] == [];
    assert BodyOf(env, 2, true, [Barrier(1)]) == [Pointer(env.vtableEntryType(2, 1))];
  }

  /** The corrected index puts C's pointer in slot 0 and D's in slot 1, the slots of the body. */
  lemma VTableSlotsDistinct()
    ensures VTableSlot(ClassChain(), 1) == Success(0)
    ensures VTableSlot(ClassChain(), 2) == Success(1)
  {
    var m := ClassChain();
    assert OwnSlots([]) == 0;
    assert LayoutSlots(m, 0) == 0;
    assert LayoutSlots(m, 1) == LayoutSlots(m, 0) + OwnSlots(m[1].fields) + 1;
  }

  /** The field `value` of struct S. */
  function ValueField(): FieldDef {
    FieldDef(0, "value", "S::value", "System.Int32", false, 2)
  }

  /** System.Object (0) <- System.ValueType (1) <- struct S (2) with one Int32 field. */
  function StructChain(): (m: Types)
    ensures WellFormed(m) && 0 in m && 1 in m && 2 in m
  {
    map[0 := PlainClass("System.Object", None, 0),
        1 := PlainClass("System.ValueType", Some(0), 1),
        2 := TypeDef("S", Some(1), [ValueField()], false, true, false, -1, 0, false, 2)]
  }

  lemma StructChainLayout()
    ensures Layout(StructChain(), 2) == [Barrier(1), FieldEntry(ValueField()), Barrier(2)]
  {
    var m := StructChain();
    assert Layout(m, 0) == [];
    assert Layout(m, 1) == [] + OwnEntries([]) + [Barrier(1)];
    assert OwnEntries([ValueField()]) == [FieldEntry(ValueField())];
  }

  /**
   * As written, GetFieldIndex counts the barrier of System.ValueType and answers 1 for S's only
   * field (StructBody shows that S's body has no slot 1).
   */
  lemma StructFieldIndex()
    ensures FieldIndexOf(Layout(StructChain(), 2), ValueField()) == Success(1)
  {
    var layout := [Barrier(1), FieldEntry(ValueField()), Barrier(2)];
    StructChainLayout();
    assert layout[1..] == [FieldEntry(ValueField()), Barrier(2)];
  }

  /** S has no vtable, no padding, and its body is its one field. */
  lemma StructBody(env: Env)
    ensures CompiledBody(env, StructChain(), 2) == Success([env.typeRef("System.Int32")])
  {
    var m := StructChain();
    var layout := [Barrier(1), FieldEntry(ValueField()), Barrier(2)];
    StructChainLayout();
    assert !HasVTable(env, 2, m[2]);
    assert layout[..2] == [Barrier(1), FieldEntry(ValueField())];
    assert layout[..2][..1] == [Barrier(1)];
    assert [Barrier(1)][..0] == [];
    assert BodyOf(env, 2, false, [Barrier(1)]) == [];
    assert BodyOf(env, 2, false, layout[..2]) == [env.typeRef("System.Int32")];
    assert BodyOf(env, 2, false, layout) == [env.typeRef("System.Int32")];
    assert Padding(m[2], GetTypeKind(m[2]), FieldBytes(env, layout)) == Success(0);
    assert [env.typeRef("System.Int32")] + Int8s(0) == [env.typeRef("System.Int32")];
  }

  /** The corrected index, which counts barriers only in a body with a vtable, is slot 0. */
  lemma StructFieldSlot()
    ensures FieldSlotOf(Layout(StructChain(), 2), ValueField(), false) == Success(0)
  {
    StructChainLayout();
    assert [Barrier(1), FieldEntry(ValueField()), Barrier(2)][1..] == [FieldEntry(ValueField()), Barrier(2)];
  }
}
