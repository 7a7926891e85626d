/**
 * The symbol table of Lookups/Lookup.cs: write-once registries (a second Add of a key fails, as
 * Dictionary.Add does), the list of static constructors, the memoised struct layouts and the two
 * index scans over a layout.
 */
module Lookups {
  import opened Wrappers
  import opened Ir
  import opened Metadata
  import opened StructLayout

  /** A vtable, keyed by the type it belongs to. Its entries come from the collaborator functions. */
  datatype VTable = VTable(ty: TypeId)

  /** Every cached layout is the layout of its type. */
  predicate LayoutCacheSound(m: Types, layouts: map<TypeId, seq<StructEntry>>) {
    WellFormed(m) && forall t | t in layouts :: t in m && layouts[t] == Layout(m, t)
  }

  /** Caching a type's own layout keeps the cache sound. */
  lemma CacheExtended(m: Types, layouts: map<TypeId, seq<StructEntry>>, t: TypeId, fields: seq<StructEntry>)
    requires LayoutCacheSound(m, layouts) && t in m && fields == Layout(m, t)
    ensures LayoutCacheSound(m, layouts[t := fields])
  {
  }

  class Lookup {
    var functions: map<string, Value>
    var staticFields: map<FieldDef, Value>
    var types: map<TypeId, IrType>
    var layouts: map<TypeId, seq<StructEntry>>
    var vtables: map<TypeId, VTable>
    var newobjs: map<TypeId, Value>
    var cctors: seq<MethodId>

    constructor ()
      ensures functions == map[] && staticFields == map[] && types == map[] && layouts == map[]
      ensures vtables == map[] && newobjs == map[] && cctors == []
    {
      functions := map[];
      staticFields := map[];
      types := map[];
      layouts := map[];
      vtables := map[];
      newobjs := map[];
      cctors := [];
    }

    /** The registered function, or nothing for an unknown name. */
    function GetFunction(name: string): (r: Option<Value>)
      reads this
      ensures r.Some? <==> name in functions
      ensures r.Some? ==> r.value == functions[name]
    {
      if name in functions then Some(functions[name]) else None
    }

    method AddFunction(name: string, function_: Value) returns (o: Outcome)
      modifies this`functions
      ensures name in old(functions) ==> o == Fail(DuplicateKey) && functions == old(functions)
      ensures name !in old(functions) ==> o == Pass && functions == old(functions)[name := function_]
      ensures o.Pass? ==> GetFunction(name) == Some(function_)
    {
      if name in functions {
        return Fail(DuplicateKey);
      }
      functions := functions[name := function_];
      return Pass;
    }

    /** The registered global of a static field, or nothing. */
    function GetStaticField(field: FieldDef): (r: Option<Value>)
      reads this
      ensures r.Some? <==> field in staticFields
      ensures r.Some? ==> r.value == staticFields[field]
    {
      if field in staticFields then Some(staticFields[field]) else None
    }

    method AddStaticField(field: FieldDef, val: Value) returns (o: Outcome)
      modifies this`staticFields
      ensures field in old(staticFields) ==> o == Fail(DuplicateKey) && staticFields == old(staticFields)
      ensures field !in old(staticFields) ==> o == Pass && staticFields == old(staticFields)[field := val]
      ensures o.Pass? ==> HasStaticField(field) && GetStaticField(field) == Some(val)
    {
      if field in staticFields {
        return Fail(DuplicateKey);
      }
      staticFields := staticFields[field := val];
      return Pass;
    }

    /** True exactly when a global was registered for the field. */
    predicate HasStaticField(field: FieldDef)
      reads this
      ensures HasStaticField(field) <==> GetStaticField(field).Some?
    {
      field in staticFields
    }

    method AddCctor(cctor: MethodId)
      modifies this`cctors
      ensures cctors == old(cctors) + [cctor]
    {
      cctors := cctors + [cctor];
    }

    method AddType(t: TypeId, typeRef: IrType) returns (o: Outcome)
      modifies this`types
      ensures t in old(types) ==> o == Fail(DuplicateKey) && types == old(types)
      ensures t !in old(types) ==> o == Pass && types == old(types)[t := typeRef]
      ensures o.Pass? ==> GetTypeRef(t) == Success(typeRef)
    {
      if t in types {
        return Fail(DuplicateKey);
      }
      types := types[t := typeRef];
      return Pass;
    }

    /** The registered IR type; an unknown type is an InvalidOperationException. */
    function GetTypeRef(t: TypeId): (r: Result<IrType>)
      reads this
      ensures r.Success? <==> t in types
      ensures r.Success? ==> r.value == types[t]
      ensures r.Failure? ==> r.error == InvalidOperation
    {
      if t !in types then Failure(InvalidOperation) else Success(types[t])
    }

    /** Registers a vtable under the type it is for. */
    method AddVTable(table: VTable) returns (o: Outcome)
      modifies this`vtables
      ensures table.ty in old(vtables) ==> o == Fail(DuplicateKey) && vtables == old(vtables)
      ensures table.ty !in old(vtables) ==> o == Pass && vtables == old(vtables)[table.ty := table]
      ensures o.Pass? ==> GetVTable(table.ty) == Success(table)
    {
      if table.ty in vtables {
        return Fail(DuplicateKey);
      }
      vtables := vtables[table.ty := table];
      return Pass;
    }

    /** The registered vtable; an unknown type is an InvalidOperationException. */
    function GetVTable(t: TypeId): (r: Result<VTable>)
      reads this
      ensures r.Success? <==> t in vtables
      ensures r.Success? ==> r.value == vtables[t]
      ensures r.Failure? ==> r.error == InvalidOperation
    {
      if t !in vtables then Failure(InvalidOperation) else Success(vtables[t])
    }

    /** The static constructors in the order they were added, as a fresh array. */
    method GetStaticConstructors() returns (a: array<MethodId>)
      ensures fresh(a) && a[..] == cctors
    {
      a := new MethodId[|cctors|](i requires 0 <= i < |cctors| reads this => cctors[i]);
    }

    method AddNewobjMethod(t: TypeId, func: Value) returns (o: Outcome)
      modifies this`newobjs
      ensures t in old(newobjs) ==> o == Fail(DuplicateKey) && newobjs == old(newobjs)
      ensures t !in old(newobjs) ==> o == Pass && newobjs == old(newobjs)[t := func]
      ensures o.Pass? ==> GetNewobjMethod(t) == Success(func)
    {
      if t in newobjs {
        return Fail(DuplicateKey);
      }
      newobjs := newobjs[t := func];
      return Pass;
    }

    /** The dictionary indexer: an unknown type is a KeyNotFoundException. */
    function GetNewobjMethod(t: TypeId): (r: Result<Value>)
      reads this
      ensures r.Success? <==> t in newobjs
      ensures r.Success? ==> r.value == newobjs[t]
      ensures r.Failure? ==> r.error == KeyNotFound
    {
      if t in newobjs then Success(newobjs[t]) else Failure(KeyNotFound)
    }

    /**
     * GetStructLayout. A cached layout is returned as it is; a type without a base type gets an
     * empty layout that is not cached; otherwise the base layout is computed (and cached) first,
     * then this type's own fields and barrier are appended and the result cached. The cache only
     * ever gains the type and its base types, so the final Add never meets a duplicate.
     */
    method GetStructLayout(m: Types, t: TypeId) returns (r: seq<StructEntry>)
      requires WellFormed(m) && t in m && LayoutCacheSound(m, layouts)
      modifies this`layouts
      ensures r == Layout(m, t)
      ensures LayoutCacheSound(m, layouts)
      ensures t in old(layouts) ==> layouts == old(layouts)
      ensures m[t].baseType.None? ==> layouts == old(layouts)
      ensures m[t].baseType.Some? ==> t in layouts
      ensures forall k | k in old(layouts) :: k in layouts
      ensures forall k | k in layouts && k !in old(layouts) :: k in m && m[k].depth <= m[t].depth
      decreases m[t].depth
    {
      if t in layouts {
        return layouts[t];
      }
      var fields: seq<StructEntry> := [];
      if m[t].baseType.None? {
        return fields;
      }
      var parent := m[t].baseType.value;
      var parentFields := GetStructLayout(m, parent);
      fields := parentFields + OwnEntries(m[t].fields) + [Barrier(t)];
      assert t !in layouts;
      CacheExtended(m, layouts, t, fields);
      layouts := layouts[t := fields];
      return fields;
    }

    /** GetClassVTableIndex: the scan of the type's own layout. */
    method GetClassVTableIndex(m: Types, t: TypeId) returns (r: Result<nat>)
      requires WellFormed(m) && t in m && LayoutCacheSound(m, layouts)
      modifies this`layouts
      ensures r == ClassVTableIndexOf(Layout(m, t), t)
      ensures LayoutCacheSound(m, layouts)
      ensures forall k | k in old(layouts) :: k in layouts
    {
      var fields := GetStructLayout(m, t);
      r := ScanClassVTableIndex(fields, t);
    }

    /**
     * The slot of the type's class vtable pointer in the body of a type with a vtable: the
     * corrected GetClassVTableIndex, which counts the barriers of base types.
     */
    method GetClassVTableSlot(m: Types, t: TypeId) returns (r: Result<nat>)
      requires WellFormed(m) && t in m && LayoutCacheSound(m, layouts)
      modifies this`layouts
      ensures r == VTableSlot(m, t)
      ensures LayoutCacheSound(m, layouts)
    {
      var fields := GetStructLayout(m, t);
      r := ClassVTableSlotOf(fields, t);
      VTableSlotIsScan(m, t);
    }

    /** GetFieldIndex: the scan of the layout of the field's declaring type. */
    method GetFieldIndex(m: Types, field: FieldDef) returns (r: Result<nat>)
      requires WellFormed(m) && field.declaringType in m && LayoutCacheSound(m, layouts)
      modifies this`layouts
      ensures r == FieldIndexOf(Layout(m, field.declaringType), field)
      ensures LayoutCacheSound(m, layouts)
      ensures forall k | k in old(layouts) :: k in layouts
    {
      var fields := GetStructLayout(m, field.declaringType);
      r := ScanFieldIndex(fields, field);
    }

    /**
     * The slot of a field in the body of its declaring type: the corrected GetFieldIndex, which
     * counts a barrier only when that body has vtable slots.
     */
    method GetFieldSlot(m: Types, field: FieldDef, hasVTable: bool) returns (r: Result<nat>)
      requires WellFormed(m) && field.declaringType in m && LayoutCacheSound(m, layouts)
      modifies this`layouts
      ensures r == FieldSlotOf(Layout(m, field.declaringType), field, hasVTable)
      ensures LayoutCacheSound(m, layouts)
    {
      var fields := GetStructLayout(m, field.declaringType);
      r := FieldSlotOf(fields, field, hasVTable);
    }
  }

  /**
   * The loop of GetClassVTableIndex: counts the non-static fields up to the barrier of `t`,
   * passing over every other barrier.
   */
  method ScanClassVTableIndex(fields: seq<StructEntry>, t: TypeId) returns (r: Result<nat>)
    ensures r == ClassVTableIndexOf(fields, t)
  {
    var i := 0;
    var j := 0;
    while j < |fields|
      invariant 0 <= j <= |fields|
      invariant ClassVTableIndexOf(fields, t) == Shift(ClassVTableIndexOf(fields[j..], t), i)
    {
      var child := fields[j];
      assert fields[j..][1..] == fields[j + 1..];
      if child.Barrier? {
        if child.owner == t {
          return Success(i);
        }
      } else if child.InterfaceTable? {
        return Failure(InvalidCast);
      } else if !child.field.isStatic {
        i := i + 1;
      }
      j := j + 1;
    }
    return Failure(LookupFailed);
  }

  /**
   * The loop of GetFieldIndex: counts every barrier and every non-static field before the field;
   * static fields are passed over before the comparison.
   */
  method ScanFieldIndex(fields: seq<StructEntry>, field: FieldDef) returns (r: Result<nat>)
    ensures r == FieldIndexOf(fields, field)
  {
    var i := 0;
    var j := 0;
    while j < |fields|
      invariant 0 <= j <= |fields|
      invariant FieldIndexOf(fields, field) == Shift(FieldIndexOf(fields[j..], field), i)
    {
      var child := fields[j];
      assert fields[j..][1..] == fields[j + 1..];
      if child.Barrier? {
        i := i + 1;
      } else if child.InterfaceTable? {
        return Failure(InvalidCast);
      } else if !child.field.isStatic {
        if child.field == field {
          return Success(i);
        }
        i := i + 1;
      }
      j := j + 1;
    }
    return Failure(LookupFailed);
  }
}
