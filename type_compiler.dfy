/**
 * Compilation/TypeCompiler.cs: the kind of a type, its declaration, and the compilation of its
 * struct body (slots from the layout, static globals, packing, fixed-size padding) and of the
 * `newobj` routine of a class.
 */
module TypeCompilation {
  import opened Wrappers
  import opened Ir
  import opened Metadata
  import opened StructLayout
  import opened Lookups
  import NameHelper

  datatype TypeKind = Struct | Enum | Interface | Class

  /** getTypeKind: value types that are not enums are structs; then enums, interfaces, classes. */
  function GetTypeKind(d: TypeDef): (k: TypeKind)
    ensures k == Struct <==> d.isValueType && !d.isEnum
    ensures k == Enum <==> d.isEnum
    ensures k == Interface <==> !d.isEnum && !d.isValueType && d.isInterface
    ensures k == Class <==> !d.isEnum && !d.isValueType && !d.isInterface
  {
    var isStruct := !d.isEnum && d.isValueType;
    var isEnum := d.isEnum;
    var isInterface := d.isInterface;
    if isStruct then Struct
    else if isEnum then Enum
    else if isInterface then Interface
    else Class
  }

  /** Interfaces always have a vtable; classes when a virtual call is made on them. */
  predicate HasVTable(env: Env, t: TypeId, d: TypeDef) {
    GetTypeKind(d) == Interface || (GetTypeKind(d) == Class && env.needsVirtualCall(t))
  }

  /** The IR type a declaration registers: an enum's first field type, else a named struct. */
  function DeclaredType(env: Env, d: TypeDef): IrType
    requires GetTypeKind(d) == Enum ==> |d.fields| > 0
  {
    if GetTypeKind(d) == Enum then env.typeRef(d.fields[0].fieldType)
    else Named(NameHelper.CreateTypeName(d.fullName))
  }

  /**
   * CreateDeclaration: exactly one type registration. An enum without fields fails on
   * `Fields[0]`; a named struct is created before the registration, so a duplicate
   * registration still leaves it behind.
   */
  method CreateDeclaration(env: Env, m: Types, t: TypeId, lookup: Lookup, ir: IrModule) returns (o: Outcome)
    requires t in m
    modifies lookup`types, ir`code
    ensures GetTypeKind(m[t]) == Enum && |m[t].fields| == 0 ==>
      o == Fail(ArgumentOutOfRange) && lookup.types == old(lookup.types) && ir.code == old(ir.code)
    ensures GetTypeKind(m[t]) == Enum ==> ir.code == old(ir.code)
    ensures GetTypeKind(m[t]) != Enum ==>
      ir.code == old(ir.code) + [NamedStruct(Named(NameHelper.CreateTypeName(m[t].fullName)))]
    ensures (GetTypeKind(m[t]) != Enum || |m[t].fields| > 0) && t in old(lookup.types) ==>
      o == Fail(DuplicateKey) && lookup.types == old(lookup.types)
    ensures (GetTypeKind(m[t]) != Enum || |m[t].fields| > 0) && t !in old(lookup.types) ==>
      o == Pass && lookup.types == old(lookup.types)[t := DeclaredType(env, m[t])]
  {
    var d := m[t];
    var typeKind := GetTypeKind(d);
    if typeKind == Enum {
      if |d.fields| == 0 {
        return Fail(ArgumentOutOfRange);
      }
      o := lookup.AddType(t, env.typeRef(d.fields[0].fieldType));
    } else {
      var data := Named(NameHelper.CreateTypeName(d.fullName));
      ir.Append(NamedStruct(data));
      o := lookup.AddType(t, data);
    }
  }

  /** The body slots one layout entry contributes. */
  function EntrySlots(env: Env, owner: TypeId, hasVTable: bool, e: StructEntry): seq<IrType> {
    match e
    case Barrier(k) => if hasVTable then [Pointer(env.vtableEntryType(owner, k))] else []
    case InterfaceTable => [env.voidPtr]
    case FieldEntry(f) => if f.isStatic then [] else [env.typeRef(f.fieldType)]
  }

  /** The body of `owner` before padding: the slots of its layout entries in order. */
  function BodyOf(env: Env, owner: TypeId, hasVTable: bool, entries: seq<StructEntry>): seq<IrType> {
    if entries == [] then []
    else BodyOf(env, owner, hasVTable, entries[..|entries| - 1]) + EntrySlots(env, owner, hasVTable, entries[|entries| - 1])
  }

  /** fieldTotalSize: the byte sizes of the instance fields (bits divided by 8). */
  function FieldBytes(env: Env, entries: seq<StructEntry>): nat {
    if entries == [] then 0
    else
      var e := entries[|entries| - 1];
      FieldBytes(env, entries[..|entries| - 1])
        + (if e.FieldEntry? && !e.field.isStatic then env.sizeInBits(env.typeRef(e.field.fieldType)) / 8 else 0)
  }

  /** The registered static globals, the IR so far and the next fresh identity. */
  datatype Statics = Statics(registered: map<FieldDef, Value>, code: seq<Instr>, nextId: nat)

  /** A static field not yet registered gets a global with a null initializer, then is registered. */
  function StaticStep(env: Env, e: StructEntry, s: Statics): Statics {
    if e.FieldEntry? && e.field.isStatic && e.field !in s.registered then
      var ty := env.typeRef(e.field.fieldType);
      var g := Global(s.nextId, ty);
      Statics(s.registered[e.field := g],
              s.code + [AddGlobal(g, env.fieldName(e.field.fullName))] + [SetInitializer(g, ConstNull(ty))],
              s.nextId + 1)
    else s
  }

  function DeclareStatics(env: Env, entries: seq<StructEntry>, s: Statics): Statics {
    if entries == [] then s
    else StaticStep(env, entries[|entries| - 1], DeclareStatics(env, entries[..|entries| - 1], s))
  }

  /** The static fields among the entries. */
  function StaticFields(entries: seq<StructEntry>): set<FieldDef> {
    set e | e in entries && e.FieldEntry? && e.field.isStatic :: e.field
  }

  /**
   * The walk over the layout (TypeCompiler.cs lines 104-148): collects the body slots and the
   * instance field sizes, and creates each static field's global unless it is already registered.
   */
  method BuildBody(env: Env, t: TypeId, hasVTable: bool, entries: seq<StructEntry>, lookup: Lookup, ir: IrModule)
    returns (structData: seq<IrType>, fieldTotalSize: nat)
    modifies lookup`staticFields, ir`code, ir`nextId
    ensures structData == BodyOf(env, t, hasVTable, entries)
    ensures fieldTotalSize == FieldBytes(env, entries)
    ensures Statics(lookup.staticFields, ir.code, ir.nextId) ==
      DeclareStatics(env, entries, Statics(old(lookup.staticFields), old(ir.code), old(ir.nextId)))
  {
    ghost var s0 := Statics(lookup.staticFields, ir.code, ir.nextId);
    structData := [];
    fieldTotalSize := 0;
    var j := 0;
    while j < |entries|
      invariant 0 <= j <= |entries|
      invariant structData == BodyOf(env, t, hasVTable, entries[..j])
      invariant fieldTotalSize == FieldBytes(env, entries[..j])
      invariant Statics(lookup.staticFields, ir.code, ir.nextId) == DeclareStatics(env, entries[..j], s0)
    {
      var entry := entries[j];
      assert entries[..j + 1][..j] == entries[..j];
      if entry.Barrier? {
        if hasVTable {
          structData := structData + [Pointer(env.vtableEntryType(t, entry.owner))];
        }
      } else if entry.InterfaceTable? {
        structData := structData + [env.voidPtr];
      } else {
        var field := entry.field;
        var fieldType := env.typeRef(field.fieldType);
        if field.isStatic {
          if !lookup.HasStaticField(field) {
            var id := ir.Fresh();
            var val := Global(id, fieldType);
            ir.Append(AddGlobal(val, env.fieldName(field.fullName)));
            ir.Append(SetInitializer(val, ConstNull(fieldType)));
            var added := lookup.AddStaticField(field, val);
          }
        } else {
          structData := structData + [fieldType];
          fieldTotalSize := fieldTotalSize + env.sizeInBits(fieldType) / 8;
        }
      }
      j := j + 1;
    }
    assert entries[..j] == entries;
  }

  /** The size the padding aims at: ClassSize, halved for a type made of one System.Char field. */
  function FixedSize(d: TypeDef): int {
    // Only read when ClassSize > 0, where Dafny's division agrees with C#'s.
    if |d.fields| == 1 && d.fields[0].fieldType == "System.Char" then d.classSize / 2 else d.classSize
  }

  /**
   * The checks after the walk: a packing size outside {-1, 0, 1} is not implemented; a fixed size
   * larger than the fields is only allowed on a struct and gives that many Int8 padding slots.
   */
  function Padding(d: TypeDef, kind: TypeKind, fieldTotalSize: nat): Result<nat> {
    if d.packingSize != 1 && d.packingSize != -1 && d.packingSize != 0 then Failure(NotImplemented)
    else if d.classSize > 0 && fieldTotalSize < d.classSize then
      if kind != Struct then Failure(InvalidOperation)
      else Success(if FixedSize(d) > fieldTotalSize then FixedSize(d) - fieldTotalSize else 0)
    else Success(0)
  }

  function Int8s(n: nat): (r: seq<IrType>)
    ensures |r| == n && forall i | 0 <= i < n :: r[i] == Int8
  {
    seq(n, _ => Int8)
  }

  /** The padding loop: `needed` Int8 slots, none when `needed` is not positive. */
  method AppendPadding(structData: seq<IrType>, needed: int) returns (r: seq<IrType>)
    ensures r == structData + Int8s(if needed > 0 then needed else 0)
  {
    r := structData;
    var i := 0;
    while i < needed
      invariant 0 <= i && (needed > 0 ==> i <= needed) && (needed <= 0 ==> i == 0)
      invariant r == structData + Int8s(i)
    {
      assert Int8s(i + 1) == Int8s(i) + [Int8];
      r := r + [Int8];
      i := i + 1;
    }
  }

  /** The body after the packing and fixed-size checks: the slots, then the padding. */
  function PaddedBody(d: TypeDef, slots: seq<IrType>, fieldTotalSize: nat): Result<seq<IrType>> {
    match Padding(d, GetTypeKind(d), fieldTotalSize)
    case Failure(e) => Failure(e)
    case Success(n) => Success(slots + Int8s(n))
  }

  /**
   * What the checks after the walk promise: an unsupported packing size is NotImplemented, a
   * fixed size on a non-struct larger than its fields is InvalidOperation; otherwise the slots
   * are kept in order and followed only by Int8 padding up to the fixed size.
   */
  lemma PaddedBodyShape(d: TypeDef, slots: seq<IrType>, fieldTotalSize: nat)
    ensures var r := PaddedBody(d, slots, fieldTotalSize);
      var fixed := d.classSize > 0 && fieldTotalSize < d.classSize;
      && (r.Failure? <==> d.packingSize !in {-1, 0, 1} || (fixed && GetTypeKind(d) != Struct))
      && (d.packingSize !in {-1, 0, 1} ==> r == Failure(NotImplemented))
      && (d.packingSize in {-1, 0, 1} && fixed && GetTypeKind(d) != Struct ==> r == Failure(InvalidOperation))
      && (r.Success? ==>
            && |slots| <= |r.value| && r.value[..|slots|] == slots
            && (forall i | |slots| <= i < |r.value| :: r.value[i] == Int8)
            && |r.value| - |slots| == (if fixed && FixedSize(d) > fieldTotalSize then FixedSize(d) - fieldTotalSize else 0))
  {
    var r := PaddedBody(d, slots, fieldTotalSize);
    if r.Success? {
      assert r.value[..|slots|] == slots;
    }
  }

  /** The struct body Compile sets, or the error it throws on the way there. */
  function CompiledBody(env: Env, m: Types, t: TypeId): Result<seq<IrType>>
    requires WellFormed(m) && t in m
  {
    var layout := Layout(m, t);
    PaddedBody(m[t], BodyOf(env, t, HasVTable(env, t, m[t]), layout), FieldBytes(env, layout))
  }

  /** The GEP to slot `index` of an object: indices [0, index], in bounds. */
  function SlotPointer(objPtr: Value, index: nat): Value {
    Gep(objPtr, [ConstInt(Int32, 0, false), ConstInt(Int32, index, false)], true)
  }

  /** Every class entry names a type of the metadata. */
  predicate KeysIn(m: Types, pairs: seq<(TypeId, Value)>) {
    forall p | p in pairs :: p.0 in m
  }

  /**
   * The index the store loop of createNewobjMethod uses for a class entry: as written, what
   * GetClassVTableIndex answers (TypeCompiler.cs line 215; see ClassVTableIndexIsScan); corrected,
   * the slot the body gives that class's barrier.
   */
  function StoreIndex(m: Types, key: TypeId, asWritten: bool): Result<nat>
    requires WellFormed(m) && key in m
  {
    if asWritten then ClassVTableIndex(m, key) else VTableSlot(m, key)
  }

  /** The index lookups of the store loop, one per class entry, in order. */
  function StoreIndices(m: Types, pairs: seq<(TypeId, Value)>, asWritten: bool): (r: seq<Result<nat>>)
    requires WellFormed(m) && KeysIn(m, pairs)
    ensures |r| == |pairs|
  {
    seq(|pairs|, k requires 0 <= k < |pairs| => StoreIndex(m, pairs[k].0, asWritten))
  }

  /**
   * The vtable-pointer stores of a `newobj` routine for the first `n` class entries, in order,
   * given the result of each entry's index lookup: the first failed lookup fails the plan.
   */
  function VTableStoreCode(entry: Block, objPtr: Value, pairs: seq<(TypeId, Value)>, indices: seq<Result<nat>>, n: nat)
    : Result<seq<Instr>>
    requires |indices| == |pairs| && n <= |pairs|
  {
    if n == 0 then Success([])
    else
      match VTableStoreCode(entry, objPtr, pairs, indices, n - 1)
      case Failure(e) => Failure(e)
      case Success(code) =>
        match indices[n - 1]
        case Failure(e) => Failure(e)
        case Success(index) =>
          Success(code + [Def(entry, SlotPointer(objPtr, index)), Store(entry, pairs[n - 1].1, SlotPointer(objPtr, index), false)])
  }

  /**
   * The stores the loop has appended after the first `n` class entries: all of them, or, once an
   * index lookup has failed, those of the entries before the failing one.
   */
  function VTableStoresEmitted(entry: Block, objPtr: Value, pairs: seq<(TypeId, Value)>, indices: seq<Result<nat>>, n: nat)
    : seq<Instr>
    requires |indices| == |pairs| && n <= |pairs|
  {
    if n == 0 then []
    else
      match VTableStoreCode(entry, objPtr, pairs, indices, n)
      case Success(code) => code
      case Failure(_) => VTableStoresEmitted(entry, objPtr, pairs, indices, n - 1)
  }

  /** The IR function of a class's `newobj` routine. */
  function NewobjFunction(env: Env, d: TypeDef): Value {
    Function("newobj_" + d.fullName, FunctionOf(env.typeRef(d.fullName)))
  }

  /**
   * The class vtable stores of a `newobj` routine: none unless the type needs virtual calls, then
   * GetVTable must succeed and each class entry gets its store.
   */
  function NewobjStores(env: Env, m: Types, t: TypeId, entry: Block, objPtr: Value, vtableRegistered: bool, asWritten: bool)
    : Result<seq<Instr>>
    requires WellFormed(m) && KeysIn(m, env.classEntries(t))
  {
    if !env.needsVirtualCall(t) then Success([])
    else if !vtableRegistered then Failure(InvalidOperation)
    else VTableStoreCode(entry, objPtr, env.classEntries(t), StoreIndices(m, env.classEntries(t), asWritten), |env.classEntries(t)|)
  }

  /** The class vtable stores appended whatever happens: none when GetVTable fails. */
  function NewobjStoresEmitted(env: Env, m: Types, t: TypeId, entry: Block, objPtr: Value, vtableRegistered: bool,
                               asWritten: bool): seq<Instr>
    requires WellFormed(m) && KeysIn(m, env.classEntries(t))
  {
    if env.needsVirtualCall(t) && vtableRegistered
    then VTableStoresEmitted(entry, objPtr, env.classEntries(t), StoreIndices(m, env.classEntries(t), asWritten), |env.classEntries(t)|)
    else []
  }

  /** With interfaces, the interface indirection table, cast to void*, is stored at slot 0. */
  function InterfaceCode(env: Env, t: TypeId, d: TypeDef, entry: Block, objPtr: Value): seq<Instr> {
    var cast := PointerCast(env.interfaceTable(t), env.voidPtr);
    if d.hasInterfaces then [Def(entry, SlotPointer(objPtr, 0)), Def(entry, cast), Store(entry, cast, SlotPointer(objPtr, 0), false)]
    else []
  }

  /**
   * The body of a `newobj` routine after the function is added: allocate, store the class vtable
   * pointers, store the interface table, return the allocated pointer.
   */
  function NewobjBody(env: Env, m: Types, t: TypeId, entry: Block, objPtr: Value, vtableRegistered: bool, asWritten: bool)
    : Result<seq<Instr>>
    requires WellFormed(m) && t in m && KeysIn(m, env.classEntries(t))
  {
    match NewobjStores(env, m, t, entry, objPtr, vtableRegistered, asWritten)
    case Failure(e) => Failure(e)
    case Success(vtableCode) =>
      Success([Def(entry, objPtr)] + vtableCode + InterfaceCode(env, t, m[t], entry, objPtr) + [Ret(entry, objPtr)])
  }

  /** What that body leaves whatever happens: a failed one keeps the allocation and the stores before the failure. */
  function NewobjBodyEmitted(env: Env, m: Types, t: TypeId, entry: Block, objPtr: Value, vtableRegistered: bool,
                             asWritten: bool): seq<Instr>
    requires WellFormed(m) && t in m && KeysIn(m, env.classEntries(t))
  {
    match NewobjBody(env, m, t, entry, objPtr, vtableRegistered, asWritten)
    case Success(code) => code
    case Failure(_) => [Def(entry, objPtr)] + NewobjStoresEmitted(env, m, t, entry, objPtr, vtableRegistered, asWritten)
  }

  /**
   * The code of a `newobj` routine whose entry block and heap allocation take the identities
   * `id` and `id + 1`: the function is added, then the body follows.
   */
  function NewobjCode(env: Env, m: Types, t: TypeId, typeRef: IrType, vtableRegistered: bool, id: nat, asWritten: bool)
    : Result<seq<Instr>>
    requires WellFormed(m) && t in m && KeysIn(m, env.classEntries(t))
  {
    match NewobjBody(env, m, t, Block(id), Malloc(id + 1, typeRef), vtableRegistered, asWritten)
    case Failure(e) => Failure(e)
    case Success(body) => Success([AddFunction(NewobjFunction(env, m[t]), true, Block(id))] + body)
  }

  /**
   * The code createNewobjMethod appends whatever happens: the function is added before the type
   * lookup can fail, and a routine whose stores fail keeps its allocation and the stores before
   * the failure.
   */
  function NewobjEmitted(env: Env, m: Types, t: TypeId, types: map<TypeId, IrType>, vtableRegistered: bool, id: nat,
                         asWritten: bool): seq<Instr>
    requires WellFormed(m) && t in m && KeysIn(m, env.classEntries(t))
  {
    [AddFunction(NewobjFunction(env, m[t]), true, Block(id))]
    + if t !in types then []
      else NewobjBodyEmitted(env, m, t, Block(id), Malloc(id + 1, types[t]), vtableRegistered, asWritten)
  }

  /** A failing prefix of the class entries fails the whole store plan, with the same error. */
  lemma {:induction false} StoreCodeFailurePersists(entry: Block, objPtr: Value, pairs: seq<(TypeId, Value)>,
                                                    indices: seq<Result<nat>>, k: nat, n: nat)
    requires |indices| == |pairs| && k <= n <= |pairs|
    requires VTableStoreCode(entry, objPtr, pairs, indices, k).Failure?
    ensures VTableStoreCode(entry, objPtr, pairs, indices, n) == VTableStoreCode(entry, objPtr, pairs, indices, k)
    decreases n
  {
    if k < n {
      StoreCodeFailurePersists(entry, objPtr, pairs, indices, k, n - 1);
    }
  }

  /** One more class entry: its store is appended, or the plan fails with its lookup error. */
  lemma StoreCodeStep(entry: Block, objPtr: Value, pairs: seq<(TypeId, Value)>, indices: seq<Result<nat>>, i: nat)
    requires |indices| == |pairs| && i < |pairs|
    requires VTableStoreCode(entry, objPtr, pairs, indices, i).Success?
    ensures var index := indices[i];
      var next := VTableStoreCode(entry, objPtr, pairs, indices, i + 1);
      && (index.Failure? ==> next == Failure(index.error))
      && (index.Success? ==>
            next == Success(VTableStoreCode(entry, objPtr, pairs, indices, i).value
                            + [Def(entry, SlotPointer(objPtr, index.value)),
                               Store(entry, pairs[i].1, SlotPointer(objPtr, index.value), false)]))
  {
  }

  /** When entry `k` is the first whose index lookup fails, the stores before it are what remains. */
  lemma {:induction false} StoresEmittedAfterFailure(entry: Block, objPtr: Value, pairs: seq<(TypeId, Value)>,
                                                     indices: seq<Result<nat>>, k: nat, n: nat)
    requires |indices| == |pairs| && k < n <= |pairs|
    requires VTableStoreCode(entry, objPtr, pairs, indices, k).Success?
    requires VTableStoreCode(entry, objPtr, pairs, indices, k + 1).Failure?
    ensures VTableStoresEmitted(entry, objPtr, pairs, indices, n) == VTableStoreCode(entry, objPtr, pairs, indices, k).value
    decreases n
  {
    StoreCodeFailurePersists(entry, objPtr, pairs, indices, k + 1, n);
    if k + 1 < n {
      StoresEmittedAfterFailure(entry, objPtr, pairs, indices, k, n - 1);
    }
  }

  /** The store plan holds only GEPs and stores. */
  lemma {:induction false} StoreCodeHasNoReturn(entry: Block, objPtr: Value, pairs: seq<(TypeId, Value)>,
                                                indices: seq<Result<nat>>, n: nat)
    requires |indices| == |pairs| && n <= |pairs|
    requires VTableStoreCode(entry, objPtr, pairs, indices, n).Success?
    ensures forall i | 0 <= i < |VTableStoreCode(entry, objPtr, pairs, indices, n).value| ::
      VTableStoreCode(entry, objPtr, pairs, indices, n).value[i].Def?
      || VTableStoreCode(entry, objPtr, pairs, indices, n).value[i].Store?
    decreases n
  {
    if n > 0 {
      StoreCodeHasNoReturn(entry, objPtr, pairs, indices, n - 1);
    }
  }

  /** So do the stores a failed loop leaves behind. */
  lemma {:induction false} StoresEmittedHaveNoReturn(entry: Block, objPtr: Value, pairs: seq<(TypeId, Value)>,
                                                     indices: seq<Result<nat>>, n: nat)
    requires |indices| == |pairs| && n <= |pairs|
    ensures forall i | 0 <= i < |VTableStoresEmitted(entry, objPtr, pairs, indices, n)| ::
      VTableStoresEmitted(entry, objPtr, pairs, indices, n)[i].Def?
      || VTableStoresEmitted(entry, objPtr, pairs, indices, n)[i].Store?
    decreases n
  {
    if n > 0 {
      if VTableStoreCode(entry, objPtr, pairs, indices, n).Success? {
        StoreCodeHasNoReturn(entry, objPtr, pairs, indices, n);
      } else {
        StoresEmittedHaveNoReturn(entry, objPtr, pairs, indices, n - 1);
      }
    }
  }

  /**
   * The routine createNewobjMethod leaves in the IR starts by adding the function, and it has a
   * return exactly when the routine succeeded: a failure leaves the function without a terminator.
   */
  lemma NewobjReturnsIffBuilt(env: Env, m: Types, t: TypeId, types: map<TypeId, IrType>, vtableRegistered: bool, id: nat,
                              asWritten: bool)
    requires WellFormed(m) && t in m && KeysIn(m, env.classEntries(t))
    ensures var code := NewobjEmitted(env, m, t, types, vtableRegistered, id, asWritten);
      && 0 < |code| && code[0] == AddFunction(NewobjFunction(env, m[t]), true, Block(id))
      && ((exists i | 0 <= i < |code| :: code[i].Ret?)
          <==> t in types && NewobjCode(env, m, t, types[t], vtableRegistered, id, asWritten).Success?)
  {
    var code := NewobjEmitted(env, m, t, types, vtableRegistered, id, asWritten);
    if t in types {
      var entry := Block(id);
      var objPtr := Malloc(id + 1, types[t]);
      var head := [AddFunction(NewobjFunction(env, m[t]), true, entry)];
      match NewobjBody(env, m, t, entry, objPtr, vtableRegistered, asWritten)
      case Success(body) =>
        assert code == head + body && body[|body| - 1] == Ret(entry, objPtr);
        assert code[|code| - 1].Ret?;
      case Failure(_) =>
        var stores := NewobjStoresEmitted(env, m, t, entry, objPtr, vtableRegistered, asWritten);
        StoresEmittedHaveNoReturn(entry, objPtr, env.classEntries(t), StoreIndices(m, env.classEntries(t), asWritten),
                                  |env.classEntries(t)|);
        assert code == head + ([Def(entry, objPtr)] + stores);
        forall i | 2 <= i < |code|
          ensures !code[i].Ret?
        {
          assert code[i] == stores[i - 2];
        }
    }
  }

  lemma Reassociate(s: seq<Instr>, a: seq<Instr>, b: seq<Instr>)
    ensures s + a + b == s + (a + b)
  {
  }

  lemma Regroup(s: seq<Instr>, a: seq<Instr>, b: seq<Instr>, c: seq<Instr>, e: seq<Instr>)
    ensures s + a + b + c + e == s + (a + b + c + e)
  {
  }

  /**
   * One pass of the store loop (TypeCompiler.cs lines 214-217): the index lookup (GetClassVTableIndex
   * as written, else GetClassVTableSlot), then, when it succeeds, the GEP to that slot and the store
   * of the entry's table.
   */
  method StoreVTablePointer(m: Types, entry: Block, objPtr: Value, key: TypeId, table: Value, asWritten: bool,
                            lookup: Lookup, ir: IrModule)
    returns (index: Result<nat>)
    requires WellFormed(m) && key in m && LayoutCacheSound(m, lookup.layouts)
    modifies lookup`layouts, ir`code
    ensures LayoutCacheSound(m, lookup.layouts)
    ensures index == StoreIndex(m, key, asWritten)
    ensures index.Failure? ==> ir.code == old(ir.code)
    ensures index.Success? ==>
      ir.code == old(ir.code) + [Def(entry, SlotPointer(objPtr, index.value)), Store(entry, table, SlotPointer(objPtr, index.value), false)]
  {
    if asWritten {
      index := lookup.GetClassVTableIndex(m, key);
      ClassVTableIndexIsScan(m, key);
    } else {
      index := lookup.GetClassVTableSlot(m, key);
    }
    if index.Failure? {
      return;
    }
    var vTableGep := SlotPointer(objPtr, index.value);
    ir.Append(Def(entry, vTableGep));
    ir.Append(Store(entry, table, vTableGep, false));
  }

  /**
   * The loop of createNewobjMethod over the class entries of the type's vtable (TypeCompiler.cs
   * lines 212-218). With `asWritten` the index comes from GetClassVTableIndex, as at line 215;
   * otherwise from the corrected GetClassVTableSlot.
   */
  method StoreClassVTables(m: Types, entry: Block, objPtr: Value, others: seq<(TypeId, Value)>, asWritten: bool,
                           lookup: Lookup, ir: IrModule)
    returns (o: Outcome)
    requires WellFormed(m) && LayoutCacheSound(m, lookup.layouts) && KeysIn(m, others)
    modifies lookup`layouts, ir`code
    ensures LayoutCacheSound(m, lookup.layouts)
    ensures var code := VTableStoreCode(entry, objPtr, others, StoreIndices(m, others, asWritten), |others|);
      && (o.Pass? <==> code.Success?)
      && (o.Pass? ==> ir.code == old(ir.code) + code.value)
      && (o.Fail? ==> o.error == code.error)
    ensures ir.code == old(ir.code) + VTableStoresEmitted(entry, objPtr, others, StoreIndices(m, others, asWritten), |others|)
  {
    ghost var start := ir.code;
    ghost var indices := StoreIndices(m, others, asWritten);
    var i := 0;
    while i < |others|
      invariant 0 <= i <= |others|
      invariant LayoutCacheSound(m, lookup.layouts)
      invariant VTableStoreCode(entry, objPtr, others, indices, i).Success?
      invariant ir.code == start + VTableStoreCode(entry, objPtr, others, indices, i).value
    {
      var (key, table) := others[i];
      ghost var done := VTableStoreCode(entry, objPtr, others, indices, i).value;
      var index := StoreVTablePointer(m, entry, objPtr, key, table, asWritten, lookup, ir);
      assert index == indices[i];
      StoreCodeStep(entry, objPtr, others, indices, i);
      if index.Failure? {
        StoreCodeFailurePersists(entry, objPtr, others, indices, i + 1, |others|);
        StoresEmittedAfterFailure(entry, objPtr, others, indices, i, |others|);
        return Fail(index.error);
      }
      Reassociate(start, done, [Def(entry, SlotPointer(objPtr, index.value)), Store(entry, table, SlotPointer(objPtr, index.value), false)]);
      i := i + 1;
    }
    return Pass;
  }

  /** The middle of createNewobjMethod: the class vtable stores, then the interface table store. */
  method InitialiseObject(env: Env, m: Types, t: TypeId, entry: Block, objPtr: Value, asWritten: bool,
                          lookup: Lookup, ir: IrModule)
    returns (o: Outcome)
    requires WellFormed(m) && t in m && LayoutCacheSound(m, lookup.layouts)
    requires KeysIn(m, env.classEntries(t))
    modifies lookup`layouts, ir`code
    ensures LayoutCacheSound(m, lookup.layouts)
    ensures o.Pass? <==> NewobjStores(env, m, t, entry, objPtr, t in lookup.vtables, asWritten).Success?
    ensures o.Pass? ==>
      ir.code == old(ir.code) + NewobjStores(env, m, t, entry, objPtr, t in lookup.vtables, asWritten).value
                 + InterfaceCode(env, t, m[t], entry, objPtr)
    ensures o.Fail? ==>
      o.error == NewobjStores(env, m, t, entry, objPtr, t in lookup.vtables, asWritten).error
      && ir.code == old(ir.code) + NewobjStoresEmitted(env, m, t, entry, objPtr, t in lookup.vtables, asWritten)
  {
    if env.needsVirtualCall(t) {
      var vtable := lookup.GetVTable(t);
      if vtable.Failure? {
        return Fail(vtable.error);
      }
      o := StoreClassVTables(m, entry, objPtr, env.classEntries(t), asWritten, lookup, ir);
      if o.Fail? {
        return;
      }
    }
    if m[t].hasInterfaces {
      var indirectionTable := env.interfaceTable(t);
      var gep := SlotPointer(objPtr, 0);
      ir.Append(Def(entry, gep));
      var cast := PointerCast(indirectionTable, env.voidPtr);
      ir.Append(Def(entry, cast));
      ir.Append(Store(entry, cast, gep, false));
    }
    return Pass;
  }

  /**
   * createNewobjMethod after the type lookup (TypeCompiler.cs lines 205-230): the heap
   * allocation, whose identity is taken here, the stores, and the return of the pointer.
   */
  method BuildNewobj(env: Env, m: Types, t: TypeId, typeRef: IrType, entry: Block, asWritten: bool,
                     lookup: Lookup, ir: IrModule)
    returns (o: Outcome)
    requires WellFormed(m) && t in m && LayoutCacheSound(m, lookup.layouts)
    requires KeysIn(m, env.classEntries(t))
    modifies lookup`layouts, ir`code, ir`nextId
    ensures LayoutCacheSound(m, lookup.layouts)
    ensures ir.nextId == old(ir.nextId) + 1
    ensures o.Pass? <==> NewobjBody(env, m, t, entry, Malloc(old(ir.nextId), typeRef), t in lookup.vtables, asWritten).Success?
    ensures o.Fail? ==> o.error == NewobjBody(env, m, t, entry, Malloc(old(ir.nextId), typeRef), t in lookup.vtables, asWritten).error
    ensures ir.code == old(ir.code) + NewobjBodyEmitted(env, m, t, entry, Malloc(old(ir.nextId), typeRef), t in lookup.vtables, asWritten)
  {
    ghost var start := ir.code;
    var mallocId := ir.Fresh();
    var objPtr := Malloc(mallocId, typeRef);
    ir.Append(Def(entry, objPtr));
    o := InitialiseObject(env, m, t, entry, objPtr, asWritten, lookup, ir);
    if o.Fail? {
      assert ir.code == start + ([Def(entry, objPtr)] + NewobjStoresEmitted(env, m, t, entry, objPtr, t in lookup.vtables, asWritten));
      return;
    }
    ir.Append(Ret(entry, objPtr));
    Regroup(start, [Def(entry, objPtr)], NewobjStores(env, m, t, entry, objPtr, t in lookup.vtables, asWritten).value,
            InterfaceCode(env, t, m[t], entry, objPtr), [Ret(entry, objPtr)]);
  }

  /**
   * createNewobjMethod. With `asWritten` the vtable pointer of each class entry is stored at the
   * index GetClassVTableIndex answers; otherwise at the slot the body gives that class's barrier
   * (see the findings in README). Whatever happens, the code of NewobjEmitted is appended.
   */
  method CreateNewobjMethod(env: Env, m: Types, t: TypeId, asWritten: bool, lookup: Lookup, ir: IrModule)
    returns (r: Result<Value>)
    requires WellFormed(m) && t in m && LayoutCacheSound(m, lookup.layouts)
    requires KeysIn(m, env.classEntries(t))
    modifies lookup`layouts, ir`code, ir`nextId
    ensures LayoutCacheSound(m, lookup.layouts)
    ensures r.Success? <==>
      t in lookup.types && NewobjCode(env, m, t, lookup.types[t], t in lookup.vtables, old(ir.nextId), asWritten).Success?
    ensures r.Success? ==> r.value == NewobjFunction(env, m[t])
    ensures t !in lookup.types ==> r == Failure(InvalidOperation)
    ensures r.Failure? && t in lookup.types ==>
      r.error == NewobjCode(env, m, t, lookup.types[t], t in lookup.vtables, old(ir.nextId), asWritten).error
    ensures ir.code == old(ir.code) + NewobjEmitted(env, m, t, lookup.types, t in lookup.vtables, old(ir.nextId), asWritten)
    ensures ir.nextId == old(ir.nextId) + (if t in lookup.types then 2 else 1)
  {
    var func := NewobjFunction(env, m[t]);
    var entryId := ir.Fresh();
    var entry := Block(entryId);
    ir.Append(AddFunction(func, true, entry));
    var typeRef := lookup.GetTypeRef(t);
    if typeRef.Failure? {
      return Failure(typeRef.error);
    }
    var built := BuildNewobj(env, m, t, typeRef.value, entry, asWritten, lookup, ir);
    if built.Fail? {
      return Failure(built.error);
    }
    return Success(func);
  }

  /**
   * What the struct part of Compile does to the registered statics and the IR of a non-enum type
   * whose IR type is registered: the statics of its layout are declared, then either the checks
   * fail or the body is set.
   */
  function StructPart(env: Env, m: Types, t: TypeId, typeRef: IrType, s: Statics): (Outcome, Statics)
    requires WellFormed(m) && t in m
  {
    var statics := DeclareStatics(env, Layout(m, t), s);
    match CompiledBody(env, m, t)
    case Failure(e) => (Fail(e), statics)
    case Success(body) =>
      (Pass, Statics(statics.registered, statics.code + [StructBody(typeRef, body, m[t].packingSize != -1)], statics.nextId))
  }

  /**
   * The checks after the walk (TypeCompiler.cs lines 151-172): packing, then the fixed size, with
   * the padding loop.
   */
  method FinishBody(d: TypeDef, structData: seq<IrType>, fieldTotalSize: nat) returns (r: Result<seq<IrType>>)
    ensures r == PaddedBody(d, structData, fieldTotalSize)
  {
    if d.packingSize != 1 && d.packingSize != -1 && d.packingSize != 0 {
      return Failure(NotImplemented);
    }
    var padded := structData;
    if d.classSize > 0 && fieldTotalSize < d.classSize {
      if GetTypeKind(d) != Struct {
        return Failure(InvalidOperation);
      }
      var classSize := d.classSize;
      if |d.fields| == 1 && d.fields[0].fieldType == "System.Char" {
        classSize := classSize / 2;
      }
      var needed := classSize - fieldTotalSize;
      padded := AppendPadding(structData, needed);
    } else {
      assert structData + Int8s(0) == structData;
    }
    return Success(padded);
  }

  /**
   * What Compile does to a non-enum type once its vtable, if any, is registered: the outcome, the
   * `newobj` registry and the statics and IR afterwards. The struct part comes first; a class
   * whose body was set then appends its `newobj` routine (all of it, or what a failure leaves
   * behind), numbered from where the statics left off, and registers it unless one is registered
   * already.
   */
  ghost function CompiledType(env: Env, m: Types, t: TypeId, types: map<TypeId, IrType>, vtables: map<TypeId, VTable>,
                              newobjs: map<TypeId, Value>, s: Statics, asWritten: bool): (Outcome, map<TypeId, Value>, Statics)
    requires WellFormed(m) && t in m && KeysIn(m, env.classEntries(t))
  {
    if t !in types then (Fail(InvalidOperation), newobjs, s)
    else
      var (o, statics) := StructPart(env, m, t, types[t], s);
      if o.Fail? || GetTypeKind(m[t]) != Class then (o, newobjs, statics)
      else
        var after := Statics(statics.registered,
                             statics.code + NewobjEmitted(env, m, t, types, t in vtables, statics.nextId, asWritten),
                             statics.nextId + 2);
        match NewobjCode(env, m, t, types[t], t in vtables, statics.nextId, asWritten)
        case Failure(e) => (Fail(e), newobjs, after)
        case Success(_) =>
          if t in newobjs then (Fail(DuplicateKey), newobjs, after)
          else (Pass, newobjs[t := NewobjFunction(env, m[t])], after)
  }

  /** Fetches the type's layout (TypeCompiler.cs line 99) and walks it. */
  method WalkLayout(env: Env, m: Types, t: TypeId, hasVTable: bool, lookup: Lookup, ir: IrModule)
    returns (structData: seq<IrType>, fieldTotalSize: nat)
    requires WellFormed(m) && t in m && LayoutCacheSound(m, lookup.layouts)
    modifies lookup`layouts, lookup`staticFields, ir`code, ir`nextId
    ensures LayoutCacheSound(m, lookup.layouts)
    ensures structData == BodyOf(env, t, hasVTable, Layout(m, t))
    ensures fieldTotalSize == FieldBytes(env, Layout(m, t))
    ensures Statics(lookup.staticFields, ir.code, ir.nextId) ==
      DeclareStatics(env, Layout(m, t), Statics(old(lookup.staticFields), old(ir.code), old(ir.nextId)))
  {
    var fields := lookup.GetStructLayout(m, t);
    structData, fieldTotalSize := BuildBody(env, t, hasVTable, fields, lookup, ir);
  }

  /**
   * The struct part of Compile (TypeCompiler.cs lines 97-175): the registered type, the walk over
   * the layout, the checks and the body. The statics are declared before either check can fail.
   */
  method CompileBody(env: Env, m: Types, t: TypeId, hasVTable: bool, lookup: Lookup, ir: IrModule) returns (o: Outcome)
    requires WellFormed(m) && t in m && LayoutCacheSound(m, lookup.layouts) && hasVTable == HasVTable(env, t, m[t])
    modifies lookup`layouts, lookup`staticFields, ir`code, ir`nextId
    ensures LayoutCacheSound(m, lookup.layouts)
    ensures t !in lookup.types ==>
      o == Fail(InvalidOperation)
      && Statics(lookup.staticFields, ir.code, ir.nextId) == Statics(old(lookup.staticFields), old(ir.code), old(ir.nextId))
    ensures t in lookup.types ==>
      (o, Statics(lookup.staticFields, ir.code, ir.nextId))
      == StructPart(env, m, t, lookup.types[t], Statics(old(lookup.staticFields), old(ir.code), old(ir.nextId)))
  {
    var d := m[t];
    var data := lookup.GetTypeRef(t);
    if data.Failure? {
      return Fail(data.error);
    }
    var structData, fieldTotalSize := WalkLayout(env, m, t, hasVTable, lookup, ir);
    var packed := d.packingSize != -1;
    var body := FinishBody(d, structData, fieldTotalSize);
    if body.Failure? {
      return Fail(body.error);
    }
    ir.Append(StructBody(data.value, body.value, packed));
    return Pass;
  }

  /**
   * The tail of Compile for a class (TypeCompiler.cs lines 178-182): the `newobj` routine is
   * built, then registered for the type.
   */
  method CompileNewobj(env: Env, m: Types, t: TypeId, asWritten: bool, lookup: Lookup, ir: IrModule) returns (o: Outcome)
    requires WellFormed(m) && t in m && LayoutCacheSound(m, lookup.layouts)
    requires KeysIn(m, env.classEntries(t)) && t in lookup.types
    modifies lookup`layouts, lookup`newobjs, ir`code, ir`nextId
    ensures LayoutCacheSound(m, lookup.layouts)
    ensures o.Pass? <==>
      NewobjCode(env, m, t, lookup.types[t], t in lookup.vtables, old(ir.nextId), asWritten).Success? && t !in old(lookup.newobjs)
    ensures ir.code == old(ir.code) + NewobjEmitted(env, m, t, lookup.types, t in lookup.vtables, old(ir.nextId), asWritten)
    ensures ir.nextId == old(ir.nextId) + 2
    ensures NewobjCode(env, m, t, lookup.types[t], t in lookup.vtables, old(ir.nextId), asWritten).Failure? ==>
      o == Fail(NewobjCode(env, m, t, lookup.types[t], t in lookup.vtables, old(ir.nextId), asWritten).error)
    ensures NewobjCode(env, m, t, lookup.types[t], t in lookup.vtables, old(ir.nextId), asWritten).Success?
            && t in old(lookup.newobjs) ==>
      o == Fail(DuplicateKey)
    ensures o.Pass? ==>
      lookup.newobjs == old(lookup.newobjs)[t := NewobjFunction(env, m[t])]
    ensures o.Fail? ==> lookup.newobjs == old(lookup.newobjs)
  {
    var func := CreateNewobjMethod(env, m, t, asWritten, lookup, ir);
    if func.Failure? {
      return Fail(func.error);
    }
    o := lookup.AddNewobjMethod(t, func.value);
  }

  /**
   * Compile (TypeCompiler.cs lines 72-183). An enum is left alone. Otherwise a type with a vtable
   * registers it first (a second registration fails), then the struct part runs, and a class
   * whose body was set gets its `newobj` routine, whose vtable stores use the index
   * GetClassVTableIndex answers when `asWritten` holds and the corrected slot otherwise.
   */
  method Compile(env: Env, m: Types, t: TypeId, asWritten: bool, lookup: Lookup, ir: IrModule) returns (o: Outcome)
    requires WellFormed(m) && t in m && LayoutCacheSound(m, lookup.layouts)
    requires KeysIn(m, env.classEntries(t))
    modifies lookup`vtables, lookup`layouts, lookup`staticFields, lookup`newobjs, ir`code, ir`nextId
    ensures LayoutCacheSound(m, lookup.layouts)
    ensures GetTypeKind(m[t]) == Enum ==>
      o == Pass && lookup.vtables == old(lookup.vtables) && lookup.staticFields == old(lookup.staticFields)
      && lookup.newobjs == old(lookup.newobjs) && ir.code == old(ir.code) && ir.nextId == old(ir.nextId)
    ensures GetTypeKind(m[t]) != Enum && !HasVTable(env, t, m[t]) ==> lookup.vtables == old(lookup.vtables)
    ensures HasVTable(env, t, m[t]) && t in old(lookup.vtables) ==>
      o == Fail(DuplicateKey) && lookup.vtables == old(lookup.vtables)
      && lookup.staticFields == old(lookup.staticFields) && ir.code == old(ir.code) && ir.nextId == old(ir.nextId)
    ensures HasVTable(env, t, m[t]) && t !in old(lookup.vtables) ==>
      lookup.vtables == old(lookup.vtables)[t := VTable(t)]
    ensures GetTypeKind(m[t]) != Enum && !(HasVTable(env, t, m[t]) && t in old(lookup.vtables)) ==>
      CompiledType(env, m, t, lookup.types, lookup.vtables, old(lookup.newobjs),
                   Statics(old(lookup.staticFields), old(ir.code), old(ir.nextId)), asWritten)
      == (o, lookup.newobjs, Statics(lookup.staticFields, ir.code, ir.nextId))
  {
    var kind := GetTypeKind(m[t]);
    if kind == Enum {
      return Pass;
    }
    var hasVTable := kind == Interface || (kind == Class && env.needsVirtualCall(t));
    if hasVTable {
      o := lookup.AddVTable(VTable(t));
      if o.Fail? {
        return;
      }
    }
    o := CompileBody(env, m, t, hasVTable, lookup, ir);
    if o.Fail? || kind != Class {
      return;
    }
    o := CompileNewobj(env, m, t, asWritten, lookup, ir);
  }
}
