/**
 * The metadata the translator reads (Mono.Cecil type and field definitions, as inputs) and the
 * collaborators it calls but whose code is not part of this model (TypeHelper, the VTable class,
 * the Lookup members declared elsewhere, LLVM's size query).
 */
module Metadata {
  import opened Wrappers
  import opened Ir
  import opened StackElements

  /**
   * A field definition. Two fields are the same key when they are the same definition, which `id`
   * stands for; `fieldType` is the full name of the field's type.
   */
  datatype FieldDef = FieldDef(
    id: FieldId,
    name: string,
    fullName: string,
    fieldType: string,
    isStatic: bool,
    declaringType: TypeId)

  /**
   * A type definition. `depth` is the length of the base-type chain; it only serves to bound the
   * recursion over base types. `packingSize` is -1 when unset, `classSize` 0 or less when unset.
   */
  datatype TypeDef = TypeDef(
    fullName: string,
    baseType: Option<TypeId>,
    fields: seq<FieldDef>,
    isEnum: bool,
    isValueType: bool,
    isInterface: bool,
    packingSize: int,
    classSize: int,
    hasInterfaces: bool,
    depth: nat)

  type Types = map<TypeId, TypeDef>

  /**
   * What resolution guarantees: a base type resolves and sits one level up, names are not empty
   * (the layout reads the first character of each field name), and a type's fields declare it.
   */
  predicate WellFormed(m: Types) {
    && (forall t {:trigger m[t].baseType} | t in m && m[t].baseType.Some? ::
          m[t].baseType.value in m && m[m[t].baseType.value].depth < m[t].depth)
    && (forall t, f | t in m && f in m[t].fields :: f.declaringType == t && f.name != [])
  }

  /** `a` is `t` or one of its base types. */
  predicate IsAncestorOrSelf(m: Types, a: TypeId, t: TypeId)
    requires WellFormed(m) && t in m
    decreases m[t].depth
  {
    a == t || (m[t].baseType.Some? && IsAncestorOrSelf(m, a, m[t].baseType.value))
  }

  /**
   * The unseen collaborators, as functions of their inputs:
   * TypeHelper.GetTypeRefFromType (by the type's full name), LLVM.SizeOfTypeInBits,
   * TypeHelper.IsFloatingPoint and IsPointer, TypeHelper.NativeIntType and VoidPtr,
   * Lookup.NeedsVirtualCall, VTable.GetEntry(key).Item1 of an owner's table,
   * VTable.GetAllClassEntries (key and Item2 of each pair), Lookup.GetInterfaceIndirectionTable,
   * HelpIntAndPtrCast, NameHelper.CreateFieldName and the older Lookup.GetFields.
   */
  datatype Env = Env(
    typeRef: string -> IrType,
    sizeInBits: IrType -> nat,
    isFloatingPoint: StackElement -> bool,
    isPointer: StackElement -> bool,
    nativeInt: IrType,
    voidPtr: IrType,
    needsVirtualCall: TypeId -> bool,
    vtableEntryType: (TypeId, TypeId) -> IrType,
    classEntries: TypeId -> seq<(TypeId, Value)>,
    interfaceTable: TypeId -> Value,
    intAndPtrCast: (StackElement, IrType) -> Value,
    fieldName: string -> string,
    legacyFields: TypeId -> seq<FieldDef>)
}
