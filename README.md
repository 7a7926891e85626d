# CSharpLLVM core, modelled in Dafny

CSharpLLVM translates .NET CIL into LLVM IR. This project models five parts of it:

- **The symbol table and the flattened struct layout.** The write-once registries of
  `Lookups/Lookup.cs` and of the older `Compiler/Lookup.cs`. The memoised `GetStructLayout`,
  which gives the base type's entries, then the type's own fields, then a barrier for the type.
  The two counting scans over a layout: `GetClassVTableIndex` and `GetFieldIndex`.
- **Struct-body construction.** This is `Compilation/TypeCompiler.cs` and the older
  `Compiler/TypeCompiler.cs`:
  - the kind of a type and its declaration;
  - the walk that turns layout entries into body slots and creates each static field's global at
    most once;
  - the packing and fixed-size checks;
  - the store plan of a class's `newobj` routine.
- **The evaluation stack of a basic block** (`Stack/ILStack.cs`, `Stack/StackElement.cs`). It
  holds two parallel lists, the elements and a merge counter per slot. Its `Update` reconciles
  the stacks of several predecessor blocks with phi nodes.
- **Name mangling** (`Helpers/NameHelper.cs`).
- **Cast normalisation and nine opcode handlers** (`Helpers/CastHelper.cs` and the `Emit*`
  classes): `ldc.i4*`, `ldarg*`, `ldloca*`, `sizeof`, `sub*`, `not`, `stfld`, `stsfld` and
  `stelem.ref`.

LLVM values, types and blocks are terms (`Ir.Value`, `Ir.IrType`, `Ir.Block`). Everything the
translator asks LLVM to build is appended to one log, `Ir.IrModule.code`. A builder call
appears there as `Def(block, value)`, and a global, initializer, store, phi edge or struct body
has its own instruction form. Fresh LLVM objects take identities from `IrModule.nextId`.

Collaborators whose code is not part of this model are fields of `Metadata.Env`, as total
functions: `TypeHelper`, `NeedsVirtualCall`, the vtable entries, `GetInterfaceIndirectionTable`,
`HelpIntAndPtrCast`, `SizeOfTypeInBits`, `CreateFieldName`, and the older `GetFields`. Type
metadata (Mono.Cecil's `TypeDefinition` and `FieldDefinition`) is an input map `Metadata.Types`
from abstract type identities to records. A thrown exception becomes a `Failure` or `Fail`
carrying a `Wrappers.Exception`.

Where the code and its design description disagree, the model follows the code:

- A type's own layout entries are all its fields whose name does not start with '<', static
  ones included, and not only its instance fields.
- `GetFieldIndex` counts every barrier as a slot. It does not skip the barriers that do not
  match.
- The layout's barrier entry (`StructBarrierEntry`) is the entry that `TypeCompiler.Compile`
  treats as the class-vtable entry. The classes of the entries are not part of this model, and
  every layout ends in a barrier. So with any other reading, every compilation of a type with a
  base type would end in an invalid cast.

The pieces that were evidently meant differently are under "## Findings". Each has its
as-written member, and a corrected member that the rest of the model uses. The one exception is
the class vtable store of a `newobj` routine: `TypeCompilation.Compile` and the members below it
take a flag `asWritten`. With the flag, the store index comes from `GetClassVTableIndex`, as in
the code. Without it, the index is the corrected slot.

## Model

| member | source | states |
|---|---|---|
| Lookups.Lookup.constructor | CSharpLLVM/Lookups/Lookup.cs:11-18 | every registry starts empty and the cctor list is empty |
| Lookups.Lookup.GetFunction | CSharpLLVM/Lookups/Lookup.cs:27-33 | absent exactly for an unregistered name; otherwise the registered function |
| Lookups.Lookup.AddFunction | CSharpLLVM/Lookups/Lookup.cs:40-43 | a name already present fails as a duplicate key and changes nothing; otherwise only that name is added, and GetFunction then returns it |
| Lookups.Lookup.GetStaticField | CSharpLLVM/Lookups/Lookup.cs:50-56 | absent exactly for an unregistered field; otherwise its global |
| Lookups.Lookup.AddStaticField | CSharpLLVM/Lookups/Lookup.cs:63-66 | a duplicate fails and changes nothing; otherwise the field is added, and HasStaticField and GetStaticField then see it |
| Lookups.Lookup.HasStaticField | CSharpLLVM/Lookups/Lookup.cs:73-76 | true exactly when GetStaticField finds a global |
| Lookups.Lookup.AddCctor | CSharpLLVM/Lookups/Lookup.cs:82-85 | the static constructor is appended after the earlier ones |
| Lookups.Lookup.AddType | CSharpLLVM/Lookups/Lookup.cs:92-95 | a duplicate fails and changes nothing; otherwise GetTypeRef then returns the new IR type |
| Lookups.Lookup.GetTypeRef | CSharpLLVM/Lookups/Lookup.cs:102-108 | succeeds exactly for a registered type, with its IR type; otherwise InvalidOperation |
| Lookups.Lookup.AddVTable | CSharpLLVM/Lookups/Lookup.cs:114-117 | keyed by the table's type; a duplicate fails and changes nothing; otherwise GetVTable then returns the table |
| Lookups.Lookup.GetVTable | CSharpLLVM/Lookups/Lookup.cs:124-130 | succeeds exactly for a registered type; otherwise InvalidOperation |
| Lookups.Lookup.GetStaticConstructors | CSharpLLVM/Lookups/Lookup.cs:136-139 | a fresh array holding the added cctors in insertion order |
| Lookups.Lookup.AddNewobjMethod | CSharpLLVM/Lookups/Lookup.cs:146-149 | a duplicate fails and changes nothing; otherwise GetNewobjMethod then returns the routine |
| Lookups.Lookup.GetNewobjMethod | CSharpLLVM/Lookups/Lookup.cs:156-159 | succeeds exactly for a registered type; otherwise the dictionary's KeyNotFound |
| Lookups.Lookup.GetStructLayout | CSharpLLVM/Lookups/Lookup.cs:166-188 | returns the layout of the type. A cached type leaves the cache as it is. A type without a base is not cached. A type with a base is cached. The cache keeps every earlier entry, gains only types no deeper than this one, and stays sound |
| Lookups.CacheExtended | CSharpLLVM/Lookups/Lookup.cs:184-185 | caching a type's own layout keeps every cached entry equal to its type's layout |
| Lookups.Lookup.GetClassVTableIndex | CSharpLLVM/Lookups/Lookup.cs:195-220 | the scan of the type's layout as written, with the cache kept sound |
| Lookups.Lookup.GetClassVTableSlot | CSharpLLVM/Lookups/Lookup.cs:195-220 | the corrected index: the body slot of the type's vtable pointer, counting base types' barriers (finding F1) |
| Lookups.Lookup.GetFieldIndex | CSharpLLVM/Lookups/Lookup.cs:227-252 | the scan of the declaring type's layout as written, with the cache kept sound |
| Lookups.Lookup.GetFieldSlot | CSharpLLVM/Lookups/Lookup.cs:227-252 | the corrected index: barriers count only when the body has vtable slots (finding F2) |
| Lookups.ScanClassVTableIndex | CSharpLLVM/Lookups/Lookup.cs:199-219 | the loop equals the specification scan: count the non-static fields, pass over other types' barriers, stop at the type's barrier, fail when there is none |
| Lookups.ScanFieldIndex | CSharpLLVM/Lookups/Lookup.cs:231-251 | the loop equals the specification scan: count every barrier and every non-static field, skip static fields before comparing, fail when the field is not found |
| StructLayout.OwnEntries | CSharpLLVM/Lookups/Lookup.cs:181 | exactly the type's fields whose name does not start with '<', statics included, as field entries |
| StructLayout.LayoutEntries | CSharpLLVM/Lookups/Lookup.cs:172-182 | a layout has no interface-table entry. Its barriers belong to the type or its ancestors that have a base. Its fields are declared by the type or its ancestors and have names that do not start with '<' |
| StructLayout.AncestorLayoutIsPrefix | CSharpLLVM/Lookups/Lookup.cs:177-182 | an ancestor's layout is a prefix of every descendant's layout |
| StructLayout.OwnBarrier | CSharpLLVM/Lookups/Lookup.cs:174-182 | a type's layout holds its own barrier exactly when it has a base type; its base's layout never holds it |
| StructLayout.BarrierInLayout | CSharpLLVM/Lookups/Lookup.cs:174-182 | the barrier of `o` is in T's layout exactly when `o` is T or an ancestor of T, and has a base type |
| StructLayout.OwnFieldsInLayout | CSharpLLVM/Lookups/Lookup.cs:181 | every own field whose name does not start with '<' is in the layout of a type with a base |
| StructLayout.ClassVTableIndexCounts | CSharpLLVM/Lookups/Lookup.cs:195-219 | without a base type the scan fails; otherwise it is the number of instance fields before the type's own final barrier |
| StructLayout.LayoutFieldsCounted | CSharpLLVM/Lookups/Lookup.cs:177-182 | the instance fields of a layout are those of the base layout plus the type's own kept fields, type by type up the base chain |
| StructLayout.ClassVTableIndexIsScan | CSharpLLVM/Lookups/Lookup.cs:195-219 | GetClassVTableIndex's scan of a type's own layout equals the type-by-type count ClassVTableIndex: a lookup failure without a base type, else the instance fields of the layout up to the type's own barrier (barriers of base types not counted) |
| StructLayout.ClassVTableScanFinds | CSharpLLVM/Lookups/Lookup.cs:199-216 | the vtable scan returns the instance-field count of the entries before the type's first barrier |
| StructLayout.ClassVTableSlotFinds | CSharpLLVM/Lookups/Lookup.cs:199-216 | the corrected vtable scan returns the slot count (barriers and instance fields) before the type's first barrier |
| StructLayout.ClassVTableScanMisses | CSharpLLVM/Lookups/Lookup.cs:219 | without the type's barrier the vtable scan fails with a lookup error |
| StructLayout.FieldScanFinds | CSharpLLVM/Lookups/Lookup.cs:231-246 | the field scan returns the number of barriers and instance fields before the field's first entry |
| StructLayout.FieldScanMisses | CSharpLLVM/Lookups/Lookup.cs:241-251 | a static field, or a field absent from the layout, always fails |
| StructLayout.FieldScanCharacterised | CSharpLLVM/Lookups/Lookup.cs:231-251 | the field scan succeeds exactly for an instance field in the layout, with the slot count before its position |
| StructLayout.FieldIndexCounts | CSharpLLVM/Lookups/Lookup.cs:227-251 | GetFieldIndex succeeds exactly for an instance field in its declaring type's layout, with the slot count before it |
| StructLayout.VTableSlotIsScan | CSharpLLVM/Lookups/Lookup.cs:195-219 | the corrected vtable scan over the layout equals the type-by-type slot count |
| StructLayout.FieldIndexIsSlotWithVTable | CSharpLLVM/Lookups/Lookup.cs:227-251 | GetFieldIndex as written agrees with the corrected slot of a body that has vtable slots |
| StructLayout.FieldSlotFound | CSharpLLVM/Lookups/Lookup.cs:241-246 | the corrected field slot exists exactly for an instance field in the layout |
| StructLayout.FieldSlotPrefix | CSharpLLVM/Lookups/Lookup.cs:177-182 | a field slot found in a base layout is unchanged in every extension of it |
| StructLayout.ClassSlotPrefix | CSharpLLVM/Lookups/Lookup.cs:177-182 | a vtable slot found in a base layout is unchanged in every extension of it |
| BodySlots.BodyOfAppend | CSharpLLVM/Compilation/TypeCompiler.cs:104-148 | the body of a concatenation of entries is the concatenation of their bodies |
| BodySlots.FieldSlotInBody | CSharpLLVM/Compilation/TypeCompiler.cs:122-146 | the corrected field slot indexes the body, and that slot holds the field's IR type |
| BodySlots.ClassSlotInBody | CSharpLLVM/Compilation/TypeCompiler.cs:107-114 | the corrected vtable slot indexes a body with vtable slots, and holds a pointer to that vtable entry type |
| BodySlots.VTableSlotHoldsPointer | CSharpLLVM/Compilation/TypeCompiler.cs:107-114 | in a derived type's body, an ancestor's vtable slot holds the pointer to that ancestor's vtable entry |
| BodySlots.FieldSlotHoldsField | CSharpLLVM/Compilation/TypeCompiler.cs:122-146 | in a derived type's body, the declaring type's slot of a field holds the field's IR type |
| TypeCompilation.GetTypeKind | CSharpLLVM/Compilation/TypeCompiler.cs:30-45 | exactly one kind, in the source's order: Struct, Enum, Interface, Class |
| TypeCompilation.CreateDeclaration | CSharpLLVM/Compilation/TypeCompiler.cs:51-66 | one registration. An enum gets its first field's IR type, and with no fields it fails on the index. Any other type gets a new named struct, appended to the IR even when the registration is a duplicate |
| TypeCompilation.BuildBody | CSharpLLVM/Compilation/TypeCompiler.cs:102-148 | the loop gives the body of the entries in order and fieldTotalSize. It creates and registers a global with a null initializer for each static field not yet registered |
| TypeCompilation.Int8s | CSharpLLVM/Compilation/TypeCompiler.cs:170-171 | n padding slots, all Int8 |
| TypeCompilation.AppendPadding | CSharpLLVM/Compilation/TypeCompiler.cs:169-171 | the padding loop appends `needed` Int8 slots, none when `needed` is not positive |
| TypeCompilation.FinishBody | CSharpLLVM/Compilation/TypeCompiler.cs:150-172 | the packing and fixed-size checks equal the specification function PaddedBody |
| TypeCompilation.PaddedBodyShape | CSharpLLVM/Compilation/TypeCompiler.cs:150-172 | a packing size outside {-1, 0, 1} is NotImplemented. A fixed size larger than the fields on a non-struct is InvalidOperation. Otherwise the slots are kept, followed only by Int8 padding up to ClassSize, halved for a single System.Char field |
| TypeCompilation.StoreCodeFailurePersists | CSharpLLVM/Compilation/TypeCompiler.cs:213-218 | once a vtable index lookup fails, the store plan fails with that error |
| TypeCompilation.StoresEmittedAfterFailure | CSharpLLVM/Compilation/TypeCompiler.cs:213-218 | when entry k is the first whose index lookup fails, the IR keeps exactly the stores of the entries before it |
| TypeCompilation.StoreCodeHasNoReturn | CSharpLLVM/Compilation/TypeCompiler.cs:213-218 | the store plan holds only GEPs and stores |
| TypeCompilation.StoresEmittedHaveNoReturn | CSharpLLVM/Compilation/TypeCompiler.cs:213-218 | so do the stores a failed loop leaves behind |
| TypeCompilation.NewobjReturnsIffBuilt | CSharpLLVM/Compilation/TypeCompiler.cs:190-235 | the routine left in the IR starts by adding the function, and has a return exactly when the routine succeeded; a failure leaves the function without a terminator |
| TypeCompilation.StoreClassVTables | CSharpLLVM/Compilation/TypeCompiler.cs:209-219 | one GEP and store per class entry, in order. With `asWritten` the index is GetClassVTableIndex's (line 215); otherwise it is the class's corrected vtable slot. On the first lookup error it fails with that error, and exactly the stores before it stay in the IR |
| TypeCompilation.StoreVTablePointer | CSharpLLVM/Compilation/TypeCompiler.cs:214-217 | one class entry: the index is GetClassVTableIndex's (with `asWritten`) or the corrected slot; on a lookup error the IR is unchanged and the error is returned, otherwise the GEP at that index and the store of the entry's vtable are appended |
| TypeCompilation.InitialiseObject | CSharpLLVM/Compilation/TypeCompiler.cs:207-227 | stores the vtable pointers only when virtual calls are needed (GetVTable must then succeed), then the interface table at slot 0 exactly when the type has interfaces. On failure the IR keeps the stores made before it, none when GetVTable fails |
| TypeCompilation.BuildNewobj | CSharpLLVM/Compilation/TypeCompiler.cs:204-230 | after the type reference is found: the malloc takes one fresh identity, then the stores and the return. It passes exactly when the store plan NewobjBody succeeds, with that plan's error otherwise, and the IR gains NewobjBodyEmitted: the whole body, or the malloc and the stores before the failure |
| TypeCompilation.CreateNewobjMethod | CSharpLLVM/Compilation/TypeCompiler.cs:190-235 | succeeds exactly when the type is registered and the store plan succeeds. Then it emits the function, malloc, stores and return, uses two fresh identities, and returns `newobj_<FullName>`. An unregistered type fails with InvalidOperation after the function was added, using one identity. A failing store plan leaves the function, the malloc and the stores before the failure. With `asWritten` the stores use GetClassVTableIndex |
| TypeCompilation.WalkLayout | CSharpLLVM/Compilation/TypeCompiler.cs:99-148 | fetches the type's layout and walks it, keeping the layout cache sound |
| TypeCompilation.CompileBody | CSharpLLVM/Compilation/TypeCompiler.cs:96-175 | an unregistered type fails with InvalidOperation before anything changes; otherwise the statics and the struct body (or the check's error) as specified |
| TypeCompilation.CompileNewobj | CSharpLLVM/Compilation/TypeCompiler.cs:177-182 | the routine is built, then registered; a second registration fails and leaves the routines as they were. The IR gains the routine, or what its failure leaves behind, and two identities |
| TypeCompilation.Compile | CSharpLLVM/Compilation/TypeCompiler.cs:72-183 | an enum changes nothing. A vtable is registered exactly for an interface, or a class that needs virtual calls, and a duplicate fails before anything else changes. Otherwise the result, the routines, the registered statics, the IR and the next identity are those of CompiledType, which covers every failure: the struct part, then for a class the `newobj` routine, whole or as far as it got |
| StaticGlobals.StaticStepRegisters | CSharpLLVM/Compilation/TypeCompiler.cs:129-140 | one entry registers its static field unless it is registered already, keeps every earlier global, and takes one fresh identity per new global |
| StaticGlobals.DeclareStaticsRegisters | CSharpLLVM/Compilation/TypeCompiler.cs:104-148 | after the walk, the registered fields are the earlier ones plus exactly the static fields of the layout |
| StaticGlobals.DeclareStaticsKeeps | CSharpLLVM/Compilation/TypeCompiler.cs:131-139 | the walk never replaces a global registered before it |
| StaticGlobals.DeclareStaticsFreshIds | CSharpLLVM/Compilation/TypeCompiler.cs:132-138 | the walk takes one fresh identity per field it registers |
| StaticGlobals.DeclareStaticsIdle | CSharpLLVM/Compilation/TypeCompiler.cs:131-132 | a walk whose static fields are all registered changes nothing |
| StaticGlobals.DerivedKeepsBaseGlobals | CSharpLLVM/Compilation/TypeCompiler.cs:131-139 | compiling a derived type after its base keeps the base's static fields on the globals the base created |
| StaticGlobals.WalkTwiceIsOnce | CSharpLLVM/Compilation/TypeCompiler.cs:131-139 | walking the same layout twice creates each global once |
| StackElements.ConstructorFields | CSharpLLVM/Stack/StackElement.cs:17-46 | the two-argument constructor takes the IR type of the value; the three-argument one stores its arguments as given; the copy is equal to the original |
| ILStacks.ILStack.constructor | CSharpLLVM/Stack/ILStack.cs:19-23 | both lists empty, no recorded block |
| ILStacks.ILStack.At | CSharpLLVM/Stack/ILStack.cs:12 | the element at the index, or ArgumentOutOfRange (the List indexer) outside the stack |
| ILStacks.ILStack.Count | CSharpLLVM/Stack/ILStack.cs:14 | the number of elements |
| ILStacks.ILStack.Clear | CSharpLLVM/Stack/ILStack.cs:28-32 | both lists empty |
| ILStacks.ILStack.InsertAtStart | CSharpLLVM/Stack/ILStack.cs:38-42 | the element and a counter 0 are prepended; the lists stay aligned |
| ILStacks.ILStack.Pop | CSharpLLVM/Stack/ILStack.cs:48-54 | the top element is returned and dropped with its counter; an empty stack is ArgumentOutOfRange (List.RemoveAt at -1) and unchanged |
| ILStacks.ILStack.Peek | CSharpLLVM/Stack/ILStack.cs:60-63 | the top element, without change; an empty stack fails with ArgumentOutOfRange (the List indexer at -1) |
| ILStacks.ILStack.Push | CSharpLLVM/Stack/ILStack.cs:69-73 | the element and a counter 0 are appended; the lists stay aligned |
| ILStacks.ILStack.PushValue | CSharpLLVM/Stack/ILStack.cs:79-82 | pushes the element built from the value alone |
| ILStacks.ILStack.Update | CSharpLLVM/Stack/ILStack.cs:92-169 | the new stack, counters, recorded block, builder position and IR equal those of StackMachine.Update as written |
| ILStacks.ILStack.PushAll | CSharpLLVM/Stack/ILStack.cs:95-101 | the single-reference loop pushes every source value in order |
| ILStacks.ILStack.InsertIndependent | CSharpLLVM/Stack/ILStack.cs:106-116 | the loop inserts the independent source values at the bottom, one after the other |
| ILStacks.ILStack.InsertIndependentFixed | CSharpLLVM/Stack/ILStack.cs:106-116 | the corrected loop, which keeps them in source order (finding F4) |
| ILStacks.ILStack.MergeDependent | CSharpLLVM/Stack/ILStack.cs:119-167 | the dependent-values loop as written |
| ILStacks.ILStack.MergeStep | CSharpLLVM/Stack/ILStack.cs:121-166 | one slot: first visit pushes and records the block; second opens a phi at the top; later ones add an edge; the counter is incremented once |
| ILStacks.ILStack.OpenPhi | CSharpLLVM/Stack/ILStack.cs:133-142 | the top is popped; a phi of its type is built in the new block and pushed; the popped value enters it from the recorded block |
| ILStacks.ILStack.UpdateFixed | CSharpLLVM/Stack/ILStack.cs:92-169 | Update with findings F3 and F4 corrected |
| ILStacks.ILStack.MergeDependentFixed | CSharpLLVM/Stack/ILStack.cs:119-167 | the dependent-values loop with the second visit corrected |
| ILStacks.ILStack.MergeStepFixed | CSharpLLVM/Stack/ILStack.cs:121-166 | one slot with the phi replacing slot i itself |
| ILStacks.ILStack.OpenPhiFixed | CSharpLLVM/Stack/ILStack.cs:133-142 | the phi replaces the element of slot i, which keeps its counter |
| StackMachine.PushValues | CSharpLLVM/Stack/ILStack.cs:97-100 | n pushes add n slots to both lists |
| StackMachine.InsertValues | CSharpLLVM/Stack/ILStack.cs:113-116 | n insertions add n slots to both lists |
| StackMachine.MergeSlot | CSharpLLVM/Stack/ILStack.cs:121-166 | one slot keeps the lists aligned and leaves a counter for slot i |
| StackMachine.MergeFrom | CSharpLLVM/Stack/ILStack.cs:119-167 | the dependent loop keeps the lists aligned |
| StackMachine.Update | CSharpLLVM/Stack/ILStack.cs:92-169 | Update keeps the element and counter lists the same length |
| PhiMerge.PushValuesAppends | CSharpLLVM/Stack/ILStack.cs:95-101 | with one reference, every source value is appended bottom to top with counter 0; nothing else changes and no phi is built |
| PhiMerge.InsertValuesReversed | CSharpLLVM/Stack/ILStack.cs:113-116 | as written, the independent values end up at the bottom in reverse order: slot k holds source value n-1-k (finding F4) |
| PhiMerge.InsertValuesFixedInOrder | CSharpLLVM/Stack/ILStack.cs:113-116 | corrected, slot k holds source value k, with counter 0 |
| PhiMerge.EdgeCodeEdges | CSharpLLVM/Stack/ILStack.cs:154-163 | one edge adds exactly one incoming pair to its phi, the source value int-cast to the phi's type where the types differ, from the old block |
| PhiMerge.OpenPhiEdges | CSharpLLVM/Stack/ILStack.cs:135-141 | opening a phi adds exactly the edge (previous value, recorded block) to it |
| PhiMerge.FirstPredecessor | CSharpLLVM/Stack/ILStack.cs:119-126 | a first predecessor pushes its values with counter 1 and records its block |
| PhiMerge.SecondPredecessorSlot0 | CSharpLLVM/Stack/ILStack.cs:133-142 | as written, the second visit of slot 0 turns the TOP slot into the phi |
| PhiMerge.SecondPredecessor | CSharpLLVM/Stack/ILStack.cs:119-167 | as written, a second two-value predecessor leaves three slots |
| PhiMerge.TwoSlotsAsWritten | CSharpLLVM/Stack/ILStack.cs:133-142 | as written, two predecessors of two values leave three slots, and the phi merges the wrong source slots (finding F3) |
| PhiMerge.OnePredecessorOneSlot | CSharpLLVM/Stack/ILStack.cs:122-126 | one value from one predecessor: pushed, counter 1 |
| PhiMerge.SecondVisitOneSlot | CSharpLLVM/Stack/ILStack.cs:133-166 | as written, the second predecessor leaves the counter at 1, because Push adds a counter 0 before the increment |
| PhiMerge.ThirdVisitOneSlot | CSharpLLVM/Stack/ILStack.cs:133-166 | as written, the third predecessor wraps the first phi in a new phi |
| PhiMerge.ThirdVisitEdges | CSharpLLVM/Stack/ILStack.cs:141-163 | the new phi's edges are the first phi and the third value |
| PhiMerge.ThreePredecessorsAsWritten | CSharpLLVM/Stack/ILStack.cs:133-166 | as written, three predecessors never reach the reuse branch, and the second value does not reach the final phi (finding F3) |
| PhiMerge.ExtendSlot | CSharpLLVM/Stack/ILStack.cs:144-166 | corrected, a later predecessor adds one edge to each slot's phi and keeps the other slots merged |
| PhiMerge.OpenSlot | CSharpLLVM/Stack/ILStack.cs:133-166 | corrected, the second predecessor opens one phi per slot, with both edges |
| PhiMerge.MergeFromFixedMerges | CSharpLLVM/Stack/ILStack.cs:119-167 | the corrected dependent loop merges every slot of a predecessor |
| PhiMerge.FirstVisitsMerge | CSharpLLVM/Stack/ILStack.cs:122-126 | the first predecessor's values become the slots |
| PhiMerge.FirstUpdateMerges | CSharpLLVM/Stack/ILStack.cs:92-169 | the corrected Update of an empty stack with a first predecessor merges it |
| PhiMerge.UpdateFixedMerges | CSharpLLVM/Stack/ILStack.cs:92-169 | the corrected Update keeps the stack merged when one more predecessor of the same height arrives |
| PhiMerge.MergeAll | CSharpLLVM/Stack/ILStack.cs:92-169 | merging a sequence of predecessors keeps the lists aligned |
| PhiMerge.MergeAllMerged | CSharpLLVM/Stack/ILStack.cs:92-169 | merging any number of predecessors of equal height gives a merged stack |
| PhiMerge.PhiPerSlot | CSharpLLVM/Stack/ILStack.cs:92-169 | corrected, after k predecessors of height h there are h slots with counter k. With k ≥ 2 each slot holds its own phi, whose edges are slot i of every predecessor in order, cast where needed, each from its block |
| NameHelper.Replace | CSharpLLVM/Helpers/NameHelper.cs:14 | same length; each occurrence of the character is replaced and nothing else changes |
| NameHelper.CreateTypeName | CSharpLLVM/Helpers/NameHelper.cs:12-15 | same length; '.', '[' and ']' become '_' and every other character is kept; none of the three remains |
| NameHelper.MethodNamePart | CSharpLLVM/Helpers/NameHelper.cs:25 | only '.' becomes '_' |
| NameHelper.CreateMethodName | CSharpLLVM/Helpers/NameHelper.cs:22-37 | the loop builds return_parent_method_params, the parameter type names concatenated in order |
| NameHelper.CreateTypeNameIdempotent | CSharpLLVM/Helpers/NameHelper.cs:14 | mangling a mangled name changes nothing |
| NameHelper.ParameterlessNameEndsInSeparator | CSharpLLVM/Helpers/NameHelper.cs:29-36 | a parameterless method's name ends in '_' |
| NameHelper.ParamListLength | CSharpLLVM/Helpers/NameHelper.cs:29-33 | the parameter part is as long as the parameter type names together: no separator between them |
| NameHelper.ParamListHasNoSeparators | CSharpLLVM/Helpers/NameHelper.cs:29-33 | the parameter part contains no '.', '[' or ']' |
| NameHelper.GoldenExample | CSharpLLVM/Helpers/NameHelper.cs:24-36 | System.Int32 Foo::Bar(System.String) is named System_Int32_Foo_Bar_System_String |
| NameHelper.BracketsSurviveInMethodName | CSharpLLVM/Helpers/NameHelper.cs:12-25 | brackets survive in the method part but not in a type name |
| CastHelper.IntCastOperand | CSharpLLVM/Helpers/CastHelper.cs:16-18 | only the value of value2 changes, to one of value1's IR type; its type tag stays, so it is consistent again exactly when the types were equal |
| CastHelper.HelpIntCast | CSharpLLVM/Helpers/CastHelper.cs:14-20 | value1 is untouched; the cast is emitted exactly when the IR types differ |
| CastHelper.NativeIntValue | CSharpLLVM/Helpers/CastHelper.cs:35-43 | a value of the native int type: ptrtoint exactly for a pointer, an int cast otherwise |
| CastHelper.HelpPossiblePtrCast | CSharpLLVM/Helpers/CastHelper.cs:30-44 | the flags are IsPointer of the operands as given; both values are converted and both conversions emitted; the type tags stay |
| CastHelper.PossiblePtrCastAgrees | CSharpLLVM/Helpers/CastHelper.cs:35-43 | after the conversion both operands have the same IR type |
| Instructions.LdcPattern | CSharpLLVM/Generator/Instructions/Constants/EmitLdc_I4.cs:23-47 | the constant's bit pattern fits the 64-bit ulong ConstInt takes |
| Instructions.LdcDenotes | CSharpLLVM/Generator/Instructions/Constants/EmitLdc_I4.cs:23-47 | read as a signed 32-bit integer, the pushed constant is 0..8 for the short forms, -1 for M1, and the operand for the sbyte and int forms |
| Instructions.EmitLdcI4 | CSharpLLVM/Generator/Instructions/Constants/EmitLdc_I4.cs:17-50 | pops nothing and pushes one element: the constant, IL type int, IR type Int32; a wrong operand is an invalid cast |
| Instructions.LdargIndex | CSharpLLVM/Generator/Instructions/StoreLoad/EmitLdarg.cs:22-30 | as written: ldarg.0-3 give code - Ldarg_0; other forms need a local-variable operand (finding F5) |
| Instructions.LdargIndexFixed | CSharpLLVM/Generator/Instructions/StoreLoad/EmitLdarg.cs:22-30 | corrected: other forms take the parameter operand's index |
| Instructions.LdargShortForm | CSharpLLVM/Generator/Instructions/StoreLoad/EmitLdarg.cs:28 | `ldarg.s 1` fails as written and gives index 1 when corrected |
| Instructions.LoadArgument | CSharpLLVM/Generator/Instructions/StoreLoad/EmitLdarg.cs:32-34 | the load is emitted, then one element is pushed: the load, tagged with the argument's IL type. Each array index out of range fails at its own line |
| Instructions.EmitLdarg | CSharpLLVM/Generator/Instructions/StoreLoad/EmitLdarg.cs:17-35 | the handler as written: a non-variable operand on ldarg/ldarg.s fails with InvalidCast and emits nothing; an index past the argument values fails with IndexOutOfRange and emits nothing; an index past the argument IL types fails with IndexOutOfRange after the load was emitted; otherwise the load is emitted and pushed with the argument's IL type. A failure never changes the stack |
| Instructions.EmitLdargFixed | CSharpLLVM/Generator/Instructions/StoreLoad/EmitLdarg.cs:17-35 | the handler with the index read off the parameter operand, with the same InvalidCast, IndexOutOfRange and IR outcomes as EmitLdarg |
| Instructions.LocalAddress | CSharpLLVM/Generator/Instructions/StoreLoad/EmitLdloca.cs:22-25 | succeeds exactly for a local-variable operand in range; the local's slot itself, no load, with a pointer IL type |
| Instructions.EmitLdloca | CSharpLLVM/Generator/Instructions/StoreLoad/EmitLdloca.cs:18-26 | pushes exactly that element; otherwise the stack is unchanged |
| Instructions.SizeofBytes | CSharpLLVM/Generator/Instructions/Misc/EmitSizeof.cs:22-23 | the size in bits divided by 8, rounded down |
| Instructions.EmitSizeof | CSharpLLVM/Generator/Instructions/Misc/EmitSizeof.cs:19-25 | a non-type operand is an invalid cast; otherwise one Int32 constant of that size, IL type int, is pushed |
| Instructions.PopTwo | CSharpLLVM/Generator/Instructions/Arithmetic/EmitSub.cs:20-21 | the top two elements, the lower as value1; a stack shorter than two fails with ArgumentOutOfRange and is left empty, because the first pop has already happened |
| Instructions.SubResult | CSharpLLVM/Generator/Instructions/Arithmetic/EmitSub.cs:23-37 | fsub exactly when one operand is floating point. Otherwise value1 - value2 with value1 int-cast to value2's type exactly when the types differ. Under consistent tags both operands then have that type |
| Instructions.SubCode | CSharpLLVM/Generator/Instructions/Arithmetic/EmitSub.cs:23-37 | the cast is emitted exactly on the integer path with differing types, before the subtraction |
| Instructions.EmitSub | CSharpLLVM/Generator/Instructions/Arithmetic/EmitSub.cs:18-38 | two pops, one push: the stack is one shorter, with the difference on top |
| Instructions.NotElement | CSharpLLVM/Generator/Instructions/BitwiseOps/EmitNot.cs:20-21 | the complement, with the operand's IL and IR types |
| Instructions.EmitNot | CSharpLLVM/Generator/Instructions/BitwiseOps/EmitNot.cs:17-22 | one pop, one push; the elements below are untouched |
| Instructions.FieldStoreCode | CSharpLLVM/Generator/Instructions/Objects/EmitStfld.cs:28-36 | an object that is not an IL pointer is spilled to a fresh alloca of its type first; the value is stored at GEP [0, index] |
| Instructions.StoreField | CSharpLLVM/Generator/Instructions/Objects/EmitStfld.cs:27-36 | emits exactly that code, taking a fresh identity only for the spill |
| Instructions.EmitStfld | CSharpLLVM/Generator/Instructions/Objects/EmitStfld.cs:19-37 | two pops and nothing pushed; the index from GetFieldIndex, so a static or unknown field fails |
| Instructions.EmitStfldFixed | CSharpLLVM/Generator/Instructions/Objects/EmitStfld.cs:19-37 | the handler with the corrected slot (finding F2) |
| Instructions.StaticStore | CSharpLLVM/Generator/Instructions/StoreLoad/EmitStsfld.cs:32-62 | the initializer is set exactly in a `.cctor` for one of the twelve listed types; otherwise a store to the global, volatile exactly with the prefix. The value is cast only when the IR types differ |
| Instructions.InitializerExamples | CSharpLLVM/Generator/Instructions/StoreLoad/EmitStsfld.cs:36-62 | Int32 in a `.cctor` is an initializer, Char is a store, and any type outside a `.cctor` is a store |
| Instructions.EmitStsfld | CSharpLLVM/Generator/Instructions/StoreLoad/EmitStsfld.cs:21-63 | one pop and nothing pushed; the target is the field's registered global |
| Instructions.ElementBase | CSharpLLVM/Generator/Instructions/Arrays/EmitStelem_Ref.cs:23-29 | the array as a pointer to the value's type, cast only when its type differs |
| Instructions.ElementStoreCode | CSharpLLVM/Generator/Instructions/Arrays/EmitStelem_Ref.cs:23-32 | the cast exactly when the types differ, then the GEP [index] and the store |
| Instructions.EmitStelemRef | CSharpLLVM/Generator/Instructions/Arrays/EmitStelem_Ref.cs:17-33 | value, index and array popped top first and nothing pushed |
| LegacyLookups.LegacyLookup.constructor | CSharpLLVM/Compiler/Lookup.cs:10-14 | all three registries and the cctor list start empty |
| LegacyLookups.LegacyLookup.GetFunction | CSharpLLVM/Compiler/Lookup.cs:21-27 | absent exactly for an unknown name; otherwise the registered function |
| LegacyLookups.LegacyLookup.AddFunction | CSharpLLVM/Compiler/Lookup.cs:34-37 | a duplicate fails and changes nothing; otherwise only that name is added |
| LegacyLookups.LegacyLookup.GetStaticField | CSharpLLVM/Compiler/Lookup.cs:44-50 | absent exactly for an unknown field |
| LegacyLookups.LegacyLookup.AddStaticField | CSharpLLVM/Compiler/Lookup.cs:57-60 | a duplicate fails and changes nothing; otherwise only that field is added |
| LegacyLookups.LegacyLookup.HasStaticField | CSharpLLVM/Compiler/TypeCompiler.cs:72 | true exactly when a global is registered for the field |
| LegacyLookups.LegacyLookup.AddCctor | CSharpLLVM/Compiler/Lookup.cs:66-69 | appends the static constructor |
| LegacyLookups.LegacyLookup.AddType | CSharpLLVM/Compiler/Lookup.cs:76-79 | a duplicate fails and changes nothing; otherwise GetTypeRef then returns the type |
| LegacyLookups.LegacyLookup.GetTypeRef | CSharpLLVM/Compiler/Lookup.cs:86-92 | InvalidOperation exactly for an unknown type; otherwise its IR type |
| LegacyLookups.LegacyLookup.GetStaticConstructors | CSharpLLVM/Compiler/Lookup.cs:98-101 | a fresh array of the cctors in insertion order |
| LegacyTypeCompilation.Visible | CSharpLLVM/Compiler/TypeCompiler.cs:63-64 | only fields whose full name does not start with '<' remain |
| LegacyTypeCompilation.VisibleIdempotent | CSharpLLVM/Compiler/TypeCompiler.cs:63-64 | filtering twice is filtering once |
| LegacyTypeCompilation.WalkFieldsIs | CSharpLLVM/Compiler/TypeCompiler.cs:60-86 | the loop's result is the visible instance fields' types in order, and the visible static fields walked through the static-global step |
| LegacyTypeCompilation.InternalFieldsIgnored | CSharpLLVM/Compiler/TypeCompiler.cs:63-64 | internal fields have no effect on the walk |
| LegacyTypeCompilation.WalkRegistersStatics | CSharpLLVM/Compiler/TypeCompiler.cs:69-80 | exactly the visible static fields are added, earlier globals are kept, one fresh identity per new global |
| LegacyTypeCompilation.CompileFields | CSharpLLVM/Compiler/TypeCompiler.cs:56-86 | the loop equals the specification walk over the fields |
| LegacyTypeCompilation.Compile | CSharpLLVM/Compiler/TypeCompiler.cs:29-98 | `<Module>` changes nothing. An enum is registered as Int32. Any other type appends a named struct, then registers it, and a duplicate fails there. Then the fields are walked, an unsupported packing fails after the walk, and otherwise the body is set, packed exactly when PackingSize is not -1 |
| Findings.ClassChainLayouts | CSharpLLVM/Lookups/Lookup.cs:172-185 | the layouts of the hierarchy Object ← C ← D without fields: [Barrier(C)] and [Barrier(C), Barrier(D)] |
| Findings.VTableIndicesCollide | CSharpLLVM/Lookups/Lookup.cs:195-219 | as written, C and D both get vtable index 0 |
| Findings.ChainNewobjCode | CSharpLLVM/Compilation/TypeCompiler.cs:190-235 | D's `newobj` routine, with C's and D's vtable pointers stored at the indices the lookup answers |
| Findings.NewobjStoresCollide | CSharpLLVM/Compilation/TypeCompiler.cs:209-219 | as written, D's `newobj` routine stores C's vtable pointer at slot 0 and then D's over it; corrected, at slots 0 and 1 |
| Findings.ChainBodyWithVTable | CSharpLLVM/Compilation/TypeCompiler.cs:107-114 | D's body has two vtable pointer slots, C's at 0 and D's at 1 |
| Findings.VTableSlotsDistinct | CSharpLLVM/Compilation/TypeCompiler.cs:107-114 | corrected, C's slot is 0 and D's is 1 |
| Findings.StructChainLayout | CSharpLLVM/Lookups/Lookup.cs:172-185 | System.Object ← System.ValueType ← struct S with one Int32 field: S's layout is [Barrier(System.ValueType), field, Barrier(S)] |
| Findings.StructFieldIndex | CSharpLLVM/Lookups/Lookup.cs:227-251 | as written, the field's index is 1 |
| Findings.StructBody | CSharpLLVM/Compilation/TypeCompiler.cs:104-175 | the body of S, which has no vtable and no padding, is the single Int32 slot |
| Findings.StructFieldSlot | CSharpLLVM/Compilation/TypeCompiler.cs:107-146 | corrected, the field's slot is 0 |

## Left out

- `AddInterface`, and `VTable.Create` and `VTable.Compile` (Compilation/TypeCompiler.cs:83, 90-93): their code is not part of this model. Compile registers the vtable as a record keyed by its type, and the vtable entries come from `Env`.
- `GetInterfaceIndirectionTable`, `NeedsVirtualCall`, `TypeHelper` and `SizeOfTypeInBits` are inputs (fields of `Metadata.Env`), because their code is not part of this model.
- `HelpIntAndPtrCast` (EmitStsfld.cs:34) is not part of this model. Its result is `Env.intAndPtrCast`, and the instructions it builds are not logged.
- LLVM semantics are left out: what GEP, malloc, load, store, phi, the casts and the struct types compute. Values, types and blocks are terms.
- Floating point is left out: the fsub branch of EmitSub is a term selected by `Env.isFloatingPoint`.
- Logging and console colouring (Compilation/TypeCompiler.cs:75, Compiler/TypeCompiler.cs:38-43) are left out, because they have no effect on the result.
- `LLVM.DisposeBuilder` (Compilation/TypeCompiler.cs:232) is left out. The `newobj` routine's builder is a separate `Ir.Builder`, and building in it does not move the caller's builder.
- TypeCompilation.BuildBody: `fieldTotalSize` is a `ulong` read through `(int)`. Wrap-around is not modelled, because a body of 2^31 bytes is out of reach.
- Mono.Cecil metadata resolution (`Resolve()`, `FullName` formatting, `IsValueType`) is left out. Metadata is an input map, and `WellFormed` requires base types to be in the map with a smaller inheritance depth.
- StackElements.FromValueOnly: Stack/StackElement.cs declares no one-argument constructor, yet ILStack.cs lines 81 and 115 call `new StackElement(value)`. The model gives that element the value's IR type and the IL type `Unknown`, which is not a pointer. So phis, sub results and re-inserted values are always spilled to an alloca by the stfld handlers (EmitStfld.cs line 28). A constructor that left the IL type unset would instead make `obj.ILType.IsPointer` at that line throw on a null reference; that alternative is not modelled.
- ILStacks.ILStack.Update: requires the source stack to be a different object, so the call for a block that is its own successor (the same stack passed twice) is not modelled. In that call the loop reads the stack it grows. On a non-empty stack it never ends with at most one reference, with a counter of 0, or with a counter of 1 below the top, because a push or a pop-and-push leaves a new top slot with counter 0. Otherwise it ends after Count iterations, and each phi gets itself as an incoming value.
- Instructions.EmitStsfld: a field without a registered global reaches `LLVM.SetInitializer`/`LLVM.BuildStore` with a null handle. The model reports this as `NullHandle` and emits nothing, instead of the crash in LLVM.
- LegacyLookups.LegacyLookup.HasStaticField: `Compiler/TypeCompiler.cs` calls `HasStaticField` and `GetFields`, but `Compiler/Lookup.cs` does not define them. `HasStaticField` is modelled as "a global is registered". `GetFields` is `Env.legacyFields`.
- LegacyTypeCompilation.Compile: requires every field's full name to be non-empty, because `FullName[0]` of a Mono.Cecil field always exists (its full name contains its type and name).
- The opcode numbers are those of Mono.Cecil's `Code` enumeration: Ldarg_0..3 = 2..5, Ldarg_S = 14, Ldloca_S = 18, Ldc_I4_M1 = 21, Ldc_I4_0..8 = 22..30, Ldc_I4_S = 31, Ldc_I4 = 32. The handler dispatch table (`InstructionHandler` attributes and the emitter registry) is not part of this model. So the fact that one handler covers several opcodes (ldc.i4 variants, `sub.ovf`, `ldloca.s`) is not modelled beyond the opcode ranges the handlers test.
- `CSharpLLVM/Compiler/MethodCompiler.cs`, `Program.cs` and `CompilerSettings.cs` are left out: orchestration, command-line parsing and settings.

## Findings

| source | as written | input that shows it | evidently intended | confidence | as-written member | corrected member |
|---|---|---|---|---|---|---|
| CSharpLLVM/Lookups/Lookup.cs:203-210 | GetClassVTableIndex does not count other types' barriers, but the body has a vtable slot for each of them | Object ← C ← D, no fields, both needing virtual calls: C and D both get index 0, so D's `newobj` routine (TypeCompiler.cs line 215) stores D's vtable pointer over C's | the slot of the type's vtable pointer in the body, counting the vtable slots of base types | high (not executed) | Findings.VTableIndicesCollide, Findings.NewobjStoresCollide, Lookups.Lookup.GetClassVTableIndex | Findings.VTableSlotsDistinct, Lookups.Lookup.GetClassVTableSlot, TypeCompilation.StoreClassVTables |
| CSharpLLVM/Lookups/Lookup.cs:234-238 | GetFieldIndex counts every barrier as a slot, but a body without a vtable has no barrier slots | struct S (base System.ValueType) with one Int32 field: the index is 1, but S's body has only slot 0 | count a barrier only when the body has vtable slots | high (not executed) | Findings.StructFieldIndex, Instructions.EmitStfld | Findings.StructFieldSlot, Lookups.Lookup.GetFieldSlot, Instructions.EmitStfldFixed |
| CSharpLLVM/Stack/ILStack.cs:133-166 | the second visit pops and pushes at the TOP, not at slot i; Push appends a counter 0 before the increment | two predecessors of two values leave three slots; a single value from three predecessors ends in a phi whose edges miss the second predecessor | the phi replaces slot i, which keeps its counter, so later visits add edges to it | high (not executed) | PhiMerge.TwoSlotsAsWritten, PhiMerge.ThreePredecessorsAsWritten, ILStacks.ILStack.Update | PhiMerge.PhiPerSlot, ILStacks.ILStack.UpdateFixed |
| CSharpLLVM/Stack/ILStack.cs:113-116 | InsertAtStart in increasing i puts the independent values at the bottom in reverse order | a source of [a, b, x] over a stack of one slot gives [b, a, ...] | slot k keeps source value k | medium (not executed) | PhiMerge.InsertValuesReversed, ILStacks.ILStack.InsertIndependent | PhiMerge.InsertValuesFixedInOrder, ILStacks.ILStack.InsertIndependentFixed |
| CSharpLLVM/Generator/Instructions/StoreLoad/EmitLdarg.cs:28 | the operand of ldarg/ldarg.s is cast to VariableDefinition, but Mono.Cecil gives these opcodes a ParameterDefinition | `ldarg.s 1` throws InvalidCastException | take the index from the parameter operand | high (not executed) | Instructions.LdargShortForm, Instructions.LdargIndex, Instructions.EmitLdarg | Instructions.LdargIndexFixed, Instructions.EmitLdargFixed |
