/**
 * The opaque side of the translator: metadata identities, LLVM types, values and basic blocks as
 * terms, and the IR that is built, as an append-only log. Nothing here says what an LLVM
 * instruction computes; a value is only the term that names how it was built.
 */
module Ir {

  /** Reference identities of metadata entities (Mono.Cecil objects in the source). */
  type TypeId = nat
  type FieldId = nat
  type MethodId = nat

  /** A basic block handle; NoBlock is the default (null) BasicBlockRef. */
  datatype Block = NoBlock | Block(id: nat)

  /** LLVM types. Opaque stands for a type this model does not compute (the result of a GEP). */
  datatype IrType =
    | Int(bits: nat)
    | Pointer(elem: IrType)
    | Named(name: string)
    | FunctionOf(ret: IrType)
    | External(id: nat)
    | Opaque

  const Int8: IrType := Int(8)
  const Int32: IrType := Int(32)

  /** The source-language (IL) type tag carried by a stack element. */
  datatype ILType = Unknown | ClrType(fullName: string) | PointerTo(elem: ILType)

  predicate IsILPointer(t: ILType) { t.PointerTo? }

  /** LLVM values as terms. Handle stands for values made outside the modelled code. */
  datatype Value =
    | ConstInt(ty: IrType, n: nat, signExtend: bool)  // LLVM.ConstInt(ty, n, signExtend), n a ulong
    | ConstNull(ty: IrType)
    | Handle(id: nat, ty: IrType)
    | Global(id: nat, valueType: IrType)
    | Function(name: string, ty: IrType)
    | Phi(id: nat, ty: IrType)
    | Alloca(id: nat, ty: IrType)
    | Malloc(id: nat, ty: IrType)
    | Load(ptr: Value)
    | IntCast(v: Value, ty: IrType)
    | PtrToInt(v: Value, ty: IrType)
    | PointerCast(v: Value, ty: IrType)
    | Sub(a: Value, b: Value)
    | FSub(a: Value, b: Value)
    | Not(v: Value)
    | Gep(ptr: Value, indices: seq<Value>, inBounds: bool)

  function Pointee(t: IrType): IrType {
    if t.Pointer? then t.elem else Opaque
  }

  /** LLVM.TypeOf. */
  function TypeOf(v: Value): IrType {
    match v
    case ConstInt(ty, _, _) => ty
    case ConstNull(ty) => ty
    case Handle(_, ty) => ty
    case Global(_, ty) => Pointer(ty)
    case Function(_, ty) => Pointer(ty)
    case Phi(_, ty) => ty
    case Alloca(_, ty) => Pointer(ty)
    case Malloc(_, ty) => Pointer(ty)
    case Load(p) => Pointee(TypeOf(p))
    case IntCast(_, ty) => ty
    case PtrToInt(_, ty) => ty
    case PointerCast(_, ty) => ty
    case Sub(a, _) => TypeOf(a)
    case FSub(a, _) => TypeOf(a)
    case Not(a) => TypeOf(a)
    case Gep(_, _, _) => Opaque
  }

  /** One effect on the module being built, in the order the translator performs them. */
  datatype Instr =
    | Def(at: Block, v: Value)                                  // an instruction whose result is v
    | Incoming(phi: Value, v: Value, from: Block)               // LLVM.AddIncoming
    | Store(at: Block, v: Value, ptr: Value, isVolatile: bool)
    | Ret(at: Block, v: Value)
    | AddGlobal(g: Value, name: string)
    | SetInitializer(g: Value, init: Value)
    | NamedStruct(ty: IrType)                                   // LLVM.StructCreateNamed
    | StructBody(ty: IrType, elems: seq<IrType>, packed: bool)  // LLVM.StructSetBody
    | AddFunction(f: Value, internal: bool, entry: Block)

  /** The module under construction: every effect so far, and a source of fresh identities. */
  class IrModule {
    var code: seq<Instr>
    var nextId: nat

    constructor ()
      ensures code == [] && nextId == 0
    {
      code := [];
      nextId := 0;
    }

    method Append(i: Instr)
      modifies this`code
      ensures code == old(code) + [i]
    {
      code := code + [i];
    }

    method Fresh() returns (id: nat)
      modifies this`nextId
      ensures id == old(nextId) && nextId == id + 1
    {
      id := nextId;
      nextId := nextId + 1;
    }
  }

  /** An instruction builder: only its insertion point is state. */
  class Builder {
    var block: Block

    constructor (at: Block)
      ensures block == at
    {
      block := at;
    }

    method PositionAtEnd(b: Block)
      modifies this
      ensures block == b
    {
      block := b;
    }
  }
}
