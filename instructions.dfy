/**
 * The instruction handlers of Generator/Instructions: each pops its operands off the current
 * evaluation stack (top first), builds its IR at the builder's position and pushes its result.
 * A pop on an empty stack fails, leaving the pops already made; a cast of the operand to the
 * wrong metadata kind fails with InvalidCast.
 */
module Instructions {
  import opened Wrappers
  import opened Ir
  import opened StackElements
  import opened Metadata
  import opened StructLayout
  import opened Lookups
  import opened ILStacks
  import opened CastHelper
  import TypeCompilation

  newtype SByte = x: int | -0x80 <= x < 0x80
  newtype Int32Value = x: int | -0x8000_0000 <= x < 0x8000_0000

  /**
   * The operand of an instruction, as Mono.Cecil hands it over: a boxed literal, a local variable
   * (VariableDefinition), a parameter (ParameterDefinition), a type definition, a type reference
   * that is not a definition, or a field.
   */
  datatype Operand =
    | NoOperand
    | SByteOperand(sb: SByte)
    | IntOperand(i: Int32Value)
    | VariableOperand(index: nat)
    | ParameterOperand(sequence: nat)
    | TypeDefOperand(fullName: string)
    | TypeRefOperand(refName: string)
    | FieldOperand(field: FieldDef)

  datatype Instruction = Instruction(code: nat, operand: Operand, volatilePrefix: bool)

  /** Mono.Cecil's Code values of the opcodes whose value a handler computes with. */
  const Ldarg_0: nat := 2
  const Ldarg_3: nat := 5
  const Ldarg_S: nat := 14
  const Ldloca_S: nat := 18
  const Ldc_I4_M1: nat := 21
  const Ldc_I4_0: nat := 22
  const Ldc_I4_8: nat := 30
  const Ldc_I4_S: nat := 31
  const Ldc_I4: nat := 32

  /** The IL type `typeof(int)`. */
  const IntIL: ILType := ClrType("System.Int32")

  /**
   * What the method being translated supplies: its name, and the storage of its arguments and
   * locals with their IL types. These are taken to be arrays, as MethodCompiler builds its
   * argument types, so an index past them is IndexOutOfRange.
   */
  datatype MethodFrame = MethodFrame(
    name: string,
    argumentValues: seq<Value>,
    argumentILTypes: seq<ILType>,
    localValues: seq<Value>,
    localILTypes: seq<ILType>)

  // ---------------------------------------------------------------- ldc.i4

  /** The integer an i32 constant built from the 64-bit pattern `n` stands for: its low 32 bits, signed. */
  function Signed32(n: nat): int {
    var low := n % 0x1_0000_0000;
    if low < 0x8000_0000 then low else low - 0x1_0000_0000
  }

  /**
   * The 64-bit pattern EmitLdc_I4 hands to ConstInt: the opcode's own number for ldc.i4.0 to
   * ldc.i4.8, (uint)-1 for ldc.i4.m1, an sbyte operand converted to ulong (sign-extended), and
   * otherwise the operand unboxed as int and converted to uint.
   */
  function LdcPattern(instr: Instruction): (r: Result<nat>)
    ensures r.Success? ==> r.value < 0x1_0000_0000_0000_0000
  {
    if Ldc_I4_0 <= instr.code <= Ldc_I4_8 then Success(instr.code - Ldc_I4_0)
    else if instr.code == Ldc_I4_M1 then Success(0xFFFF_FFFF)
    else match instr.operand
      case SByteOperand(sb) => Success(if sb >= 0 then sb as nat else (0x1_0000_0000_0000_0000 + sb as int) as nat)
      case IntOperand(i) => Success(if i >= 0 then i as nat else (0x1_0000_0000 + i as int) as nat)
      case _ => Failure(InvalidCast)
  }

  /** The integer each ldc.i4 form loads, as ECMA-335 defines the opcodes. */
  function LdcInteger(instr: Instruction): Result<int> {
    if Ldc_I4_0 <= instr.code <= Ldc_I4_8 then Success(instr.code - Ldc_I4_0)
    else if instr.code == Ldc_I4_M1 then Success(-1)
    else match instr.operand
      case SByteOperand(sb) => Success(sb as int)
      case IntOperand(i) => Success(i as int)
      case _ => Failure(InvalidCast)
  }

  /** A negative sbyte sign-extended to 64 bits has the same low 32 bits as its 32-bit pattern. */
  lemma SignExtendedLow(x: int)
    requires -0x80 <= x < 0
    ensures (0x1_0000_0000_0000_0000 + x) % 0x1_0000_0000 == 0x1_0000_0000 + x
  {
    assert 0x1_0000_0000_0000_0000 + x == 0xFFFF_FFFF * 0x1_0000_0000 + (0x1_0000_0000 + x);
  }

  /** The constant pushed by every ldc.i4 form denotes the integer the opcode loads. */
  lemma LdcDenotes(instr: Instruction)
    ensures LdcPattern(instr).Success? <==> LdcInteger(instr).Success?
    ensures LdcPattern(instr).Success? ==> Signed32(LdcPattern(instr).value) == LdcInteger(instr).value
    ensures LdcPattern(instr).Failure? ==> LdcPattern(instr) == LdcInteger(instr)
  {
    if !(Ldc_I4_0 <= instr.code <= Ldc_I4_8) && instr.code != Ldc_I4_M1 && instr.operand.SByteOperand? {
      var sb := instr.operand.sb as int;
      if sb < 0 {
        SignExtendedLow(sb);
      }
    }
  }

  /** EmitLdc_I4: pushes the constant as an Int32 tagged `int`; nothing is popped. */
  method EmitLdcI4(instr: Instruction, stack: ILStack) returns (o: Outcome)
    modifies stack`stack, stack`phi
    ensures LdcPattern(instr).Failure? ==>
      o == Fail(InvalidCast) && stack.stack == old(stack.stack) && stack.phi == old(stack.phi)
    ensures LdcPattern(instr).Success? ==>
      && o == Pass
      && stack.stack == old(stack.stack) + [Make(ConstInt(Int32, LdcPattern(instr).value, true), IntIL, Int32)]
      && stack.phi == old(stack.phi) + [0]
    ensures old(stack.Valid()) ==> stack.Valid()
  {
    var pattern := LdcPattern(instr);
    if pattern.Failure? {
      return Fail(pattern.error);
    }
    stack.Push(Make(ConstInt(Int32, pattern.value, true), IntIL, Int32));
    return Pass;
  }

  // ---------------------------------------------------------------- ldarg, ldloca

  /**
   * The argument EmitLdarg loads: ldarg.0 to ldarg.3 name it in the opcode, the other forms in
   * an operand the handler casts to a local-variable definition.
   */
  function LdargIndex(instr: Instruction): (r: Result<nat>)
    ensures Ldarg_0 <= instr.code <= Ldarg_3 ==> r == Success(instr.code - Ldarg_0)
    ensures r.Failure? <==> !(Ldarg_0 <= instr.code <= Ldarg_3) && !instr.operand.VariableOperand?
  {
    if Ldarg_0 <= instr.code <= Ldarg_3 then Success(instr.code - Ldarg_0)
    else match instr.operand
      case VariableOperand(index) => Success(index)
      case _ => Failure(InvalidCast)
  }

  /** The argument of ldarg.s or ldarg named by the parameter operand Mono.Cecil gives them. */
  function LdargIndexFixed(instr: Instruction): (r: Result<nat>)
    ensures Ldarg_0 <= instr.code <= Ldarg_3 ==> r == Success(instr.code - Ldarg_0)
    ensures r.Failure? <==> !(Ldarg_0 <= instr.code <= Ldarg_3) && !instr.operand.ParameterOperand?
  {
    if Ldarg_0 <= instr.code <= Ldarg_3 then Success(instr.code - Ldarg_0)
    else match instr.operand
      case ParameterOperand(sequence) => Success(sequence)
      case _ => Failure(InvalidCast)
  }

  /** ldarg.s 1, whose operand is the parameter definition of argument 1. */
  function LdargS1(): Instruction {
    Instruction(Ldarg_S, ParameterOperand(1), false)
  }

  /** As written, the cast of ldarg.s's parameter operand fails; corrected, it loads argument 1. */
  lemma LdargShortForm()
    ensures LdargIndex(LdargS1()) == Failure(InvalidCast)
    ensures LdargIndexFixed(LdargS1()) == Success(1)
  {
  }

  /**
   * The load of an argument and its push. The argument's storage is read, the load built, and
   * only then the IL type read, so an index past the IL types leaves the load in the IR.
   */
  method LoadArgument(index: nat, frame: MethodFrame, stack: ILStack, builder: Builder, ir: IrModule)
    returns (o: Outcome)
    modifies stack`stack, stack`phi, ir`code
    ensures index >= |frame.argumentValues| ==>
      o == Fail(IndexOutOfRange) && stack.stack == old(stack.stack) && ir.code == old(ir.code)
    ensures index < |frame.argumentValues| ==>
      ir.code == old(ir.code) + [Def(builder.block, Load(frame.argumentValues[index]))]
    ensures index < |frame.argumentValues| && index >= |frame.argumentILTypes| ==>
      o == Fail(IndexOutOfRange) && stack.stack == old(stack.stack) && stack.phi == old(stack.phi)
    ensures index < |frame.argumentValues| && index < |frame.argumentILTypes| ==>
      && o == Pass
      && stack.stack == old(stack.stack) + [FromValue(Load(frame.argumentValues[index]), frame.argumentILTypes[index])]
      && stack.phi == old(stack.phi) + [0]
    ensures old(stack.Valid()) ==> stack.Valid()
  {
    if index >= |frame.argumentValues| {
      return Fail(IndexOutOfRange);
    }
    var value := Load(frame.argumentValues[index]);
    ir.Append(Def(builder.block, value));
    if index >= |frame.argumentILTypes| {
      return Fail(IndexOutOfRange);
    }
    stack.Push(FromValue(value, frame.argumentILTypes[index]));
    return Pass;
  }

  /** EmitLdarg as written. */
  method EmitLdarg(instr: Instruction, frame: MethodFrame, stack: ILStack, builder: Builder, ir: IrModule)
    returns (o: Outcome)
    modifies stack`stack, stack`phi, ir`code
    ensures LdargIndex(instr).Failure? ==>
      o == Fail(InvalidCast) && stack.stack == old(stack.stack) && ir.code == old(ir.code)
    ensures LdargIndex(instr).Success? && LdargIndex(instr).value >= |frame.argumentValues| ==>
      o == Fail(IndexOutOfRange) && stack.stack == old(stack.stack) && ir.code == old(ir.code)
    ensures LdargIndex(instr).Success? && LdargIndex(instr).value < |frame.argumentValues| &&
            LdargIndex(instr).value >= |frame.argumentILTypes| ==>
      && o == Fail(IndexOutOfRange)
      && stack.stack == old(stack.stack) && stack.phi == old(stack.phi)
      && ir.code == old(ir.code) + [Def(builder.block, Load(frame.argumentValues[LdargIndex(instr).value]))]
    ensures LdargIndex(instr).Success? && LdargIndex(instr).value < |frame.argumentValues| &&
            LdargIndex(instr).value < |frame.argumentILTypes| ==>
      var index := LdargIndex(instr).value;
      && o == Pass
      && stack.stack == old(stack.stack) + [FromValue(Load(frame.argumentValues[index]), frame.argumentILTypes[index])]
      && stack.phi == old(stack.phi) + [0]
      && ir.code == old(ir.code) + [Def(builder.block, Load(frame.argumentValues[index]))]
    ensures o.Fail? ==> stack.stack == old(stack.stack)
    ensures old(stack.Valid()) ==> stack.Valid()
  {
    var index := LdargIndex(instr);
    if index.Failure? {
      return Fail(index.error);
    }
    o := LoadArgument(index.value, frame, stack, builder, ir);
  }

  /** EmitLdarg reading the argument position off the parameter operand. */
  method EmitLdargFixed(instr: Instruction, frame: MethodFrame, stack: ILStack, builder: Builder, ir: IrModule)
    returns (o: Outcome)
    modifies stack`stack, stack`phi, ir`code
    ensures LdargIndexFixed(instr).Failure? ==>
      o == Fail(InvalidCast) && stack.stack == old(stack.stack) && ir.code == old(ir.code)
    ensures LdargIndexFixed(instr).Success? && LdargIndexFixed(instr).value >= |frame.argumentValues| ==>
      o == Fail(IndexOutOfRange) && stack.stack == old(stack.stack) && ir.code == old(ir.code)
    ensures LdargIndexFixed(instr).Success? && LdargIndexFixed(instr).value < |frame.argumentValues| &&
            LdargIndexFixed(instr).value >= |frame.argumentILTypes| ==>
      && o == Fail(IndexOutOfRange)
      && stack.stack == old(stack.stack) && stack.phi == old(stack.phi)
      && ir.code == old(ir.code) + [Def(builder.block, Load(frame.argumentValues[LdargIndexFixed(instr).value]))]
    ensures LdargIndexFixed(instr).Success? && LdargIndexFixed(instr).value < |frame.argumentValues| &&
            LdargIndexFixed(instr).value < |frame.argumentILTypes| ==>
      var index := LdargIndexFixed(instr).value;
      && o == Pass
      && stack.stack == old(stack.stack) + [FromValue(Load(frame.argumentValues[index]), frame.argumentILTypes[index])]
      && stack.phi == old(stack.phi) + [0]
      && ir.code == old(ir.code) + [Def(builder.block, Load(frame.argumentValues[index]))]
    ensures o.Fail? ==> stack.stack == old(stack.stack)
    ensures old(stack.Valid()) ==> stack.Valid()
  {
    var index := LdargIndexFixed(instr);
    if index.Failure? {
      return Fail(index.error);
    }
    o := LoadArgument(index.value, frame, stack, builder, ir);
  }

  /**
   * The element EmitLdloca pushes: the local's storage itself (no load), tagged as a pointer to
   * the local's IL type.
   */
  function LocalAddress(frame: MethodFrame, operand: Operand): (r: Result<StackElement>)
    ensures r.Success? <==>
      operand.VariableOperand? && operand.index < |frame.localValues| && operand.index < |frame.localILTypes|
    ensures r.Success? ==>
      && r.value.value == frame.localValues[operand.index]
      && r.value.ilType == PointerTo(frame.localILTypes[operand.index])
      && IsILPointer(r.value.ilType)
      && Consistent(r.value)
  {
    match operand
    case VariableOperand(index) =>
      if index < |frame.localValues| && index < |frame.localILTypes| then
        Success(FromValue(frame.localValues[index], PointerTo(frame.localILTypes[index])))
      else Failure(IndexOutOfRange)
    case _ => Failure(InvalidCast)
  }

  /** EmitLdloca (ldloca and ldloca.s): one push, no IR. */
  method EmitLdloca(instr: Instruction, frame: MethodFrame, stack: ILStack) returns (o: Outcome)
    modifies stack`stack, stack`phi
    ensures LocalAddress(frame, instr.operand).Failure? ==>
      o == Fail(LocalAddress(frame, instr.operand).error) && stack.stack == old(stack.stack) && stack.phi == old(stack.phi)
    ensures LocalAddress(frame, instr.operand).Success? ==>
      && o == Pass
      && stack.stack == old(stack.stack) + [LocalAddress(frame, instr.operand).value]
      && stack.phi == old(stack.phi) + [0]
    ensures old(stack.Valid()) ==> stack.Valid()
  {
    if !instr.operand.VariableOperand? {
      return Fail(InvalidCast);
    }
    var index := instr.operand.index;
    if index >= |frame.localValues| || index >= |frame.localILTypes| {
      return Fail(IndexOutOfRange);
    }
    stack.Push(FromValue(frame.localValues[index], PointerTo(frame.localILTypes[index])));
    return Pass;
  }

  // ---------------------------------------------------------------- sizeof

  /** The byte size EmitSizeof pushes: the size in bits of the type, divided by 8 and truncated. */
  function SizeofBytes(env: Env, fullName: string): (n: nat)
    ensures n * 8 <= env.sizeInBits(env.typeRef(fullName)) < n * 8 + 8
  {
    env.sizeInBits(env.typeRef(fullName)) / 8
  }

  /** EmitSizeof: the operand must be a type definition; pushes its byte size as an Int32 `int`. */
  method EmitSizeof(env: Env, instr: Instruction, stack: ILStack) returns (o: Outcome)
    modifies stack`stack, stack`phi
    ensures !instr.operand.TypeDefOperand? ==>
      o == Fail(InvalidCast) && stack.stack == old(stack.stack) && stack.phi == old(stack.phi)
    ensures instr.operand.TypeDefOperand? ==>
      && o == Pass
      && stack.stack == old(stack.stack) + [Make(ConstInt(Int32, SizeofBytes(env, instr.operand.fullName), false), IntIL, Int32)]
      && stack.phi == old(stack.phi) + [0]
    ensures old(stack.Valid()) ==> stack.Valid()
  {
    if !instr.operand.TypeDefOperand? {
      return Fail(InvalidCast);
    }
    var typeRef := env.typeRef(instr.operand.fullName);
    var size := env.sizeInBits(typeRef) / 8;
    stack.Push(Make(ConstInt(Int32, size, false), IntIL, Int32));
    return Pass;
  }

  // ---------------------------------------------------------------- sub, not

  /** Two pops: the top element, then the one below it; returned as (below, top). */
  method PopTwo(stack: ILStack) returns (r: Result<(StackElement, StackElement)>)
    requires stack.Valid()
    modifies stack`stack, stack`phi
    ensures stack.Valid()
    ensures |old(stack.stack)| < 2 ==> r == Failure(ArgumentOutOfRange) && stack.stack == []
    ensures |old(stack.stack)| >= 2 ==>
      var n := |old(stack.stack)|;
      && r == Success((old(stack.stack)[n - 2], old(stack.stack)[n - 1]))
      && stack.stack == old(stack.stack)[..n - 2] && stack.phi == old(stack.phi)[..n - 2]
  {
    var top := stack.Pop();
    if top.Failure? {
      return Failure(top.error);
    }
    var below := stack.Pop();
    if below.Failure? {
      return Failure(below.error);
    }
    return Success((below.value, top.value));
  }

  predicate IsFloatingPair(env: Env, value1: StackElement, value2: StackElement) {
    env.isFloatingPoint(value1) || env.isFloatingPoint(value2)
  }

  /**
   * The value EmitSub pushes for `value1 - value2`: an fsub of the two values when either is
   * floating point; otherwise a sub whose left operand is int-cast to the right operand's type
   * when the two type tags differ. The right operand is never cast.
   */
  function SubResult(env: Env, value1: StackElement, value2: StackElement): (r: Value)
    ensures r.FSub? <==> IsFloatingPair(env, value1, value2)
    ensures r.FSub? ==> r.a == value1.value && r.b == value2.value
    ensures r.Sub? <==> !IsFloatingPair(env, value1, value2)
    ensures r.Sub? ==> r.b == value2.value && (r.a == value1.value || r.a == IntCast(value1.value, value2.ty))
    ensures r.Sub? && value1.ty == value2.ty ==> r.a == value1.value
    ensures r.Sub? && Consistent(value2) && (Consistent(value1) || value1.ty != value2.ty) ==>
      TypeOf(r.a) == TypeOf(r.b) == TypeOf(r) == value2.ty
  {
    if IsFloatingPair(env, value1, value2) then FSub(value1.value, value2.value)
    else if value1.ty != value2.ty then Sub(IntCast(value1.value, value2.ty), value2.value)
    else Sub(value1.value, value2.value)
  }

  /** The instructions EmitSub builds: the cast of the left operand when there is one, then the result. */
  function SubCode(env: Env, at: Block, value1: StackElement, value2: StackElement): (r: seq<Instr>)
    ensures 1 <= |r| <= 2
    ensures r[|r| - 1] == Def(at, SubResult(env, value1, value2))
    ensures |r| == 2 <==> !IsFloatingPair(env, value1, value2) && value1.ty != value2.ty
    ensures |r| == 2 ==> r[0] == Def(at, SubResult(env, value1, value2).a)
  {
    var result := SubResult(env, value1, value2);
    if !IsFloatingPair(env, value1, value2) && value1.ty != value2.ty then [Def(at, result.a), Def(at, result)]
    else [Def(at, result)]
  }

  /** EmitSub (sub, sub.ovf, sub.ovf.un alike): pops value2, then value1, and pushes their difference. */
  method EmitSub(env: Env, stack: ILStack, builder: Builder, ir: IrModule) returns (o: Outcome)
    requires stack.Valid()
    modifies stack`stack, stack`phi, ir`code
    ensures stack.Valid()
    ensures |old(stack.stack)| < 2 ==> o == Fail(ArgumentOutOfRange) && stack.stack == [] && ir.code == old(ir.code)
    ensures |old(stack.stack)| >= 2 ==>
      var n := |old(stack.stack)|;
      var value1 := old(stack.stack)[n - 2];
      var value2 := old(stack.stack)[n - 1];
      && o == Pass
      && stack.stack == old(stack.stack)[..n - 2] + [FromValueOnly(SubResult(env, value1, value2))]
      && stack.phi == old(stack.phi)[..n - 2] + [0]
      && ir.code == old(ir.code) + SubCode(env, builder.block, value1, value2)
  {
    var popped := PopTwo(stack);
    if popped.Failure? {
      return Fail(popped.error);
    }
    var (value1, value2) := popped.value;
    if env.isFloatingPoint(value1) || env.isFloatingPoint(value2) {
      var result := FSub(value1.value, value2.value);
      ir.Append(Def(builder.block, result));
      stack.PushValue(result);
    } else {
      var val1 := value1.value;
      var val2 := value2.value;
      if value1.ty != value2.ty {
        val1 := IntCast(val1, value2.ty);
        ir.Append(Def(builder.block, val1));
      }
      var result := Sub(val1, val2);
      ir.Append(Def(builder.block, result));
      stack.PushValue(result);
    }
    return Pass;
  }

  /** The element EmitNot pushes: the complement, with the operand's IL type and IR type. */
  function NotElement(e: StackElement): (r: StackElement)
    ensures r.value == Not(e.value) && r.ilType == e.ilType && r.ty == e.ty
    ensures Consistent(e) ==> Consistent(r)
  {
    Make(Not(e.value), e.ilType, e.ty)
  }

  /** EmitNot: one pop, one push; the slots below the top are untouched. */
  method EmitNot(stack: ILStack, builder: Builder, ir: IrModule) returns (o: Outcome)
    requires stack.Valid()
    modifies stack`stack, stack`phi, ir`code
    ensures stack.Valid()
    ensures old(stack.stack) == [] ==>
      o == Fail(ArgumentOutOfRange) && stack.stack == [] && ir.code == old(ir.code)
    ensures old(stack.stack) != [] ==>
      var n := |old(stack.stack)|;
      && o == Pass
      && stack.stack == old(stack.stack)[..n - 1] + [NotElement(old(stack.stack)[n - 1])]
      && stack.phi == old(stack.phi)[..n - 1] + [0]
      && ir.code == old(ir.code) + [Def(builder.block, Not(old(stack.stack)[n - 1].value))]
  {
    var popped := stack.Pop();
    if popped.Failure? {
      return Fail(popped.error);
    }
    var value := popped.value;
    var result := Not(value.value);
    ir.Append(Def(builder.block, result));
    stack.Push(Make(result, value.ilType, value.ty));
    return Pass;
  }

  // ---------------------------------------------------------------- stfld

  /** The object pointer of a field store: the object itself when its IL type is a pointer, else its spill slot. */
  function FieldBase(obj: StackElement, allocaId: nat): Value {
    if IsILPointer(obj.ilType) then obj.value else Alloca(allocaId, obj.ty)
  }

  /** The in-bounds GEP [0, index] of the object pointer. */
  function FieldPointer(obj: StackElement, allocaId: nat, index: nat): Value {
    Gep(FieldBase(obj, allocaId), [ConstInt(Int32, 0, false), ConstInt(Int32, index, false)], true)
  }

  /**
   * The IR of a field store: an object that is not a pointer is first stored into a fresh alloca
   * of its type; then the value is stored at slot `index` of the object.
   */
  function FieldStoreCode(at: Block, obj: StackElement, value: StackElement, index: nat, allocaId: nat): (r: seq<Instr>)
    ensures |r| >= 2
    ensures r[|r| - 1] == Store(at, value.value, FieldPointer(obj, allocaId, index), false)
    ensures r[|r| - 2] == Def(at, FieldPointer(obj, allocaId, index))
    ensures !IsILPointer(obj.ilType) ==>
      |r| == 4 && r[1] == Store(at, obj.value, FieldBase(obj, allocaId), false)
      && TypeOf(FieldBase(obj, allocaId)) == Pointer(obj.ty)
    ensures IsILPointer(obj.ilType) ==> |r| == 2 && FieldBase(obj, allocaId) == obj.value
  {
    var spill := if IsILPointer(obj.ilType) then []
                 else [Def(at, FieldBase(obj, allocaId)), Store(at, obj.value, FieldBase(obj, allocaId), false)];
    spill + [Def(at, FieldPointer(obj, allocaId, index)), Store(at, value.value, FieldPointer(obj, allocaId, index), false)]
  }

  /** Lines 28-36 of EmitStfld: the spill when needed, the GEP and the store. */
  method StoreField(obj: StackElement, value: StackElement, index: nat, builder: Builder, ir: IrModule)
    modifies ir`code, ir`nextId
    ensures ir.code == old(ir.code) + FieldStoreCode(builder.block, obj, value, index, old(ir.nextId))
    ensures ir.nextId == old(ir.nextId) + (if IsILPointer(obj.ilType) then 0 else 1)
  {
    ghost var id0 := ir.nextId;
    var objValue := obj.value;
    if !IsILPointer(obj.ilType) {
      var id := ir.Fresh();
      var objPtr := Alloca(id, obj.ty);
      ir.Append(Def(builder.block, objPtr));
      ir.Append(Store(builder.block, obj.value, objPtr, false));
      objValue := objPtr;
    }
    assert objValue == FieldBase(obj, id0);
    var ptr := Gep(objValue, [ConstInt(Int32, 0, false), ConstInt(Int32, index, false)], true);
    ir.Append(Def(builder.block, ptr));
    ir.Append(Store(builder.block, value.value, ptr, false));
  }

  /**
   * EmitStfld as written: pops the value, then the object, and stores the value at the slot
   * GetFieldIndex gives the field, so a static or unknown field fails.
   */
  method EmitStfld(m: Types, instr: Instruction, stack: ILStack, lookup: Lookup, builder: Builder, ir: IrModule)
    returns (o: Outcome)
    requires stack.Valid() && LayoutCacheSound(m, lookup.layouts)
    requires instr.operand.FieldOperand? ==> instr.operand.field.declaringType in m
    modifies stack`stack, stack`phi, lookup`layouts, ir`code, ir`nextId
    ensures stack.Valid() && LayoutCacheSound(m, lookup.layouts)
    ensures |old(stack.stack)| < 2 ==> o == Fail(ArgumentOutOfRange) && stack.stack == [] && ir.code == old(ir.code)
    ensures |old(stack.stack)| >= 2 ==>
      var n := |old(stack.stack)|;
      stack.stack == old(stack.stack)[..n - 2] && stack.phi == old(stack.phi)[..n - 2]
    ensures |old(stack.stack)| >= 2 && !instr.operand.FieldOperand? ==>
      o == Fail(InvalidCast) && ir.code == old(ir.code)
    ensures |old(stack.stack)| >= 2 && instr.operand.FieldOperand? ==>
      var n := |old(stack.stack)|;
      var field := instr.operand.field;
      var index := FieldIndexOf(Layout(m, field.declaringType), field);
      && (index.Failure? ==> o == Fail(index.error) && ir.code == old(ir.code))
      && (index.Success? ==> (o == Pass && ir.code == old(ir.code) +
            FieldStoreCode(builder.block, old(stack.stack)[n - 2], old(stack.stack)[n - 1], index.value, old(ir.nextId))))
  {
    var popped := PopTwo(stack);
    if popped.Failure? {
      return Fail(popped.error);
    }
    var (obj, value) := popped.value;
    if !instr.operand.FieldOperand? {
      return Fail(InvalidCast);
    }
    var index := lookup.GetFieldIndex(m, instr.operand.field);
    if index.Failure? {
      return Fail(index.error);
    }
    StoreField(obj, value, index.value, builder, ir);
    return Pass;
  }

  /**
   * EmitStfld with the field's slot in the body TypeCompiler builds for its declaring type: the
   * corrected index, which counts barriers only when that body has vtable slots.
   */
  method EmitStfldFixed(env: Env, m: Types, instr: Instruction, stack: ILStack, lookup: Lookup, builder: Builder,
                        ir: IrModule)
    returns (o: Outcome)
    requires stack.Valid() && LayoutCacheSound(m, lookup.layouts)
    requires instr.operand.FieldOperand? ==> instr.operand.field.declaringType in m
    modifies stack`stack, stack`phi, lookup`layouts, ir`code, ir`nextId
    ensures stack.Valid() && LayoutCacheSound(m, lookup.layouts)
    ensures |old(stack.stack)| < 2 ==> o == Fail(ArgumentOutOfRange) && stack.stack == [] && ir.code == old(ir.code)
    ensures |old(stack.stack)| >= 2 ==>
      var n := |old(stack.stack)|;
      stack.stack == old(stack.stack)[..n - 2] && stack.phi == old(stack.phi)[..n - 2]
    ensures |old(stack.stack)| >= 2 && !instr.operand.FieldOperand? ==>
      o == Fail(InvalidCast) && ir.code == old(ir.code)
    ensures |old(stack.stack)| >= 2 && instr.operand.FieldOperand? ==>
      var n := |old(stack.stack)|;
      var field := instr.operand.field;
      var t := field.declaringType;
      var index := FieldSlotOf(Layout(m, t), field, TypeCompilation.HasVTable(env, t, m[t]));
      && (index.Failure? ==> o == Fail(index.error) && ir.code == old(ir.code))
      && (index.Success? ==> (o == Pass && ir.code == old(ir.code) +
            FieldStoreCode(builder.block, old(stack.stack)[n - 2], old(stack.stack)[n - 1], index.value, old(ir.nextId))))
  {
    var popped := PopTwo(stack);
    if popped.Failure? {
      return Fail(popped.error);
    }
    var (obj, value) := popped.value;
    if !instr.operand.FieldOperand? {
      return Fail(InvalidCast);
    }
    var field := instr.operand.field;
    var t := field.declaringType;
    var index := lookup.GetFieldSlot(m, field, TypeCompilation.HasVTable(env, t, m[t]));
    if index.Failure? {
      return Fail(index.error);
    }
    StoreField(obj, value, index.value, builder, ir);
    return Pass;
  }

  // ---------------------------------------------------------------- stsfld

  /** The field types whose static stores in a static constructor become initializers. */
  const InitializerTypes: seq<string> := [
    "System.Byte", "System.SByte", "System.Int16", "System.Int32", "System.Int64", "System.UInt16",
    "System.UInt32", "System.UInt64", "System.Single", "System.Double", "System.Boolean", "System.String"]

  predicate UsesInitializer(methodName: string, fieldType: string) {
    methodName == ".cctor" && fieldType in InitializerTypes
  }

  /** The stored value, brought to the field's IR type by HelpIntAndPtrCast when its tag differs. */
  function StaticStoreValue(env: Env, data: StackElement, destType: IrType): Value {
    if data.ty != destType then env.intAndPtrCast(data, destType) else data.value
  }

  /**
   * The one effect of EmitStsfld on the field's global: the initializer inside a static
   * constructor for a number, Boolean or string field, otherwise a store, volatile exactly when
   * the instruction carries the volatile. prefix.
   */
  function StaticStore(env: Env, at: Block, methodName: string, field: FieldDef, global: Value, data: StackElement,
                       isVolatile: bool): (r: Instr)
    ensures r.SetInitializer? <==> UsesInitializer(methodName, field.fieldType)
    ensures r.SetInitializer? ==> r.g == global
    ensures r.Store? <==> !UsesInitializer(methodName, field.fieldType)
    ensures r.Store? ==> r.ptr == global && r.isVolatile == isVolatile && r.at == at
    ensures r.SetInitializer? ==> r.init == StaticStoreValue(env, data, env.typeRef(field.fieldType))
    ensures r.Store? ==> r.v == StaticStoreValue(env, data, env.typeRef(field.fieldType))
    ensures data.ty == env.typeRef(field.fieldType) ==> StaticStoreValue(env, data, env.typeRef(field.fieldType)) == data.value
  {
    var value := StaticStoreValue(env, data, env.typeRef(field.fieldType));
    if UsesInitializer(methodName, field.fieldType) then SetInitializer(global, value)
    else Store(at, value, global, isVolatile)
  }

  /** A static constructor's store of an Int32 field is an initializer; a store of a char field is not. */
  lemma InitializerExamples(env: Env, at: Block, field: FieldDef, global: Value, data: StackElement)
    ensures field.fieldType == "System.Int32" ==> StaticStore(env, at, ".cctor", field, global, data, true).SetInitializer?
    ensures field.fieldType == "System.Char" ==> StaticStore(env, at, ".cctor", field, global, data, false).Store?
    ensures StaticStore(env, at, "Main", field, global, data, true) == Store(at, StaticStoreValue(env, data, env.typeRef(field.fieldType)), global, true)
  {
    assert InitializerTypes[3] == "System.Int32";
  }

  /**
   * EmitStsfld: pops the value and writes it to the field's registered global. A field without a
   * global hands a null handle to LLVM, which this model reports as a failure.
   */
  method EmitStsfld(env: Env, frame: MethodFrame, instr: Instruction, stack: ILStack, lookup: Lookup, builder: Builder,
                    ir: IrModule)
    returns (o: Outcome)
    requires stack.Valid()
    modifies stack`stack, stack`phi, ir`code
    ensures stack.Valid()
    ensures old(stack.stack) == [] ==> o == Fail(ArgumentOutOfRange) && stack.stack == [] && ir.code == old(ir.code)
    ensures old(stack.stack) != [] ==>
      var n := |old(stack.stack)|;
      stack.stack == old(stack.stack)[..n - 1] && stack.phi == old(stack.phi)[..n - 1]
    ensures old(stack.stack) != [] && !instr.operand.FieldOperand? ==> o == Fail(InvalidCast) && ir.code == old(ir.code)
    ensures old(stack.stack) != [] && instr.operand.FieldOperand? ==>
      var field := instr.operand.field;
      && (lookup.GetStaticField(field).None? ==> o == Fail(NullHandle) && ir.code == old(ir.code))
      && (lookup.GetStaticField(field).Some? ==> (o == Pass && ir.code == old(ir.code) +
            [StaticStore(env, builder.block, frame.name, field, lookup.GetStaticField(field).value,
                         old(stack.stack)[|old(stack.stack)| - 1], instr.volatilePrefix)]))
  {
    var isCctor := frame.name == ".cctor";
    var popped := stack.Pop();
    if popped.Failure? {
      return Fail(popped.error);
    }
    var data := popped.value;
    if !instr.operand.FieldOperand? {
      return Fail(InvalidCast);
    }
    var field := instr.operand.field;
    var fieldValue := lookup.GetStaticField(field);
    var destType := env.typeRef(field.fieldType);
    if data.ty != destType {
      data := data.(value := env.intAndPtrCast(data, destType), ty := destType);
    }
    if fieldValue.None? {
      return Fail(NullHandle);
    }
    if isCctor && field.fieldType in InitializerTypes {
      ir.Append(SetInitializer(fieldValue.value, data.value));
    } else {
      ir.Append(Store(builder.block, data.value, fieldValue.value, instr.volatilePrefix));
    }
    return Pass;
  }

  // ---------------------------------------------------------------- stelem.ref

  /** The array pointer of an element store: cast to a pointer to the value's type when its tag differs. */
  function ElementBase(arr: StackElement, value: StackElement): (r: Value)
    ensures Consistent(arr) ==> TypeOf(r) == Pointer(value.ty)
    ensures Pointer(value.ty) == arr.ty ==> r == arr.value
  {
    if Pointer(value.ty) != arr.ty then PointerCast(arr.value, Pointer(value.ty)) else arr.value
  }

  /** The IR of stelem.ref: the cast when needed, the GEP at the index, and the store of the value. */
  function ElementStoreCode(at: Block, arr: StackElement, index: StackElement, value: StackElement): (r: seq<Instr>)
    ensures |r| >= 2 && r[|r| - 1] == Store(at, value.value, Gep(ElementBase(arr, value), [index.value], false), false)
    ensures |r| == 3 <==> Pointer(value.ty) != arr.ty
  {
    var base := ElementBase(arr, value);
    var ptr := Gep(base, [index.value], false);
    (if Pointer(value.ty) != arr.ty then [Def(at, base)] else []) + [Def(at, ptr), Store(at, value.value, ptr, false)]
  }

  /** EmitStelemRef: pops the value, the index and the array, and stores the value at array[index]. */
  method EmitStelemRef(stack: ILStack, builder: Builder, ir: IrModule) returns (o: Outcome)
    requires stack.Valid()
    modifies stack`stack, stack`phi, ir`code
    ensures stack.Valid()
    ensures |old(stack.stack)| < 3 ==> o == Fail(ArgumentOutOfRange) && stack.stack == [] && ir.code == old(ir.code)
    ensures |old(stack.stack)| >= 3 ==>
      var n := |old(stack.stack)|;
      && o == Pass
      && stack.stack == old(stack.stack)[..n - 3] && stack.phi == old(stack.phi)[..n - 3]
      && ir.code == old(ir.code) +
           ElementStoreCode(builder.block, old(stack.stack)[n - 3], old(stack.stack)[n - 2], old(stack.stack)[n - 1])
  {
    var popped := PopTwo(stack);
    if popped.Failure? {
      return Fail(popped.error);
    }
    var (index, value) := popped.value;
    var arr := stack.Pop();
    if arr.Failure? {
      return Fail(arr.error);
    }
    var destType := Pointer(value.ty);
    var arrayValue := arr.value.value;
    if destType != arr.value.ty {
      arrayValue := PointerCast(arrayValue, destType);
      ir.Append(Def(builder.block, arrayValue));
    }
    var ptr := Gep(arrayValue, [index.value], false);
    ir.Append(Def(builder.block, ptr));
    ir.Append(Store(builder.block, value.value, ptr, false));
    return Pass;
  }
}
