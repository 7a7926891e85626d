/**
 * Helpers/CastHelper.cs: the casts that bring two stack operands to one IR type before an
 * instruction combines them. Both helpers rewrite only the `Value` field of their `ref` operands;
 * the casts they build are recorded in the IR log at the builder's position.
 */
module CastHelper {
  import opened Ir
  import opened StackElements
  import opened Metadata

  /** An element whose IR type tag is the type of its value. */
  predicate Consistent(e: StackElement) {
    TypeOf(e.value) == e.ty
  }

  /**
   * The second operand after HelpIntCast: its value is int-cast to the first operand's type when
   * the two type tags differ. Its own tag is left as it was, so it no longer describes the value.
   */
  function IntCastOperand(value1: StackElement, value2: StackElement): (r: StackElement)
    ensures r.ty == value2.ty && r.ilType == value2.ilType
    ensures Consistent(value2) ==> TypeOf(r.value) == value1.ty
    ensures Consistent(value2) ==> (Consistent(r) <==> value1.ty == value2.ty)
  {
    if value1.ty != value2.ty then value2.(value := IntCast(value2.value, value1.ty)) else value2
  }

  /** HelpIntCast: the first operand is returned untouched, the second cast to its type. */
  method HelpIntCast(builder: Builder, value1: StackElement, value2: StackElement, ir: IrModule)
    returns (r1: StackElement, r2: StackElement)
    modifies ir`code
    ensures r1 == value1 && r2 == IntCastOperand(value1, value2)
    ensures ir.code == old(ir.code) + (if value1.ty != value2.ty then [Def(builder.block, r2.value)] else [])
  {
    r1, r2 := value1, value2;
    if value1.ty != value2.ty {
      r2 := r2.(value := IntCast(value2.value, value1.ty));
      ir.Append(Def(builder.block, r2.value));
    }
  }

  /** An operand brought to the native integer type: ptrtoint for a pointer, an int cast otherwise. */
  function NativeIntValue(env: Env, e: StackElement): (r: Value)
    ensures TypeOf(r) == env.nativeInt
    ensures r.PtrToInt? <==> env.isPointer(e)
    ensures (r.PtrToInt? && r.v == e.value) || (r.IntCast? && r.v == e.value)
  {
    if env.isPointer(e) then PtrToInt(e.value, env.nativeInt) else IntCast(e.value, env.nativeInt)
  }

  /**
   * HelpPossiblePtrCast: both operands are always converted to the native integer type, and the
   * flags say which of them were pointers before the conversion.
   */
  method HelpPossiblePtrCast(env: Env, builder: Builder, value1: StackElement, value2: StackElement, ir: IrModule)
    returns (r1: StackElement, r2: StackElement, isPtrVal1: bool, isPtrVal2: bool)
    modifies ir`code
    ensures isPtrVal1 == env.isPointer(value1) && isPtrVal2 == env.isPointer(value2)
    ensures r1 == value1.(value := NativeIntValue(env, value1))
    ensures r2 == value2.(value := NativeIntValue(env, value2))
    ensures ir.code == old(ir.code) + [Def(builder.block, r1.value), Def(builder.block, r2.value)]
  {
    isPtrVal1 := env.isPointer(value1);
    isPtrVal2 := env.isPointer(value2);
    r1, r2 := value1, value2;
    if isPtrVal1 {
      r1 := r1.(value := PtrToInt(value1.value, env.nativeInt));
    } else {
      r1 := r1.(value := IntCast(value1.value, env.nativeInt));
    }
    ir.Append(Def(builder.block, r1.value));
    if isPtrVal2 {
      r2 := r2.(value := PtrToInt(value2.value, env.nativeInt));
    } else {
      r2 := r2.(value := IntCast(value2.value, env.nativeInt));
    }
    ir.Append(Def(builder.block, r2.value));
  }

  /** After HelpPossiblePtrCast the two values have one IR type, whatever the operands were. */
  lemma PossiblePtrCastAgrees(env: Env, value1: StackElement, value2: StackElement)
    ensures TypeOf(NativeIntValue(env, value1)) == TypeOf(NativeIntValue(env, value2))
  {
  }
}
