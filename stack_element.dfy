/**
 * A value on the abstract evaluation stack: the IR value, its IL type tag and its IR type tag
 * (Stack/StackElement.cs). A plain value: its constructors only assign the three fields.
 */
module StackElements {
  import opened Ir

  datatype StackElement = StackElement(ty: IrType, ilType: ILType, value: Value)

  /** The two-argument constructor: the IR type is read off the value. */
  function FromValue(value: Value, ilType: ILType): StackElement {
    StackElement(TypeOf(value), ilType, value)
  }

  /** The three-argument constructor: all three fields as given. */
  function Make(value: Value, ilType: ILType, ty: IrType): StackElement {
    StackElement(ty, ilType, value)
  }

  /** The copy constructor. */
  function Copy(other: StackElement): StackElement {
    StackElement(other.ty, other.ilType, other.value)
  }

  /**
   * The one-argument constructor that ILStack.Push(ValueRef) relies on. StackElement.cs declares
   * none; this model gives it the IR type of the value and the IL type Unknown, which is not a
   * pointer (README "Left out" names the alternative).
   */
  function FromValueOnly(value: Value): StackElement {
    FromValue(value, Unknown)
  }

  /** What each constructor stores, and how the constructors relate. */
  lemma ConstructorFields(value: Value, ilType: ILType, ty: IrType, other: StackElement)
    ensures FromValue(value, ilType).value == value && FromValue(value, ilType).ilType == ilType
    ensures FromValue(value, ilType).ty == TypeOf(value)
    ensures FromValue(value, ilType) == Make(value, ilType, TypeOf(value))
    ensures Make(value, ilType, ty).value == value && Make(value, ilType, ty).ilType == ilType
    ensures Make(value, ilType, ty).ty == ty
    ensures Copy(other) == other
    ensures FromValueOnly(value) == Make(value, Unknown, TypeOf(value))
  {
  }
}
