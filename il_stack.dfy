/**
 * Stack/ILStack.cs: the abstract evaluation stack of a basic block. Every slot has a counter of
 * how many predecessor blocks have supplied it; Update merges a predecessor's stack into this
 * one, building phi nodes where several predecessors meet.
 */
module ILStacks {
  import opened Wrappers
  import opened Ir
  import opened StackElements
  import opened StackMachine

  class ILStack {
    var stack: seq<StackElement>
    var phi: seq<nat>
    var oldBlock: Block

    /** The state Update reads and changes, with the builder's position and the IR module. */
    function State(builder: Builder, ir: IrModule): Machine
      reads this, builder, ir
    {
      Machine(stack, phi, oldBlock, builder.block, ir.code, ir.nextId)
    }

    predicate Valid()
      reads this
    {
      |stack| == |phi|
    }

    constructor ()
      ensures stack == [] && phi == [] && oldBlock == NoBlock
    {
      stack := [];
      phi := [];
      oldBlock := NoBlock;
    }

    /** The indexer: the element of a slot; out of range is an ArgumentOutOfRangeException. */
    function At(index: int): (r: Result<StackElement>)
      reads this
      ensures r.Success? <==> 0 <= index < |stack|
      ensures r.Success? ==> r.value == stack[index]
      ensures r.Failure? ==> r.error == ArgumentOutOfRange
    {
      if 0 <= index < |stack| then Success(stack[index]) else Failure(ArgumentOutOfRange)
    }

    function Count(): (n: nat)
      reads this
      ensures n == |stack|
    {
      |stack|
    }

    method Clear()
      modifies this`stack, this`phi
      ensures stack == [] && phi == [] && Valid()
    {
      stack := [];
      phi := [];
    }

    method InsertAtStart(element: StackElement)
      modifies this`stack, this`phi
      ensures stack == [element] + old(stack) && phi == [0] + old(phi)
      ensures old(Valid()) ==> Valid()
    {
      stack := [element] + stack;
      phi := [0] + phi;
    }

    /**
     * Removes the top slot and returns its element. On an empty stack the removal from the
     * counter list throws before anything changes.
     */
    method Pop() returns (r: Result<StackElement>)
      requires Valid()
      modifies this`stack, this`phi
      ensures old(stack) == [] ==> r == Failure(ArgumentOutOfRange) && stack == [] && phi == old(phi)
      ensures old(stack) != [] ==>
        r == Success(old(stack)[|old(stack)| - 1])
        && stack == old(stack)[..|old(stack)| - 1] && phi == old(phi)[..|old(phi)| - 1]
      ensures Valid()
    {
      if |phi| == 0 {
        return Failure(ArgumentOutOfRange);
      }
      phi := phi[..|phi| - 1];
      var a := stack[|stack| - 1];
      stack := stack[..|stack| - 1];
      return Success(a);
    }

    /** The top element; an empty stack is an ArgumentOutOfRangeException. */
    function Peek(): (r: Result<StackElement>)
      reads this
      ensures r.Success? <==> stack != []
      ensures r.Success? ==> r.value == stack[|stack| - 1]
    {
      At(|stack| - 1)
    }

    method Push(element: StackElement)
      modifies this`stack, this`phi
      ensures stack == old(stack) + [element] && phi == old(phi) + [0]
      ensures old(Valid()) ==> Valid()
    {
      phi := phi + [0];
      stack := stack + [element];
    }

    /** Push(ValueRef): pushes a new element for the value. */
    method PushValue(value: Value)
      modifies this`stack, this`phi
      ensures stack == old(stack) + [FromValueOnly(value)] && phi == old(phi) + [0]
      ensures old(Valid()) ==> Valid()
    {
      Push(FromValueOnly(value));
    }

    /**
     * Update as written (ILStack.cs lines 92-169). A source stack that is this stack itself
     * would grow while it is copied, so it is excluded.
     */
    method Update(builder: Builder, srcStack: ILStack, oldBlock: Block, newBlock: Block, refers: int, ir: IrModule)
      requires srcStack != this && Valid()
      modifies this, builder, ir`code, ir`nextId
      ensures State(builder, ir) == StackMachine.Update(old(State(builder, ir)), srcStack.stack, oldBlock, newBlock, refers)
      ensures Valid()
    {
      ghost var s0 := State(builder, ir);
      var src := srcStack.stack;
      if refers <= 1 {
        PushAll(builder, src, ir);
      } else {
        var difference := 0;
        if |stack| > 0 && |src| > |stack| {
          difference := |src| - |stack|;
        }
        InsertIndependent(builder, src, difference, ir);
        ghost var s1 := State(builder, ir);
        assert s1 == InsertValues(s0, src, Difference(|s0.stack|, |src|));
        MergeDependent(builder, src, difference, oldBlock, newBlock, ir);
      }
    }

    /** The single-reference branch: every source value pushed in order. */
    method PushAll(builder: Builder, src: seq<StackElement>, ir: IrModule)
      modifies this`stack, this`phi
      ensures State(builder, ir) == PushValues(old(State(builder, ir)), src, |src|)
    {
      ghost var s0 := State(builder, ir);
      var i := 0;
      while i < |src|
        invariant 0 <= i <= |src|
        invariant State(builder, ir) == PushValues(s0, src, i)
      {
        PushValue(src[i].value);
        i := i + 1;
      }
    }

    /** The independent values, each inserted at the bottom in turn. */
    method InsertIndependent(builder: Builder, src: seq<StackElement>, difference: nat, ir: IrModule)
      requires difference <= |src|
      modifies this`stack, this`phi
      ensures State(builder, ir) == InsertValues(old(State(builder, ir)), src, difference)
    {
      ghost var s0 := State(builder, ir);
      var i := 0;
      while i < difference
        invariant 0 <= i <= difference
        invariant State(builder, ir) == InsertValues(s0, src, i)
      {
        InsertAtStart(FromValueOnly(src[i].value));
        i := i + 1;
      }
    }

    /** The independent values in source order: src[difference-1] first, src[0] last. */
    method InsertIndependentFixed(builder: Builder, src: seq<StackElement>, difference: nat, ir: IrModule)
      requires difference <= |src|
      modifies this`stack, this`phi
      ensures State(builder, ir) == InsertValuesFixed(old(State(builder, ir)), src, difference)
    {
      ghost var target := InsertValuesFixed(State(builder, ir), src, difference);
      var i := difference;
      while i > 0
        invariant 0 <= i <= difference
        invariant InsertValuesFixed(State(builder, ir), src, i) == target
      {
        InsertAtStart(FromValueOnly(src[i - 1].value));
        i := i - 1;
      }
    }

    /** The dependent-values loop. */
    method MergeDependent(builder: Builder, src: seq<StackElement>, difference: nat, oldBlock: Block, newBlock: Block,
                          ir: IrModule)
      requires Valid() && difference <= |src| && difference <= |phi|
      modifies this, builder, ir`code, ir`nextId
      ensures State(builder, ir) == MergeFrom(old(State(builder, ir)), src, difference, oldBlock, newBlock)
    {
      ghost var target := MergeFrom(State(builder, ir), src, difference, oldBlock, newBlock);
      var i := difference;
      while i < |src|
        invariant difference <= i <= |src| && Valid() && i <= |phi|
        invariant MergeFrom(State(builder, ir), src, i, oldBlock, newBlock) == target
      {
        MergeStep(builder, src[i], i, oldBlock, newBlock, ir);
        i := i + 1;
      }
    }

    method MergeStep(builder: Builder, s: StackElement, i: nat, oldBlock: Block, newBlock: Block, ir: IrModule)
      requires Valid() && i <= |phi|
      modifies this, builder, ir`code, ir`nextId
      ensures State(builder, ir) == MergeSlot(old(State(builder, ir)), s, i, oldBlock, newBlock)
      ensures Valid() && i < |phi|
    {
      if |phi| <= i || phi[i] == 0 {
        PushValue(s.value);
        this.oldBlock := oldBlock;
      } else {
        var phiValue: Value;
        if phi[i] == 1 {
          phiValue := OpenPhi(builder, oldBlock, newBlock, ir);
        } else {
          phiValue := stack[i].value;
        }
        AddIncomingEdge(builder, phiValue, s, oldBlock, ir);
      }
      phi := phi[i := phi[i] + 1];
    }

    /**
     * Update corrected: the independent values keep their order, and at the second visit the phi
     * replaces the slot being merged, which keeps its counter (see the findings in README).
     */
    method UpdateFixed(builder: Builder, srcStack: ILStack, oldBlock: Block, newBlock: Block, refers: int, ir: IrModule)
      requires srcStack != this && Valid()
      modifies this, builder, ir`code, ir`nextId
      ensures State(builder, ir) == StackMachine.UpdateFixed(old(State(builder, ir)), srcStack.stack, oldBlock, newBlock, refers)
      ensures Valid()
    {
      ghost var s0 := State(builder, ir);
      var src := srcStack.stack;
      if refers <= 1 {
        PushAll(builder, src, ir);
      } else {
        var difference := 0;
        if |stack| > 0 && |src| > |stack| {
          difference := |src| - |stack|;
        }
        InsertIndependentFixed(builder, src, difference, ir);
        ghost var s1 := State(builder, ir);
        assert s1 == InsertValuesFixed(s0, src, Difference(|s0.stack|, |src|));
        MergeDependentFixed(builder, src, difference, oldBlock, newBlock, ir);
      }
    }

    method MergeDependentFixed(builder: Builder, src: seq<StackElement>, difference: nat, oldBlock: Block, newBlock: Block,
                          ir: IrModule)
      requires Valid() && difference <= |src| && difference <= |phi|
      modifies this, builder, ir`code, ir`nextId
      ensures State(builder, ir) == MergeFromFixed(old(State(builder, ir)), src, difference, oldBlock, newBlock)
    {
      ghost var target := MergeFromFixed(State(builder, ir), src, difference, oldBlock, newBlock);
      var i := difference;
      while i < |src|
        invariant difference <= i <= |src| && Valid() && i <= |phi|
        invariant MergeFromFixed(State(builder, ir), src, i, oldBlock, newBlock) == target
      {
        MergeStepFixed(builder, src[i], i, oldBlock, newBlock, ir);
        i := i + 1;
      }
    }

    method MergeStepFixed(builder: Builder, s: StackElement, i: nat, oldBlock: Block, newBlock: Block, ir: IrModule)
      requires Valid() && i <= |phi|
      modifies this, builder, ir`code, ir`nextId
      ensures State(builder, ir) == MergeSlotFixed(old(State(builder, ir)), s, i, oldBlock, newBlock)
      ensures Valid() && i < |phi|
    {
      if |phi| <= i || phi[i] == 0 {
        PushValue(s.value);
        this.oldBlock := oldBlock;
      } else {
        var phiValue: Value;
        if phi[i] == 1 {
          phiValue := OpenPhiFixed(builder, i, oldBlock, newBlock, ir);
        } else {
          phiValue := stack[i].value;
        }
        AddIncomingEdge(builder, phiValue, s, oldBlock, ir);
      }
      phi := phi[i := phi[i] + 1];
    }

    /**
     * The second visit as written: pop the top element, build a phi of its type at the start of
     * `newBlock`, push the phi and let the popped value enter it from m_oldBlock.
     */
    method OpenPhi(builder: Builder, oldBlock: Block, newBlock: Block, ir: IrModule) returns (phiValue: Value)
      requires Valid() && |stack| > 0
      modifies this`stack, this`phi, builder, ir`code, ir`nextId
      ensures State(builder, ir) == OpenPhiAtTop(old(State(builder, ir)), oldBlock, newBlock)
      ensures phiValue == stack[|stack| - 1].value
    {
      var first := Pop();
      builder.PositionAtEnd(newBlock);
      var id := ir.Fresh();
      phiValue := Phi(id, first.value.ty);
      ir.Append(Def(newBlock, phiValue));
      builder.PositionAtEnd(oldBlock);
      PushValue(phiValue);
      ir.Append(Instr.Incoming(phiValue, first.value.value, this.oldBlock));
    }

    /** The second visit corrected: the phi takes the place of slot `i`. */
    method OpenPhiFixed(builder: Builder, i: nat, oldBlock: Block, newBlock: Block, ir: IrModule) returns (phiValue: Value)
      requires Valid() && i < |stack|
      modifies this`stack, builder, ir`code, ir`nextId
      ensures State(builder, ir) == OpenPhiAt(old(State(builder, ir)), i, oldBlock, newBlock)
      ensures phiValue == stack[i].value
    {
      var first := stack[i];
      builder.PositionAtEnd(newBlock);
      var id := ir.Fresh();
      phiValue := Phi(id, first.ty);
      ir.Append(Def(newBlock, phiValue));
      builder.PositionAtEnd(oldBlock);
      stack := stack[i := FromValueOnly(phiValue)];
      ir.Append(Instr.Incoming(phiValue, first.value, this.oldBlock));
    }

    /** Casts the source value to the phi's type if needed, then adds the edge from `oldBlock`. */
    static method AddIncomingEdge(builder: Builder, phiValue: Value, s: StackElement, oldBlock: Block, ir: IrModule)
      modifies ir`code
      ensures ir.code == EdgeCode(old(ir.code), builder.block, phiValue, s, oldBlock)
    {
      var phiType := TypeOf(phiValue);
      var newValue := s.value;
      if s.ty != phiType {
        newValue := IntCast(s.value, phiType);
        ir.Append(Def(builder.block, newValue));
      }
      ir.Append(Instr.Incoming(phiValue, newValue, oldBlock));
    }
  }
}
