/**
 * The state ILStack.Update works on (the stack's elements and phi counters, the block its first
 * values came from, the builder's position and the IR built so far) and what one Update does to
 * it, as written in Stack/ILStack.cs and as evidently intended.
 */
module StackMachine {
  import opened Ir
  import opened StackElements

  /**
   * `stack` and `phi` are ILStack's two lists, `oldBlock` its m_oldBlock, `at` the position of the
   * builder Update is given, `code` and `nextId` the IR module.
   */
  datatype Machine = Machine(stack: seq<StackElement>, phi: seq<nat>, oldBlock: Block, at: Block,
                             code: seq<Instr>, nextId: nat)

  /** The two lists have one entry per stack slot. */
  predicate Aligned(mc: Machine) {
    |mc.stack| == |mc.phi|
  }

  /** Push(ValueRef): a new top slot holding the value, with counter 0. */
  function PushValue(mc: Machine, v: Value): Machine {
    mc.(stack := mc.stack + [FromValueOnly(v)], phi := mc.phi + [0])
  }

  /** InsertAtStart of a new element for the value: a new bottom slot with counter 0. */
  function InsertValue(mc: Machine, v: Value): Machine {
    mc.(stack := [FromValueOnly(v)] + mc.stack, phi := [0] + mc.phi)
  }

  /** The loop of the single-reference branch: the values of src[0..n), pushed in order. */
  function PushValues(mc: Machine, src: seq<StackElement>, n: nat): (r: Machine)
    requires n <= |src|
    ensures |r.stack| == |mc.stack| + n && |r.phi| == |mc.phi| + n
  {
    if n == 0 then mc else PushValue(PushValues(mc, src, n - 1), src[n - 1].value)
  }

  /** The loop over the independent values: src[0..n) inserted at the start one after the other. */
  function InsertValues(mc: Machine, src: seq<StackElement>, n: nat): (r: Machine)
    requires n <= |src|
    ensures |r.stack| == |mc.stack| + n && |r.phi| == |mc.phi| + n
  {
    if n == 0 then mc else InsertValue(InsertValues(mc, src, n - 1), src[n - 1].value)
  }

  /** How many source values are independent: the excess of a longer source over a non-empty stack. */
  function Difference(count: nat, srcCount: nat): nat {
    if count > 0 && srcCount > count then srcCount - count else 0
  }

  /** The value that reaches a phi of type `phiType` from a source slot: int-cast when the types differ. */
  function EdgeValue(s: StackElement, phiType: IrType): Value {
    if s.ty != phiType then IntCast(s.value, phiType) else s.value
  }

  /**
   * The code for the edge from `oldBlock` into `phi` for source slot `s`: the cast, built at
   * `at`, when the types differ, then the incoming edge.
   */
  function EdgeCode(code: seq<Instr>, at: Block, phi: Value, s: StackElement, oldBlock: Block): seq<Instr> {
    var phiType := TypeOf(phi);
    if s.ty != phiType then code + [Def(at, IntCast(s.value, phiType))] + [Instr.Incoming(phi, IntCast(s.value, phiType), oldBlock)]
    else code + [Instr.Incoming(phi, s.value, oldBlock)]
  }

  /** The edge into `phi` for source slot `s`, built where the builder is. */
  function AddEdge(mc: Machine, phi: Value, s: StackElement, oldBlock: Block): Machine {
    mc.(code := EdgeCode(mc.code, mc.at, phi, s, oldBlock))
  }

  /** The counter of slot `i` goes up by one. */
  function Count(mc: Machine, i: nat): Machine
    requires i < |mc.phi|
  {
    mc.(phi := mc.phi[i := mc.phi[i] + 1])
  }

  /**
   * A slot seen for the first time: the source value is pushed (at the top, whatever `i` is),
   * m_oldBlock is recorded, and then counter `i` is counted.
   */
  function FirstVisit(mc: Machine, s: StackElement, i: nat, oldBlock: Block): (r: Machine)
    requires Aligned(mc) && i <= |mc.phi|
    ensures Aligned(r) && |r.phi| == |mc.phi| + 1
  {
    Count(PushValue(mc, s.value).(oldBlock := oldBlock), i)
  }

  /**
   * The second visit as written: the TOP element is popped, a phi of its type is built at the
   * start of `newBlock` and pushed (with a fresh counter 0), and the popped value enters it from
   * m_oldBlock. The builder is left at the end of `oldBlock`.
   */
  function OpenPhiAtTop(mc: Machine, oldBlock: Block, newBlock: Block): (r: Machine)
    requires Aligned(mc) && |mc.stack| > 0
    ensures Aligned(r) && |r.phi| == |mc.phi|
  {
    var first := mc.stack[|mc.stack| - 1];
    var p := Phi(mc.nextId, first.ty);
    Machine(mc.stack[..|mc.stack| - 1] + [FromValueOnly(p)], mc.phi[..|mc.phi| - 1] + [0], mc.oldBlock, oldBlock,
            mc.code + [Def(newBlock, p)] + [Instr.Incoming(p, first.value, mc.oldBlock)], mc.nextId + 1)
  }

  /** One turn of the dependent-values loop of Update, as written. */
  function MergeSlot(mc: Machine, s: StackElement, i: nat, oldBlock: Block, newBlock: Block): (r: Machine)
    requires Aligned(mc) && i <= |mc.phi|
    ensures Aligned(r) && |r.phi| >= |mc.phi| && |r.phi| > i
  {
    if |mc.phi| <= i || mc.phi[i] == 0 then FirstVisit(mc, s, i, oldBlock)
    else if mc.phi[i] == 1 then
      var m1 := OpenPhiAtTop(mc, oldBlock, newBlock);
      Count(AddEdge(m1, m1.stack[|m1.stack| - 1].value, s, oldBlock), i)
    else Count(AddEdge(mc, mc.stack[i].value, s, oldBlock), i)
  }

  /** The dependent-values loop of Update from slot i to the top of the source, as written. */
  function MergeFrom(mc: Machine, src: seq<StackElement>, i: nat, oldBlock: Block, newBlock: Block): (r: Machine)
    requires i <= |src| && Aligned(mc) && i <= |mc.phi|
    ensures Aligned(r)
    decreases |src| - i
  {
    if i == |src| then mc
    else MergeFrom(MergeSlot(mc, src[i], i, oldBlock, newBlock), src, i + 1, oldBlock, newBlock)
  }

  /**
   * ILStack.Update as written: with at most one reference the source values are pushed;
   * otherwise the independent values are inserted at the bottom and every other slot merged.
   */
  function Update(mc: Machine, src: seq<StackElement>, oldBlock: Block, newBlock: Block, refers: int): (r: Machine)
    requires Aligned(mc)
    ensures Aligned(r)
  {
    if refers <= 1 then PushValues(mc, src, |src|)
    else
      var d := Difference(|mc.stack|, |src|);
      MergeFrom(InsertValues(mc, src, d), src, d, oldBlock, newBlock)
  }

  /**
   * The second visit as evidently intended: the phi replaces the element of slot `i` itself,
   * and that slot keeps its counter.
   */
  function OpenPhiAt(mc: Machine, i: nat, oldBlock: Block, newBlock: Block): (r: Machine)
    requires Aligned(mc) && i < |mc.stack|
    ensures Aligned(r) && |r.phi| == |mc.phi|
  {
    var first := mc.stack[i];
    var p := Phi(mc.nextId, first.ty);
    Machine(mc.stack[i := FromValueOnly(p)], mc.phi, mc.oldBlock, oldBlock,
            mc.code + [Def(newBlock, p)] + [Instr.Incoming(p, first.value, mc.oldBlock)], mc.nextId + 1)
  }

  /** One turn of the dependent-values loop with the second visit corrected. */
  function MergeSlotFixed(mc: Machine, s: StackElement, i: nat, oldBlock: Block, newBlock: Block): (r: Machine)
    requires Aligned(mc) && i <= |mc.phi|
    ensures Aligned(r) && |r.phi| >= |mc.phi| && |r.phi| > i
  {
    if |mc.phi| <= i || mc.phi[i] == 0 then FirstVisit(mc, s, i, oldBlock)
    else if mc.phi[i] == 1 then
      var m1 := OpenPhiAt(mc, i, oldBlock, newBlock);
      Count(AddEdge(m1, m1.stack[i].value, s, oldBlock), i)
    else Count(AddEdge(mc, mc.stack[i].value, s, oldBlock), i)
  }

  function MergeFromFixed(mc: Machine, src: seq<StackElement>, i: nat, oldBlock: Block, newBlock: Block): (r: Machine)
    requires i <= |src| && Aligned(mc) && i <= |mc.phi|
    ensures Aligned(r)
    decreases |src| - i
  {
    if i == |src| then mc
    else MergeFromFixed(MergeSlotFixed(mc, src[i], i, oldBlock, newBlock), src, i + 1, oldBlock, newBlock)
  }

  /**
   * The independent values as evidently intended: src[0..n) at the bottom in their own order, so
   * that slot k of the merged stack holds source slot k. Inserting src[n-1] first and src[0] last
   * achieves it.
   */
  function InsertValuesFixed(mc: Machine, src: seq<StackElement>, n: nat): (r: Machine)
    requires n <= |src|
    ensures |r.stack| == |mc.stack| + n && |r.phi| == |mc.phi| + n
    decreases n
  {
    if n == 0 then mc else InsertValuesFixed(InsertValue(mc, src[n - 1].value), src, n - 1)
  }

  /** ILStack.Update with the independent values kept in order and the second visit corrected. */
  function UpdateFixed(mc: Machine, src: seq<StackElement>, oldBlock: Block, newBlock: Block, refers: int): (r: Machine)
    requires Aligned(mc)
    ensures Aligned(r)
  {
    if refers <= 1 then PushValues(mc, src, |src|)
    else
      var d := Difference(|mc.stack|, |src|);
      MergeFromFixed(InsertValuesFixed(mc, src, d), src, d, oldBlock, newBlock)
  }
}
