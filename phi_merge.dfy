/**
 * What ILStack.Update builds when several predecessor blocks flow into one block: the stack a
 * block starts with, the phi nodes at its head and their incoming edges. As written, the second
 * visit of a slot replaces the top of the stack instead of the slot, and the independent values
 * come out in reverse order; the corrected Update gives every slot one phi with exactly one edge
 * per predecessor.
 */
module PhiMerge {
  import opened Ir
  import opened StackElements
  import opened StackMachine

  /** An incoming edge of a phi: the value that arrives and the block it arrives from. */
  datatype Edge = Edge(value: Value, from: Block)

  /** The edges an instruction adds to phi `p`. */
  function EdgeOf(instr: Instr, p: Value): seq<Edge> {
    if instr.Incoming? && instr.phi == p then [Edge(instr.v, instr.from)] else []
  }

  /** The incoming edges of `p` recorded in `code`, in the order they were added. */
  function Edges(code: seq<Instr>, p: Value): seq<Edge>
    decreases |code|
  {
    if code == [] then [] else Edges(code[..|code| - 1], p) + EdgeOf(code[|code| - 1], p)
  }

  lemma EdgesSnoc(code: seq<Instr>, instr: Instr, p: Value)
    ensures Edges(code + [instr], p) == Edges(code, p) + EdgeOf(instr, p)
  {
    assert (code + [instr])[..|code|] == code;
  }

  lemma EdgesOfThree(x: Instr, y: Instr, z: Instr, p: Value)
    ensures Edges([x, y, z], p) == EdgeOf(x, p) + EdgeOf(y, p) + EdgeOf(z, p)
  {
    EdgesSnoc([], x, p);
    assert [] + [x] == [x];
    EdgesSnoc([x], y, p);
    assert [x] + [y] == [x, y];
    EdgesSnoc([x, y], z, p);
    assert [x, y] + [z] == [x, y, z];
  }

  /** Every incoming edge recorded so far goes into a phi whose identity is below `n`. */
  predicate EdgesBelow(code: seq<Instr>, n: nat) {
    forall k :: 0 <= k < |code| && code[k].Incoming? && code[k].phi.Phi? ==> code[k].phi.id < n
  }

  /** A phi that is not built yet has no incoming edges. */
  lemma {:induction false} NoEdgesAbove(code: seq<Instr>, n: nat, id: nat, ty: IrType)
    requires EdgesBelow(code, n) && n <= id
    ensures Edges(code, Phi(id, ty)) == []
    decreases |code|
  {
    if code != [] {
      var init := code[..|code| - 1];
      assert EdgesBelow(init, n) by {
        forall k | 0 <= k < |init| && init[k].Incoming? && init[k].phi.Phi?
          ensures init[k].phi.id < n
        {
          assert init[k] == code[k];
        }
      }
      NoEdgesAbove(init, n, id, ty);
    }
  }

  lemma EdgesBelowSnoc(code: seq<Instr>, instr: Instr, n: nat)
    requires EdgesBelow(code, n)
    requires instr.Incoming? && instr.phi.Phi? ==> instr.phi.id < n
    ensures EdgesBelow(code + [instr], n)
  {
    var c := code + [instr];
    forall k | 0 <= k < |c| && c[k].Incoming? && c[k].phi.Phi?
      ensures c[k].phi.id < n
    {
      if k < |code| {
        assert c[k] == code[k];
      }
    }
  }

  /** A block's stack before any predecessor has been merged into it. */
  function Fresh(code: seq<Instr>, nextId: nat): Machine {
    Machine([], [], NoBlock, NoBlock, code, nextId)
  }

  /** Source values for the examples below: four 32-bit values made elsewhere. */
  function V(k: nat): Value {
    Handle(k, Int32)
  }

  /** The first predecessor of the two-slot example, from Block(1). */
  function PredA(): seq<StackElement> {
    [FromValueOnly(V(0)), FromValueOnly(V(1))]
  }

  /** The second predecessor of the two-slot example, from Block(2). */
  function PredB(): seq<StackElement> {
    [FromValueOnly(V(2)), FromValueOnly(V(3))]
  }

  /** The block after the first predecessor: its two values, each seen once. */
  function AfterA(): Machine {
    Machine(PredA(), [1, 1], Block(1), NoBlock, [], 0)
  }

  lemma FirstPredecessor()
    ensures Update(Fresh([], 0), PredA(), Block(1), Block(3), 2) == AfterA()
  {
    var m0 := Fresh([], 0);
    var s1 := MergeSlot(m0, PredA()[0], 0, Block(1), Block(3));
    assert s1 == Machine([PredA()[0]], [1], Block(1), NoBlock, [], 0);
    assert MergeSlot(s1, PredA()[1], 1, Block(1), Block(3)) == AfterA();
  }

  /** After slot 0 of the second predecessor, as written: the TOP slot became the phi. */
  function AfterB0(): Machine {
    var p := Phi(0, Int32);
    Machine([FromValueOnly(V(0)), FromValueOnly(p)], [2, 0], Block(1), Block(2),
            [Def(Block(3), p), Instr.Incoming(p, V(1), Block(1)), Instr.Incoming(p, V(2), Block(2))], 1)
  }

  lemma SecondPredecessorSlot0()
    ensures MergeSlot(AfterA(), PredB()[0], 0, Block(2), Block(3)) == AfterB0()
  {
    var p := Phi(0, Int32);
    var o := OpenPhiAtTop(AfterA(), Block(2), Block(3));
    assert o == Machine([FromValueOnly(V(0)), FromValueOnly(p)], [1, 0], Block(1), Block(2),
                        [Def(Block(3), p), Instr.Incoming(p, V(1), Block(1))], 1);
  }

  /** After both slots of the second predecessor, as written. */
  function AfterB(): Machine {
    AfterB0().(stack := AfterB0().stack + [FromValueOnly(V(3))], phi := [2, 1, 0], oldBlock := Block(2))
  }

  lemma SecondPredecessor()
    ensures Update(AfterA(), PredB(), Block(2), Block(3), 2) == AfterB()
  {
    SecondPredecessorSlot0();
    assert MergeSlot(AfterB0(), PredB()[1], 1, Block(2), Block(3)) == AfterB();
  }

  /**
   * As written, two predecessors with two values each leave the block with THREE slots: the
   * first value of the first predecessor, a phi merging its second value with the second
   * predecessor's first value, and the second predecessor's second value.
   */
  lemma TwoSlotsAsWritten()
    ensures
      var m := Update(Update(Fresh([], 0), PredA(), Block(1), Block(3), 2), PredB(), Block(2), Block(3), 2);
      m.stack == [FromValueOnly(V(0)), FromValueOnly(Phi(0, Int32)), FromValueOnly(V(3))]
      && m.phi == [2, 1, 0]
      && Edges(m.code, Phi(0, Int32)) == [Edge(V(1), Block(1)), Edge(V(2), Block(2))]
  {
    FirstPredecessor();
    SecondPredecessor();
    AfterBShape();
  }

  /** The state AfterB() stands for, slot by slot, with the phi's edges read off its code. */
  lemma AfterBShape()
    ensures AfterB().stack == [FromValueOnly(V(0)), FromValueOnly(Phi(0, Int32)), FromValueOnly(V(3))]
    ensures AfterB().phi == [2, 1, 0]
    ensures Edges(AfterB().code, Phi(0, Int32)) == [Edge(V(1), Block(1)), Edge(V(2), Block(2))]
  {
    var c := AfterB().code;
    EdgesOfThree(c[0], c[1], c[2], Phi(0, Int32));
    assert [c[0], c[1], c[2]] == c;
  }

  /**
   * As written, with one value and three predecessors: the second visit leaves the counter at 1
   * (the pushed phi gets a fresh counter 0 before the increment), so the third predecessor wraps
   * the first phi in a second one, whose edges are the first phi from Block(1) and the third
   * value; the second predecessor's value reaches only the first phi.
   */
  lemma ThreePredecessorsAsWritten()
    ensures
      var m1 := Update(Fresh([], 0), [FromValueOnly(V(0))], Block(1), Block(3), 3);
      var m2 := Update(m1, [FromValueOnly(V(1))], Block(2), Block(3), 3);
      var m := Update(m2, [FromValueOnly(V(2))], Block(4), Block(3), 3);
      m2.phi == [1]
      && m.stack == [FromValueOnly(Phi(1, Int32))] && m.phi == [1]
      && Edges(m.code, Phi(1, Int32)) == [Edge(Phi(0, Int32), Block(1)), Edge(V(2), Block(4))]
  {
    OnePredecessorOneSlot();
    SecondVisitOneSlot();
    ThirdVisitOneSlot();
    ThirdVisitEdges();
  }

  /** The code of the second visit: the first phi and its two edges. */
  function SecondVisitCode(): seq<Instr> {
    var p1 := Phi(0, Int32);
    [Def(Block(3), p1), Instr.Incoming(p1, V(0), Block(1)), Instr.Incoming(p1, V(1), Block(2))]
  }

  lemma ThirdVisitEdges()
    ensures
      var p1 := Phi(0, Int32);
      var p2 := Phi(1, Int32);
      Edges(SecondVisitCode() + [Def(Block(3), p2)] + [Instr.Incoming(p2, p1, Block(1))] + [Instr.Incoming(p2, V(2), Block(4))], p2)
      == [Edge(p1, Block(1)), Edge(V(2), Block(4))]
  {
    var p1 := Phi(0, Int32);
    var p2 := Phi(1, Int32);
    var c := SecondVisitCode();
    EdgesOfThree(c[0], c[1], c[2], p2);
    assert [c[0], c[1], c[2]] == c;
    EdgesSnoc(c, Def(Block(3), p2), p2);
    EdgesSnoc(c + [Def(Block(3), p2)], Instr.Incoming(p2, p1, Block(1)), p2);
    EdgesSnoc(c + [Def(Block(3), p2)] + [Instr.Incoming(p2, p1, Block(1))], Instr.Incoming(p2, V(2), Block(4)), p2);
  }

  lemma OnePredecessorOneSlot()
    ensures Update(Fresh([], 0), [FromValueOnly(V(0))], Block(1), Block(3), 3)
         == Machine([FromValueOnly(V(0))], [1], Block(1), NoBlock, [], 0)
  {
    assert MergeSlot(Fresh([], 0), FromValueOnly(V(0)), 0, Block(1), Block(3))
        == Machine([FromValueOnly(V(0))], [1], Block(1), NoBlock, [], 0);
  }

  lemma SecondVisitOneSlot()
    ensures
      var p1 := Phi(0, Int32);
      Update(Machine([FromValueOnly(V(0))], [1], Block(1), NoBlock, [], 0), [FromValueOnly(V(1))], Block(2), Block(3), 3)
      == Machine([FromValueOnly(p1)], [1], Block(1), Block(2), SecondVisitCode(), 1)
  {
    var p1 := Phi(0, Int32);
    var mc := Machine([FromValueOnly(V(0))], [1], Block(1), NoBlock, [], 0);
    assert OpenPhiAtTop(mc, Block(2), Block(3)) == Machine([FromValueOnly(p1)], [0], Block(1), Block(2),
                 [Def(Block(3), p1), Instr.Incoming(p1, V(0), Block(1))], 1);
    assert MergeSlot(mc, FromValueOnly(V(1)), 0, Block(2), Block(3)) == Machine([FromValueOnly(p1)], [1], Block(1), Block(2),
                 SecondVisitCode(), 1);
  }

  lemma ThirdVisitOneSlot()
    ensures
      var p1 := Phi(0, Int32);
      var p2 := Phi(1, Int32);
      var code := SecondVisitCode();
      Update(Machine([FromValueOnly(p1)], [1], Block(1), Block(2), code, 1), [FromValueOnly(V(2))], Block(4), Block(3), 3)
      == Machine([FromValueOnly(p2)], [1], Block(1), Block(4),
                 code + [Def(Block(3), p2)] + [Instr.Incoming(p2, p1, Block(1))] + [Instr.Incoming(p2, V(2), Block(4))], 2)
  {
    var p1 := Phi(0, Int32);
    var p2 := Phi(1, Int32);
    var code := SecondVisitCode();
    var mc := Machine([FromValueOnly(p1)], [1], Block(1), Block(2), code, 1);
    assert OpenPhiAtTop(mc, Block(4), Block(3)) == Machine([FromValueOnly(p2)], [0], Block(1), Block(4),
                 code + [Def(Block(3), p2)] + [Instr.Incoming(p2, p1, Block(1))], 2);
  }

  /** A predecessor block: the stack it ends with and its own block. */
  datatype Pred = Pred(src: seq<StackElement>, from: Block)

  /** Every predecessor ends with `h` values, as verifiable IL requires at a join. */
  predicate Uniform(preds: seq<Pred>, h: nat) {
    forall j :: 0 <= j < |preds| ==> |preds[j].src| == h
  }

  /**
   * The edges slot `i`'s phi of type `ty` should have: the first predecessor's value as it is,
   * then every later predecessor's value, cast to `ty` where its type differs, each from its block.
   */
  function EdgeList(preds: seq<Pred>, h: nat, i: nat, ty: IrType): seq<Edge>
    requires 1 <= |preds| && Uniform(preds, h) && i < h
    decreases |preds|
  {
    if |preds| == 1 then [Edge(preds[0].src[i].value, preds[0].from)]
    else
      var last := preds[|preds| - 1];
      EdgeList(preds[..|preds| - 1], h, i, ty) + [Edge(EdgeValue(last.src[i], ty), last.from)]
  }

  /**
   * Slot `i` after merging `preds`: counted once per predecessor; with one predecessor, its
   * value; with more, a phi of the first value's type, built already, with the expected edges.
   */
  predicate SlotMerged(mc: Machine, preds: seq<Pred>, h: nat, i: nat)
    requires 1 <= |preds| && Uniform(preds, h) && i < h && i < |mc.stack| && i < |mc.phi|
  {
    mc.phi[i] == |preds|
    && if |preds| == 1 then mc.stack[i] == FromValueOnly(preds[0].src[i].value)
       else
         var p := mc.stack[i].value;
         var ty := TypeOf(preds[0].src[i].value);
         p.Phi? && p.ty == ty && p.id < mc.nextId && mc.stack[i] == FromValueOnly(p)
         && Edges(mc.code, p) == EdgeList(preds, h, i, ty)
  }

  /** Slots seen twice or more hold phis with pairwise different identities. */
  predicate DistinctPhis(mc: Machine) {
    forall i, j ::
      (0 <= i < j < |mc.stack| && j < |mc.phi| && mc.phi[i] >= 2 && mc.phi[j] >= 2
       && mc.stack[i].value.Phi? && mc.stack[j].value.Phi?) ==> mc.stack[i].value.id != mc.stack[j].value.id
  }

  /** What holds of the block's stack whatever has been merged so far. */
  predicate Sound(mc: Machine, h: nat) {
    |mc.stack| == h && |mc.phi| == h && EdgesBelow(mc.code, mc.nextId) && DistinctPhis(mc)
  }

  /** The block's stack after merging every predecessor in `preds`, in order. */
  predicate Merged(mc: Machine, preds: seq<Pred>, h: nat) {
    1 <= |preds| && Uniform(preds, h) && Sound(mc, h)
    && (h > 0 ==> mc.oldBlock == preds[0].from)
    && forall i :: 0 <= i < h ==> SlotMerged(mc, preds, h, i)
  }

  /** Half way through merging predecessor `p`: slots below `i` have it, the others not yet. */
  predicate Merging(mc: Machine, preds: seq<Pred>, p: Pred, h: nat, i: nat) {
    1 <= |preds| && Uniform(preds, h) && |p.src| == h && Uniform(preds + [p], h) && Sound(mc, h)
    && (h > 0 ==> mc.oldBlock == preds[0].from)
    && (forall j :: 0 <= j < i && j < h ==> SlotMerged(mc, preds + [p], h, j))
    && (forall j :: i <= j < h ==> SlotMerged(mc, preds, h, j))
  }

  /** The edge code of one merge adds exactly one edge, into `p`, carrying the (cast) source value. */
  lemma EdgeCodeEdges(code: seq<Instr>, at: Block, p: Value, s: StackElement, from: Block, q: Value)
    ensures Edges(EdgeCode(code, at, p, s, from), q)
         == Edges(code, q) + (if q == p then [Edge(EdgeValue(s, TypeOf(p)), from)] else [])
  {
    var ty := TypeOf(p);
    var edge := Instr.Incoming(p, EdgeValue(s, ty), from);
    assert EdgeOf(edge, q) == (if q == p then [Edge(EdgeValue(s, ty), from)] else []);
    if s.ty != ty {
      var cast := Def(at, IntCast(s.value, ty));
      assert EdgeCode(code, at, p, s, from) == (code + [cast]) + [edge];
      EdgesSnoc(code, cast, q);
      assert Edges(code + [cast], q) == Edges(code, q);
      EdgesSnoc(code + [cast], edge, q);
    } else {
      assert EdgeCode(code, at, p, s, from) == code + [edge];
      EdgesSnoc(code, edge, q);
    }
  }

  lemma EdgeCodeBelow(code: seq<Instr>, at: Block, p: Value, s: StackElement, from: Block, n: nat)
    requires EdgesBelow(code, n) && p.Phi? && p.id < n
    ensures EdgesBelow(EdgeCode(code, at, p, s, from), n)
  {
    var ty := TypeOf(p);
    if s.ty != ty {
      EdgesBelowSnoc(code, Def(at, IntCast(s.value, ty)), n);
      EdgesBelowSnoc(code + [Def(at, IntCast(s.value, ty))], Instr.Incoming(p, IntCast(s.value, ty), from), n);
    } else {
      EdgesBelowSnoc(code, Instr.Incoming(p, s.value, from), n);
    }
  }

  /** The edge list of one more predecessor extends the edge list by that predecessor's edge. */
  lemma EdgeListSnoc(preds: seq<Pred>, p: Pred, h: nat, i: nat, ty: IrType)
    requires 1 <= |preds| && Uniform(preds, h) && |p.src| == h && Uniform(preds + [p], h) && i < h
    ensures EdgeList(preds + [p], h, i, ty) == EdgeList(preds, h, i, ty) + [Edge(EdgeValue(p.src[i], ty), p.from)]
  {
    assert (preds + [p])[..|preds|] == preds;
  }

  /** A slot whose element and counter stay, and whose phi (if any) keeps its edges, stays merged. */
  lemma SlotKept(mc: Machine, m2: Machine, preds: seq<Pred>, h: nat, j: nat)
    requires 1 <= |preds| && Uniform(preds, h) && j < h && j < |mc.stack| && j < |mc.phi| && j < |m2.stack| && j < |m2.phi|
    requires SlotMerged(mc, preds, h, j)
    requires m2.stack[j] == mc.stack[j] && m2.phi[j] == mc.phi[j] && mc.nextId <= m2.nextId
    requires |preds| >= 2 ==> Edges(m2.code, mc.stack[j].value) == Edges(mc.code, mc.stack[j].value)
    ensures SlotMerged(m2, preds, h, j)
  {
  }

  /**
   * Merging slot `i` into `r` leaves every other slot as it was: same element, same counter and,
   * for a phi, the same edges.
   */
  lemma OthersKept(mc: Machine, r: Machine, preds: seq<Pred>, p: Pred, h: nat, i: nat)
    requires Merging(mc, preds, p, h, i) && i < h && |r.stack| == h && |r.phi| == h && mc.nextId <= r.nextId
    requires forall j :: 0 <= j < h && j != i ==> r.stack[j] == mc.stack[j] && r.phi[j] == mc.phi[j]
    requires forall j :: 0 <= j < h && j != i && mc.phi[j] >= 2 ==>
      Edges(r.code, mc.stack[j].value) == Edges(mc.code, mc.stack[j].value)
    ensures forall j :: 0 <= j < i ==> SlotMerged(r, preds + [p], h, j)
    ensures forall j :: i < j < h ==> SlotMerged(r, preds, h, j)
  {
    forall j | 0 <= j < i
      ensures SlotMerged(r, preds + [p], h, j)
    {
      SlotKept(mc, r, preds + [p], h, j);
    }
    forall j | i < j < h
      ensures SlotMerged(r, preds, h, j)
    {
      SlotKept(mc, r, preds, h, j);
    }
  }

  /** One more edge into the phi of slot `i` keeps the other slots and the soundness of the stack. */
  lemma ExtendSlotOthers(mc: Machine, preds: seq<Pred>, p: Pred, h: nat, i: nat, newBlock: Block)
    requires Merging(mc, preds, p, h, i) && i < h && 2 <= |preds|
    ensures
      var r := MergeSlotFixed(mc, p.src[i], i, p.from, newBlock);
      Sound(r, h)
      && (forall j :: 0 <= j < i ==> SlotMerged(r, preds + [p], h, j))
      && (forall j :: i < j < h ==> SlotMerged(r, preds, h, j))
  {
    assert SlotMerged(mc, preds, h, i);
    var q := mc.stack[i].value;
    var r := Count(AddEdge(mc, q, p.src[i], p.from), i);
    assert MergeSlotFixed(mc, p.src[i], i, p.from, newBlock) == r;
    EdgeCodeBelow(mc.code, mc.at, q, p.src[i], p.from, mc.nextId);
    assert DistinctPhis(r);
    forall j | 0 <= j < h && j != i && mc.phi[j] >= 2
      ensures Edges(r.code, mc.stack[j].value) == Edges(mc.code, mc.stack[j].value)
    {
      assert SlotMerged(mc, if j < i then preds + [p] else preds, h, j);
      EdgeCodeEdges(mc.code, mc.at, q, p.src[i], p.from, mc.stack[j].value);
    }
    OthersKept(mc, r, preds, p, h, i);
  }

  /** A slot seen twice or more takes one more edge into its phi. */
  lemma ExtendSlot(mc: Machine, preds: seq<Pred>, p: Pred, h: nat, i: nat, newBlock: Block)
    requires Merging(mc, preds, p, h, i) && i < h && 2 <= |preds|
    ensures Merging(MergeSlotFixed(mc, p.src[i], i, p.from, newBlock), preds, p, h, i + 1)
  {
    assert SlotMerged(mc, preds, h, i);
    var q := mc.stack[i].value;
    var r := Count(AddEdge(mc, q, p.src[i], p.from), i);
    assert MergeSlotFixed(mc, p.src[i], i, p.from, newBlock) == r;
    ExtendSlotOthers(mc, preds, p, h, i, newBlock);
    EdgeCodeEdges(mc.code, mc.at, q, p.src[i], p.from, q);
    EdgeListSnoc(preds, p, h, i, TypeOf(preds[0].src[i].value));
    assert (preds + [p])[0] == preds[0];
    assert SlotMerged(r, preds + [p], h, i);
  }

  /** Building the phi of slot `i` adds its first edge, from the block the slot's value came from. */
  lemma OpenPhiEdges(mc: Machine, i: nat, oldBlock: Block, newBlock: Block, q: Value)
    requires Aligned(mc) && i < |mc.stack|
    ensures
      var r := OpenPhiAt(mc, i, oldBlock, newBlock);
      Edges(r.code, q) == Edges(mc.code, q) + (if q == r.stack[i].value then [Edge(mc.stack[i].value, mc.oldBlock)] else [])
  {
    var r := OpenPhiAt(mc, i, oldBlock, newBlock);
    var p := r.stack[i].value;
    EdgesSnoc(mc.code, Def(newBlock, p), q);
    EdgesSnoc(mc.code + [Def(newBlock, p)], Instr.Incoming(p, mc.stack[i].value, mc.oldBlock), q);
  }

  lemma OpenPhiBelow(mc: Machine, i: nat, oldBlock: Block, newBlock: Block)
    requires Aligned(mc) && i < |mc.stack| && EdgesBelow(mc.code, mc.nextId)
    ensures var r := OpenPhiAt(mc, i, oldBlock, newBlock); EdgesBelow(r.code, r.nextId)
  {
    var r := OpenPhiAt(mc, i, oldBlock, newBlock);
    var p := r.stack[i].value;
    assert EdgesBelow(mc.code, r.nextId);
    EdgesBelowSnoc(mc.code, Def(newBlock, p), r.nextId);
    EdgesBelowSnoc(mc.code + [Def(newBlock, p)], Instr.Incoming(p, mc.stack[i].value, mc.oldBlock), r.nextId);
  }

  /** With one predecessor merged, the slots below `i` are phis seen twice, those above seen once. */
  lemma OnceMergedCounters(mc: Machine, preds: seq<Pred>, p: Pred, h: nat, i: nat)
    requires Merging(mc, preds, p, h, i) && i < h && |preds| == 1
    ensures forall j :: 0 <= j < i ==> mc.phi[j] == 2 && mc.stack[j].value.Phi? && mc.stack[j].value.id < mc.nextId
    ensures forall j :: i <= j < h ==> mc.phi[j] == 1
  {
    forall j | 0 <= j < i
      ensures mc.phi[j] == 2 && mc.stack[j].value.Phi? && mc.stack[j].value.id < mc.nextId
    {
      assert SlotMerged(mc, preds + [p], h, j);
    }
    forall j | i <= j < h
      ensures mc.phi[j] == 1
    {
      assert SlotMerged(mc, preds, h, j);
    }
  }

  /** Opening the phi of slot `i` keeps the other slots and the soundness of the stack. */
  lemma OpenSlotOthers(mc: Machine, preds: seq<Pred>, p: Pred, h: nat, i: nat, newBlock: Block)
    requires Merging(mc, preds, p, h, i) && i < h && |preds| == 1
    ensures
      var r := MergeSlotFixed(mc, p.src[i], i, p.from, newBlock);
      Sound(r, h)
      && (forall j :: 0 <= j < i ==> SlotMerged(r, preds + [p], h, j))
      && (forall j :: i < j < h ==> SlotMerged(r, preds, h, j))
  {
    assert SlotMerged(mc, preds, h, i);
    var m1 := OpenPhiAt(mc, i, p.from, newBlock);
    var q := m1.stack[i].value;
    var r := Count(AddEdge(m1, q, p.src[i], p.from), i);
    assert MergeSlotFixed(mc, p.src[i], i, p.from, newBlock) == r;
    OpenPhiBelow(mc, i, p.from, newBlock);
    EdgeCodeBelow(m1.code, m1.at, q, p.src[i], p.from, m1.nextId);
    OnceMergedCounters(mc, preds, p, h, i);
    assert DistinctPhis(r);
    forall j | 0 <= j < i
      ensures Edges(r.code, mc.stack[j].value) == Edges(mc.code, mc.stack[j].value)
    {
      OpenPhiEdges(mc, i, p.from, newBlock, mc.stack[j].value);
      EdgeCodeEdges(m1.code, m1.at, q, p.src[i], p.from, mc.stack[j].value);
    }
    OthersKept(mc, r, preds, p, h, i);
  }

  /** A slot seen once becomes a fresh phi with the first and the new predecessor's edges. */
  lemma OpenSlot(mc: Machine, preds: seq<Pred>, p: Pred, h: nat, i: nat, newBlock: Block)
    requires Merging(mc, preds, p, h, i) && i < h && |preds| == 1
    ensures Merging(MergeSlotFixed(mc, p.src[i], i, p.from, newBlock), preds, p, h, i + 1)
  {
    assert SlotMerged(mc, preds, h, i);
    var m1 := OpenPhiAt(mc, i, p.from, newBlock);
    var q := m1.stack[i].value;
    var r := Count(AddEdge(m1, q, p.src[i], p.from), i);
    assert MergeSlotFixed(mc, p.src[i], i, p.from, newBlock) == r;
    OpenSlotOthers(mc, preds, p, h, i, newBlock);
    OpenPhiEdges(mc, i, p.from, newBlock, q);
    EdgeCodeEdges(m1.code, m1.at, q, p.src[i], p.from, q);
    NoEdgesAbove(mc.code, mc.nextId, mc.nextId, q.ty);
    EdgeListSnoc(preds, p, h, i, TypeOf(preds[0].src[i].value));
    assert (preds + [p])[0] == preds[0];
    assert SlotMerged(r, preds + [p], h, i);
  }

  /** The corrected dependent-values loop, from slot `i` on, finishes merging predecessor `p`. */
  lemma {:induction false} MergeFromFixedMerges(mc: Machine, preds: seq<Pred>, p: Pred, h: nat, i: nat, newBlock: Block)
    requires Merging(mc, preds, p, h, i) && i <= h
    ensures Merged(MergeFromFixed(mc, p.src, i, p.from, newBlock), preds + [p], h)
    decreases h - i
  {
    if i == h {
      assert (preds + [p])[0] == preds[0];
    } else {
      if |preds| == 1 {
        OpenSlot(mc, preds, p, h, i, newBlock);
      } else {
        ExtendSlot(mc, preds, p, h, i, newBlock);
      }
      MergeFromFixedMerges(MergeSlotFixed(mc, p.src[i], i, p.from, newBlock), preds, p, h, i + 1, newBlock);
    }
  }

  /**
   * Merging one more predecessor with the same stack height into a merged block, with the
   * corrected Update, keeps it merged: every slot's phi takes that predecessor's edge.
   */
  lemma UpdateFixedMerges(mc: Machine, preds: seq<Pred>, p: Pred, h: nat, newBlock: Block, refers: int)
    requires Merged(mc, preds, h) && |p.src| == h && 2 <= refers
    ensures Merged(UpdateFixed(mc, p.src, p.from, newBlock, refers), preds + [p], h)
  {
    assert Difference(h, h) == 0;
    assert InsertValuesFixed(mc, p.src, 0) == mc;
    assert Uniform(preds + [p], h);
    MergeFromFixedMerges(mc, preds, p, h, 0, newBlock);
  }

  /** The first visits of a block: slots below `i` hold the source values, seen once. */
  predicate Visited(mc: Machine, p: Pred, i: nat) {
    i <= |p.src| && |mc.stack| == i && |mc.phi| == i && EdgesBelow(mc.code, mc.nextId)
    && (i > 0 ==> mc.oldBlock == p.from)
    && forall j :: 0 <= j < i ==> mc.stack[j] == FromValueOnly(p.src[j].value) && mc.phi[j] == 1
  }

  lemma {:induction false} FirstVisitsMerge(mc: Machine, p: Pred, i: nat, newBlock: Block)
    requires Visited(mc, p, i)
    ensures Merged(MergeFromFixed(mc, p.src, i, p.from, newBlock), [p], |p.src|)
    decreases |p.src| - i
  {
    if i == |p.src| {
      forall j | 0 <= j < i
        ensures SlotMerged(mc, [p], i, j)
      {
      }
    } else {
      var r := MergeSlotFixed(mc, p.src[i], i, p.from, newBlock);
      assert r == FirstVisit(mc, p.src[i], i, p.from);
      assert Visited(r, p, i + 1);
      FirstVisitsMerge(r, p, i + 1, newBlock);
    }
  }

  /** The first predecessor merged into an empty block: its values, each seen once. */
  lemma FirstUpdateMerges(code: seq<Instr>, nextId: nat, p: Pred, newBlock: Block, refers: int)
    requires EdgesBelow(code, nextId) && 2 <= refers
    ensures Merged(UpdateFixed(Fresh(code, nextId), p.src, p.from, newBlock, refers), [p], |p.src|)
  {
    var mc := Fresh(code, nextId);
    assert Difference(0, |p.src|) == 0;
    assert InsertValuesFixed(mc, p.src, 0) == mc;
    FirstVisitsMerge(mc, p, 0, newBlock);
  }

  /** The corrected Update applied for each predecessor in turn, all jumping to `newBlock`. */
  function MergeAll(mc: Machine, preds: seq<Pred>, newBlock: Block, refers: int): (r: Machine)
    requires Aligned(mc)
    ensures Aligned(r)
    decreases |preds|
  {
    if preds == [] then mc
    else
      var last := preds[|preds| - 1];
      UpdateFixed(MergeAll(mc, preds[..|preds| - 1], newBlock, refers), last.src, last.from, newBlock, refers)
  }

  lemma {:induction false} MergeAllMerged(code: seq<Instr>, nextId: nat, preds: seq<Pred>, h: nat, newBlock: Block, refers: int)
    requires 1 <= |preds| && Uniform(preds, h) && EdgesBelow(code, nextId) && 2 <= refers
    ensures Merged(MergeAll(Fresh(code, nextId), preds, newBlock, refers), preds, h)
    decreases |preds|
  {
    var init := preds[..|preds| - 1];
    var last := preds[|preds| - 1];
    assert MergeAll(Fresh(code, nextId), preds, newBlock, refers)
        == UpdateFixed(MergeAll(Fresh(code, nextId), init, newBlock, refers), last.src, last.from, newBlock, refers);
    if |preds| == 1 {
      assert MergeAll(Fresh(code, nextId), init, newBlock, refers) == Fresh(code, nextId);
      FirstUpdateMerges(code, nextId, last, newBlock, refers);
      assert [last] == preds;
    } else {
      MergeAllMerged(code, nextId, init, h, newBlock, refers);
      UpdateFixedMerges(MergeAll(Fresh(code, nextId), init, newBlock, refers), init, last, h, newBlock, refers);
      assert init + [last] == preds;
    }
  }

  /**
   * The corrected merge of predecessors that all end with `h` values, into a block reached from
   * all of them: the block starts with `h` slots, each counted once per predecessor; with one
   * predecessor they hold its values; with several, each holds its own phi, whose incoming edges
   * are exactly one per predecessor, in order, from that predecessor's block.
   */
  lemma PhiPerSlot(code: seq<Instr>, nextId: nat, preds: seq<Pred>, h: nat, newBlock: Block, refers: int)
    requires 1 <= |preds| && Uniform(preds, h) && EdgesBelow(code, nextId) && 2 <= refers
    ensures
      var r := MergeAll(Fresh(code, nextId), preds, newBlock, refers);
      |r.stack| == h && |r.phi| == h
      && (forall i :: 0 <= i < h ==> r.phi[i] == |preds|)
      && (|preds| == 1 ==> forall i :: 0 <= i < h ==> r.stack[i] == FromValueOnly(preds[0].src[i].value))
      && (2 <= |preds| ==> forall i :: 0 <= i < h ==>
            r.stack[i].value.Phi?
            && Edges(r.code, r.stack[i].value) == EdgeList(preds, h, i, TypeOf(preds[0].src[i].value)))
      && (2 <= |preds| ==> forall i, j :: 0 <= i < j < h ==> r.stack[i].value != r.stack[j].value)
  {
    var r := MergeAll(Fresh(code, nextId), preds, newBlock, refers);
    MergeAllMerged(code, nextId, preds, h, newBlock, refers);
    forall i | 0 <= i < h
      ensures r.phi[i] == |preds|
      ensures |preds| == 1 ==> r.stack[i] == FromValueOnly(preds[0].src[i].value)
      ensures 2 <= |preds| ==>
        (r.stack[i].value.Phi? && Edges(r.code, r.stack[i].value) == EdgeList(preds, h, i, TypeOf(preds[0].src[i].value)))
    {
      assert SlotMerged(r, preds, h, i);
    }
    if 2 <= |preds| {
      forall i, j | 0 <= i < j < h
        ensures r.stack[i].value != r.stack[j].value
      {
        assert SlotMerged(r, preds, h, i) && SlotMerged(r, preds, h, j);
      }
    }
  }

  /**
   * A block with one reference: the source values are pushed above the block's own, in order,
   * each with counter 0, and nothing else changes.
   */
  lemma {:induction false} PushValuesAppends(mc: Machine, src: seq<StackElement>, n: nat)
    requires n <= |src|
    ensures
      var r := PushValues(mc, src, n);
      r.stack[..|mc.stack|] == mc.stack && r.phi[..|mc.phi|] == mc.phi
      && (forall k :: 0 <= k < n ==> r.stack[|mc.stack| + k] == FromValueOnly(src[k].value) && r.phi[|mc.phi| + k] == 0)
      && r.oldBlock == mc.oldBlock && r.at == mc.at && r.code == mc.code && r.nextId == mc.nextId
  {
    if n > 0 {
      PushValuesAppends(mc, src, n - 1);
    }
  }

  /**
   * The independent values as written come out reversed: slot k holds source value n-1-k, so
   * with two or more of them slot 0 no longer holds source slot 0.
   */
  lemma {:induction false} InsertValuesReversed(mc: Machine, src: seq<StackElement>, n: nat)
    requires n <= |src|
    ensures
      var r := InsertValues(mc, src, n);
      r.stack[n..] == mc.stack && r.phi[n..] == mc.phi
      && (forall k :: 0 <= k < n ==> r.stack[k] == FromValueOnly(src[n - 1 - k].value) && r.phi[k] == 0)
      && r.oldBlock == mc.oldBlock && r.at == mc.at && r.code == mc.code && r.nextId == mc.nextId
  {
    if n > 0 {
      InsertValuesReversed(mc, src, n - 1);
      var prev := InsertValues(mc, src, n - 1);
      var r := InsertValues(mc, src, n);
      assert r.stack == [FromValueOnly(src[n - 1].value)] + prev.stack;
      assert r.phi == [0] + prev.phi;
      assert r.stack[n..] == prev.stack[n - 1..];
      assert r.phi[n..] == prev.phi[n - 1..];
    }
  }

  /** The corrected insertion puts source slot k in slot k, below the block's own values. */
  lemma {:induction false} InsertValuesFixedInOrder(mc: Machine, src: seq<StackElement>, n: nat)
    requires n <= |src|
    ensures
      var r := InsertValuesFixed(mc, src, n);
      r.stack[n..] == mc.stack && r.phi[n..] == mc.phi
      && (forall k :: 0 <= k < n ==> r.stack[k] == FromValueOnly(src[k].value) && r.phi[k] == 0)
      && r.oldBlock == mc.oldBlock && r.at == mc.at && r.code == mc.code && r.nextId == mc.nextId
    decreases n
  {
    if n > 0 {
      var m1 := InsertValue(mc, src[n - 1].value);
      InsertValuesFixedInOrder(m1, src, n - 1);
      var r := InsertValuesFixed(mc, src, n);
      assert r == InsertValuesFixed(m1, src, n - 1);
      assert r.stack[n - 1..] == m1.stack;
      assert r.stack[n..] == m1.stack[1..];
      assert r.phi[n..] == m1.phi[1..];
    }
  }
}
