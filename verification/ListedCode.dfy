/** The code of a program, read off its list: one piece for each operation, in order (asm/compiler_expand.go, asm/compiler.go). */
module ListedCode {
  import opened Base
  import opened Lzint
  import opened InstructionSets
  import opened Evaluator
  import opened CompilerProg
  import opened Expansion
  import opened Relaxation
  import opened Assembly
  import opened CodeOutput
  import opened JumpTargets
  import opened Listing

  /** The bytes of a push: the operation for the size of the data, and the big-endian value of the argument. */
  ghost predicate EncodesPush(u: Unit, labels: Labels, item: Item, bytes: seq<Byte>)
    requires item.Operation? && item.arg.Some?
  {
    && bytes != []
    && var r, name := EvalArg(u, labels, item.scope, item.arg.value), PushName(|bytes| - 1);
    && r.Known? && r.value.num == BytesToInt(bytes[1..])
    && (item.op == "PUSH" || item.op == name)
    && name in u.t.fork.byName && bytes[0] == u.t.fork.byName[name].code
  }

  ghost predicate EncodesData(u: Unit, labels: Labels, item: Item, bytes: seq<Byte>)
    requires item.Operation?
  {
    && item.arg.Some?
    && var r := EvalArg(u, labels, item.scope, item.arg.value);
    r.Known? && Bytes(r.value) == Ok(bytes)
  }

  /** The bytes that an operation of a list stands for, once positions are known. */
  ghost predicate Encodes(u: Unit, labels: Labels, item: Item, bytes: seq<Byte>) {
    && item.Operation?
    && if item.op == "" then bytes == []
       else if item.op == BYTES then EncodesData(u, labels, item, bytes)
       else if IsPush(item.op) && item.arg.Some? then EncodesPush(u, labels, item, bytes)
       else item.op in u.t.fork.byName && bytes == [u.t.fork.byName[item.op].code] + item.data
  }

  // ----- pushes -----

  lemma {:induction false} PaddedValue(z: nat, b: seq<Byte>)
    ensures BytesToInt(ZeroBytes(z) + b) == BytesToInt(b)
  {
    var d := ZeroBytes(z) + b;
    if z == 0 {
      assert d == b;
    } else {
      Numerals.DropZero(256, d);
      assert d[1..] == ZeroBytes(z - 1) + b;
      PaddedValue(z - 1, b);
    }
  }

  lemma MinimalValue(n: nat)
    ensures BytesToInt(MinimalBytes(n)) == n
  {
    ByteCount(n);
    FromToBase(256, n, IntByteLen(n));
  }

  lemma PushEncodes(u: Unit, labels: Labels, scope: Scope, inst: Instr, item: Item)
    requires MachineCodes(u.t) && PushReady(u, labels, scope, inst) && IsPush(inst.op) && PushPiece(u.t, inst).Code?
    requires inst.op != "PUSH" ==> ExplicitSize(inst.op) == Some(inst.dataSize) && inst.op in u.t.fork.byName
    requires item.Operation? && item.op == inst.op && item.arg == inst.arg && item.scope == scope
    ensures EncodesPush(u, labels, item, PushPiece(u.t, inst).bytes)
  {
    PushBytes(u.t, inst);
    hide EvalArg, ExplicitSize, IsPush, MachineCodes, PushName, BytesToInt, MinimalBytes, PushPiece;
    MinimalValue(EvalArg(u, labels, scope, inst.arg.value).value.num);
  }

  /** The opcode of a push is that for its data size, and its data is padded. */
  lemma PushBytes(t: Target, inst: Instr)
    requires MachineCodes(t) && IsPush(inst.op) && PushPiece(t, inst).Code?
    requires inst.op != "PUSH" ==> ExplicitSize(inst.op) == Some(inst.dataSize) && inst.op in t.fork.byName
    ensures var (bytes, name) := (PushPiece(t, inst).bytes, PushName(inst.dataSize));
            && |bytes| == 1 + inst.dataSize && BytesToInt(bytes[1..]) == BytesToInt(inst.data)
            && (inst.op == "PUSH" || inst.op == name) && name in t.fork.byName && bytes[0] == t.fork.byName[name].code
  {
    if inst.op != "PUSH" {
      var n: nat :| n <= 32 && inst.op == PushName(n);
      PushNameSized(n);
    }
    hide ExplicitSize, IsPush, MachineCodes, PushName, BytesToInt;
    assert PushPiece(t, inst).bytes[1..] == ZeroBytes(inst.dataSize - |inst.data|) + inst.data;
    PaddedValue(inst.dataSize - |inst.data|, inst.data);
  }

  // ----- operations that evaluation leaves alone -----

  /** An operation that has no argument to compute. */
  predicate Fixed(inst: Instr) {
    inst.op != BYTES && !(IsPush(inst.op) && inst.arg.Some?)
  }

  lemma FixedKept(u: Unit, scope: Scope, inst: Instr, final: Instr)
    requires Fixed(inst) && Grew(PreEvaluated(u, scope, inst).0, final)
    ensures final.data == inst.data
  {
  }

  /** The data of operations without argument stays as expansion leaves it. */
  lemma DataKept(i: Input, k: nat)
    requires ValidTarget(i.t) && Build(i).errors == []
    requires k < |Build(i).instrs| == |Build(i).prog.instrs| && Fixed(Build(i).prog.instrs[k])
    ensures Build(i).instrs[k].data == Build(i).prog.instrs[k].data
  {
    BuiltParts(i);
    var b := Build(i);
    var pre := PreInstrs(b.unit, b.prog.instrs);
    hide *;
    PreparedAll(i.t, b.prog, b.unit, FinalLabels(b), pre);
    RelaxedConsistent(b.unit, pre);
    FixedKept(b.unit, b.unit.scopes[k], b.prog.instrs[k], b.instrs[k]);
  }

  lemma BuiltParts(i: Input)
    requires ValidTarget(i.t) && Build(i).errors == []
    ensures var b := Build(i);
            && b.unit == UnitOf(i, b.prog) && b.unit.t == i.t && Finished(i.t, b.prog) && |b.prog.instrs| <= |b.unit.scopes|
            && b.instrs == Relaxed(b.unit, PreInstrs(b.unit, b.prog.instrs)).0
            && PreErrors(b.unit, b.prog.instrs, |b.prog.instrs|) == []
  {
    ExpandedProgram(i.t, i.p);
    hide ExpandProgram, Finished, Relaxed, PreErrors, PCErrors;
  }

  /** The operations and scopes of a program that has been compiled are those of its list. */
  lemma BuiltHolds(i: Input)
    requires ValidTarget(i.t) && Build(i).errors == []
    ensures ListProgram(i.t, i.p).Listed? && Holds(Build(i).prog, FullList(i.t, i.p))
  {
    ExpansionLists(i.t, i.p);
    hide ExpandProgram, Relaxed, PreErrors, PCErrors, Holds, ListProgram, FullList;
  }

  // ----- all operations -----

  lemma PieceEncodes(u: Unit, labels: Labels, scope: Scope, start: Instr, inst: Instr, item: Item)
    requires MachineCodes(u.t) && Ready(u, labels, scope, inst) && PieceOf(u.t, inst).Code?
    requires item.Operation? && item.scope == scope && start == InstrOf(item)
    requires inst.op == start.op && inst.arg == start.arg && (Fixed(start) ==> inst.data == start.data)
    ensures Encodes(u, labels, item, PieceOf(u.t, inst).bytes)
  {
    BytesNoPush();
    if inst.op == "" {
      var fit :| Fits(u.t, fit) && fit == inst.(pc := 0);
      hide IsPush;
    } else if inst.op == BYTES {
      hide EvalArg, Bytes, MachineCodes;
    } else if IsPush(inst.op) && inst.arg.Some? {
      PushSized(u, labels, scope, inst);
      hide IsPush, MachineCodes, EncodesPush, ExplicitSize, PushPiece, PushReady;
      PushEncodes(u, labels, scope, inst, item);
    } else {
      FixedEncodes(u, labels, scope, inst, item);
    }
  }

  lemma FixedEncodes(u: Unit, labels: Labels, scope: Scope, inst: Instr, item: Item)
    requires MachineCodes(u.t) && Ready(u, labels, scope, inst) && PieceOf(u.t, inst).Code?
    requires item.Operation? && item.op == inst.op && item.arg == inst.arg && item.data == inst.data
    requires inst.op != "" && Fixed(inst)
    ensures Encodes(u, labels, item, PieceOf(u.t, inst).bytes)
  {
    var fit :| Fits(u.t, fit) && fit == inst.(pc := 0);
    if IsPush(inst.op) {
      assert inst.op == "PUSH0";
      PushZeroName();
      PushNameSized(0);
      hide IsPush;
      assert PushPiece(u.t, inst).bytes == [u.t.fork.byName[inst.op].code];
    } else {
      hide IsPush, MachineCodes;
    }
  }

  /** The bytes between two positions are those of an operation. */
  ghost predicate PieceAt(u: Unit, labels: Labels, ops: seq<Item>, code: seq<Byte>, pos: seq<nat>, k: nat)
    requires k < |ops| && |pos| == |ops| + 1
  {
    pos[k] <= pos[k + 1] <= |code| && Encodes(u, labels, ops[k], code[pos[k]..pos[k + 1]])
  }

  /** Where each instruction begins, and where the last one ends. */
  ghost function Positions(instrs: seq<Instr>): (pos: seq<nat>)
    ensures |pos| == |instrs| + 1 && forall k :: 0 <= k <= |instrs| ==> pos[k] == SizeBefore(instrs, k)
  {
    seq(|instrs| + 1, k requires 0 <= k <= |instrs| => SizeBefore(instrs, k))
  }

  /** The facts about a program that has been compiled without error. */
  lemma ListedFacts(i: Input, b: Built)
    requires MachineCodes(i.t) && b == Build(i) && b.errors == []
    ensures AllReady(b) && b.unit.t == i.t && b.unit == UnitOf(i, b.prog) && CompleteTarget(b.unit.t)
    ensures ListProgram(i.t, i.p).Listed? && Holds(b.prog, FullList(i.t, i.p))
  {
    assert MachineCodes(i.t) ==> CompleteTarget(i.t) && ValidTarget(i.t);
    hide *;
    BuildReady(i);
    BuiltHolds(i);
    BuiltParts(i);
  }

  lemma ListedPiece(i: Input, b: Built, ops: seq<Item>, k: nat)
    requires MachineCodes(i.t) && b == Build(i) && b.errors == [] && ListProgram(i.t, i.p).Listed?
    requires ops == Operations(FullList(i.t, i.p)) && k < |ops| == |b.instrs|
    ensures PieceAt(b.unit, FinalLabels(b), ops, CodeOf(b), Positions(b.instrs), k)
  {
    assert ValidTarget(i.t) by {
      assert MachineCodes(i.t) ==> CompleteTarget(i.t);
    }
    hide *;
    ListedFacts(i, b);
    OperationHeld(i, b, ops, k);
    if Fixed(b.prog.instrs[k]) {
      DataKept(i, k);
    }
    BuiltPiece(b, ops, k);
  }

  lemma BuiltPiece(b: Built, ops: seq<Item>, k: nat)
    requires AllReady(b) && MachineCodes(b.unit.t) && CompleteTarget(b.unit.t) && k < |ops| == |b.instrs| == |b.prog.instrs|
    requires ops[k].Operation? && b.prog.instrs[k] == InstrOf(ops[k])
    requires b.instrs[k].op == b.prog.instrs[k].op && b.instrs[k].arg == b.prog.instrs[k].arg
    requires Fixed(b.prog.instrs[k]) ==> b.instrs[k].data == b.prog.instrs[k].data
    requires Ready(b.unit, FinalLabels(b), ops[k].scope, b.instrs[k])
    ensures PieceAt(b.unit, FinalLabels(b), ops, CodeOf(b), Positions(b.instrs), k)
  {
    hide *;
    CodeAt(b, |b.instrs|, k);
    CodeWritten(b);
    PieceEncodes(b.unit, FinalLabels(b), ops[k].scope, b.prog.instrs[k], b.instrs[k], ops[k]);
    var (pos, code, piece) := (Positions(b.instrs), CodeOf(b), PieceOf(b.unit.t, b.instrs[k]).bytes);
    assert code[pos[k]..pos[k + 1]] == piece;
    PieceAtFrom(b.unit, FinalLabels(b), ops, code, pos, k);
  }

  lemma PieceAtFrom(u: Unit, labels: Labels, ops: seq<Item>, code: seq<Byte>, pos: seq<nat>, k: nat)
    requires k < |ops| && |pos| == |ops| + 1
    requires pos[k] <= pos[k + 1] <= |code| && Encodes(u, labels, ops[k], code[pos[k]..pos[k + 1]])
    ensures PieceAt(u, labels, ops, code, pos, k)
  {
  }

  lemma OperationHeld(i: Input, b: Built, ops: seq<Item>, k: nat)
    requires ListProgram(i.t, i.p).Listed? && ops == Operations(FullList(i.t, i.p)) && k < |ops|
    requires Holds(b.prog, FullList(i.t, i.p)) && b.unit == UnitOf(i, b.prog) && AllReady(b)
    ensures ops[k].Operation? && b.unit.scopes[k] == ops[k].scope && b.prog.instrs[k] == InstrOf(ops[k])
    ensures b.instrs[k].op == b.prog.instrs[k].op && b.instrs[k].arg == b.prog.instrs[k].arg
    ensures Ready(b.unit, FinalLabels(b), ops[k].scope, b.instrs[k])
  {
    hide Ready, Operations, Marks, FullList, ListProgram, FinalLabels;
    assert HoldsOperation(b.prog, k, ops[k]);
  }

  /**
   * The code of a program that compiles without error consists of the pieces of the operations in its
   * list, in order, with each argument evaluated in the scope of its operation for these positions.
   */
  lemma ListedProgram(i: Input)
    requires MachineCodes(i.t) && Build(i).errors == []
    ensures ListProgram(i.t, i.p).Listed?
    ensures var (b, ops) := (Build(i), Operations(FullList(i.t, i.p)));
            && |b.instrs| == |ops|
            && var (pos, code) := (Positions(b.instrs), CodeOf(b));
            && pos[0] == 0 && pos[|ops|] == |code|
            && FinalLabels(b) == Placed(b.unit.table, pos[..|ops|])
            && forall k :: 0 <= k < |ops| ==> PieceAt(b.unit, FinalLabels(b), ops, code, pos, k)
  {
    var b := Build(i);
    ListedFacts(i, b);
    var ops := Operations(FullList(i.t, i.p));
    LengthHeld(i, b);
    PositionsPlaced(b);
    hide *;
    Layout(b, |b.instrs|);
    CodeWritten(b);
    forall k | 0 <= k < |ops|
      ensures PieceAt(b.unit, FinalLabels(b), ops, CodeOf(b), Positions(b.instrs), k)
    {
      ListedPiece(i, b, ops, k);
    }
  }

  lemma PositionsPlaced(b: Built)
    ensures FinalLabels(b) == Placed(b.unit.table, Positions(b.instrs)[..|b.instrs|])
    ensures Positions(b.instrs)[0] == 0
  {
    assert PCs(b.instrs) == Positions(b.instrs)[..|b.instrs|];
  }

  lemma LengthHeld(i: Input, b: Built)
    requires ListProgram(i.t, i.p).Listed? && Holds(b.prog, FullList(i.t, i.p)) && AllReady(b)
    ensures |b.instrs| == |Operations(FullList(i.t, i.p))|
  {
    hide Operations, Marks, FullList, ListProgram, Ready, FinalLabels;
  }
}
