/** The output stage of the compiler (generateOutput in asm/compiler.go), and the layout of the code. */
module CodeOutput {
  import opened Base
  import opened Numerals
  import opened Lzint
  import opened EvmOps
  import opened InstructionSets
  import opened Ast
  import opened Evaluator
  import opened CompilerProg
  import opened Expansion
  import opened Relaxation
  import opened Assembly

  // ----- specification -----

  /** The output of one instruction. A bug is a case in which the compiler panics. */
  datatype Piece = Code(bytes: seq<Byte>) | UnknownOp | Bug

  function ZeroBytes(n: nat): (b: seq<Byte>)
    ensures |b| == n && forall i :: 0 <= i < n ==> b[i] == 0
  {
    seq(n, _ => 0)
  }

  /** The operation of a push; a push without size is resolved by its data size. */
  function PushOp(t: Target, inst: Instr): Option<Op> {
    if inst.op == "PUSH" then PushBySize(t.fork, inst.dataSize)
    else if inst.op in t.fork.byName then Some(t.fork.byName[inst.op]) else None
  }

  function PushPiece(t: Target, inst: Instr): Piece {
    if inst.dataSize > 32 || |inst.data| > inst.dataSize then Bug
    else
      match PushOp(t, inst)
      case None => Bug
      case Some(op) => Code([op.code] + ZeroBytes(inst.dataSize - |inst.data|) + inst.data)
  }

  function PlainPiece(t: Target, inst: Instr): Piece {
    if inst.op !in t.fork.byName then UnknownOp
    else if inst.data != [] && !t.fork.byName[inst.op].hasImmediate then Bug
    else Code([t.fork.byName[inst.op].code] + inst.data)
  }

  function PieceOf(t: Target, inst: Instr): Piece {
    if inst.op == BYTES then Code(inst.data)
    else if IsPush(inst.op) then PushPiece(t, inst)
    else if inst.op != "" then PlainPiece(t, inst)
    else if inst.data != [] then Bug
    else Code([])
  }

  datatype Output = Written(code: seq<Byte>, unknown: nat) | Panic

  /** The output of the first n instructions. Positions are checked against the size of the output. */
  function Generated(t: Target, instrs: seq<Instr>, n: nat): Output
    requires n <= |instrs|
  {
    if n == 0 then Written([], 0)
    else
      var o := Generated(t, instrs, n - 1);
      if o.Panic? || |o.code| != instrs[n - 1].pc then Panic
      else
        match PieceOf(t, instrs[n - 1])
        case Code(b) => Written(o.code + b, o.unknown)
        case UnknownOp => Written(o.code, o.unknown + 1)
        case Bug => Panic
  }

  /** Creates the bytecode. */
  method GenerateOutput(t: Target, instrs: seq<Instr>) returns (o: Output)
    ensures o == Generated(t, instrs, |instrs|)
  {
    hide PieceOf;
    var code: seq<Byte>, unknown := [], 0;
    for k := 0 to |instrs|
      invariant Generated(t, instrs, k) == Written(code, unknown)
    {
      if |code| != instrs[k].pc {
        PanicStays(t, instrs, k + 1, |instrs|);
        return Panic;
      }
      var piece := EmitPiece(t, instrs[k]);
      match piece {
        case Code(b) => code := code + b;
        case UnknownOp => unknown := unknown + 1;
        case Bug =>
          PanicStays(t, instrs, k + 1, |instrs|);
          return Panic;
      }
    }
    o := Written(code, unknown);
  }

  lemma {:induction false} PanicStays(t: Target, instrs: seq<Instr>, k: nat, n: nat)
    requires k <= n <= |instrs| && Generated(t, instrs, k) == Panic
    ensures Generated(t, instrs, n) == Panic
    decreases n
  {
    if k < n {
      PanicStays(t, instrs, k, n - 1);
    }
  }

  /** The bytes of one instruction: opcode, padding and data. */
  method EmitPiece(t: Target, inst: Instr) returns (piece: Piece)
    ensures piece == PieceOf(t, inst)
  {
    hide IsPush, PushBySize;
    var output: seq<Byte> := [];
    if inst.op == BYTES {
      return Code(inst.data);
    }
    if IsPush(inst.op) {
      if inst.dataSize > 32 || |inst.data| > inst.dataSize {
        return Bug;
      }
      var op: Option<Op>;
      if inst.op == "PUSH" {
        op := PushBySize(t.fork, inst.dataSize);
      } else {
        op := if inst.op in t.fork.byName then Some(t.fork.byName[inst.op]) else None;
      }
      if op.None? {
        return Bug;
      }
      output := [op.value.code];
      if |inst.data| < inst.dataSize {
        output := output + ZeroBytes(inst.dataSize - |inst.data|);
      } else {
        assert output + ZeroBytes(0) == output;
      }
      return Code(output + inst.data);
    }
    if inst.op != "" {
      if inst.op !in t.fork.byName {
        return UnknownOp;
      }
      var op := t.fork.byName[inst.op];
      if |inst.data| > 0 && !op.hasImmediate {
        return Bug;
      }
      return Code([op.code] + inst.data);
    }
    piece := if |inst.data| > 0 then Bug else Code([]);
  }

  // ----- layout -----

  /** The instruction set has JUMPDEST and all sizes of PUSH except possibly zero. */
  ghost predicate CompleteTarget(t: Target) {
    && ValidTarget(t)
    && "JUMPDEST" in t.fork.byName
    && (forall n :: 1 <= n <= 32 ==> PushName(n) in t.fork.byName)
  }

  /** An instruction that is ready produces exactly as many bytes as its encoded size. */
  lemma ReadyPiece(u: Unit, labels: Labels, scope: Scope, inst: Instr)
    requires Ready(u, labels, scope, inst) && CompleteTarget(u.t)
    ensures PieceOf(u.t, inst).Code? && |PieceOf(u.t, inst).bytes| == EncodedSize(inst)
  {
    BytesNoPush();
    if inst.op == BYTES {
    } else if IsPush(inst.op) && inst.arg.Some? {
      ReadyPush(u, labels, scope, inst);
    } else {
      var start :| Fits(u.t, start) && start == inst.(pc := 0);
      hide IsPush;
    }
  }

  lemma ReadyPush(u: Unit, labels: Labels, scope: Scope, inst: Instr)
    requires PushReady(u, labels, scope, inst) && (inst.op == "PUSH" || inst.op in u.t.fork.byName) && CompleteTarget(u.t)
    requires IsPush(inst.op) && inst.op != BYTES && inst.op != ""
    ensures PushPiece(u.t, inst).Code? && |PushPiece(u.t, inst).bytes| == 1 + inst.dataSize
  {
    hide EvalArg, MinimalBytes, ExplicitSize, IsPush, ValidTarget;
    if inst.op == "PUSH" && inst.dataSize == 0 {
      PushZeroName();
    }
  }

  lemma PushZeroName()
    ensures PushName(0) == "PUSH0"
  {
    assert Decimal(0) == "0";
  }

  lemma PieceReady(b: Built, k: nat)
    requires AllReady(b) && CompleteTarget(b.unit.t) && k < |b.instrs|
    ensures PieceOf(b.unit.t, b.instrs[k]).Code? && |PieceOf(b.unit.t, b.instrs[k]).bytes| == EncodedSize(b.instrs[k])
    ensures b.instrs[k].pc == SizeBefore(b.instrs, k)
  {
    hide Ready, CompleteTarget, EncodedSize, PieceOf, SizeBefore;
    ReadyPiece(b.unit, FinalLabels(b), b.unit.scopes[k], b.instrs[k]);
  }

  lemma OneMorePiece(t: Target, instrs: seq<Instr>, n: nat)
    requires n < |instrs| && Generated(t, instrs, n).Written? && |Generated(t, instrs, n).code| == instrs[n].pc
    requires PieceOf(t, instrs[n]).Code?
    ensures Generated(t, instrs, n + 1) == Written(Generated(t, instrs, n).code + PieceOf(t, instrs[n]).bytes, Generated(t, instrs, n).unknown)
    ensures SizeBefore(instrs, n + 1) == SizeBefore(instrs, n) + EncodedSize(instrs[n])
  {
    hide PieceOf, EncodedSize;
  }

  lemma NoPieces(t: Target, instrs: seq<Instr>)
    ensures Generated(t, instrs, 0) == Written([], 0) && SizeBefore(instrs, 0) == 0
  {
  }

  /**
   * After an error-free compilation no panic can happen: each instruction's pc equals the number of
   * bytes emitted before it, and the output has the size that all instructions have together.
   */
  lemma {:induction false} Layout(b: Built, n: nat)
    requires AllReady(b) && CompleteTarget(b.unit.t) && n <= |b.instrs|
    ensures var o := Generated(b.unit.t, b.instrs, n);
            o.Written? && o.unknown == 0 && |o.code| == SizeBefore(b.instrs, n)
    ensures n < |b.instrs| ==> b.instrs[n].pc == SizeBefore(b.instrs, n)
  {
    hide *;
    if n < |b.instrs| {
      PieceReady(b, n);
    }
    if n == 0 {
      NoPieces(b.unit.t, b.instrs);
    } else {
      Layout(b, n - 1);
      PieceReady(b, n - 1);
      OneMorePiece(b.unit.t, b.instrs, n - 1);
    }
  }

  /** The code of a program. */
  function CodeOf(b: Built): seq<Byte> {
    var o := Generated(b.unit.t, b.instrs, |b.instrs|);
    if o.Written? then o.code else []
  }

  /** The output after n instructions: that of n - 1 instructions, and one more piece. */
  lemma GeneratedStep(b: Built, n: nat)
    requires AllReady(b) && CompleteTarget(b.unit.t) && 0 < n <= |b.instrs|
    ensures PieceOf(b.unit.t, b.instrs[n - 1]).Code?
    ensures Generated(b.unit.t, b.instrs, n - 1).Written? && Generated(b.unit.t, b.instrs, n).Written?
    ensures var before, piece := Generated(b.unit.t, b.instrs, n - 1).code, PieceOf(b.unit.t, b.instrs[n - 1]).bytes;
            && Generated(b.unit.t, b.instrs, n).code == before + piece
            && |before| == SizeBefore(b.instrs, n - 1) && |piece| == EncodedSize(b.instrs[n - 1])
            && |before + piece| == SizeBefore(b.instrs, n)
  {
    hide *;
    Layout(b, n);
    Layout(b, n - 1);
    PieceReady(b, n - 1);
    OneMorePiece(b.unit.t, b.instrs, n - 1);
  }

  /** The bytes of instruction k are at its position. */
  lemma {:induction false} CodeAt(b: Built, n: nat, k: nat)
    requires AllReady(b) && CompleteTarget(b.unit.t) && k < n <= |b.instrs|
    ensures Generated(b.unit.t, b.instrs, n).Written? && PieceOf(b.unit.t, b.instrs[k]).Code?
    ensures var code, piece, pc := Generated(b.unit.t, b.instrs, n).code, PieceOf(b.unit.t, b.instrs[k]).bytes, SizeBefore(b.instrs, k);
            && |piece| == EncodedSize(b.instrs[k])
            && pc + |piece| == SizeBefore(b.instrs, k + 1) <= |code|
            && code[pc..pc + |piece|] == piece
    decreases n
  {
    hide *;
    GeneratedStep(b, n);
    GeneratedStep(b, k + 1);
    if k < n - 1 {
      CodeAt(b, n - 1, k);
      var code := Generated(b.unit.t, b.instrs, n - 1).code;
      var pc, size := SizeBefore(b.instrs, k), |PieceOf(b.unit.t, b.instrs[k]).bytes|;
      assert Generated(b.unit.t, b.instrs, n).code[pc..pc + size] == code[pc..pc + size];
    }
  }

  lemma BuildFinished(i: Input)
    requires ValidTarget(i.t)
    ensures var b := Build(i);
            && Finished(i.t, b.prog) && b.unit == UnitOf(i, b.prog)
            && |b.instrs| == |b.prog.instrs|
  {
    ExpandedProgram(i.t, i.p);
    hide ExpandProgram, Finished;
    BuiltSize(UnitOf(i, ExpandProgram(i.t, i.p).prog), PreInstrs(UnitOf(i, ExpandProgram(i.t, i.p).prog), ExpandProgram(i.t, i.p).prog.instrs));
  }
}
