/** Jump destinations of compiled code: what a linear sweep over the code finds (Yellow Paper, section 9.4.3). */
module JumpTargets {
  import opened Base
  import opened Numerals
  import opened Lzint
  import opened EvmOps
  import opened InstructionSets
  import opened Ast
  import opened Evaluator
  import opened CompilerProg
  import opened Expansion
  import opened Relaxation
  import opened Assembly
  import opened CodeOutput
  import opened LabelAddresses

  const JUMPDEST_CODE: Byte := 0x5b

  // ----- the sweep of the machine -----

  /** The number of bytes that the machine skips after an opcode. */
  function PushData(c: Byte): nat {
    if 0x60 <= c <= 0x7f then c - 0x5f else 0
  }

  /** The sweep that starts at position from reaches the target. */
  predicate Visits(code: seq<Byte>, from: nat, target: nat)
    decreases |code| - from
  {
    from == target || (from < |code| && Visits(code, from + 1 + PushData(code[from]), target))
  }

  /** A position where the machine accepts a jump. */
  predicate ValidDestination(code: seq<Byte>, pos: nat) {
    pos < |code| && code[pos] == JUMPDEST_CODE && Visits(code, 0, pos)
  }

  lemma {:induction false} VisitsNext(code: seq<Byte>, from: nat, pos: nat)
    requires Visits(code, from, pos) && pos < |code|
    ensures Visits(code, from, pos + 1 + PushData(code[pos]))
    decreases |code| - from
  {
    if from != pos {
      VisitsNext(code, from + 1 + PushData(code[from]), pos);
    }
  }

  /** A visited position is the start, or comes right after a visited position. */
  lemma {:induction false} VisitsBefore(code: seq<Byte>, from: nat, pos: nat) returns (prev: nat)
    requires Visits(code, from, pos) && from != pos
    ensures prev < |code| && prev < pos && Visits(code, from, prev) && pos == prev + 1 + PushData(code[prev])
    decreases |code| - from
  {
    var next := from + 1 + PushData(code[from]);
    if next == pos {
      prev := from;
    } else {
      prev := VisitsBefore(code, next, pos);
    }
  }

  // ----- instruction sets -----

  /**
   * Names and codes are inverse, PUSH<n> has code 0x5f + n, and JUMPDEST has code 0x5b. There are no
   * other operations with names that begin like a push.
   */
  ghost predicate MachineCodes(t: Target) {
    && CompleteTarget(t)
    && Inverse(t.fork)
    && t.fork.byName["JUMPDEST"].code == JUMPDEST_CODE
    && (forall n: nat :: n <= 32 && PushName(n) in t.fork.byName ==> t.fork.byName[PushName(n)].code == 0x5f + n)
    && (forall name :: name in t.fork.byName && IsPush(name) ==> exists n: nat :: n <= 32 && name == PushName(n))
  }

  lemma CodeIsPush(t: Target, name: string)
    requires MachineCodes(t) && name in t.fork.byName && 0x60 <= t.fork.byName[name].code <= 0x7f
    ensures name == PushName(t.fork.byName[name].code - 0x5f)
  {
    var n: nat := t.fork.byName[name].code - 0x5f;
    assert PushName(n) in t.fork.byName;
    assert t.fork.byCode[t.fork.byName[name].code].name == PushName(n);
  }

  lemma PlainCode(t: Target, name: string)
    requires MachineCodes(t) && name in t.fork.byName && !IsPush(name)
    ensures PushData(t.fork.byName[name].code) == 0
    ensures t.fork.byName[name].code == JUMPDEST_CODE <==> name == "JUMPDEST"
  {
    var c := t.fork.byName[name].code;
    PushNameSize(if c >= 0x5f then c - 0x5f else 0);
    if 0x60 <= c <= 0x7f {
      CodeIsPush(t, name);
    }
    hide IsPush;
  }

  lemma PushNameSized(n: nat)
    requires n <= 32
    ensures IsPush(PushName(n)) && ExplicitSize(PushName(n)) == Some(n)
  {
    assert PushName(n)[4..] == Decimal(n);
    DecimalDigits(n);
  }

  lemma PushCode(t: Target, inst: Instr)
    requires MachineCodes(t) && IsPush(inst.op) && PushPiece(t, inst).Code?
    requires inst.op != "PUSH" ==> ExplicitSize(inst.op) == Some(inst.dataSize)
    ensures PushPiece(t, inst).bytes[0] == 0x5f + inst.dataSize && |PushPiece(t, inst).bytes| == 1 + inst.dataSize
    ensures PushPiece(t, inst).bytes[0] != JUMPDEST_CODE && PushData(PushPiece(t, inst).bytes[0]) == inst.dataSize
  {
    if inst.op != "PUSH" {
      var n: nat :| n <= 32 && inst.op == PushName(n);
      PushNameSized(n);
    }
    hide ExplicitSize, IsPush;
  }

  // ----- what the sweep makes of one instruction -----

  /**
   * The bytes of an instruction, as the sweep sees them: nothing at all, an opcode with the bytes that
   * it skips, or an opcode and an immediate byte that looks like an operation without data.
   */
  ghost predicate SweepsOver(inst: Instr, bytes: seq<Byte>) {
    if inst.op == "" then bytes == []
    else
      && bytes != []
      && (bytes[0] == JUMPDEST_CODE <==> inst.op == "JUMPDEST")
      && (|bytes| == 1 + PushData(bytes[0])
          || (|bytes| == 2 && PushData(bytes[0]) == 0 && PushData(bytes[1]) == 0 && bytes[1] != JUMPDEST_CODE))
  }

  lemma DestNoPush()
    ensures !IsPush("JUMPDEST")
  {
    assert "JUMPDEST"[..4][0] == 'J' && "PUSH"[0] == 'P';
  }

  lemma PieceSweeps(u: Unit, labels: Labels, scope: Scope, inst: Instr)
    requires Ready(u, labels, scope, inst) && MachineCodes(u.t) && inst.op != BYTES
    ensures PieceOf(u.t, inst).Code? && SweepsOver(inst, PieceOf(u.t, inst).bytes)
  {
    ReadyPiece(u, labels, scope, inst);
    BytesNoPush();
    DestNoPush();
    if inst.op != "" {
      if IsPush(inst.op) {
        PushSweeps(u, labels, scope, inst);
      } else {
        PlainSweeps(u, labels, scope, inst);
      }
    } else {
      hide IsPush;
    }
  }

  lemma PushSweeps(u: Unit, labels: Labels, scope: Scope, inst: Instr)
    requires Ready(u, labels, scope, inst) && MachineCodes(u.t) && inst.op != BYTES && inst.op != "" && IsPush(inst.op)
    requires PushPiece(u.t, inst).Code?
    ensures SweepsOver(inst, PushPiece(u.t, inst).bytes)
  {
    PushSized(u, labels, scope, inst);
    PushCode(u.t, inst);
    DestNoPush();
    hide IsPush, MachineCodes, Ready, PushPiece, ExplicitSize;
  }

  lemma PushSized(u: Unit, labels: Labels, scope: Scope, inst: Instr)
    requires Ready(u, labels, scope, inst) && MachineCodes(u.t) && inst.op != BYTES && inst.op != "" && IsPush(inst.op)
    ensures inst.op != "PUSH" ==> ExplicitSize(inst.op) == Some(inst.dataSize)
  {
    if inst.op != "PUSH" {
      if inst.arg.None? {
        var start :| Fits(u.t, start) && start == inst.(pc := 0);
        PushNameSized(0);
        PushZeroName();
      } else {
        var n: nat :| n <= 32 && inst.op == PushName(n);
        PushNameSized(n);
        hide EvalArg, MinimalBytes, ExplicitSize;
      }
    }
  }

  lemma PlainSweeps(u: Unit, labels: Labels, scope: Scope, inst: Instr)
    requires Ready(u, labels, scope, inst) && MachineCodes(u.t) && inst.op != BYTES && inst.op != "" && !IsPush(inst.op)
    requires PlainPiece(u.t, inst).Code?
    ensures SweepsOver(inst, PlainPiece(u.t, inst).bytes)
  {
    PlainCode(u.t, inst.op);
    var start :| Fits(u.t, start) && start == inst.(pc := 0);
    hide IsPush, MachineCodes;
    if inst.data != [] {
      EmittedBytes(u.t.fork.byName[inst.op].name, inst.data[0]);
    }
    hide Emitted;
  }

  // ----- the whole code -----

  ghost predicate NoData(b: Built) {
    forall k :: 0 <= k < |b.instrs| ==> b.instrs[k].op != BYTES
  }

  /** Positions in the code of a program without #bytes. */
  lemma InstrBytes(b: Built, k: nat)
    requires AllReady(b) && MachineCodes(b.unit.t) && NoData(b) && k < |b.instrs|
    ensures PieceOf(b.unit.t, b.instrs[k]).Code?
    ensures var code, piece, pc := CodeOf(b), PieceOf(b.unit.t, b.instrs[k]).bytes, SizeBefore(b.instrs, k);
            && SweepsOver(b.instrs[k], piece)
            && pc + |piece| == SizeBefore(b.instrs, k + 1) <= |code|
            && code[pc..pc + |piece|] == piece
  {
    CodeAt(b, |b.instrs|, k);
    PieceSweeps(b.unit, FinalLabels(b), b.unit.scopes[k], b.instrs[k]);
    CodeWritten(b);
    hide Ready, MachineCodes, SweepsOver, PieceOf, Generated;
  }

  lemma CodeWritten(b: Built)
    requires Generated(b.unit.t, b.instrs, |b.instrs|).Written?
    ensures CodeOf(b) == Generated(b.unit.t, b.instrs, |b.instrs|).code
  {
    hide Generated;
  }

  lemma ByteOf(code: seq<Byte>, pc: nat, piece: seq<Byte>, i: nat)
    requires pc + |piece| <= |code| && code[pc..pc + |piece|] == piece && i < |piece|
    ensures code[pc + i] == piece[i]
  {
    assert code[pc..pc + |piece|][i] == code[pc + i];
  }

  /** The sweep moves from the position of an instruction to that of the next one. */
  lemma SweepInstr(inst: Instr, code: seq<Byte>, pc: nat, piece: seq<Byte>)
    requires SweepsOver(inst, piece) && pc + |piece| <= |code| && code[pc..pc + |piece|] == piece
    requires Visits(code, 0, pc)
    ensures Visits(code, 0, pc + |piece|)
  {
    if piece != [] {
      ByteOf(code, pc, piece, 0);
      VisitsNext(code, 0, pc);
      if |piece| == 2 && PushData(piece[0]) == 0 {
        ByteOf(code, pc, piece, 1);
        VisitsNext(code, 0, pc + 1);
      }
    }
    hide Visits;
  }

  /** In a program without #bytes, the sweep visits every instruction. */
  lemma {:induction false} SweepVisits(b: Built, k: nat)
    requires AllReady(b) && MachineCodes(b.unit.t) && NoData(b) && k <= |b.instrs|
    ensures Visits(CodeOf(b), 0, SizeBefore(b.instrs, k))
  {
    hide AllReady, MachineCodes, NoData, CodeOf, Visits, SizeBefore, PieceOf, SweepsOver;
    if k == 0 {
      VisitsStart(b);
    } else {
      SweepVisits(b, k - 1);
      InstrBytes(b, k - 1);
      SweepInstr(b.instrs[k - 1], CodeOf(b), SizeBefore(b.instrs, k - 1), PieceOf(b.unit.t, b.instrs[k - 1]).bytes);
    }
  }

  lemma VisitsStart(b: Built)
    requires AllReady(b) && MachineCodes(b.unit.t)
    ensures Visits(CodeOf(b), 0, SizeBefore(b.instrs, 0))
  {
    hide CodeOf;
  }

  lemma FirstByte(inst: Instr, piece: seq<Byte>)
    requires SweepsOver(inst, piece) && inst.op != ""
    ensures |piece| > 0 && (piece[0] == JUMPDEST_CODE <==> inst.op == "JUMPDEST")
  {
  }

  /** The opcode of an instruction is at its position. */
  lemma OpcodeAt(b: Built, k: nat)
    requires AllReady(b) && MachineCodes(b.unit.t) && NoData(b) && k < |b.instrs| && b.instrs[k].op != ""
    ensures SizeBefore(b.instrs, k) < |CodeOf(b)|
    ensures CodeOf(b)[SizeBefore(b.instrs, k)] == JUMPDEST_CODE <==> b.instrs[k].op == "JUMPDEST"
  {
    hide *;
    InstrBytes(b, k);
    var piece := PieceOf(b.unit.t, b.instrs[k]).bytes;
    FirstByte(b.instrs[k], piece);
    ByteOf(CodeOf(b), SizeBefore(b.instrs, k), piece, 0);
  }

  /** The position of a JUMPDEST is a valid destination. */
  lemma JumpDestValid(b: Built, k: nat)
    requires AllReady(b) && MachineCodes(b.unit.t) && NoData(b) && k < |b.instrs| && b.instrs[k].op == "JUMPDEST"
    ensures ValidDestination(CodeOf(b), SizeBefore(b.instrs, k))
  {
    hide AllReady, MachineCodes, NoData, CodeOf, Visits, SizeBefore;
    SweepVisits(b, k);
    OpcodeAt(b, k);
  }

  // ----- valid destinations are exactly the JUMPDEST instructions -----

  /** Position p is that of the opcode of instruction k, or that of its immediate byte. */
  ghost predicate AtInstr(b: Built, k: nat, p: nat)
    requires k < |b.instrs|
  {
    && b.instrs[k].op != "" && PieceOf(b.unit.t, b.instrs[k]).Code?
    && var piece := PieceOf(b.unit.t, b.instrs[k]).bytes;
    p == SizeBefore(b.instrs, k) || (|piece| == 2 && PushData(piece[0]) == 0 && p == SizeBefore(b.instrs, k) + 1)
  }

  ghost predicate InsideCode(b: Built) {
    AllReady(b) && MachineCodes(b.unit.t) && NoData(b) && |CodeOf(b)| == SizeBefore(b.instrs, |b.instrs|)
  }

  lemma CodeSize(b: Built)
    requires AllReady(b) && MachineCodes(b.unit.t) && NoData(b)
    ensures InsideCode(b)
  {
    Layout(b, |b.instrs|);
    CodeWritten(b);
    hide Generated, CodeOf, AllReady, MachineCodes, NoData, SizeBefore;
  }

  /** The instruction that produces the byte at the position of instruction k. */
  lemma {:induction false} NextOp(b: Built, k: nat) returns (j: nat)
    requires InsideCode(b) && k <= |b.instrs| && SizeBefore(b.instrs, k) < |CodeOf(b)|
    ensures j < |b.instrs| && AtInstr(b, j, SizeBefore(b.instrs, k))
    decreases |b.instrs| - k
  {
    hide AllReady, MachineCodes, NoData, CodeOf, PieceOf, SizeBefore;
    InstrBytes(b, k);
    if b.instrs[k].op != "" {
      j := k;
    } else {
      EmptyPiece(b.instrs[k], PieceOf(b.unit.t, b.instrs[k]).bytes);
      j := NextOp(b, k + 1);
    }
  }

  lemma EmptyPiece(inst: Instr, piece: seq<Byte>)
    requires SweepsOver(inst, piece) && inst.op == ""
    ensures piece == []
  {
  }

  /** Whatever the sweep visits is an opcode or an immediate byte. */
  lemma {:induction false} VisitedWhere(b: Built, p: nat) returns (j: nat)
    requires InsideCode(b) && Visits(CodeOf(b), 0, p) && p < |CodeOf(b)|
    ensures j < |b.instrs| && AtInstr(b, j, p)
    decreases p
  {
    hide AllReady, MachineCodes, NoData, CodeOf, PieceOf, Visits, InsideCode, AtInstr;
    if p == 0 {
      assert SizeBefore(b.instrs, 0) == 0;
      hide SizeBefore;
      j := NextOp(b, 0);
    } else {
      hide SizeBefore;
      var prev := VisitsBefore(CodeOf(b), 0, p);
      var k := VisitedWhere(b, prev);
      j := AfterInstr(b, k, prev, p);
    }
  }

  lemma AfterInstr(b: Built, k: nat, prev: nat, p: nat) returns (j: nat)
    requires InsideCode(b) && k < |b.instrs| && AtInstr(b, k, prev)
    requires prev < |CodeOf(b)| && p == prev + 1 + PushData(CodeOf(b)[prev]) && p < |CodeOf(b)|
    ensures j < |b.instrs| && AtInstr(b, j, p)
  {
    hide AllReady, MachineCodes, NoData, CodeOf, PieceOf, SizeBefore;
    InstrBytes(b, k);
    var piece, pc := PieceOf(b.unit.t, b.instrs[k]).bytes, SizeBefore(b.instrs, k);
    ByteOf(CodeOf(b), pc, piece, prev - pc);
    if p == pc + |piece| {
      j := NextOp(b, k + 1);
    } else {
      j := k;
    }
  }

  /** A JUMPDEST byte that the sweep visits is an opcode. */
  lemma VisitedDest(b: Built, j: nat, p: nat)
    requires InsideCode(b) && j < |b.instrs| && AtInstr(b, j, p) && p < |CodeOf(b)| && CodeOf(b)[p] == JUMPDEST_CODE
    ensures b.instrs[j].op == "JUMPDEST" && SizeBefore(b.instrs, j) == p
  {
    hide AllReady, MachineCodes, NoData, CodeOf, PieceOf, SizeBefore;
    InstrBytes(b, j);
    var piece, pc := PieceOf(b.unit.t, b.instrs[j]).bytes, SizeBefore(b.instrs, j);
    ByteOf(CodeOf(b), pc, piece, p - pc);
  }

  /** In a program without #bytes, the valid destinations are exactly the positions of JUMPDEST instructions. */
  lemma DestinationsExact(b: Built, p: nat)
    requires AllReady(b) && MachineCodes(b.unit.t) && NoData(b)
    ensures ValidDestination(CodeOf(b), p) <==>
            exists k :: 0 <= k < |b.instrs| && b.instrs[k].op == "JUMPDEST" && SizeBefore(b.instrs, k) == p
  {
    hide AllReady, MachineCodes, NoData, CodeOf, Visits, InsideCode, AtInstr, SizeBefore;
    CodeSize(b);
    if ValidDestination(CodeOf(b), p) {
      var j := VisitedWhere(b, p);
      VisitedDest(b, j, p);
    }
    if k :| 0 <= k < |b.instrs| && b.instrs[k].op == "JUMPDEST" && SizeBefore(b.instrs, k) == p {
      JumpDestValid(b, k);
    }
  }

  // ----- where labels are destinations -----

  /**
   * The next instruction that has a size is a JUMPDEST. Before sizes and positions are known, this
   * tells whether the offset of a label will be a destination.
   */
  predicate MeetsDest(instrs: seq<Instr>, k: nat)
    decreases |instrs| - k
  {
    k < |instrs| && (instrs[k].op == "JUMPDEST" || (instrs[k].op == "" && MeetsDest(instrs, k + 1)))
  }

  lemma EmptyInstr(b: Built, k: nat)
    requires AllReady(b) && MachineCodes(b.unit.t) && NoData(b) && k < |b.instrs| && b.instrs[k].op == ""
    ensures SizeBefore(b.instrs, k + 1) == SizeBefore(b.instrs, k)
  {
    InstrBytes(b, k);
    hide AllReady, MachineCodes, NoData, CodeOf, PieceOf, SizeBefore;
  }

  /** The position of an instruction is a valid destination exactly if it meets a JUMPDEST. */
  lemma {:induction false} DestinationAt(b: Built, k: nat)
    requires AllReady(b) && MachineCodes(b.unit.t) && NoData(b) && k <= |b.instrs|
    ensures ValidDestination(CodeOf(b), SizeBefore(b.instrs, k)) <==> MeetsDest(b.instrs, k)
    decreases |b.instrs| - k
  {
    hide AllReady, MachineCodes, NoData, CodeOf, Visits, SizeBefore;
    if k == |b.instrs| {
      CodeSize(b);
    } else if b.instrs[k].op == "" {
      DestinationAt(b, k + 1);
      EmptyInstr(b, k);
    } else {
      OpcodeAt(b, k);
      if b.instrs[k].op == "JUMPDEST" {
        JumpDestValid(b, k);
      }
    }
  }

  lemma {:induction false} MeetsSameOps(a: seq<Instr>, b: seq<Instr>, k: nat)
    requires |a| == |b| && forall j :: 0 <= j < |a| ==> a[j].op == b[j].op
    ensures MeetsDest(a, k) == MeetsDest(b, k)
    decreases |a| - k
  {
    if k < |a| {
      MeetsSameOps(a, b, k + 1);
    }
  }

  /** The offset of a label is a valid destination exactly if its instruction meets a JUMPDEST in the expanded program. */
  lemma LabelIsDestination(b: Built, l: nat)
    requires AllReady(b) && MachineCodes(b.unit.t) && NoData(b) && HasPlaces(b) && l < |b.prog.labels|
    ensures ValidDestination(CodeOf(b), OffsetOf(b, l)) <==> MeetsDest(b.prog.instrs, b.prog.places[l])
  {
    DestinationAt(b, b.prog.places[l]);
    hide Ready, MachineCodes, NoData, CodeOf, Visits, SizeBefore, TableOf, MeetsDest;
    MeetsSameOps(b.instrs, b.prog.instrs, b.prog.places[l]);
  }

  // ----- jumps with a label -----

  /** Instruction k is a jump with a label argument. */
  ghost predicate LabelJump(b: Built, k: nat)
    requires k < |b.instrs|
  {
    !IsPush(b.instrs[k].op) && b.instrs[k].op != BYTES && b.instrs[k].arg.Some?
  }

  lemma PairOf(i: Input, k: nat)
    requires ValidTarget(i.t) && Build(i).errors == [] && k < |Build(i).instrs| && LabelJump(Build(i), k)
    ensures var b := Build(i);
            && k > 0 && |b.instrs| <= |b.unit.scopes|
            && b.instrs[k - 1].op == "PUSH" && b.instrs[k - 1].arg == b.instrs[k].arg
            && b.instrs[k].arg.value.LabelRefExpr? && !b.instrs[k].arg.value.dotted
            && b.unit.scopes[k - 1] == b.unit.scopes[k]
            && LocalTarget(b.prog, b.instrs[k].arg.value.ident, b.unit.scopes[k].doc)
  {
    BuildFinished(i);
    BuildReady(i);
    var b := Build(i);
    hide Build, Ready, LocalTarget, Fits, JumpDestAt, Iterate, SizeBefore;
    assert JumpPair(i.t, b.prog, k);
  }

  lemma PushedReady(b: Built, k: nat)
    requires AllReady(b) && 0 < k < |b.instrs| && b.instrs[k - 1].op == "PUSH" && b.instrs[k - 1].arg.Some?
    ensures PushReady(b.unit, FinalLabels(b), b.unit.scopes[k - 1], b.instrs[k - 1])
  {
    assert IsPush("PUSH") by { assert "PUSH"[..4] == "PUSH"; }
    assert "PUSH" != BYTES by { assert "PUSH"[0] != BYTES[0]; }
    hide PushReady, FinalLabels, SizeBefore, IsPush;
  }

  /** The offset of label l is pushed right before the jump at k. */
  ghost predicate LeadsTo(b: Built, k: nat, l: nat)
    requires 0 < k < |b.instrs| && l < |b.prog.labels| == |b.prog.places| && b.prog.places[l] < |b.instrs|
  {
    && b.instrs[k - 1].op == "PUSH"
    && b.instrs[k - 1].data == MinimalBytes(OffsetOf(b, l))
    && |b.instrs[k - 1].data| <= b.instrs[k - 1].dataSize <= 32
  }

  /** The label instance that jump k names. */
  ghost predicate Names(b: Built, k: nat, l: nat)
    requires k < |b.instrs| && k < |b.unit.scopes|
  {
    && b.instrs[k].arg.Some? && b.instrs[k].arg.value.LabelRefExpr?
    && var ident, doc := b.instrs[k].arg.value.ident, b.unit.scopes[k].doc;
    var def := FindLabel(b.unit.w, ident, doc);
    def.Some? && Denotes(b.prog, ident, def.value, doc, l)
  }

  /** The pushed value of an unconditional reference is the offset of the label that it denotes. */
  lemma PushedLabel(b: Built, scope: Scope, ident: string, push: Instr) returns (l: nat)
    requires HasPlaces(b) && push.arg == Some(LabelRefExpr(ident, false))
    requires PushReady(b.unit, FinalLabels(b), scope, push)
    ensures FindLabel(b.unit.w, ident, scope.doc).Some?
    ensures Denotes(b.prog, ident, FindLabel(b.unit.w, ident, scope.doc).value, scope.doc, l)
    ensures l < |b.prog.labels| && push.data == MinimalBytes(OffsetOf(b, l))
  {
    var def := FindLabel(b.unit.w, ident, scope.doc);
    ReferencePushed(b, scope, ident, push);
    hide FindLabel, MinimalBytes, SizeBefore, Denotes, TableOf, ReferenceValue, OffsetOf, PushReady;
    FoundDef(b, ident, scope.doc);
    l := DenotedBy(b, ident, scope.doc, def.value);
    ReferenceOffset(b, ident, false, scope.doc, def.value, l);
  }

  lemma FoundDef(b: Built, ident: string, doc: nat)
    ensures forall def :: RefersTo(b, ident, false, doc, def) <==> FindLabel(b.unit.w, ident, doc) == Some(def)
  {
    hide LookupLabel;
  }

  lemma DenotedBy(b: Built, ident: string, doc: nat, def: LabelDef) returns (l: nat)
    requires HasPlaces(b) && FindLabel(b.unit.w, ident, doc) == Some(def) && ReferenceValue(b, ident, false, doc).Known?
    ensures Denotes(b.prog, ident, def, doc, l)
  {
    FoundDef(b, ident, doc);
    hide FindLabel, RefersTo, Denotes, ReferenceValue;
    ReferenceKnown(b, ident, false, doc);
    var d, k :| RefersTo(b, ident, false, doc, d) && Denotes(b.prog, ident, d, doc, k);
    l := k;
  }

  lemma ReferencePushed(b: Built, scope: Scope, ident: string, push: Instr)
    requires push.arg == Some(LabelRefExpr(ident, false)) && PushReady(b.unit, FinalLabels(b), scope, push)
    ensures FindLabel(b.unit.w, ident, scope.doc).Some?
    ensures var v := ReferenceValue(b, ident, false, scope.doc); v.Known? && v.value.num >= 0 && push.data == MinimalBytes(v.value.num)
  {
    hide FindLabel, MinimalBytes, SizeBefore, Instance, FinalLabels;
  }

  /** The facts about a finished program that jumps rest on. */
  ghost predicate Jumpable(b: Built) {
    AllReady(b) && MachineCodes(b.unit.t) && NoData(b) && HasPlaces(b)
  }

  /** The offset of label l is pushed for the jump at k, and is a destination exactly if it meets a JUMPDEST. */
  ghost predicate LandsAt(b: Built, k: nat, l: nat) {
    && HasPlaces(b) && 0 < k < |b.instrs| && k < |b.unit.scopes| && l < |b.prog.labels|
    && Names(b, k, l) && LeadsTo(b, k, l)
    && (ValidDestination(CodeOf(b), OffsetOf(b, l)) <==> MeetsDest(b.prog.instrs, b.prog.places[l]))
  }

  lemma PairLands(b: Built, k: nat, ident: string) returns (l: nat)
    requires Jumpable(b) && 0 < k < |b.instrs| && |b.instrs| <= |b.unit.scopes|
    requires b.instrs[k - 1].op == "PUSH" && b.instrs[k - 1].arg == b.instrs[k].arg == Some(LabelRefExpr(ident, false))
    requires b.unit.scopes[k - 1] == b.unit.scopes[k]
    ensures LandsAt(b, k, l)
  {
    PushedReady(b, k);
    assert b.instrs[k - 1].data == b.instrs[k - 1].data && |b.instrs[k - 1].data| <= b.instrs[k - 1].dataSize <= 32;
    hide AllReady, NoData, FinalLabels, MachineCodes, ValidDestination, SizeBefore, Denotes, FindLabel, MeetsDest, CodeOf, TableOf, MinimalBytes;
    l := PushedLabel(b, b.unit.scopes[k], ident, b.instrs[k - 1]);
    hide PushReady, OffsetOf;
    LabelIsDestination(b, l);
  }

  /**
   * Every accepted jump to a label pushes the offset of the label instance that it denotes. This is a
   * valid destination exactly if the next instruction with a size after the label is a JUMPDEST.
   */
  lemma JumpsLand(i: Input, k: nat) returns (l: nat)
    requires MachineCodes(i.t) && Build(i).errors == [] && NoData(Build(i))
    requires k < |Build(i).instrs| && LabelJump(Build(i), k)
    ensures LandsAt(Build(i), k, l)
  {
    var b := Build(i);
    BuildReady(i);
    BuildHasPlaces(i);
    BuiltFor(i);
    PairOf(i, k);
    hide Build, AllReady, HasPlaces, NoData, MachineCodes, LandsAt, LocalTarget;
    l := PairLands(b, k, b.instrs[k].arg.value.ident);
  }

  // ----- labels that are no destinations -----

  lemma GlobalsAreGlobal(t: Target, q: Prog, name: string)
    requires Finished(t, q) && name in GlobalDefs(q)
    ensures IsGlobal(name)
  {
    hide Fits, JumpPair, JumpDestAt, Iterate;
  }

  /** The definition that a local label reference leads to is the one that was checked during expansion. */
  lemma LocalDefinition(i: Input, ident: string, doc: nat)
    requires ValidTarget(i.t) && !IsGlobal(ident) && LocalTarget(Build(i).prog, ident, doc)
    ensures FindLabel(Build(i).unit.w, ident, doc).Some? && !FindLabel(Build(i).unit.w, ident, doc).value.dotted
  {
    BuildFinished(i);
    var b := Build(i);
    hide Build, Finished, LabelIn;
    if ident in GlobalDefs(b.prog) {
      GlobalsAreGlobal(i.t, b.prog, ident);
    }
  }

  lemma PlainMeetsDest(i: Input, l: nat)
    requires ValidTarget(i.t) && l < |Build(i).prog.labels| && !Build(i).prog.labels[l].def.dotted
    ensures |Build(i).prog.places| == |Build(i).prog.labels| && MeetsDest(Build(i).prog.instrs, Build(i).prog.places[l])
  {
    BuildFinished(i);
    hide Build, Fits, JumpPair, Iterate;
    assert JumpDestAt(Build(i).prog, l);
  }

  /**
   * A jump can only fail to land if it names a global label and the instance of the label is dotted.
   * All jumps to local labels land.
   */
  lemma OnlyDottedGlobalsFail(i: Input, k: nat) returns (l: nat)
    requires MachineCodes(i.t) && Build(i).errors == [] && NoData(Build(i))
    requires k < |Build(i).instrs| && LabelJump(Build(i), k)
    ensures var b := Build(i);
            && LandsAt(b, k, l)
            && (!ValidDestination(CodeOf(b), OffsetOf(b, l)) ==>
                  IsGlobal(b.instrs[k].arg.value.ident) && IsGlobal(b.prog.labels[l].def.ident) && b.prog.labels[l].def.dotted)
  {
    l := JumpsLand(i, k);
    var b := Build(i);
    assert IsGlobal(b.instrs[k].arg.value.ident) <==> IsGlobal(b.prog.labels[l].def.ident);
    if !IsGlobal(b.instrs[k].arg.value.ident) {
      PairOf(i, k);
      LocalDefinition(i, b.instrs[k].arg.value.ident, b.unit.scopes[k].doc);
    }
    hide Build, ValidDestination, MeetsDest, CodeOf;
    if !b.prog.labels[l].def.dotted {
      PlainMeetsDest(i, l);
    }
  }
}
