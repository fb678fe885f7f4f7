/** Assembling the disassembly of a byte string: when it gives the same bytes. */
module DisasmRoundTrip {
  import opened Base
  import opened Numerals
  import opened Lzint
  import opened EvmOps
  import opened InstructionSets
  import opened Ast
  import opened Evaluator
  import opened CompilerProg
  import opened Expansion
  import opened Relaxation
  import opened Assembly
  import opened CodeOutput
  import opened JumpTargets
  import opened Disassembler
  import opened DisasmParses
  import CodeParser
  import Lexer

  /** An instruction set whose disassembly can be assembled: operations with immediates are no jumps. */
  ghost predicate RoundTripTarget(t: Target) {
    && MachineCodes(t) && Printable(t.fork)
    && forall name :: name in t.fork.byName && IsJump(t, name) ==> !t.fork.byName[name].hasImmediate
  }

  /** A document without definitions. */
  const PLAIN_DOCUMENT: Document := Document(None, map[], map[], map[])

  function PlainProgram(stmts: seq<Stmt>): Program {
    Program([PLAIN_DOCUMENT], PLAIN_DOCUMENT, [], [], 0, stmts)
  }

  /** A byte that is printed with a single hex digit. */
  predicate ShortLine(line: Line) {
    (line.InvalidLine? || line.BadImmediateLine?) && line.byte < 16
  }

  // ----- the instruction of a line -----

  function LineInstr(line: Line): Instr {
    match line
    case OpLine(op) => NewInstr(op.name, None)
    case PushLine(op, data) => NewInstr(op.name, Some(NumExpr("0x" + HexText(data))))
    case ImmediateLine(op, imm) => NewInstr(op.name, None).(data := [imm], dataSize := 1)
    case TruncatedLine(_, code) => NewInstr(BYTES, Some(NumExpr("0x" + HexText(code))))
    case BadImmediateLine(_, b) => NewInstr(BYTES, Some(NumExpr(ShortHex(b))))
    case InvalidLine(b) => NewInstr(BYTES, Some(NumExpr(ShortHex(b))))
  }

  /** What is known of an operation that a line names. */
  lemma OpFacts(t: Target, op: Op)
    requires RoundTripTarget(t) && KnownOp(t.fork, op)
    ensures op.name in t.fork.byName && t.fork.byName[op.name] == op && op.name != BYTES && op.name != ""
    ensures op.push <==> IsPush(op.name)
    ensures op.push ==> PushWidth(op) <= 32 && op.name == PushName(PushWidth(op)) && ExplicitSize(op.name) == Some(PushWidth(op))
    ensures op.push ==> !IsJump(t, op.name) && !op.hasImmediate
    ensures IsJump(t, op.name) ==> !op.hasImmediate
  {
    assert NameText(t.fork.byCode[op.code].name);
    if op.push {
      var n: nat :| n <= 32 && op.name == PushName(n);
      PushNameSize(n);
      PushNameSized(n);
    }
    hide PushSize, PushName, ExplicitSize, NameText, IsPush;
  }

  lemma OpLineExpands(t: Target, p: Program, prog: Prog, op: Op, doc: nat)
    requires RoundTripTarget(t) && ValidLine(t.fork, OpLine(op))
    ensures ExpandOpcode(t, p, prog, op.name, None, [], doc) == (AddInstruction(prog, NewInstr(op.name, None)), None)
  {
    OpFacts(t, op);
    PushZeroName();
    hide RoundTripTarget, IsPush, IsJump, PushName, PushWidth, AddInstruction, ExplicitSize;
  }

  lemma PushLineExpands(t: Target, p: Program, prog: Prog, op: Op, data: seq<Byte>, arg: Expr, doc: nat)
    requires RoundTripTarget(t) && ValidLine(t.fork, PushLine(op, data))
    ensures ExpandOpcode(t, p, prog, op.name, Some(arg), [], doc) == (AddInstruction(prog, NewInstr(op.name, Some(arg))), None)
  {
    OpFacts(t, op);
    PushNameSize(0);
    PushZeroName();
    PushNameSized(0);
    hide RoundTripTarget, IsPush, IsJump, PushName, PushWidth, AddInstruction, ExplicitSize;
  }

  lemma ImmediateLineExpands(t: Target, p: Program, prog: Prog, op: Op, imm: Byte, doc: nat)
    requires RoundTripTarget(t) && ValidLine(t.fork, ImmediateLine(op, imm))
    ensures ExpandOpcode(t, p, prog, op.name, None, DecodeImmediate(op.name, imm), doc)
            == (AddInstruction(prog, NewInstr(op.name, None).(data := [imm], dataSize := 1)), None)
  {
    OpFacts(t, op);
    EncodeDecoded(op.name, imm);
    DecodedBounds(op.name, imm);
    hide RoundTripTarget, IsPush, IsJump, PushName, PushWidth, AddInstruction, ExplicitSize, EncodeImmediateArgs, DecodeImmediate, ValidImmediate;
  }

  lemma OpcodeStmtExpands(t: Target, p: Program, op: string, arg: Option<Expr>, immediates: seq<int>, doc: nat, st: Expanding, inst: Instr)
    requires HasSection(st.prog)
    requires ExpandOpcode(t, p, st.prog, op, arg, immediates, doc) == (AddInstruction(st.prog, inst), None)
    ensures ExpandStmt(t, p, OpcodeStmt(op, arg, immediates), doc, st) == st.(prog := AddInstruction(st.prog, inst))
  {
    hide ExpandOpcode, AddInstruction;
  }

  lemma BytesStmtExpands(t: Target, p: Program, value: Expr, doc: nat, st: Expanding)
    requires HasSection(st.prog)
    ensures ExpandStmt(t, p, BytesStmt(value, None), doc, st) == st.(prog := AddInstruction(st.prog, NewInstr(BYTES, Some(value))))
  {
    hide AddInstruction, NewInstr;
  }

  /** The statement and the instruction of a line of data. */
  lemma DataLine(line: Line) returns (value: Expr)
    requires line.TruncatedLine? || line.BadImmediateLine? || line.InvalidLine?
    ensures StmtOf(line) == BytesStmt(value, None) && LineInstr(line) == NewInstr(BYTES, Some(value))
  {
    hide NumExpr, HexText, ShortHex;
    value := StmtOf(line).value;
  }

  lemma CodeLine(line: Line)
    ensures line.OpLine? ==> StmtOf(line) == OpcodeStmt(line.op.name, None, []) && LineInstr(line) == NewInstr(line.op.name, None)
    ensures line.PushLine? ==>
              && StmtOf(line) == OpcodeStmt(line.op.name, Some(NumExpr("0x" + HexText(line.data))), [])
              && LineInstr(line) == NewInstr(line.op.name, Some(NumExpr("0x" + HexText(line.data))))
    ensures line.ImmediateLine? ==>
              && StmtOf(line) == OpcodeStmt(line.op.name, None, DecodeImmediate(line.op.name, line.imm))
              && LineInstr(line) == NewInstr(line.op.name, None).(data := [line.imm], dataSize := 1)
  {
    hide NumExpr, HexText, DecodeImmediate;
  }

  /** Every line adds one instruction, and no error. */
  lemma LineExpands(t: Target, p: Program, line: Line, doc: nat, st: Expanding)
    requires RoundTripTarget(t) && ValidLine(t.fork, line) && HasSection(st.prog)
    ensures ExpandStmt(t, p, StmtOf(line), doc, st) == st.(prog := AddInstruction(st.prog, LineInstr(line)))
  {
    hide *;
    CodeLine(line);
    match line
    case OpLine(op) =>
      OpLineExpands(t, p, st.prog, op, doc);
      OpcodeStmtExpands(t, p, op.name, None, [], doc, st, LineInstr(line));
    case PushLine(op, data) =>
      var arg := NumExpr("0x" + HexText(data));
      PushLineExpands(t, p, st.prog, op, data, arg, doc);
      OpcodeStmtExpands(t, p, op.name, Some(arg), [], doc, st, LineInstr(line));
    case ImmediateLine(op, imm) =>
      ImmediateLineExpands(t, p, st.prog, op, imm, doc);
      OpcodeStmtExpands(t, p, op.name, None, DecodeImmediate(op.name, imm), doc, st, LineInstr(line));
    case TruncatedLine(_, _) =>
      var value := DataLine(line);
      BytesStmtExpands(t, p, value, doc, st);
    case BadImmediateLine(_, _) =>
      var value := DataLine(line);
      BytesStmtExpands(t, p, value, doc, st);
    case InvalidLine(_) =>
      var value := DataLine(line);
      BytesStmtExpands(t, p, value, doc, st);
  }

  // ----- items: lines and labels with positions -----

  function ItemInstr(x: Item): Instr {
    if x.LabelItem? then NewInstr("", None).(assertedPC := Some(x.pc)) else LineInstr(x.line)
  }

  function ItemBytes(x: Item): seq<Byte> {
    if x.LabelItem? then [] else LineBytes(x.line)
  }

  function AllItemBytes(items: seq<Item>): seq<Byte> {
    if items == [] then [] else ItemBytes(items[0]) + AllItemBytes(items[1..])
  }

  predicate ValidItem(t: OpTable, x: Item) {
    x.LineItem? ==> ValidLine(t, x.line)
  }

  ghost predicate ValidItems(t: OpTable, items: seq<Item>) {
    forall i :: 0 <= i < |items| ==> ValidItem(t, items[i])
  }

  function ItemInstrs(items: seq<Item>): (r: seq<Instr>)
    ensures |r| == |items| && forall k :: 0 <= k < |r| ==> r[k] == ItemInstr(items[k])
  {
    seq(|items|, k requires 0 <= k < |items| => ItemInstr(items[k]))
  }

  /** A program without labels, with one section. */
  ghost predicate NoLabelsYet(p: Prog) {
    p.currentLabels == [] && HasSection(p)
  }

  lemma PCLabelExpands(t: Target, p: Program, pc: nat, doc: nat, st: Expanding)
    requires HasSection(st.prog)
    ensures ExpandStmt(t, p, PCLabelStmt(pc), doc, st)
            == st.(prog := AddInstruction(st.prog, NewInstr("", None).(assertedPC := Some(pc))))
  {
    hide AddInstruction;
  }

  /** Every item adds one instruction, and no error. */
  lemma ItemExpands(t: Target, p: Program, x: Item, doc: nat, st: Expanding)
    requires RoundTripTarget(t) && ValidItem(t.fork, x) && HasSection(st.prog)
    ensures ExpandStmt(t, p, ItemStmt(x), doc, st) == st.(prog := AddInstruction(st.prog, ItemInstr(x)))
  {
    hide ExpandStmt, AddInstruction, RoundTripTarget, ValidLine, StmtOf, LineInstr;
    if x.LabelItem? {
      PCLabelExpands(t, p, x.pc, doc, st);
    } else {
      LineExpands(t, p, x.line, doc, st);
    }
  }

  /** What the expansion of items adds to a program. */
  ghost predicate ExpandedBy(before: Expanding, after: Expanding, instrs: seq<Instr>) {
    && after.errors == before.errors && NoLabelsYet(after.prog)
    && after.prog.instrs == before.prog.instrs + instrs && |after.prog.owners| == |after.prog.instrs|
  }

  lemma {:induction false} ItemsExpand(t: Target, p: Program, items: seq<Item>, doc: nat, st: Expanding)
    requires RoundTripTarget(t) && ValidItems(t.fork, items) && NoLabelsYet(st.prog) && |st.prog.owners| == |st.prog.instrs|
    requires HasSection(st.prog)
    ensures ExpandedBy(st, Expand(t, p, Stmts(items), doc, st), ItemInstrs(items))
    decreases |items|
  {
    hide *;
    if items == [] {
      NothingExpands(t, p, doc, st);
    } else {
      var x, more := items[0], items[1..];
      ItemsSplit(t, items);
      ItemExpands(t, p, x, doc, st);
      var next := st.(prog := AddInstruction(st.prog, ItemInstr(x)));
      AddedItem(st, x);
      ItemsExpand(t, p, more, doc, next);
      ExpandFirst(t, p, Stmts(items), doc, st);
      ExpandedTwice(st, next, Expand(t, p, Stmts(more), doc, next), ItemInstr(x), ItemInstrs(more));
    }
  }

  lemma NothingExpands(t: Target, p: Program, doc: nat, st: Expanding)
    requires NoLabelsYet(st.prog) && |st.prog.owners| == |st.prog.instrs| && HasSection(st.prog)
    ensures ExpandedBy(st, Expand(t, p, Stmts([]), doc, st), ItemInstrs([]))
  {
    assert st.prog.instrs + [] == st.prog.instrs;
  }

  lemma ItemsSplit(t: Target, items: seq<Item>)
    requires items != [] && ValidItems(t.fork, items)
    ensures ValidItem(t.fork, items[0]) && ValidItems(t.fork, items[1..])
    ensures Stmts(items) != [] && Stmts(items)[0] == ItemStmt(items[0]) && Stmts(items)[1..] == Stmts(items[1..])
    ensures ItemInstrs(items) == [ItemInstr(items[0])] + ItemInstrs(items[1..])
  {
    hide ValidItem, ItemStmt, ItemInstr;
  }

  lemma AddedItem(st: Expanding, x: Item)
    requires NoLabelsYet(st.prog) && |st.prog.owners| == |st.prog.instrs|
    ensures var next := st.(prog := AddInstruction(st.prog, ItemInstr(x)));
            ExpandedBy(st, next, [ItemInstr(x)]) && NoLabelsYet(next.prog) && HasSection(next.prog) && |next.prog.owners| == |next.prog.instrs|
  {
    hide ItemInstr;
  }

  lemma ExpandedTwice(a: Expanding, b: Expanding, c: Expanding, inst: Instr, more: seq<Instr>)
    requires ExpandedBy(a, b, [inst]) && ExpandedBy(b, c, more)
    ensures ExpandedBy(a, c, [inst] + more)
  {
    assert a.prog.instrs + [inst] + more == a.prog.instrs + ([inst] + more);
  }

  lemma ExpandFirst(t: Target, p: Program, stmts: seq<Stmt>, doc: nat, st: Expanding)
    requires HasSection(st.prog) && stmts != []
    ensures Expand(t, p, stmts, doc, st) == Expand(t, p, stmts[1..], doc, ExpandStmt(t, p, stmts[0], doc, st))
  {
    hide ExpandStmt;
  }

  /** The instructions of a program made of items. */
  lemma ProgramExpands(t: Target, items: seq<Item>)
    requires RoundTripTarget(t) && ValidItems(t.fork, items)
    ensures var r := ExpandProgram(t, PlainProgram(Stmts(items)));
            r.errors == [] && r.prog.instrs == ItemInstrs(items) && |r.prog.owners| == |r.prog.instrs|
  {
    var p := PlainProgram(Stmts(items));
    var st := Expanding(NewProg(p.docs, p.top), {}, []);
    hide Expand, RoundTripTarget, ItemInstrs;
    ItemsExpand(t, p, items, p.top, st);
  }

  // ----- arguments -----

  lemma NumEvaluates(u: Unit, labels: Labels, scope: Scope, text: string)
    requires Literal(text).Ok?
    ensures EvalArg(u, labels, scope, NumExpr(text)) == Known(Literal(text).value)
  {
    hide Literal;
  }

  lemma HexData(data: seq<Byte>)
    requires data != []
    ensures var v := Literal("0x" + HexText(data));
            v.Ok? && Bytes(v.value) == Ok(data) && v.value.num == BytesToInt(data)
  {
    HexLiteralBytes(HexText(data));
    HexBytesOfText(data);
    HexLiteralValue(HexText(data));
    HexBytesValue(HexText(data));
    hide Literal, HexText, HexBytes, DigitsOf, FromBase, Bytes;
  }

  /** Padding the shortest form of a number gives back its bytes. */
  lemma PaddedBytes(data: seq<Byte>)
    ensures |MinimalBytes(BytesToInt(data))| <= |data|
    ensures ZeroBytes(|data| - |MinimalBytes(BytesToInt(data))|) + MinimalBytes(BytesToInt(data)) == data
  {
    DigitsSplit(256, data);
    ByteCount(BytesToInt(data));
    hide FromBase, ToBase, DigitCount, LeadingZeros, BitLen;
  }

  /** An instruction that is ready, and puts out the bytes of a line. */
  ghost predicate Assembled(t: Target, line: Line, inst: Instr) {
    && !LabelDependent(inst) && inst.assertedPC.None? && EncodedSize(inst) == |LineBytes(line)|
    && forall pc: nat :: PieceOf(t, AtPC(inst, pc)) == Code(LineBytes(line))
  }

  lemma PushAssigned(t: Target, inst: Instr, data: seq<Byte>)
    requires ExplicitSize(inst.op) == Some(|data|) && inst.dataSize == |data| <= 32
    ensures AssignPushArg(t, inst, BytesToInt(data), true) == (inst.(data := MinimalBytes(BytesToInt(data))), None)
  {
    PaddedBytes(data);
    hide ExplicitSize, MinimalBytes, BytesToInt, ZeroBytes;
  }

  lemma PushPreEvaluated(u: Unit, scope: Scope, inst: Instr, v: Value)
    requires inst.op != BYTES && IsPush(inst.op) && inst.arg.Some? && ExplicitSize(inst.op).Some?
    requires EvalArg(u, NoLabels, scope, inst.arg.value) == Known(v)
    ensures PreEvaluated(u, scope, inst)
            == AssignPushArg(u.t, inst.(argNoLabels := true, dataSize := ExplicitSize(inst.op).value), v.num, true)
  {
    hide ExplicitSize, AssignPushArg, EvalArg, IsPush;
  }

  /** The argument of a push is known from the start, and its size is that of the name. */
  lemma PushEvaluated(u: Unit, scope: Scope, op: Op, data: seq<Byte>)
    requires RoundTripTarget(u.t) && ValidLine(u.t.fork, PushLine(op, data))
    ensures PreEvaluated(u, scope, LineInstr(PushLine(op, data)))
            == (LineInstr(PushLine(op, data)).(argNoLabels := true, dataSize := |data|, data := MinimalBytes(BytesToInt(data))), None)
  {
    OpFacts(u.t, op);
    HexData(data);
    NumEvaluates(u, NoLabels, scope, "0x" + HexText(data));
    CodeLine(PushLine(op, data));
    hide RoundTripTarget, Literal, HexText, EvalArg, ExplicitSize, MinimalBytes, BytesToInt, IsPush, PushName, NumExpr, Bytes, IsJump, PushWidth, PreEvaluated, AssignPushArg, LineInstr;
    var inst := LineInstr(PushLine(op, data));
    PushPreEvaluated(u, scope, inst, Literal("0x" + HexText(data)).value);
    PushAssigned(u.t, inst.(argNoLabels := true, dataSize := |data|), data);
  }

  lemma PushAssembled(u: Unit, scope: Scope, op: Op, data: seq<Byte>)
    requires RoundTripTarget(u.t) && ValidLine(u.t.fork, PushLine(op, data))
    ensures var (inst, e) := PreEvaluated(u, scope, LineInstr(PushLine(op, data)));
            e.None? && Assembled(u.t, PushLine(op, data), inst)
  {
    CodeLine(PushLine(op, data));
    OpFacts(u.t, op);
    PushNotPlain(op);
    hide PreEvaluated, RoundTripTarget, MinimalBytes, BytesToInt, Assembled, LineInstr, PushWidth, IsPush, IsJump, ExplicitSize, PushName, HexText, NumExpr;
    PushEvaluated(u, scope, op, data);
    PushedPiece(u.t, op, data, PreEvaluated(u, scope, LineInstr(PushLine(op, data))).0);
  }

  lemma PushNotPlain(op: Op)
    requires op.push && op.name == PushName(PushWidth(op))
    ensures op.name != "PUSH"
  {
    var digits := Decimal(PushWidth(op));
    assert op.name == "PUSH" + digits && digits != [];
  }

  /** The output of a push with a name of its own. */
  lemma NamedPushPiece(t: Target, op: Op, inst: Instr)
    requires IsPush(inst.op) && inst.op != BYTES && inst.op != "PUSH" && inst.op in t.fork.byName && t.fork.byName[inst.op] == op
    requires |inst.data| <= inst.dataSize <= 32
    ensures PieceOf(t, inst) == Code([op.code] + (ZeroBytes(inst.dataSize - |inst.data|) + inst.data))
  {
    hide IsPush;
    assert [op.code] + ZeroBytes(inst.dataSize - |inst.data|) + inst.data == [op.code] + (ZeroBytes(inst.dataSize - |inst.data|) + inst.data);
  }

  lemma PushedPiece(t: Target, op: Op, data: seq<Byte>, inst: Instr)
    requires RoundTripTarget(t) && KnownOp(t.fork, op) && op.push && inst.op == op.name && op.name != "PUSH"
    requires inst.dataSize == |data| <= 32 && inst.data == MinimalBytes(BytesToInt(data))
    requires inst.argNoLabels && inst.assertedPC.None?
    ensures Assembled(t, PushLine(op, data), inst)
  {
    OpFacts(t, op);
    PaddedBytes(data);
    hide RoundTripTarget, IsPush, MinimalBytes, BytesToInt, PushName, PushWidth, ExplicitSize, IsJump, PieceOf, ZeroBytes;
    forall pc: nat
      ensures PieceOf(t, AtPC(inst, pc)) == Code(LineBytes(PushLine(op, data)))
    {
      NamedPushPiece(t, op, AtPC(inst, pc));
    }
  }

  lemma ZeroPushPiece(t: Target, op: Op, pc: nat)
    requires RoundTripTarget(t) && ValidLine(t.fork, OpLine(op)) && op.push
    ensures PieceOf(t, AtPC(NewInstr(op.name, None), pc)) == Code([op.code])
  {
    OpFacts(t, op);
    PushNotPlain(op);
    hide RoundTripTarget, IsPush, PushName, PushWidth, ExplicitSize, IsJump;
    assert [op.code] + ZeroBytes(0) + [] == [op.code];
  }

  lemma OpPiece(t: Target, op: Op, pc: nat)
    requires RoundTripTarget(t) && KnownOp(t.fork, op) && !op.push
    ensures PieceOf(t, AtPC(NewInstr(op.name, None), pc)) == Code([op.code])
    ensures op.hasImmediate ==>
              forall imm: Byte :: PieceOf(t, AtPC(NewInstr(op.name, None).(data := [imm], dataSize := 1), pc)) == Code([op.code, imm])
  {
    OpFacts(t, op);
    hide RoundTripTarget, IsPush, PushName, PushWidth, ExplicitSize, IsJump, PushPiece;
  }

  lemma PlainPieceOf(t: Target, line: Line, pc: nat)
    requires RoundTripTarget(t) && ValidLine(t.fork, line) && (line.OpLine? || line.ImmediateLine?)
    ensures PieceOf(t, AtPC(LineInstr(line), pc)) == Code(LineBytes(line))
  {
    CodeLine(line);
    hide RoundTripTarget, PieceOf, AtPC, LineInstr, PushWidth, ValidImmediate;
    if line.op.push {
      ZeroPushPiece(t, line.op, pc);
    } else {
      OpPiece(t, line.op, pc);
    }
  }

  lemma PlainPreEvaluated(u: Unit, scope: Scope, inst: Instr)
    requires inst.op != BYTES && inst.arg.None?
    ensures PreEvaluated(u, scope, inst) == (inst, None) && !LabelDependent(inst)
  {
    hide PreEvaluatedBytes, PreEvaluatedPush, IsPush;
  }

  lemma PlainAssembled(u: Unit, scope: Scope, line: Line)
    requires RoundTripTarget(u.t) && ValidLine(u.t.fork, line) && (line.OpLine? || line.ImmediateLine?)
    ensures var (inst, e) := PreEvaluated(u, scope, LineInstr(line)); e.None? && Assembled(u.t, line, inst)
  {
    OpFacts(u.t, line.op);
    CodeLine(line);
    var inst := LineInstr(line);
    PlainPreEvaluated(u, scope, inst);
    hide RoundTripTarget, IsPush, ValidLine, PieceOf, AtPC, LineInstr, PushWidth, PreEvaluated, LabelDependent, PushName, ExplicitSize, IsJump;
    forall pc: nat
      ensures PieceOf(u.t, AtPC(inst, pc)) == Code(LineBytes(line))
    {
      PlainPieceOf(u.t, line, pc);
    }
  }

  /** Data is assembled as it was printed, if it was printed with an even number of digits. */
  lemma BytesAssembled(u: Unit, scope: Scope, line: Line, text: string)
    requires line.TruncatedLine? || line.BadImmediateLine? || line.InvalidLine?
    requires LineInstr(line) == NewInstr(BYTES, Some(NumExpr(text))) && Literal(text).Ok?
    ensures var (inst, e) := PreEvaluated(u, scope, LineInstr(line));
            if Bytes(Literal(text).value).Err? then e.Some?
            else e.None? && (Bytes(Literal(text).value).value == LineBytes(line) ==> Assembled(u.t, line, inst))
  {
    NumEvaluates(u, NoLabels, scope, text);
    BytesNoPush();
    hide Literal, EvalArg, NumExpr, Bytes, IsPush, LineInstr;
  }

  lemma ShortBytes(b: Byte)
    ensures Literal(ShortHex(b)).Ok?
    ensures b < 16 ==> Bytes(Literal(ShortHex(b)).value).Err?
    ensures b >= 16 ==> Bytes(Literal(ShortHex(b)).value) == Ok([b])
  {
    ShortHexText(b);
    HexLiteralParity(ShortHex(b)[2..]);
    if b >= 16 {
      assert ShortHex(b) == "0x" + HexText([b]);
      HexData([b]);
    }
    hide Literal, ShortHex, HexText, Bytes;
  }

  /** The literal of a line of data. */
  lemma DataText(line: Line) returns (text: string)
    requires line.TruncatedLine? ==> line.code != []
    requires line.TruncatedLine? || line.BadImmediateLine? || line.InvalidLine?
    ensures LineInstr(line) == NewInstr(BYTES, Some(NumExpr(text))) && Literal(text).Ok?
    ensures if ShortLine(line) then Bytes(Literal(text).value).Err? else Bytes(Literal(text).value) == Ok(LineBytes(line))
  {
    hide Literal, HexText, ShortHex, NumExpr, Bytes;
    match line
    case TruncatedLine(_, code) =>
      HexData(code);
      text := "0x" + HexText(code);
    case BadImmediateLine(_, b) =>
      ShortBytes(b);
      text := ShortHex(b);
    case InvalidLine(b) =>
      ShortBytes(b);
      text := ShortHex(b);
  }

  /** A line assembles to its bytes, unless it holds a byte printed with a single digit. */
  lemma LineAssembled(u: Unit, scope: Scope, line: Line)
    requires RoundTripTarget(u.t) && ValidLine(u.t.fork, line)
    ensures var (inst, e) := PreEvaluated(u, scope, LineInstr(line));
            if ShortLine(line) then e.Some? else e.None? && Assembled(u.t, line, inst)
  {
    hide PreEvaluated, Assembled, Literal, NumExpr, RoundTripTarget, LineInstr, Bytes;
    match line {
      case OpLine(_) => PlainAssembled(u, scope, line);
      case ImmediateLine(_, _) => PlainAssembled(u, scope, line);
      case PushLine(op, data) => PushAssembled(u, scope, op, data);
      case _ =>
        var text := DataText(line);
        BytesAssembled(u, scope, line, text);
    }
  }

  // ----- the whole program -----

  /** All instructions are known before labels are placed: relaxation has nothing to do. */
  lemma {:induction false} NothingToEvaluate(u: Unit, labels: Labels, instrs: seq<Instr>, k: nat)
    requires k <= |instrs| <= |u.scopes| && forall j :: 0 <= j < |instrs| ==> !LabelDependent(instrs[j])
    ensures EvaluateFrom(u, labels, instrs, k) == (instrs, Assigned)
    decreases |instrs| - k
  {
    hide LabelDependent;
    if k < |instrs| {
      assert instrs[k := instrs[k]] == instrs;
      NothingToEvaluate(u, labels, instrs, k + 1);
    }
  }

  lemma NothingToRelax(u: Unit, instrs: seq<Instr>)
    requires |instrs| <= |u.scopes| && forall j :: 0 <= j < |instrs| ==> !LabelDependent(instrs[j])
    ensures Relaxed(u, instrs) == (WithPCs(instrs), None)
  {
    hide SizeBefore, EvaluateFrom;
    var placed := WithPCs(instrs);
    forall j | 0 <= j < |placed|
      ensures !LabelDependent(placed[j])
    {
      assert placed[j] == AtPC(instrs[j], SizeBefore(instrs, j));
    }
    NothingToEvaluate(u, Placed(u.table, PCs(instrs)), placed, 0);
    hide WithPCs;
  }

  /** An instruction that puts out the bytes of an item. A label makes a claim about its position. */
  ghost predicate ItemAssembled(t: Target, x: Item, inst: Instr) {
    if x.LabelItem? then inst == ItemInstr(x) else Assembled(t, x.line, inst)
  }

  predicate ShortItem(x: Item) {
    x.LineItem? && ShortLine(x.line)
  }

  ghost predicate NoShortItem(items: seq<Item>) {
    forall k :: 0 <= k < |items| ==> !ShortItem(items[k])
  }

  lemma ItemReady(u: Unit, scope: Scope, x: Item)
    requires RoundTripTarget(u.t) && ValidItem(u.t.fork, x)
    ensures var (inst, e) := PreEvaluated(u, scope, ItemInstr(x));
            if ShortItem(x) then e.Some? else e.None? && ItemAssembled(u.t, x, inst)
  {
    if x.LabelItem? {
      BytesNoPush();
      hide IsPush;
    } else {
      hide PreEvaluated, ShortLine, RoundTripTarget, ValidLine, LineInstr, Assembled;
      LineAssembled(u, scope, x.line);
    }
  }

  /** What is true of assembled items of both kinds. */
  lemma AssembledFacts(t: Target, x: Item, inst: Instr, pc: nat)
    requires ItemAssembled(t, x, inst)
    ensures !LabelDependent(inst) && EncodedSize(inst) == |ItemBytes(x)| && PieceOf(t, AtPC(inst, pc)) == Code(ItemBytes(x))
    ensures inst.assertedPC == if x.LabelItem? then Some(x.pc) else None
  {
    if x.LabelItem? {
      BytesNoPush();
      hide IsPush;
    } else {
      hide LineBytes, PieceOf, LabelDependent, EncodedSize;
    }
  }

  lemma PreErrorsStep(u: Unit, instrs: seq<Instr>, n: nat)
    requires n < |instrs| <= |u.scopes|
    ensures PreErrors(u, instrs, n + 1) == [] <==> PreErrors(u, instrs, n) == [] && PreEvaluated(u, u.scopes[n], instrs[n]).1.None?
  {
    hide PreEvaluated;
  }

  /** The error of one item. */
  lemma ItemError(u: Unit, items: seq<Item>, k: nat)
    requires RoundTripTarget(u.t) && ValidItems(u.t.fork, items) && k < |items| <= |u.scopes|
    ensures PreEvaluated(u, u.scopes[k], ItemInstrs(items)[k]).1.None? <==> !ShortItem(items[k])
  {
    assert ValidItem(u.t.fork, items[k]);
    hide PreEvaluated, ShortItem, RoundTripTarget, ValidItem, ItemInstr, ItemAssembled;
    ItemReady(u, u.scopes[k], items[k]);
  }

  /** Errors before relaxation: one for each short line. */
  lemma {:induction false} ItemErrors(u: Unit, items: seq<Item>, n: nat)
    requires RoundTripTarget(u.t) && ValidItems(u.t.fork, items) && n <= |items| <= |u.scopes|
    ensures PreErrors(u, ItemInstrs(items), n) == [] <==> forall k :: 0 <= k < n ==> !ShortItem(items[k])
  {
    hide *;
    if n > 0 {
      ItemErrors(u, items, n - 1);
      PreErrorsStep(u, ItemInstrs(items), n - 1);
      ItemError(u, items, n - 1);
    } else {
      NoErrorsYet(u, ItemInstrs(items));
    }
  }

  lemma NoErrorsYet(u: Unit, instrs: seq<Instr>)
    requires |instrs| <= |u.scopes|
    ensures PreErrors(u, instrs, 0) == []
  {
  }

  ghost predicate AllAssembled(t: Target, items: seq<Item>, instrs: seq<Instr>) {
    |instrs| == |items| && forall k :: 0 <= k < |items| ==> ItemAssembled(t, items[k], instrs[k])
  }

  lemma ItemsAssembled(u: Unit, items: seq<Item>)
    requires RoundTripTarget(u.t) && ValidItems(u.t.fork, items) && |items| <= |u.scopes| && NoShortItem(items)
    ensures AllAssembled(u.t, items, PreInstrs(u, ItemInstrs(items)))
  {
    hide PreEvaluated, ShortItem, RoundTripTarget, ValidItem, ItemInstr, ItemAssembled;
    forall k | 0 <= k < |items|
      ensures ItemAssembled(u.t, items[k], PreInstrs(u, ItemInstrs(items))[k])
    {
      ItemReady(u, u.scopes[k], items[k]);
    }
  }

  // ----- positions -----

  lemma {:induction false} ItemBytesConcat(a: seq<Item>, b: seq<Item>)
    ensures AllItemBytes(a + b) == AllItemBytes(a) + AllItemBytes(b)
    decreases |a|
  {
    hide ItemBytes;
    if a == [] {
      assert a + b == b;
    } else {
      assert (a + b)[1..] == a[1..] + b;
      ItemBytesConcat(a[1..], b);
      assert ItemBytes(a[0]) + (AllItemBytes(a[1..]) + AllItemBytes(b)) == AllItemBytes(a) + AllItemBytes(b);
    }
  }

  lemma ItemBytesSnoc(items: seq<Item>, n: nat)
    requires 0 < n <= |items|
    ensures AllItemBytes(items[..n]) == AllItemBytes(items[..n - 1]) + ItemBytes(items[n - 1])
  {
    hide ItemBytes;
    assert items[..n] == items[..n - 1] + [items[n - 1]];
    ItemBytesConcat(items[..n - 1], [items[n - 1]]);
    assert AllItemBytes([items[n - 1]]) == ItemBytes(items[n - 1]) + [];
  }

  /** Every label claims the position that the bytes before it lead to. */
  ghost predicate Truthful(items: seq<Item>, pc: nat) {
    forall k :: 0 <= k < |items| && items[k].LabelItem? ==> items[k].pc == pc + |AllItemBytes(items[..k])|
  }

  lemma TruthfulStep(first: Item, more: seq<Item>, pc: nat)
    requires first.LabelItem? ==> first.pc == pc
    requires Truthful(more, pc + |ItemBytes(first)|)
    ensures Truthful([first] + more, pc)
  {
    hide ItemBytes;
    var items := [first] + more;
    forall k | 0 <= k < |items| && items[k].LabelItem?
      ensures items[k].pc == pc + |AllItemBytes(items[..k])|
    {
      if k > 0 {
        assert items[..k] == [first] + more[..k - 1];
        ItemBytesConcat([first], more[..k - 1]);
        assert AllItemBytes([first]) == ItemBytes(first) + [];
      }
    }
  }

  /** The items of the disassembly tell true positions, and stand for the bytes of the lines. */
  lemma {:induction false} ItemsTruthful(o: Options, t: OpTable, lines: seq<Line>, pc: nat)
    requires ValidLines(t, lines)
    ensures var items := Items(o, lines, pc); Truthful(items, pc) && ValidItems(t, items) && AllItemBytes(items) == AllBytes(lines)
    decreases |lines|
  {
    hide *;
    if lines == [] {
      NoItems(o, t, pc);
    } else {
      var line, next := lines[0], pc + |LineBytes(lines[0])|;
      FirstLineFacts(t, lines);
      ItemsTruthful(o, t, lines[1..], next);
      ItemsStep(o, lines, pc);
      ItemsOfLine(o, t, line, lines[1..], Items(o, lines[1..], next), pc);
      AllBytesStep(lines);
    }
  }

  lemma NoItems(o: Options, t: OpTable, pc: nat)
    ensures var items := Items(o, [], pc); Truthful(items, pc) && ValidItems(t, items) && AllItemBytes(items) == AllBytes([])
  {
  }

  lemma AllBytesStep(lines: seq<Line>)
    requires lines != []
    ensures AllBytes(lines) == LineBytes(lines[0]) + AllBytes(lines[1..])
  {
  }

  lemma OneMoreItem(t: OpTable, first: Item, more: seq<Item>, pc: nat)
    requires first.LabelItem? ==> first.pc == pc
    requires ValidItem(t, first) && ValidItems(t, more) && Truthful(more, pc + |ItemBytes(first)|)
    ensures var items := [first] + more;
            Truthful(items, pc) && ValidItems(t, items) && AllItemBytes(items) == ItemBytes(first) + AllItemBytes(more)
  {
    TruthfulStep(first, more, pc);
    assert ([first] + more)[1..] == more;
    hide ItemBytes, ValidItem, Truthful;
  }

  lemma ItemsOfLine(o: Options, t: OpTable, line: Line, lines: seq<Line>, more: seq<Item>, pc: nat)
    requires ValidLine(t, line) && Truthful(more, pc + |LineBytes(line)|) && ValidItems(t, more) && AllItemBytes(more) == AllBytes(lines)
    ensures var items := LabelItems(o, line, pc) + [LineItem(line)] + more;
            Truthful(items, pc) && ValidItems(t, items) && AllItemBytes(items) == LineBytes(line) + AllBytes(lines)
  {
    hide AllItemBytes, Truthful, LineBytes, ValidLine, Labelled, AllBytes, ValidItems;
    var one := [LineItem(line)] + more;
    OneMoreItem(t, LineItem(line), more, pc);
    if Labelled(o, OpOf(line)) {
      OneMoreItem(t, LabelItem(pc), one, pc);
      assert [LabelItem(pc)] + [LineItem(line)] + more == [LabelItem(pc)] + one;
      assert [] + AllItemBytes(one) == AllItemBytes(one);
    } else {
      assert [] + [LineItem(line)] + more == one;
    }
  }

  lemma {:induction false} ItemSizes(t: Target, items: seq<Item>, instrs: seq<Instr>, k: nat)
    requires AllAssembled(t, items, instrs) && k <= |items|
    ensures SizeBefore(instrs, k) == |AllItemBytes(items[..k])|
  {
    hide ItemAssembled, ItemBytes, EncodedSize;
    if k > 0 {
      ItemSizes(t, items, instrs, k - 1);
      AssembledFacts(t, items[k - 1], instrs[k - 1], 0);
      ItemBytesSnoc(items, k);
      hide AllItemBytes;
    }
  }

  /** All labels are where they claim to be. */
  lemma {:induction false} ClaimsHold(t: Target, items: seq<Item>, instrs: seq<Instr>, n: nat)
    requires AllAssembled(t, items, instrs) && Truthful(items, 0) && n <= |items|
    ensures PCErrors(WithPCs(instrs), n) == []
  {
    hide ItemAssembled, AllItemBytes, SizeBefore, PieceOf, LabelDependent, EncodedSize, ItemBytes;
    if n > 0 {
      ClaimsHold(t, items, instrs, n - 1);
      AssembledFacts(t, items[n - 1], instrs[n - 1], 0);
      ItemSizes(t, items, instrs, n - 1);
      assert WithPCs(instrs)[n - 1] == AtPC(instrs[n - 1], SizeBefore(instrs, n - 1));
    }
  }

  lemma {:induction false} ItemsGenerate(b: Built, items: seq<Item>, n: nat)
    requires AllReady(b) && CompleteTarget(b.unit.t) && n <= |items| == |b.instrs|
    requires forall k :: 0 <= k < |items| ==> PieceOf(b.unit.t, b.instrs[k]) == Code(ItemBytes(items[k]))
    ensures Generated(b.unit.t, b.instrs, n).Written? && Generated(b.unit.t, b.instrs, n).code == AllItemBytes(items[..n])
  {
    if n == 0 {
      assert items[..0] == [];
    } else {
      hide AllReady, CompleteTarget, PieceOf, ItemBytes, Generated, AllItemBytes, SizeBefore, EncodedSize;
      ItemsGenerate(b, items, n - 1);
      GeneratedStep(b, n);
      ItemBytesSnoc(items, n);
    }
  }

  // ----- compiling items -----

  /** The stages of compiling a program made of items. */
  ghost predicate BuiltFrom(b: Built, t: Target, items: seq<Item>) {
    && b.unit.t == t && |b.unit.scopes| == |items| && b.prog.instrs == ItemInstrs(items)
    && var pre := PreInstrs(b.unit, ItemInstrs(items));
    && b.instrs == Relaxed(b.unit, pre).0
    && b.errors == PreErrors(b.unit, ItemInstrs(items), |items|) + AsSeq(Relaxed(b.unit, pre).1) + PCErrors(b.instrs, |b.instrs|)
  }

  lemma UnitFacts(i: Input, q: Prog)
    ensures UnitOf(i, q).t == i.t && |UnitOf(i, q).scopes| == |q.owners|
  {
  }

  lemma BuildItems(i: Input, items: seq<Item>)
    requires RoundTripTarget(i.t) && ValidItems(i.t.fork, items) && i.p == PlainProgram(Stmts(items))
    ensures BuiltFrom(Build(i), i.t, items)
  {
    ProgramExpands(i.t, items);
    var r := ExpandProgram(i.t, i.p);
    UnitFacts(i, r.prog);
    hide ExpandProgram, RoundTripTarget, ValidItem, Relaxed, PreErrors, PCErrors, ItemInstrs, PreInstrs, Stmts, UnitOf, ValidItems, ItemInstr;
    assert r.errors + PreErrors(Build(i).unit, ItemInstrs(items), |items|) == PreErrors(Build(i).unit, ItemInstrs(items), |items|);
  }

  lemma PiecesOfItems(t: Target, items: seq<Item>, pre: seq<Instr>)
    requires AllAssembled(t, items, pre)
    ensures forall k :: 0 <= k < |pre| ==> !LabelDependent(pre[k])
    ensures forall k :: 0 <= k < |pre| ==> PieceOf(t, WithPCs(pre)[k]) == Code(ItemBytes(items[k]))
  {
    hide PieceOf, ItemBytes, LabelDependent, SizeBefore, ItemAssembled, EncodedSize;
    forall k | 0 <= k < |pre|
      ensures !LabelDependent(pre[k])
      ensures PieceOf(t, WithPCs(pre)[k]) == Code(ItemBytes(items[k]))
    {
      AssembledFacts(t, items[k], pre[k], SizeBefore(pre, k));
      assert WithPCs(pre)[k] == AtPC(pre[k], SizeBefore(pre, k));
    }
  }

  /** Without short lines nothing is left to relax, and there are no errors. */
  lemma BuiltWithoutError(b: Built, t: Target, items: seq<Item>)
    requires RoundTripTarget(t) && ValidItems(t.fork, items) && Truthful(items, 0) && BuiltFrom(b, t, items) && NoShortItem(items)
    ensures b.errors == [] && |b.instrs| == |items|
    ensures forall k :: 0 <= k < |items| ==> PieceOf(t, b.instrs[k]) == Code(ItemBytes(items[k]))
  {
    var pre := PreInstrs(b.unit, ItemInstrs(items));
    ItemsAssembled(b.unit, items);
    ItemErrors(b.unit, items, |items|);
    hide PreInstrs, ItemInstrs, PreErrors, PCErrors, Relaxed, RoundTripTarget, ValidItem, ShortItem, AllAssembled, PieceOf, ItemBytes, WithPCs, LabelDependent, Truthful;
    PiecesOfItems(t, items, pre);
    NothingToRelax(b.unit, pre);
    AssembledLength(t, items, pre);
    ClaimsHold(t, items, pre, |items|);
  }

  lemma AssembledLength(t: Target, items: seq<Item>, pre: seq<Instr>)
    requires AllAssembled(t, items, pre)
    ensures |pre| == |items| == |WithPCs(pre)|
  {
  }

  lemma BuiltWithError(b: Built, t: Target, items: seq<Item>)
    requires RoundTripTarget(t) && ValidItems(t.fork, items) && BuiltFrom(b, t, items) && !NoShortItem(items)
    ensures b.errors != []
  {
    ItemErrors(b.unit, items, |items|);
    hide PreInstrs, ItemInstrs, PreErrors, PCErrors, Relaxed, RoundTripTarget, ValidItem, ShortItem;
  }

  /** Compiling such a program gives no error exactly if no line is short, and then the bytes of the items. */
  lemma ItemsAssemble(i: Input, items: seq<Item>)
    requires RoundTripTarget(i.t) && ValidItems(i.t.fork, items) && Truthful(items, 0) && i.p == PlainProgram(Stmts(items))
    ensures ValidTarget(i.t)
    ensures Build(i).errors == [] <==> NoShortItem(items)
    ensures Build(i).errors == [] ==> CodeOf(Build(i)) == AllItemBytes(items)
  {
    hide *;
    TargetComplete(i.t);
    var b := Build(i);
    BuildItems(i, items);
    BuiltTarget(b, i.t, items);
    if NoShortItem(items) {
      BuiltWithoutError(b, i.t, items);
      BuildReady(i);
      ItemsGenerate(b, items, |items|);
      WholeCode(b, items);
    } else {
      BuiltWithError(b, i.t, items);
    }
  }

  lemma BuiltTarget(b: Built, t: Target, items: seq<Item>)
    requires BuiltFrom(b, t, items)
    ensures b.unit.t == t
  {
  }

  lemma TargetComplete(t: Target)
    requires RoundTripTarget(t)
    ensures CompleteTarget(t) && ValidTarget(t) && Inverse(t.fork) && Printable(t.fork)
  {
  }

  lemma WholeCode(b: Built, items: seq<Item>)
    requires |items| == |b.instrs| && Generated(b.unit.t, b.instrs, |items|).Written?
    requires Generated(b.unit.t, b.instrs, |items|).code == AllItemBytes(items[..|items|])
    ensures CodeOf(b) == AllItemBytes(items)
  {
    assert items[..|items|] == items;
  }

  // ----- the round trip -----

  /**
   * At some instruction boundary of the code there is a byte below 0x10 that is printed as data: it is
   * no operation, or an operation whose immediate is invalid.
   */
  predicate HasShortByte(t: OpTable, code: seq<Byte>)
    decreases |code|
  {
    code != [] && (ShortByteFirst(t, code) || HasShortByte(t, code[FirstLine(t, code).1..]))
  }

  predicate ShortByteFirst(t: OpTable, code: seq<Byte>)
    requires code != []
  {
    && code[0] < 16
    && (code[0] in t.byCode ==>
          var op := t.byCode[code[0]];
          !op.push && op.hasImmediate && |code| >= 2 && !ValidImmediate(op.name, code[1]))
  }

  /** All positions that are printed for the code, which begins at pc, have 32 bits. */
  predicate PositionsFit(o: Options, t: OpTable, code: seq<Byte>, pc: nat)
    decreases |code|
  {
    code == [] ||
    var (line, n) := FirstLine(t, code);
    (Labelled(o, OpOf(line)) ==> pc < CodeParser.MAX_PC) && PositionsFit(o, t, code[n..], pc + n)
  }

  lemma ShortFirst(t: OpTable, code: seq<Byte>)
    requires code != []
    ensures ShortLine(FirstLine(t, code).0) <==> ShortByteFirst(t, code)
  {
    hide ValidImmediate, PushWidth;
  }

  lemma ItemsOfStep(o: Options, line: Line, more: seq<Item>, pc: nat)
    ensures var items := LabelItems(o, line, pc) + [LineItem(line)] + more;
            && (NoShortItem(items) <==> !ShortLine(line) && NoShortItem(more))
            && (Readable(items) <==> (Labelled(o, OpOf(line)) ==> pc < CodeParser.MAX_PC) && Readable(more))
  {
    hide ShortLine, Labelled;
    var labels := LabelItems(o, line, pc);
    var items := labels + [LineItem(line)] + more;
    var n := |labels|;
    assert items[n] == LineItem(line) && (n > 0 ==> items[0] == LabelItem(pc));
    assert forall k :: 0 <= k < |more| ==> items[n + 1 + k] == more[k];
    assert forall k :: n < k < |items| ==> items[k] == more[k - n - 1];
  }

  lemma ConditionsStep(o: Options, t: OpTable, code: seq<Byte>, pc: nat)
    requires code != []
    ensures var (line, n) := FirstLine(t, code);
            && (HasShortByte(t, code) <==> ShortByteFirst(t, code) || HasShortByte(t, code[n..]))
            && (PositionsFit(o, t, code, pc) <==>
                  (Labelled(o, OpOf(line)) ==> pc < CodeParser.MAX_PC) && PositionsFit(o, t, code[n..], pc + n))
  {
    hide FirstLine, ShortByteFirst, Labelled;
  }

  /** Both conditions, in terms of the items. */
  lemma {:induction false} ConditionsOnItems(o: Options, t: OpTable, code: seq<Byte>, pc: nat)
    ensures var items := Items(o, Lines(t, code), pc);
            && (HasShortByte(t, code) <==> !NoShortItem(items))
            && (PositionsFit(o, t, code, pc) <==> Readable(items))
    decreases |code|
  {
    if code != [] {
      hide *;
      var (line, n) := FirstLine(t, code);
      ConditionsStep(o, t, code, pc);
      ShortFirst(t, code);
      FirstLineSize(t, code);
      LinesStep(t, code);
      ConditionsOnItems(o, t, code[n..], pc + n);
      ItemsStep(o, Lines(t, code), pc);
      RestOfLines(line, Lines(t, code[n..]));
      ItemsOfStep(o, line, Items(o, Lines(t, code[n..]), pc + n), pc);
    }
  }

  lemma RestOfLines(line: Line, more: seq<Line>)
    ensures var lines := [line] + more; lines != [] && lines[0] == line && lines[1..] == more
  {
  }

  /**
   * Disassembling and then assembling any byte string gives the byte string back, for every
   * instruction set and every way of printing, unless there is a byte below 0x10 at an instruction
   * boundary that is printed as data: such a byte is printed with a single digit, and assembling that
   * is an error. The text does not parse exactly if it has a position of more than 32 bits.
   */
  lemma RoundTrip(o: Options, t: Target, code: seq<Byte>, overrides: map<string, nat>, foreign: Foreign)
    requires RoundTripTarget(t) && |code| <= MAX_LENGTH
    ensures ValidTarget(t)
    ensures var stmts := CodeParser.ParseDocument(Lexer.Tokens(DisasmText(o, t.fork, code)));
            && (stmts.Some? <==> PositionsFit(o, t.fork, code, 0))
            && (stmts.Some? ==>
                  var b := Build(Input(t, PlainProgram(stmts.value), overrides, foreign));
                  && (b.errors == [] <==> !HasShortByte(t.fork, code))
                  && (b.errors == [] ==> CodeOf(b) == code))
  {
    hide *;
    TargetComplete(t);
    DisassemblyParses(o, t.fork, code);
    LinesCover(t.fork, code);
    var items := Items(o, Lines(t.fork, code), 0);
    ConditionsOnItems(o, t.fork, code, 0);
    ReadCases(items);
    if Readable(items) {
      ItemsTruthful(o, t.fork, Lines(t.fork, code), 0);
      ItemsAssemble(Input(t, PlainProgram(Stmts(items)), overrides, foreign), items);
    }
  }

  lemma ReadCases(items: seq<Item>)
    ensures ReadStmts(items) == if Readable(items) then Some(Stmts(items)) else None
  {
  }

  /** Positions that are printed in code of up to 2^32 bytes have 32 bits; without them there is no limit. */
  lemma {:induction false} PositionsFitWhen(o: Options, t: OpTable, code: seq<Byte>, pc: nat)
    requires pc + |code| <= CodeParser.MAX_PC || (!o.showPC && !o.pcLabels)
    ensures PositionsFit(o, t, code, pc)
    decreases |code|
  {
    hide FirstLine;
    if code != [] {
      var (line, n) := FirstLine(t, code);
      PositionsFitWhen(o, t, code[n..], pc + n);
    }
  }

  /** An undefined byte below 0x10 on its own does not survive. */
  lemma UndefinedByteFails(o: Options, t: Target, b: Byte, overrides: map<string, nat>, foreign: Foreign)
    requires RoundTripTarget(t) && b < 16 && b !in t.fork.byCode
    ensures ValidTarget(t)
    ensures var stmts := CodeParser.ParseDocument(Lexer.Tokens(DisasmText(o, t.fork, [b])));
            stmts.Some? && Build(Input(t, PlainProgram(stmts.value), overrides, foreign)).errors != []
  {
    assert HasShortByte(t.fork, [b]);
    assert |[b]| <= MAX_LENGTH && |[b]| <= CodeParser.MAX_PC;
    hide *;
    PositionsFitWhen(o, t.fork, [b], 0);
    RoundTrip(o, t, [b], overrides, foreign);
  }
}
