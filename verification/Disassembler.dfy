/** Printing bytecode as instructions (disasm/disassembler.go). */
module Disassembler {
  import opened Base
  import opened Lzint
  import opened Numerals
  import opened EvmOps
  import opened InstructionSets

  /**
   * Upper case names, blank lines at block boundaries, the program counter on each line, and a label
   * with the program counter before each JUMPDEST. Labels are not printed if counters are.
   */
  datatype Options = Options(uppercase: bool, blanks: bool, showPC: bool, pcLabels: bool)

  /** What the disassembler makes of a piece of code. */
  datatype Line =
    | OpLine(op: Op)
    | PushLine(op: Op, data: seq<Byte>)
    | ImmediateLine(op: Op, imm: Byte)
    | TruncatedLine(op: Op, code: seq<Byte>)     // an operation whose data is cut off at the end
    | BadImmediateLine(op: Op, byte: Byte)       // an operation with an invalid immediate, without the immediate
    | InvalidLine(byte: Byte)                    // not an operation

  // ----- specification -----

  /** The bytes that a line stands for. */
  function LineBytes(line: Line): (b: seq<Byte>)
    ensures line.TruncatedLine? || b != []
  {
    match line
    case OpLine(op) => [op.code]
    case PushLine(op, data) => [op.code] + data
    case ImmediateLine(op, imm) => [op.code, imm]
    case TruncatedLine(_, code) => code
    case BadImmediateLine(_, b) => [b]
    case InvalidLine(b) => [b]
  }

  function PushWidth(op: Op): nat {
    var n := PushSize(op.name);
    if n < 0 then 0 else n
  }

  /** The first line, and the number of bytes it takes up. */
  function FirstLine(t: OpTable, code: seq<Byte>): (r: (Line, nat))
    requires code != []
    ensures 1 <= r.1 <= |code|
  {
    if code[0] !in t.byCode then (InvalidLine(code[0]), 1)
    else
      var op := t.byCode[code[0]];
      if op.push then
        var size := PushWidth(op);
        if size == 0 then (OpLine(op), 1)
        else if size > |code| - 1 then (TruncatedLine(op, code), |code|)
        else (PushLine(op, code[1..size + 1]), size + 1)
      else if op.hasImmediate then
        if |code| < 2 then (TruncatedLine(op, code), |code|)
        else if !ValidImmediate(op.name, code[1]) then (BadImmediateLine(op, code[0]), 1)
        else (ImmediateLine(op, code[1]), 2)
      else (OpLine(op), 1)
  }

  lemma FirstLineSize(t: OpTable, code: seq<Byte>)
    requires code != []
    ensures |LineBytes(FirstLine(t, code).0)| == FirstLine(t, code).1
  {
    hide ValidImmediate, PushWidth;
  }

  function Lines(t: OpTable, code: seq<Byte>): seq<Line>
    decreases |code|
  {
    if code == [] then [] else var (line, n) := FirstLine(t, code); [line] + Lines(t, code[n..])
  }

  function OpOf(line: Line): Option<Op> {
    if line.InvalidLine? then None else Some(line.op)
  }

  function OpName(o: Options, op: Op): string {
    if o.uppercase then op.name else LowerText(op.name)
  }

  /** A byte as printed by %#x: without leading zero. */
  function ShortHex(b: Byte): string {
    "0x" + (if b < 16 then [DigitChar(b)] else HexText([b]))
  }

  function IntText(n: int): string {
    if n < 0 then "-" + Decimal(-n) else Decimal(n)
  }

  function ArgList(args: seq<int>): string {
    if args == [] then ""
    else if |args| == 1 then IntText(args[0])
    else IntText(args[0]) + ", " + ArgList(args[1..])
  }

  function LineText(o: Options, line: Line): string {
    match line
    case OpLine(op) => OpName(o, op)
    case PushLine(op, data) => OpName(o, op) + " 0x" + HexText(data)
    case ImmediateLine(op, imm) => OpName(o, op) + "[" + ArgList(DecodeImmediate(op.name, imm)) + "]"
    case TruncatedLine(_, code) => "#bytes 0x" + HexText(code)
    case BadImmediateLine(op, b) => "#bytes " + ShortHex(b) + "   ; invalid " + op.name
    case InvalidLine(b) => "#bytes " + ShortHex(b) + "\n"
  }

  /** What is printed between two instructions. Invalid bytes are followed by a line break of their own. */
  function Newline(o: Options, prev: Option<Op>, next: Option<Op>): string {
    if prev.None? then ""
    else if !o.blanks || next.None? then "\n"
    else if prev.value.jump || next.value.jumpDest || prev.value.term then "\n\n"
    else "\n"
  }

  /** How many bytes of program counters are printed. */
  function PCWidth(size: nat): nat {
    if size < 0xffff then 2
    else if size < 0xff_ffff then 3
    else if size < 0xffff_ffff then 4
    else 8
  }

  /** The shortest hex text of a number. */
  function ShortestHex(n: nat): string {
    if n == 0 then "0" else TextOf(ToBase16(n, DigitCount(16, n)))
  }

  /** The hex text of a program counter in a label, with an even number of digits. */
  function LabelHex(pc: nat): string {
    var s := ShortestHex(pc);
    if |s| % 2 == 1 then "0" + s else s
  }

  /** What is printed before an instruction in a piece of code of the given size. */
  function Prefix(o: Options, size: nat, pc: nat, op: Option<Op>): string {
    if o.showPC then "0x" + HexText(IntToBytes(pc, PCWidth(size))) + ": "
    else if o.pcLabels then (if op.Some? && op.value.jumpDest then "0x" + LabelHex(pc) + ":\n" else "") + "    "
    else ""
  }

  /** The text of lines that follow an operation, in a piece of code of the given size. */
  function LinesText(o: Options, size: nat, prev: Option<Op>, lines: seq<Line>, pc: nat): string
    decreases |lines|
  {
    if lines == [] then Newline(o, prev, None)
    else
      var op := OpOf(lines[0]);
      Newline(o, prev, op) + Prefix(o, size, pc, op) + LineText(o, lines[0])
      + LinesText(o, size, op, lines[1..], pc + |LineBytes(lines[0])|)
  }

  function DisasmText(o: Options, t: OpTable, code: seq<Byte>): string {
    LinesText(o, |code|, None, Lines(t, code), 0)
  }

  // ----- the disassembler -----

  class Disassembler {
    const evm: OpTable
    const options: Options
    var pcBytes: nat
    var out: string

    constructor (evm: OpTable, options: Options)
      ensures this.evm == evm && this.options == options && out == ""
    {
      this.evm, this.options, pcBytes, out := evm, options, 0, "";
    }

    method Write(s: string)
      modifies this`out
      ensures out == old(out) + s
    {
      out := out + s;
    }

    method PrintNewline(prev: Option<Op>, next: Option<Op>)
      modifies this`out
      ensures out == old(out) + Newline(options, prev, next)
    {
      if prev.None? {
        return;
      }
      Write("\n");
      if !options.blanks || next.None? {
        return;
      }
      if prev.value.jump || next.value.jumpDest || prev.value.term {
        Write("\n");
        assert old(out) + "\n" + "\n" == old(out) + "\n\n";
      }
    }

    /** Prints the program counter, or a label, before an instruction. */
    method PrintPrefix(ghost size: nat, pc: nat, op: Option<Op>)
      requires pcBytes == PCWidth(size)
      modifies this`out
      ensures out == old(out) + Prefix(options, size, pc, op)
    {
      hide HexText, ShortestHex, PCWidth;
      if options.showPC {
        Write("0x" + HexText(IntToBytes(pc, pcBytes)) + ": ");
      } else if options.pcLabels {
        if op.Some? && op.value.jumpDest {
          var s := ShortestHex(pc);
          if |s| % 2 == 1 {
            s := "0" + s;
          }
          Write("0x" + s + ":\n");
        }
        Write("    ");
      }
    }

    /** Prints a push with its data; returns how many bytes follow the opcode. */
    method PrintPush(op: Op, code: seq<Byte>) returns (size: nat)
      requires code != [] && code[0] in evm.byCode && op == evm.byCode[code[0]] && op.push
      modifies this`out
      ensures var (line, n) := FirstLine(evm, code); out == old(out) + LineText(options, line) && size == n - 1
    {
      hide HexText, OpName, PushSize;
      size := PushWidth(op);
      if size == 0 {
        Write(OpName(options, op));
      } else if size > |code| - 1 {
        Write("#bytes 0x" + HexText(code));
        size := |code| - 1;
      } else {
        Write(OpName(options, op) + " 0x" + HexText(code[1..size + 1]));
      }
    }

    /** Prints an operation with an immediate byte; returns how many bytes follow the opcode. */
    method PrintImmediate(op: Op, code: seq<Byte>) returns (size: nat)
      requires code != [] && code[0] in evm.byCode && op == evm.byCode[code[0]] && !op.push && op.hasImmediate
      modifies this`out
      ensures var (line, n) := FirstLine(evm, code); out == old(out) + LineText(options, line) && size == n - 1
    {
      hide HexText, OpName, ArgList, DecodeImmediate, ValidImmediate, ShortHex, PushWidth;
      if |code| < 2 {
        Write("#bytes 0x" + HexText(code));
        return |code| - 1;
      }
      var imm := code[1];
      if !ValidImmediate(op.name, imm) {
        Write("#bytes " + ShortHex(code[0]) + "   ; invalid " + op.name);
        return 0;
      }
      var args := PrintArgs(DecodeImmediate(op.name, imm));
      Write(OpName(options, op) + "[" + args + "]");
      size := 1;
    }

    method PrintArgs(args: seq<int>) returns (s: string)
      ensures s == ArgList(args)
    {
      hide IntText;
      s := "";
      var i: nat := |args|;
      while i > 0
        invariant i <= |args| && s == ArgList(args[i..])
      {
        i := i - 1;
        assert args[i..][1..] == args[i + 1..];
        s := if i == |args| - 1 then IntText(args[i]) else IntText(args[i]) + ", " + s;
      }
      assert args[0..] == args;
    }

    /** Runs through the bytecode and emits text. */
    method Disassemble(bytecode: seq<Byte>)
      requires out == ""
      modifies this
      ensures out == DisasmText(options, evm, bytecode)
    {
      hide LineText, Newline, FirstLine, LinesText, Prefix, PCWidth, LineBytes;
      pcBytes := PCWidth(|bytecode|);
      var prevOp: Option<Op> := None;
      var pc := 0;
      assert bytecode[0..] == bytecode;
      NothingYet(options, evm, bytecode);
      while pc < |bytecode|
        invariant pc <= |bytecode| && pcBytes == PCWidth(|bytecode|)
        invariant out + LinesText(options, |bytecode|, prevOp, Lines(evm, bytecode[pc..]), pc) == DisasmText(options, evm, bytecode)
        decreases |bytecode| - pc
      {
        ghost var rest := bytecode[pc..];
        LineStep(options, evm, |bytecode|, prevOp, rest, pc, out);
        FirstOp(evm, rest);
        var op := if bytecode[pc] in evm.byCode then Some(evm.byCode[bytecode[pc]]) else None;
        PrintNewline(prevOp, op);
        PrintPrefix(|bytecode|, pc, op);
        var size := PrintLine(op, bytecode[pc..]);
        assert rest[size + 1..] == bytecode[pc + 1 + size..];
        pc := pc + 1 + size;
        prevOp := op;
      }
      LinesEnd(options, evm, |bytecode|, prevOp, pc);
      assert bytecode[|bytecode|..] == [];
      PrintNewline(prevOp, None);
    }

    /** Prints one instruction; returns how many bytes follow the opcode. */
    method PrintLine(op: Option<Op>, code: seq<Byte>) returns (size: nat)
      requires code != [] && op == if code[0] in evm.byCode then Some(evm.byCode[code[0]]) else None
      modifies this`out
      ensures var (line, n) := FirstLine(evm, code); out == old(out) + LineText(options, line) && size == n - 1
    {
      hide HexText, OpName, ArgList, DecodeImmediate, ValidImmediate, ShortHex, PushWidth;
      size := 0;
      if op.None? {
        Write("#bytes " + ShortHex(code[0]) + "\n");
      } else if op.value.push {
        size := PrintPush(op.value, code);
      } else if op.value.hasImmediate {
        size := PrintImmediate(op.value, code);
      } else {
        Write(OpName(options, op.value));
      }
    }
  }

  lemma NothingYet(o: Options, t: OpTable, code: seq<Byte>)
    ensures "" + LinesText(o, |code|, None, Lines(t, code), 0) == DisasmText(o, t, code)
  {
  }

  lemma LineStep(o: Options, t: OpTable, size: nat, prev: Option<Op>, code: seq<Byte>, pc: nat, out: string)
    requires code != []
    ensures var (line, n) := FirstLine(t, code);
            var op := OpOf(line);
            out + LinesText(o, size, prev, Lines(t, code), pc)
            == out + Newline(o, prev, op) + Prefix(o, size, pc, op) + LineText(o, line)
               + LinesText(o, size, op, Lines(t, code[n..]), pc + n)
  {
    hide *;
    FirstLineSize(t, code);
    LinesStep(t, code);
    var (line, n) := FirstLine(t, code);
    TextStep(o, size, prev, line, Lines(t, code[n..]), pc);
    var op := OpOf(line);
    Appended(out, Newline(o, prev, op), Prefix(o, size, pc, op), LineText(o, line), LinesText(o, size, op, Lines(t, code[n..]), pc + n));
  }

  lemma LinesStep(t: OpTable, code: seq<Byte>)
    requires code != []
    ensures var (line, n) := FirstLine(t, code); Lines(t, code) == [line] + Lines(t, code[n..]) && 1 <= n <= |code|
  {
    hide FirstLine;
  }

  lemma TextStep(o: Options, size: nat, prev: Option<Op>, line: Line, more: seq<Line>, pc: nat)
    ensures LinesText(o, size, prev, [line] + more, pc)
            == Newline(o, prev, OpOf(line)) + Prefix(o, size, pc, OpOf(line)) + LineText(o, line)
               + LinesText(o, size, OpOf(line), more, pc + |LineBytes(line)|)
  {
    hide Newline, LineText, Prefix, LineBytes;
    assert ([line] + more)[1..] == more;
  }

  lemma Appended(out: string, newline: string, prefix: string, text: string, more: string)
    ensures out + (newline + prefix + text + more) == out + newline + prefix + text + more
  {
  }

  lemma FirstOp(t: OpTable, code: seq<Byte>)
    requires code != []
    ensures OpOf(FirstLine(t, code).0) == if code[0] in t.byCode then Some(t.byCode[code[0]]) else None
  {
  }

  lemma LinesEnd(o: Options, t: OpTable, size: nat, prev: Option<Op>, pc: nat)
    ensures LinesText(o, size, prev, Lines(t, []), pc) == Newline(o, prev, None)
  {
  }
}
