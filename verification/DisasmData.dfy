/** Which bytes the disassembler writes as operations, and which as data (disasm/disassembler.go). */
module DisasmData {
  import opened Base
  import opened Numerals
  import opened Lzint
  import opened EvmOps
  import opened InstructionSets
  import opened Lexer
  import opened Ast
  import opened CodeParser
  import opened Disassembler
  import opened DisasmParses
  import RoundTrip = DisasmRoundTrip

  // ----- pieces of code -----

  /** How many bytes of data an operation has. */
  function DataSize(op: Op): nat {
    if op.push then PushWidth(op) else if op.hasImmediate then 1 else 0
  }

  /** A defined operation that has all of its data, and a valid immediate. */
  predicate Whole(t: OpTable, code: seq<Byte>, p: nat)
    requires p < |code|
  {
    && code[p] in t.byCode
    && var op := t.byCode[code[p]];
    && p + DataSize(op) < |code|
    && (!op.push && op.hasImmediate ==> ValidImmediate(op.name, code[p + 1]))
  }

  /** Where the piece that begins at p ends: after the operation, at the end of the code, or after one byte. */
  function PieceEnd(t: OpTable, code: seq<Byte>, p: nat): (e: nat)
    requires p < |code|
    ensures p < e <= |code|
  {
    if code[p] !in t.byCode then p + 1
    else
      var op := t.byCode[code[p]];
      if p + DataSize(op) >= |code| then |code|
      else if Whole(t, code, p) then p + DataSize(op) + 1
      else p + 1
  }

  /** A literal that stands for bytes; a single byte below 16 that is no operation is written with one digit. */
  ghost predicate Literally(arg: Expr, bytes: seq<Byte>, short: bool) {
    && arg.LiteralExpr? && arg.value.num == BytesToInt(bytes)
    && Bytes(arg.value) == if short then Err(OddHexBytes) else Ok(bytes)
  }

  /** A statement that writes a whole operation with its data. */
  ghost predicate WritesOp(op: Op, data: seq<Byte>, s: Stmt) {
    && s.OpcodeStmt? && s.op == op.name
    && if op.push then
         && s.immediates == []
         && if data == [] then s.arg.None? else s.arg.Some? && Literally(s.arg.value, data, false)
       else
         && s.arg.None?
         && if op.hasImmediate then |data| == 1 && EncodeImmediateArgs(op.name, s.immediates) == Some(data[0])
            else s.immediates == [] && data == []
  }

  /** What the piece from p on is written as. */
  ghost predicate Writes(t: OpTable, code: seq<Byte>, p: nat, s: Stmt)
    requires p < |code|
  {
    var bytes := code[p..PieceEnd(t, code, p)];
    if Whole(t, code, p) then WritesOp(t.byCode[code[p]], bytes[1..], s)
    else
      && s.BytesStmt? && s.name.None?
      && Literally(s.value, bytes, bytes[0] < 16 && PieceEnd(t, code, p) == p + 1 && !CutOff(t, code, p))
  }

  /** An operation whose data is cut off at the end of the code. */
  predicate CutOff(t: OpTable, code: seq<Byte>, p: nat)
    requires p < |code|
  {
    code[p] in t.byCode && p + DataSize(t.byCode[code[p]]) >= |code|
  }

  /** A position is written before each piece, or only before jump destinations. */
  predicate Counted(o: Options, t: OpTable, code: seq<Byte>, p: nat)
    requires p < |code|
  {
    o.showPC || (o.pcLabels && code[p] in t.byCode && t.byCode[code[p]].jumpDest)
  }

  /** Statements that write the code from p on, piece by piece. */
  ghost predicate WritesAll(o: Options, t: OpTable, code: seq<Byte>, p: nat, stmts: seq<Stmt>)
    requires p <= |code|
    decreases |code| - p
  {
    if p == |code| then stmts == []
    else
      var n := if Counted(o, t, code, p) then 1 else 0;
      && n < |stmts| && (n == 1 ==> stmts[0] == PCLabelStmt(p))
      && Writes(t, code, p, stmts[n]) && WritesAll(o, t, code, PieceEnd(t, code, p), stmts[n + 1..])
  }

  // ----- the lines of the disassembler -----

  lemma ShortByte(b: Byte)
    ensures Literally(NumExpr(ShortHex(b)), [b], b < 16)
  {
    if b < 16 {
      OneDigit(b);
    } else {
      RoundTrip.HexData([b]);
      hide Literal, HexText, Bytes, BytesToInt;
    }
  }

  /** A single hex digit is not a whole byte. */
  lemma OneDigit(b: Byte)
    requires b < 16
    ensures Literally(NumExpr("0x" + [DigitChar(b)]), [b], true)
  {
    DigitText(b);
    OneNumber(16, b);
    OneNumber(256, b);
    HexLiteralValue([DigitChar(b)]);
    hide Literal, DigitsOf, FromBase, DigitChar, AllHex, LeadingZeros;
  }

  lemma DigitText(b: Byte)
    requires b < 16
    ensures AllHex([DigitChar(b)]) && DigitsOf([DigitChar(b)]) == [b]
  {
    assert TextOf([b]) == [DigitChar(b)];
    DigitsOfText([b]);
    hide DigitsOf;
  }

  lemma OneNumber(base: nat, b: Byte)
    ensures FromBase(base, [b]) == b
  {
    assert [b][..0] == [];
  }

  lemma FullBytes(bytes: seq<Byte>)
    requires bytes != []
    ensures Literally(NumExpr("0x" + HexText(bytes)), bytes, false)
  {
    RoundTrip.HexData(bytes);
    hide Literal, HexText, Bytes, BytesToInt;
  }

  /** The first line takes up the first piece. */
  lemma FirstPiece(t: OpTable, code: seq<Byte>, p: nat)
    requires p < |code|
    ensures FirstLine(t, code[p..]).1 == PieceEnd(t, code, p) - p
    ensures code[p..][FirstLine(t, code[p..]).1..] == code[PieceEnd(t, code, p)..]
    ensures OpOf(FirstLine(t, code[p..]).0) == if code[p] in t.byCode then Some(t.byCode[code[p]]) else None
  {
    hide ValidImmediate, PushWidth;
  }

  lemma FirstWhole(t: OpTable, code: seq<Byte>, p: nat)
    requires p < |code| && Whole(t, code, p)
    ensures WritesOp(t.byCode[code[p]], code[p..PieceEnd(t, code, p)][1..], StmtOf(FirstLine(t, code[p..]).0))
  {
    var op, rest := t.byCode[code[p]], code[p..];
    var data := code[p..PieceEnd(t, code, p)][1..];
    hide PushWidth, NumExpr, Literally, HexText, ShortHex, EncodeImmediateArgs, DecodeImmediate, ValidImmediate;
    if op.push && PushWidth(op) > 0 {
      assert rest[1..PushWidth(op) + 1] == data;
      FullBytes(data);
    } else if !op.push && op.hasImmediate {
      EncodeDecoded(op.name, code[p + 1]);
    }
  }

  lemma FirstData(t: OpTable, code: seq<Byte>, p: nat)
    requires p < |code| && !Whole(t, code, p)
    ensures Writes(t, code, p, StmtOf(FirstLine(t, code[p..]).0))
  {
    hide PushWidth, NumExpr, Literally, HexText, ShortHex, ValidImmediate;
    var bytes := code[p..PieceEnd(t, code, p)];
    if CutOff(t, code, p) {
      assert bytes == code[p..];
      FullBytes(bytes);
    } else {
      assert bytes == [code[p]];
      ShortByte(code[p]);
    }
  }

  lemma FirstWrites(t: OpTable, code: seq<Byte>, p: nat)
    requires p < |code|
    ensures Writes(t, code, p, StmtOf(FirstLine(t, code[p..]).0))
  {
    hide StmtOf, FirstLine, WritesOp, PieceEnd, Whole, Literally;
    if Whole(t, code, p) {
      FirstWhole(t, code, p);
    } else {
      FirstData(t, code, p);
    }
  }

  /** The items of the first line, and of the lines that follow it. */
  lemma FirstItems(o: Options, t: OpTable, code: seq<Byte>, p: nat)
    requires p < |code|
    ensures var (line, e) := (FirstLine(t, code[p..]).0, PieceEnd(t, code, p));
            Items(o, Lines(t, code[p..]), p) == LabelItems(o, line, p) + [LineItem(line)] + Items(o, Lines(t, code[e..]), e)
  {
    var line, e := FirstLine(t, code[p..]).0, PieceEnd(t, code, p);
    hide *;
    LinesSplit(t, code, p);
    PieceSize(t, code, p);
    FirstOf(o, line, Lines(t, code[e..]), p, e);
  }

  lemma LinesSplit(t: OpTable, code: seq<Byte>, p: nat)
    requires p < |code|
    ensures Lines(t, code[p..]) == [FirstLine(t, code[p..]).0] + Lines(t, code[PieceEnd(t, code, p)..])
  {
    hide *;
    FirstPiece(t, code, p);
    LinesStep(t, code[p..]);
  }

  lemma FirstOf(o: Options, line: Line, more: seq<Line>, p: nat, e: nat)
    requires p + |LineBytes(line)| == e
    ensures Items(o, [line] + more, p) == LabelItems(o, line, p) + [LineItem(line)] + Items(o, more, e)
  {
    LinesRest(line, more);
    ItemsStep(o, [line] + more, p);
    hide *;
  }

  lemma LinesRest(line: Line, more: seq<Line>)
    ensures ([line] + more)[0] == line && ([line] + more)[1..] == more
  {
  }

  lemma StmtsLabelled(counter: seq<Item>, pc: nat, line: Line, rest: seq<Item>)
    requires counter == [] || counter == [LabelItem(pc)]
    ensures Stmts(counter + [LineItem(line)] + rest)
            == (if counter == [] then [StmtOf(line)] else [PCLabelStmt(pc), StmtOf(line)]) + Stmts(rest)
  {
    hide *;
    StmtsCons(LineItem(line), rest);
    if counter == [] {
      assert counter + [LineItem(line)] + rest == [LineItem(line)] + rest;
    } else {
      StmtsCons(LabelItem(pc), [LineItem(line)] + rest);
      assert counter + [LineItem(line)] + rest == [LabelItem(pc)] + ([LineItem(line)] + rest);
    }
  }

  /** The statements of the first line, and of the lines that follow it. */
  lemma FirstStmts(o: Options, t: OpTable, code: seq<Byte>, p: nat)
    requires p < |code|
    ensures var (line, e) := (FirstLine(t, code[p..]).0, PieceEnd(t, code, p));
            Stmts(Items(o, Lines(t, code[p..]), p))
              == (if Counted(o, t, code, p) then [PCLabelStmt(p), StmtOf(line)] else [StmtOf(line)])
                 + Stmts(Items(o, Lines(t, code[e..]), e))
  {
    var line, e := FirstLine(t, code[p..]).0, PieceEnd(t, code, p);
    hide *;
    FirstItems(o, t, code, p);
    FirstCounted(o, t, code, p);
    StmtsLabelled(LabelItems(o, line, p), p, line, Items(o, Lines(t, code[e..]), e));
  }

  lemma PieceSize(t: OpTable, code: seq<Byte>, p: nat)
    requires p < |code|
    ensures p < PieceEnd(t, code, p) <= |code| && |LineBytes(FirstLine(t, code[p..]).0)| == PieceEnd(t, code, p) - p
  {
    FirstPiece(t, code, p);
    FirstLineSize(t, code[p..]);
    hide FirstLine, PieceEnd, LineBytes;
  }

  lemma FirstCounted(o: Options, t: OpTable, code: seq<Byte>, p: nat)
    requires p < |code|
    ensures var line := FirstLine(t, code[p..]).0;
            LabelItems(o, line, p) == if Counted(o, t, code, p) then [LabelItem(p)] else []
  {
    FirstPiece(t, code, p);
    hide FirstLine, OpOf;
  }

  lemma StmtsCons(x: Item, more: seq<Item>)
    ensures Stmts([x] + more) == [if x.LabelItem? then PCLabelStmt(x.pc) else StmtOf(x.line)] + Stmts(more)
  {
    assert ([x] + more)[1..] == more;
    hide StmtOf;
  }

  lemma {:induction false} LinesWrite(o: Options, t: OpTable, code: seq<Byte>, p: nat)
    requires p <= |code|
    ensures WritesAll(o, t, code, p, Stmts(Items(o, Lines(t, code[p..]), p)))
    decreases |code| - p
  {
    if p == |code| {
      assert code[p..] == [];
      assert Items(o, Lines(t, []), p) == [];
    } else {
      FirstStmts(o, t, code, p);
      FirstWrites(t, code, p);
      LinesWrite(o, t, code, PieceEnd(t, code, p));
      hide Stmts, Items, Lines, FirstLine, PieceEnd, Writes, StmtOf, Counted;
      var stmts := Stmts(Items(o, Lines(t, code[p..]), p));
      var e := PieceEnd(t, code, p);
      assert stmts[if Counted(o, t, code, p) then 2 else 1..] == Stmts(Items(o, Lines(t, code[e..]), e));
    }
  }

  /**
   * The disassembly of a byte string, when it parses, consists of one statement for each piece of the
   * code. A piece is an operation with its data wherever a defined operation has all of its data and a
   * valid immediate, and is written as that operation; only other bytes are written as data.
   */
  lemma DisassemblyWrites(o: Options, t: OpTable, code: seq<Byte>)
    requires Inverse(t) && Printable(t) && |code| <= MAX_LENGTH
    requires ParseDocument(Tokens(DisasmText(o, t, code))).Some?
    ensures WritesAll(o, t, code, 0, ParseDocument(Tokens(DisasmText(o, t, code))).value)
  {
    DisassemblyParses(o, t, code);
    LinesWrite(o, t, code, 0);
    assert code[0..] == code;
    hide WritesAll, Stmts, Items, Lines, ParseDocument, Tokens, DisasmText;
  }
}
