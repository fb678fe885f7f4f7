/** Parsing the output of the disassembler gives one statement for each of its lines. */
module DisasmParses {
  import opened Base
  import opened Numerals
  import opened Lzint
  import opened EvmOps
  import opened InstructionSets
  import opened Lexer
  import opened Ast
  import opened Parser
  import opened CodeParser
  import opened Disassembler
  import R = ExprRoundTrip

  // ----- lines and the bytes they stand for -----

  /** Names are upper-case identifiers, and the operations with names like a push are the pushes. */
  ghost predicate Printable(t: OpTable) {
    forall c :: c in t.byCode ==> NameText(t.byCode[c].name) && (t.byCode[c].push <==> IsPush(t.byCode[c].name))
  }

  predicate NameText(name: string) {
    && R.IdentText(name)
    && forall i :: 0 <= i < |name| ==> !('a' <= name[i] <= 'z')
  }

  predicate KnownOp(t: OpTable, op: Op) {
    op.code in t.byCode && t.byCode[op.code] == op
  }

  /** What is true of the lines that the disassembler makes. */
  predicate ValidLine(t: OpTable, line: Line) {
    match line
    case OpLine(op) => KnownOp(t, op) && if op.push then PushWidth(op) == 0 else !op.hasImmediate
    case PushLine(op, data) => KnownOp(t, op) && op.push && |data| == PushWidth(op) >= 1
    case ImmediateLine(op, imm) => KnownOp(t, op) && !op.push && op.hasImmediate && ValidImmediate(op.name, imm)
    case TruncatedLine(op, code) => KnownOp(t, op) && code != []
    case BadImmediateLine(op, b) => KnownOp(t, op) && op.code == b
    case InvalidLine(b) => b !in t.byCode
  }

  function AllBytes(lines: seq<Line>): seq<Byte> {
    if lines == [] then [] else LineBytes(lines[0]) + AllBytes(lines[1..])
  }

  lemma FirstLineValid(t: OpTable, code: seq<Byte>)
    requires Inverse(t) && code != []
    ensures var (line, n) := FirstLine(t, code); ValidLine(t, line) && LineBytes(line) == code[..n]
  {
    hide ValidImmediate, PushSize;
  }

  ghost predicate ValidLines(t: OpTable, lines: seq<Line>) {
    forall i :: 0 <= i < |lines| ==> ValidLine(t, lines[i])
  }

  lemma MoreLines(t: OpTable, line: Line, more: seq<Line>)
    requires ValidLine(t, line) && ValidLines(t, more)
    ensures ValidLines(t, [line] + more)
    ensures AllBytes([line] + more) == LineBytes(line) + AllBytes(more)
  {
    hide ValidLine, LineBytes;
    assert ([line] + more)[1..] == more;
  }

  /** The lines of a piece of code stand for exactly its bytes. */
  lemma {:induction false} LinesCover(t: OpTable, code: seq<Byte>)
    requires Inverse(t)
    ensures AllBytes(Lines(t, code)) == code && ValidLines(t, Lines(t, code))
    decreases |code|
  {
    hide *;
    if code == [] {
      NoLines(t);
    } else {
      var (line, n) := FirstLine(t, code);
      LinesStep(t, code);
      FirstLineValid(t, code);
      LinesCover(t, code[n..]);
      MoreLines(t, line, Lines(t, code[n..]));
      SplitCode(code, n);
    }
  }

  lemma NoLines(t: OpTable)
    ensures AllBytes(Lines(t, [])) == [] && ValidLines(t, Lines(t, []))
  {
  }

  lemma SplitCode(code: seq<Byte>, n: nat)
    requires n <= |code|
    ensures code == code[..n] + code[n..]
  {
  }

  // ----- statements -----

  function NumExpr(text: string): Expr {
    LiteralExpr(text, false, if Literal(text).Ok? then Literal(text).value else FromInt(0))
  }

  function StmtOf(line: Line): Stmt {
    match line
    case OpLine(op) => OpcodeStmt(op.name, None, [])
    case PushLine(op, data) => OpcodeStmt(op.name, Some(NumExpr("0x" + HexText(data))), [])
    case ImmediateLine(op, imm) => OpcodeStmt(op.name, None, DecodeImmediate(op.name, imm))
    case TruncatedLine(_, code) => BytesStmt(NumExpr("0x" + HexText(code)), None)
    case BadImmediateLine(_, b) => BytesStmt(NumExpr(ShortHex(b)), None)
    case InvalidLine(b) => BytesStmt(NumExpr(ShortHex(b)), None)
  }

  /** What the text of the disassembler consists of: labels with positions, and lines. */
  datatype Item = LabelItem(pc: nat) | LineItem(line: Line)

  function ItemStmt(x: Item): Stmt {
    if x.LabelItem? then PCLabelStmt(x.pc) else StmtOf(x.line)
  }

  function Stmts(items: seq<Item>): (r: seq<Stmt>)
    ensures |r| == |items|
  {
    if items == [] then [] else [ItemStmt(items[0])] + Stmts(items[1..])
  }

  /** A program counter is printed before the operation. */
  predicate Labelled(o: Options, op: Option<Op>) {
    o.showPC || (o.pcLabels && op.Some? && op.value.jumpDest)
  }

  function LabelItems(o: Options, line: Line, pc: nat): seq<Item> {
    if Labelled(o, OpOf(line)) then [LabelItem(pc)] else []
  }

  function Items(o: Options, lines: seq<Line>, pc: nat): seq<Item>
    decreases |lines|
  {
    if lines == [] then []
    else LabelItems(o, lines[0], pc) + [LineItem(lines[0])] + Items(o, lines[1..], pc + |LineBytes(lines[0])|)
  }

  /** The parser accepts all positions that are printed: they have 32 bits. */
  predicate Readable(items: seq<Item>) {
    forall i :: 0 <= i < |items| && items[i].LabelItem? ==> items[i].pc < MAX_PC
  }

  // ----- text with line breaks after each line -----

  function Body(o: Options, line: Line): string {
    if line.InvalidLine? then "#bytes " + ShortHex(line.byte) else LineText(o, line)
  }

  function NextOp(lines: seq<Line>): Option<Op> {
    if lines == [] then None else OpOf(lines[0])
  }

  function Breaks(o: Options, line: Line, next: Option<Op>): string {
    if line.InvalidLine? then "\n" else Newline(o, OpOf(line), next)
  }

  function FollowedText(o: Options, size: nat, lines: seq<Line>, pc: nat): string
    decreases |lines|
  {
    if lines == [] then ""
    else
      Prefix(o, size, pc, OpOf(lines[0]))
      + (Body(o, lines[0])
         + (Breaks(o, lines[0], NextOp(lines[1..])) + FollowedText(o, size, lines[1..], pc + |LineBytes(lines[0])|)))
  }

  lemma {:induction false} TextRegrouped(o: Options, size: nat, prev: Option<Op>, lines: seq<Line>, pc: nat)
    ensures LinesText(o, size, prev, lines, pc) == Newline(o, prev, NextOp(lines)) + FollowedText(o, size, lines, pc)
    decreases |lines|
  {
    hide Newline, ShortHex, Prefix, LineBytes;
    if lines != [] {
      var next := pc + |LineBytes(lines[0])|;
      TextRegrouped(o, size, OpOf(lines[0]), lines[1..], next);
      LineBreak(o, lines[0], NextOp(lines[1..]));
      hide LineText, Body, Breaks, NextOp;
      Regroup(Newline(o, prev, NextOp(lines)), Prefix(o, size, pc, OpOf(lines[0])), LineText(o, lines[0]),
              Newline(o, OpOf(lines[0]), NextOp(lines[1..])), FollowedText(o, size, lines[1..], next),
              Body(o, lines[0]), Breaks(o, lines[0], NextOp(lines[1..])));
      NextOfFirst(lines);
    } else {
      assert Newline(o, prev, NextOp(lines)) + "" == Newline(o, prev, NextOp(lines));
    }
  }

  lemma NextOfFirst(lines: seq<Line>)
    requires lines != []
    ensures NextOp(lines) == OpOf(lines[0])
  {
  }

  lemma Regroup(before: string, prefix: string, text: string, newline: string, more: string, body: string, breaks: string)
    requires text + newline == body + breaks
    ensures before + prefix + text + (newline + more) == before + (prefix + (body + (breaks + more)))
  {
    assert before + prefix + text + (newline + more) == before + (prefix + ((text + newline) + more));
    assert (body + breaks) + more == body + (breaks + more);
  }

  lemma LineBreak(o: Options, line: Line, next: Option<Op>)
    ensures LineText(o, line) + Newline(o, OpOf(line), next) == Body(o, line) + Breaks(o, line, next)
  {
    if line.InvalidLine? {
      hide ShortHex;
      assert LineText(o, line) == Body(o, line) + "\n";
      assert LineText(o, line) + "" == LineText(o, line);
    }
  }

  // ----- tokens -----

  const BYTES_TOKEN: Token := Token(Directive, "#bytes")

  function NumTok(text: string): Token {
    Token(NumberLiteral, text)
  }

  function Operands(args: seq<int>): seq<Token> {
    if args == [] then [Token(CloseBracket, "]")]
    else if |args| == 1 then [NumTok(IntText(args[0])), Token(CloseBracket, "]")]
    else [NumTok(IntText(args[0])), Token(Comma, ",")] + Operands(args[1..])
  }

  function NameTok(o: Options, op: Op): Token {
    Token(Identifier, OpName(o, op))
  }

  function Remark(op: Op): string {
    "; invalid " + op.name
  }

  function LineToks(o: Options, line: Line): (r: seq<Token>)
    ensures r != []
  {
    match line
    case OpLine(op) => [NameTok(o, op)]
    case PushLine(op, data) => [NameTok(o, op)] + [NumTok("0x" + HexText(data))]
    case ImmediateLine(op, imm) => [NameTok(o, op)] + ([Token(OpenBracket, "[")] + Operands(DecodeImmediate(op.name, imm)))
    case TruncatedLine(_, code) => [BYTES_TOKEN] + [NumTok("0x" + HexText(code))]
    case BadImmediateLine(op, b) => [BYTES_TOKEN] + ([NumTok(ShortHex(b))] + [Token(Comment, Remark(op))])
    case InvalidLine(b) => [BYTES_TOKEN] + [NumTok(ShortHex(b))]
  }

  predicate StartsLine(rest: string) {
    rest != [] && rest[0] == '\n'
  }

  lemma LexName(o: Options, op: Op, rest: string)
    requires NameText(op.name) && R.Delim(rest)
    ensures Lex(OpName(o, op) + rest) == [NameTok(o, op)] + Lex(rest)
  {
    assert R.IdentText(OpName(o, op)) by {
      var s := op.name;
      assert forall i :: 0 <= i < |s| ==> IsIdent(s[i]) && IsIdent(Lower(s[i]));
      assert IsIdentBegin(Lower(s[0]));
      LowerIdent(s);
    }
    R.LexIdent(OpName(o, op), rest);
  }

  lemma LowerIdent(s: string)
    requires R.IdentText(s)
    ensures R.IdentText(LowerText(s))
  {
    assert IsIdentBegin(Lower(s[0]));
    forall i | 0 <= i < |s[1..]|
      ensures IsIdent(LowerText(s)[1..][i])
    {
      assert IsIdent(s[1..][i]);
      assert LowerText(s)[1..][i] == Lower(s[i + 1]);
    }
  }

  lemma LexHex(h: string, rest: string)
    requires AllHex(h) && h != [] && R.Delim(rest)
    ensures Lex("0x" + h + rest) == [NumTok("0x" + h)] + Lex(rest)
  {
    var text := "0x" + h;
    assert text[2..] == h;
    assert R.NumberText(text);
    R.LexNumberText(text, rest);
  }

  lemma LexDecimal(n: nat, rest: string)
    requires R.Delim(rest)
    ensures Lex(IntText(n) + rest) == [NumTok(IntText(n))] + Lex(rest)
  {
    R.LexNumberText(Decimal(n), rest);
  }

  lemma LexBytesWord(rest: string)
    requires R.Delim(rest)
    ensures Lex("#bytes" + rest) == [BYTES_TOKEN] + Lex(rest)
  {
    var s := "#bytes" + rest;
    assert s[1..] == "bytes" + rest;
    RunStops(IsIdent, "bytes", rest);
    assert s[..6] == "#bytes";
    hide RunOf;
    LexPiece("#bytes", rest, [BYTES_TOKEN]);
  }

  lemma LexRemark(op: Op, rest: string)
    requires NameText(op.name) && StartsLine(rest)
    ensures Lex(Remark(op) + rest) == [Token(Comment, Remark(op))] + Lex(rest)
  {
    var x := Remark(op);
    assert AllOf(LineRest, x) by {
      forall i | 0 <= i < |x|
        ensures LineRest(x[i])
      {
        if i >= 10 {
          assert x[i] == op.name[i - 10];
          NameNoBreak(op.name, i - 10);
        }
      }
    }
    RunStops(LineRest, x, rest);
    assert (x + rest)[..|x|] == x;
    hide RunOf;
    LexPiece(x, rest, [Token(Comment, x)]);
  }

  lemma NameNoBreak(name: string, i: nat)
    requires NameText(name) && i < |name|
    ensures LineRest(name[i])
  {
    if i > 0 {
      assert IsIdent(name[1..][i - 1]);
    }
  }

  const BREAK: seq<Token> := [Token(LineEnd, "\n"), Token(LineStart, [])]

  lemma LexBreak(rest: string)
    ensures Lex("\n" + rest) == BREAK + Lex(rest)
  {
    assert ("\n" + rest)[..1] == "\n";
    LexPiece("\n", rest, BREAK);
  }

  // ----- the tokens of a line -----

  lemma LexHexArg(h: string, rest: string)
    requires AllHex(h) && h != [] && R.Delim(rest)
    ensures Lex(" 0x" + h + rest) == [NumTok("0x" + h)] + Lex(rest)
  {
    LexHex(h, rest);
    R.LexSpace("0x" + h + rest);
    assert " 0x" + h + rest == " " + ("0x" + h + rest);
  }

  lemma ShortHexText(b: Byte)
    ensures |ShortHex(b)| >= 3 && AllHex(ShortHex(b)[2..]) && ShortHex(b) == "0x" + ShortHex(b)[2..]
    ensures |ShortHex(b)[2..]| == if b < 16 then 1 else 2
  {
  }

  lemma LexBytesLine(h: string, rest: string)
    requires AllHex(h) && h != [] && R.Delim(rest)
    ensures Lex("#bytes 0x" + h + rest) == [BYTES_TOKEN] + ([NumTok("0x" + h)] + Lex(rest))
  {
    hide *;
    LexHexArg(h, rest);
    var arg := " 0x" + h + rest;
    SpaceDelim(arg);
    LexBytesWord(arg);
    assert "#bytes 0x" == "#bytes" + " 0x";
    SplitOpen("#bytes", " 0x", h, rest);
  }

  lemma StartsDelim(rest: string)
    requires StartsLine(rest)
    ensures R.Delim(rest)
  {
  }

  lemma SpaceDelim(rest: string)
    requires rest != [] && rest[0] == ' '
    ensures R.Delim(rest)
  {
  }

  lemma PushLexes(o: Options, op: Op, data: seq<Byte>, rest: string)
    requires NameText(op.name) && data != [] && StartsLine(rest)
    ensures Lex(OpName(o, op) + " 0x" + HexText(data) + rest) == [NameTok(o, op)] + ([NumTok("0x" + HexText(data))] + Lex(rest))
  {
    hide *;
    StartsDelim(rest);
    assert HexText(data) != [] by { HexNotEmpty(data); }
    LexHexArg(HexText(data), rest);
    var arg := " 0x" + HexText(data) + rest;
    SpaceDelim(arg);
    LexName(o, op, arg);
    assert OpName(o, op) + " 0x" + HexText(data) + rest == OpName(o, op) + arg;
  }

  lemma HexNotEmpty(data: seq<Byte>)
    requires data != []
    ensures HexText(data) != []
  {
  }

  lemma SpacesLex(rest: string)
    ensures Lex("   " + rest) == Lex(rest)
  {
    R.LexSpace(rest);
    R.LexSpace(" " + rest);
    R.LexSpace("  " + rest);
    hide Lex;
    assert " " + (" " + rest) == "  " + rest;
    assert " " + ("  " + rest) == "   " + rest;
  }

  lemma ShortHexLine(b: Byte)
    ensures var h := ShortHex(b)[2..]; AllHex(h) && h != [] && ShortHex(b) == "0x" + h && "#bytes " + ShortHex(b) == "#bytes 0x" + h
  {
    ShortHexText(b);
  }

  lemma RemarkText(op: Op)
    ensures "   ; invalid " + op.name == "   " + Remark(op)
  {
  }

  lemma SpacesDelim(rest: string)
    ensures R.Delim("   " + rest)
  {
  }

  lemma BadImmediateLexes(op: Op, b: Byte, rest: string)
    requires NameText(op.name) && StartsLine(rest)
    ensures Lex("#bytes " + ShortHex(b) + "   ; invalid " + op.name + rest)
            == [BYTES_TOKEN] + ([NumTok(ShortHex(b))] + ([Token(Comment, Remark(op))] + Lex(rest)))
  {
    hide *;
    ShortHexLine(b);
    var h := ShortHex(b)[2..];
    var remark := Remark(op) + rest;
    LexRemark(op, rest);
    SpacesLex(remark);
    SpacesDelim(remark);
    LexBytesLine(h, "   " + remark);
    RemarkText(op);
    SplitRemark("#bytes " + ShortHex(b), "   ; invalid ", op.name, "   ", Remark(op), rest);
  }

  lemma SplitRemark(line: string, invalid: string, name: string, spaces: string, remark: string, rest: string)
    requires invalid + name == spaces + remark
    ensures line + invalid + name + rest == line + (spaces + (remark + rest))
  {
    assert line + invalid + name + rest == line + ((invalid + name) + rest);
    assert (spaces + remark) + rest == spaces + (remark + rest);
  }

  lemma OperandsLex(name: string, imm: Byte, rest: string)
    requires ValidImmediate(name, imm)
    ensures Lex("[" + ArgList(DecodeImmediate(name, imm)) + "]" + rest)
            == [Token(OpenBracket, "[")] + (Operands(DecodeImmediate(name, imm)) + Lex(rest))
  {
    var args := DecodeImmediate(name, imm);
    if IsSingle(name) {
      SingleLexes(args[0], rest);
    } else {
      PairLexes(args[0], args[1], rest);
    }
  }

  lemma CloseLexes(n: nat, rest: string)
    ensures Lex(IntText(n) + "]" + rest) == [NumTok(IntText(n)), Token(CloseBracket, "]")] + Lex(rest)
  {
    hide Lex, IntText;
    R.LexSymbol(']', rest);
    assert R.Delim("]" + rest);
    LexDecimal(n, "]" + rest);
    assert IntText(n) + "]" + rest == IntText(n) + ("]" + rest);
  }

  lemma SingleLexes(n: nat, rest: string)
    ensures Lex("[" + ArgList([n]) + "]" + rest) == [Token(OpenBracket, "[")] + (Operands([n]) + Lex(rest))
  {
    hide Lex, IntText;
    CloseLexes(n, rest);
    R.LexSymbol('[', IntText(n) + "]" + rest);
    assert "[" + ArgList([n]) + "]" + rest == ['['] + (IntText(n) + "]" + rest);
  }

  lemma PairParts(n: nat, m: nat)
    ensures ArgList([n, m]) == IntText(n) + ", " + IntText(m)
    ensures Operands([n, m]) == [NumTok(IntText(n))] + ([Token(Comma, ",")] + [NumTok(IntText(m)), Token(CloseBracket, "]")])
  {
    hide IntText;
    assert [n, m][1..] == [m];
  }

  lemma CommaLexes(rest: string)
    ensures Lex([','] + (" " + rest)) == [Token(Comma, ",")] + Lex(rest) && R.Delim([','] + (" " + rest))
  {
    hide Lex;
    R.LexSpace(rest);
    R.LexSymbol(',', " " + rest);
  }

  lemma OpenLexes(rest: string)
    ensures Lex("[" + rest) == [Token(OpenBracket, "[")] + Lex(rest)
  {
    hide Lex;
    R.LexSymbol('[', rest);
  }

  lemma PairLexes(n: nat, m: nat, rest: string)
    ensures Lex("[" + ArgList([n, m]) + "]" + rest) == [Token(OpenBracket, "[")] + (Operands([n, m]) + Lex(rest))
  {
    hide *;
    var last := IntText(m) + "]" + rest;
    PairParts(n, m);
    CloseLexes(m, rest);
    CommaLexes(last);
    var second := [','] + (" " + last);
    LexDecimal(n, second);
    OpenLexes(IntText(n) + second);
    SplitPair("[", IntText(n), ", ", IntText(m), "]", rest, [','], " ");
  }

  lemma SplitPair(open: string, n: string, sep: string, m: string, close: string, rest: string, comma: string, space: string)
    requires sep == comma + space
    ensures open + (n + sep + m) + close + rest == open + (n + (comma + (space + (m + close + rest))))
  {
    assert n + sep + m == n + (comma + (space + m));
    assert open + (n + (comma + (space + m))) + close + rest == open + (n + (comma + (space + (m + close + rest))));
  }

  lemma ImmediateLexes(o: Options, op: Op, imm: Byte, rest: string)
    requires NameText(op.name) && ValidImmediate(op.name, imm)
    ensures Lex(OpName(o, op) + "[" + ArgList(DecodeImmediate(op.name, imm)) + "]" + rest)
            == [NameTok(o, op)] + ([Token(OpenBracket, "[")] + (Operands(DecodeImmediate(op.name, imm)) + Lex(rest)))
  {
    hide *;
    var list := "[" + ArgList(DecodeImmediate(op.name, imm)) + "]" + rest;
    BracketDelim(ArgList(DecodeImmediate(op.name, imm)) + "]" + rest);
    assert list == "[" + (ArgList(DecodeImmediate(op.name, imm)) + "]" + rest) by {
      SplitOpen("[", ArgList(DecodeImmediate(op.name, imm)), "]", rest);
    }
    OperandsLex(op.name, imm, rest);
    LexName(o, op, list);
    SplitList(OpName(o, op), "[", ArgList(DecodeImmediate(op.name, imm)), "]", rest);
  }

  lemma SplitList(name: string, open: string, args: string, close: string, rest: string)
    ensures name + open + args + close + rest == name + (open + args + close + rest)
  {
  }

  lemma SplitOpen(open: string, args: string, close: string, rest: string)
    ensures open + args + close + rest == open + (args + close + rest)
  {
  }

  lemma BracketDelim(rest: string)
    ensures R.Delim("[" + rest)
  {
  }

  /** A line of the disassembly, up to the line break. */
  lemma LineLexes(o: Options, t: OpTable, line: Line, rest: string)
    requires ValidLine(t, line) && Printable(t) && StartsLine(rest)
    ensures Lex(Body(o, line) + rest) == LineToks(o, line) + Lex(rest)
  {
    StartsDelim(rest);
    ValidLineFacts(t, line);
    hide *;
    match line
    case OpLine(op) =>
      OpLineText(o, op);
      LexName(o, op, rest);
    case PushLine(op, data) =>
      PushLineText(o, op, data);
      PushLexes(o, op, data, rest);
      Seq3([NameTok(o, op)], [NumTok("0x" + HexText(data))], Lex(rest));
    case ImmediateLine(op, imm) =>
      ImmediateLineText(o, op, imm);
      ImmediateLexes(o, op, imm, rest);
      Seq4([NameTok(o, op)], [Token(OpenBracket, "[")], Operands(DecodeImmediate(op.name, imm)), Lex(rest));
    case TruncatedLine(op, code) =>
      HexNotEmpty(code);
      TruncatedLineText(o, op, code);
      LexBytesLine(HexText(code), rest);
      Seq3([BYTES_TOKEN], [NumTok("0x" + HexText(code))], Lex(rest));
    case BadImmediateLine(op, b) =>
      BadImmediateText(o, op, b);
      BadImmediateLexes(op, b, rest);
      Seq4([BYTES_TOKEN], [NumTok(ShortHex(b))], [Token(Comment, Remark(op))], Lex(rest));
    case InvalidLine(b) =>
      InvalidLineText(o, b);
      ShortHexLine(b);
      LexBytesLine(ShortHex(b)[2..], rest);
      Seq3([BYTES_TOKEN], [NumTok(ShortHex(b))], Lex(rest));
  }

  lemma ValidLineFacts(t: OpTable, line: Line)
    requires ValidLine(t, line) && Printable(t)
    ensures !line.InvalidLine? ==> NameText(line.op.name)
    ensures line.PushLine? ==> line.data != []
    ensures line.ImmediateLine? ==> ValidImmediate(line.op.name, line.imm)
    ensures line.TruncatedLine? ==> line.code != []
  {
    hide NameText, ValidImmediate, IsPush, PushWidth;
  }

  lemma Seq3(a: seq<Token>, b: seq<Token>, c: seq<Token>)
    ensures a + (b + c) == (a + b) + c
  {
  }

  lemma Seq4(a: seq<Token>, b: seq<Token>, c: seq<Token>, d: seq<Token>)
    ensures a + (b + (c + d)) == (a + (b + c)) + d
  {
  }

  // The text and the tokens of each kind of line.

  lemma OpLineText(o: Options, op: Op)
    ensures Body(o, OpLine(op)) == OpName(o, op) && LineToks(o, OpLine(op)) == [NameTok(o, op)]
  {
  }

  lemma PushLineText(o: Options, op: Op, data: seq<Byte>)
    ensures Body(o, PushLine(op, data)) == OpName(o, op) + " 0x" + HexText(data)
    ensures LineToks(o, PushLine(op, data)) == [NameTok(o, op)] + [NumTok("0x" + HexText(data))]
  {
  }

  lemma ImmediateLineText(o: Options, op: Op, imm: Byte)
    ensures Body(o, ImmediateLine(op, imm)) == OpName(o, op) + "[" + ArgList(DecodeImmediate(op.name, imm)) + "]"
    ensures LineToks(o, ImmediateLine(op, imm))
            == [NameTok(o, op)] + ([Token(OpenBracket, "[")] + Operands(DecodeImmediate(op.name, imm)))
  {
  }

  lemma TruncatedLineText(o: Options, op: Op, code: seq<Byte>)
    ensures Body(o, TruncatedLine(op, code)) == "#bytes 0x" + HexText(code)
    ensures LineToks(o, TruncatedLine(op, code)) == [BYTES_TOKEN] + [NumTok("0x" + HexText(code))]
  {
  }

  lemma BadImmediateText(o: Options, op: Op, b: Byte)
    ensures Body(o, BadImmediateLine(op, b)) == "#bytes " + ShortHex(b) + "   ; invalid " + op.name
    ensures LineToks(o, BadImmediateLine(op, b)) == [BYTES_TOKEN] + ([NumTok(ShortHex(b))] + [Token(Comment, Remark(op))])
  {
  }

  lemma InvalidLineText(o: Options, b: Byte)
    ensures Body(o, InvalidLine(b)) == "#bytes " + ShortHex(b)
    ensures LineToks(o, InvalidLine(b)) == [BYTES_TOKEN] + [NumTok(ShortHex(b))]
  {
  }

  // ----- literals -----

  /** The expression ends at the end of a line, or at a comment. */
  predicate EndsExpr(tail: seq<Token>) {
    tail != [] && (tail[0].typ == LineEnd || tail[0].typ == Comment)
  }

  lemma NumParses(text: string, tail: seq<Token>)
    requires Literal(text).Ok? && EndsExpr(tail)
    ensures ParseExpr([NumTok(text)] + tail) == Got(NumExpr(text), tail)
  {
    var ts := [NumTok(text)] + tail;
    assert Head(ts) == NumTok(text) && Tail(ts) == tail;
    LeafFact(ts);
    ArithFact(NumExpr(text), tail, 0);
    hide Literal, ParsePrimary, ParseArith, OpOfSign;
  }

  lemma HexLiteralOk(h: string)
    requires AllHex(h) && h != []
    ensures Literal("0x" + h).Ok?
  {
    HexLiteralValue(h);
  }

  lemma {:induction false} BitLenAtMost(n: nat, k: nat)
    requires n < Pow2(k)
    ensures BitLen(n) <= k
    decreases k
  {
    if n > 0 {
      BitLenAtMost(n / 2, k - 1);
    }
  }

  lemma DecimalLiteral(n: nat)
    requires n < 256
    ensures Literal(IntText(n)) == Ok(FromInt(n)) && IntegerBitLen(FromInt(n)) <= 8
  {
    DecimalValue(n);
    assert Pow2(8) == 256;
    BitLenAtMost(n, 8);
    hide Decimal, BitLen, Literal;
  }

  lemma DecodedBounds(name: string, imm: Byte)
    requires ValidImmediate(name, imm)
    ensures var args := DecodeImmediate(name, imm);
            1 <= |args| <= 2 && forall i :: 0 <= i < |args| ==> 0 < args[i] < 256
  {
  }

  lemma OneOperand(n: nat, tail: seq<Token>, k: nat)
    requires n < 256
    ensures ParseImmediates([NumTok(IntText(n)), Token(CloseBracket, "]")] + tail, k) == Got([n], tail)
  {
    DecimalLiteral(n);
    var ts := [NumTok(IntText(n)), Token(CloseBracket, "]")] + tail;
    assert Head(ts) == NumTok(IntText(n)) && Tail(ts) == [Token(CloseBracket, "]")] + tail;
    assert Tail(Tail(ts)) == tail;
    ImmediatesFact(ts, k, Literal(IntText(n)), ParseImmediates(tail, k + 1));
    hide ParseImmediates, Literal, IntText, IntegerBitLen;
  }

  lemma CommaOperand(n: nat, second: seq<Token>)
    requires n < 256
    ensures ParseImmediates([NumTok(IntText(n))] + ([Token(Comma, ",")] + second), 0)
            == MoreImmediates([n], ParseImmediates(second, 1))
  {
    DecimalLiteral(n);
    hide ParseImmediates, Literal, IntText, IntegerBitLen, MoreImmediates;
    var ts := [NumTok(IntText(n))] + ([Token(Comma, ",")] + second);
    assert Head(ts) == NumTok(IntText(n)) && Tail(ts) == [Token(Comma, ",")] + second;
    assert Head(Tail(ts)) == Token(Comma, ",") && Tail(Tail(ts)) == second;
    ImmediatesFact(ts, 0, Literal(IntText(n)), ParseImmediates(second, 1));
  }

  lemma TwoOperands(n: nat, m: nat, tail: seq<Token>)
    requires n < 256 && m < 256
    ensures ParseImmediates(Operands([n, m]) + tail, 0) == Got([n, m], tail)
  {
    hide *;
    OneOperand(m, tail, 1);
    PairParts(n, m);
    var last := [NumTok(IntText(m)), Token(CloseBracket, "]")];
    CommaOperand(n, last + tail);
    Seq4([NumTok(IntText(n))], [Token(Comma, ",")], last, tail);
    FirstImmediates([n], Got([m], tail));
    assert [n as int] + [m as int] == [n as int, m as int];
  }

  lemma OperandsParse(name: string, imm: Byte, tail: seq<Token>)
    requires ValidImmediate(name, imm)
    ensures ParseImmediates(Operands(DecodeImmediate(name, imm)) + tail, 0) == Got(DecodeImmediate(name, imm), tail)
  {
    var args := DecodeImmediate(name, imm);
    DecodedBounds(name, imm);
    hide ParseImmediates, DecodeImmediate, ValidImmediate, IntText;
    if |args| == 1 {
      OneOperand(args[0], tail, 0);
      assert args == [args[0]];
    } else {
      TwoOperands(args[0], args[1], tail);
      assert args == [args[0], args[1]];
    }
  }

  // ----- parsing a line -----

  lemma UpperName(o: Options, op: Op)
    requires NameText(op.name)
    ensures UpperText(OpName(o, op)) == op.name
  {
    forall i | 0 <= i < |op.name|
      ensures UpperText(OpName(o, op))[i] == op.name[i]
    {
      assert !('a' <= op.name[i] <= 'z');
    }
  }

  /** What is left after the operands of a line. */
  function AfterOperands(line: Line, tail: seq<Token>): seq<Token> {
    if line.BadImmediateLine? then [Token(Comment, Remark(line.op))] + tail else tail
  }

  lemma OpcodeParses(name: string, immediates: seq<int>, ts: seq<Token>, rest: seq<Token>)
    requires ParseBrackets(ts) == Got(immediates, rest)
    ensures ParseOne([Token(Identifier, name)] + ts) == ParseArg(UpperText(name), immediates, rest)
  {
    assert ([Token(Identifier, name)] + ts)[1..] == ts;
    hide ParseBrackets, ParseArg;
  }

  lemma OpLineParses(o: Options, op: Op, tail: seq<Token>)
    requires NameText(op.name) && EndsExpr(tail)
    ensures ParseOne([NameTok(o, op)] + tail) == Got(OpcodeStmt(op.name, None, []), tail)
  {
    UpperName(o, op);
    OpcodeParses(OpName(o, op), [], tail, tail);
    hide ParseOne, UpperText, OpName;
  }

  lemma PushLineParses(o: Options, op: Op, text: string, tail: seq<Token>)
    requires NameText(op.name) && Literal(text).Ok? && EndsExpr(tail)
    ensures ParseOne([NameTok(o, op)] + ([NumTok(text)] + tail)) == Got(OpcodeStmt(op.name, Some(NumExpr(text)), []), tail)
  {
    UpperName(o, op);
    NumParses(text, tail);
    var ts := [NumTok(text)] + tail;
    OpcodeParses(OpName(o, op), [], ts, ts);
    hide ParseOne, UpperText, OpName, ParseExpr, Literal;
  }

  lemma ImmediateLineParses(o: Options, op: Op, imm: Byte, tail: seq<Token>)
    requires NameText(op.name) && ValidImmediate(op.name, imm) && EndsExpr(tail)
    ensures ParseOne([NameTok(o, op)] + ([Token(OpenBracket, "[")] + (Operands(DecodeImmediate(op.name, imm)) + tail)))
            == Got(OpcodeStmt(op.name, None, DecodeImmediate(op.name, imm)), tail)
  {
    UpperName(o, op);
    OperandsParse(op.name, imm, tail);
    var ops := Operands(DecodeImmediate(op.name, imm)) + tail;
    var ts := [Token(OpenBracket, "[")] + ops;
    assert Head(ts) == Token(OpenBracket, "[") && Tail(ts) == ops;
    hide ParseImmediates;
    OpcodeParses(OpName(o, op), DecodeImmediate(op.name, imm), ts, tail);
    hide ParseOne, UpperText, OpName, Operands;
  }

  lemma BytesLineParses(text: string, tail: seq<Token>)
    requires Literal(text).Ok? && EndsExpr(tail)
    ensures ParseOne([BYTES_TOKEN] + ([NumTok(text)] + tail)) == Got(BytesStmt(NumExpr(text), None), tail)
  {
    NumParses(text, tail);
    var ts := [NumTok(text)] + tail;
    assert ([BYTES_TOKEN] + ts)[1..] == ts && Head(ts) == NumTok(text);
    BytesParses(ts);
    hide ParseExpr, Literal, NumExpr, ParseOne, EndsExpr;
  }

  lemma BytesParses(ts: seq<Token>)
    ensures ParseOne([BYTES_TOKEN] + ts) == ParseBytes(ts, None)
  {
    hide ParseBytes;
    assert ([BYTES_TOKEN] + ts)[1..] == ts;
  }

  lemma ShortHexOk(b: Byte)
    ensures Literal(ShortHex(b)).Ok?
  {
    ShortHexLine(b);
    HexLiteralOk(ShortHex(b)[2..]);
  }

  lemma LineParses(o: Options, t: OpTable, line: Line, tail: seq<Token>)
    requires ValidLine(t, line) && Printable(t) && Head(tail).typ == LineEnd && tail != []
    ensures ParseOne(LineToks(o, line) + tail) == Got(StmtOf(line), AfterOperands(line, tail))
  {
    assert EndsExpr(tail);
    ValidLineFacts(t, line);
    hide ParseOne, OpName, HexText, ShortHex, NumExpr, Literal, Operands, DecodeImmediate, ValidImmediate, NameText, AllHex;
    match line
    case OpLine(op) => OpLineParses(o, op, tail);
    case PushLine(op, data) =>
      HexNotEmpty(data);
      HexLiteralOk(HexText(data));
      PushLineParses(o, op, "0x" + HexText(data), tail);
      Seq3([NameTok(o, op)], [NumTok("0x" + HexText(data))], tail);
    case ImmediateLine(op, imm) =>
      ImmediateLineParses(o, op, imm, tail);
      Seq4([NameTok(o, op)], [Token(OpenBracket, "[")], Operands(DecodeImmediate(op.name, imm)), tail);
    case TruncatedLine(_, code) =>
      HexNotEmpty(code);
      HexLiteralOk(HexText(code));
      BytesLineParses("0x" + HexText(code), tail);
      Seq3([BYTES_TOKEN], [NumTok("0x" + HexText(code))], tail);
    case BadImmediateLine(op, b) =>
      ShortHexOk(b);
      var remark := [Token(Comment, Remark(op))];
      assert EndsExpr(remark + tail);
      BytesLineParses(ShortHex(b), remark + tail);
      Seq4([BYTES_TOKEN], [NumTok(ShortHex(b))], remark, tail);
    case InvalidLine(b) =>
      ShortHexOk(b);
      BytesLineParses(ShortHex(b), tail);
      Seq3([BYTES_TOKEN], [NumTok(ShortHex(b))], tail);
  }

  // ----- parsing all lines -----

  lemma SkipLineToken(ts: seq<Token>)
    requires ts != [] && IsLineToken(ts[0])
    ensures ParseDocument(ts) == ParseDocument(ts[1..])
  {
    hide ParseOne, AfterStatement;
  }

  lemma DocumentStep(ts: seq<Token>, st: Stmt, rest: seq<Token>)
    requires ts != [] && !IsLineToken(ts[0]) && ts[0].typ != Eof && ParseOne(ts) == Got(st, rest)
    ensures ParseDocument(ts) == MoreStatements([st], ParseDocument(AfterStatement(rest)))
  {
    hide ParseOne, AfterStatement;
    assert ParseStatement(ts) == Got(Some(st), AfterStatement(rest));
    hide ParseStatement;
  }

  lemma LineFirst(o: Options, line: Line)
    ensures LineToks(o, line)[0].typ == Identifier || LineToks(o, line)[0].typ == Directive
  {
    hide OpName, HexText, ShortHex, Operands, DecodeImmediate;
  }

  lemma AfterLine(line: Line, tail: seq<Token>)
    requires tail != [] && tail[0].typ == LineEnd
    ensures AfterStatement(AfterOperands(line, tail)) == if line.BadImmediateLine? then tail else tail[1..]
    ensures ParseDocument(tail[1..]) == ParseDocument(tail)
  {
    SkipLineToken(tail);
    hide ParseDocument;
    if line.BadImmediateLine? {
      assert Tail([Token(Comment, Remark(line.op))] + tail) == tail;
    }
  }

  lemma FirstOfLine(o: Options, line: Line, tail: seq<Token>)
    ensures var ts := LineToks(o, line) + tail; ts != [] && !IsLineToken(ts[0]) && ts[0].typ != Eof
  {
    LineFirst(o, line);
    hide LineToks;
  }

  lemma LineDocument(o: Options, t: OpTable, line: Line, tail: seq<Token>)
    requires ValidLine(t, line) && Printable(t) && tail != [] && tail[0].typ == LineEnd
    ensures ParseDocument(LineToks(o, line) + tail) == MoreStatements([StmtOf(line)], ParseDocument(tail))
  {
    assert Head(tail).typ == LineEnd;
    hide *;
    FirstOfLine(o, line, tail);
    LineParses(o, t, line, tail);
    DocumentStep(LineToks(o, line) + tail, StmtOf(line), AfterOperands(line, tail));
    AfterLine(line, tail);
  }

  lemma BreaksAre(o: Options, line: Line, next: Option<Op>)
    ensures Breaks(o, line, next) == "\n" || Breaks(o, line, next) == "\n\n"
  {
  }

  lemma BreaksLex(o: Options, line: Line, next: Option<Op>, rest: string) returns (toks: seq<Token>)
    ensures Lex(Breaks(o, line, next) + rest) == toks && toks != [] && toks[0].typ == LineEnd
    ensures ParseDocument(toks + [EOF]) == ParseDocument(Lex(rest) + [EOF])
  {
    BreaksAre(o, line, next);
    hide Breaks, Lex, ParseDocument;
    LexBreak(rest);
    SkipBreak(Lex(rest));
    toks := BREAK + Lex(rest);
    if Breaks(o, line, next) == "\n\n" {
      LexBreak("\n" + rest);
      assert "\n\n" + rest == "\n" + ("\n" + rest);
      SkipBreak(toks);
      toks := BREAK + toks;
    }
  }

  lemma SkipBreak(ts: seq<Token>)
    ensures ParseDocument((BREAK + ts) + [EOF]) == ParseDocument(ts + [EOF])
  {
    hide ParseDocument;
    var all := (BREAK + ts) + [EOF];
    assert all[1..][1..] == ts + [EOF];
    SkipLineToken(all);
    SkipLineToken(all[1..]);
  }

  // ----- labels with positions -----

  function PCTok(h: string): Token {
    Token(PCLabel, "0x" + h)
  }

  lemma LexPCLabel(h: string, rest: string)
    requires AllHex(h) && h != []
    ensures Lex("0x" + h + (":" + rest)) == [PCTok(h)] + Lex(rest)
  {
    var text := "0x" + h;
    var s := text + (":" + rest);
    assert text[2..] == h;
    R.DigitRun(IsHex, text, 2, ":" + rest);
    assert s[..|text|] == text && s[|text|] == ':';
    hide RunOf, AllHex;
    assert LexNumber(s) == Lexeme([PCTok(h)], |text| + 1);
    hide LexNumber;
    R.DigitClass('0');
    assert s == (text + ":") + rest;
    LexPiece(text + ":", rest, [PCTok(h)]);
  }

  lemma DigitsOfText(d: Digits)
    requires InBase(16, d)
    ensures DigitsOf(TextOf(d)) == d
  {
  }

  lemma ZeroText(s: string)
    requires AllHex(s)
    ensures AllHex("0" + s) && FromBase(16, DigitsOf("0" + s)) == FromBase(16, DigitsOf(s))
  {
    DropZero(16, DigitsOf("0" + s));
    assert DigitsOf("0" + s)[1..] == DigitsOf(s);
    hide FromBase, DigitsOf;
  }

  lemma ShortestHexValue(n: nat)
    ensures AllHex(ShortestHex(n)) && ShortestHex(n) != [] && FromBase(16, DigitsOf(ShortestHex(n))) == n
  {
    if n == 0 {
      assert DigitsOf("0")[..0] == [];
    } else {
      var d := ToBase16(n, DigitCount(16, n));
      CountPositive(16, n);
      FromToBase(16, n, |d|);
      DigitsOfText(d);
      hide FromBase, DigitCount, ToBase, DigitsOf;
    }
  }

  lemma LabelHexValue(pc: nat)
    ensures var h := LabelHex(pc); AllHex(h) && h != [] && FromBase(16, DigitsOf(h)) == pc
  {
    ShortestHexValue(pc);
    ZeroText(ShortestHex(pc));
    hide ShortestHex, FromBase, DigitsOf, AllHex;
  }

  /** The length of a byte slice is a signed machine integer. */
  const MAX_LENGTH: nat := 0x7fff_ffff_ffff_ffff

  lemma {:induction false} CountAtMost(n: nat, k: nat)
    requires n < Pow2(8 * k)
    ensures DigitCount(256, n) <= k
    decreases k
  {
    if n > 0 && k > 0 {
      PowerSplit(k);
      assert n / 256 < Pow2(8 * (k - 1));
      CountAtMost(n / 256, k - 1);
    }
  }

  lemma Doubled(m: nat)
    ensures Pow2(m + 1) == 2 * Pow2(m)
  {
  }

  lemma DoubledTwice(m: nat)
    ensures Pow2(m + 2) == 4 * Pow2(m)
  {
    hide Pow2;
    Doubled(m);
    Doubled(m + 1);
  }

  lemma Times16(m: nat)
    ensures Pow2(m + 4) == 16 * Pow2(m)
  {
    hide Pow2;
    DoubledTwice(m);
    DoubledTwice(m + 2);
  }

  lemma Times256(m: nat)
    ensures Pow2(m + 8) == 256 * Pow2(m)
  {
    hide Pow2;
    Times16(m);
    Times16(m + 4);
  }

  lemma PowerSplit(k: nat)
    requires k > 0
    ensures Pow2(8 * k) == 256 * Pow2(8 * (k - 1))
  {
    hide Pow2;
    Times256(8 * (k - 1));
    assert 8 * (k - 1) + 8 == 8 * k;
  }

  lemma PowersOfBytes()
    ensures Pow2(16) == 0x1_0000 && Pow2(24) == 0x100_0000 && Pow2(32) == 0x1_0000_0000 && Pow2(64) == 0x1_0000_0000_0000_0000
  {
    PowerSplit(1);
    PowerSplit(2);
    PowerSplit(3);
    PowerSplit(4);
    PowerSplit(5);
    PowerSplit(6);
    PowerSplit(7);
    PowerSplit(8);
    assert Pow2(0) == 1;
    hide Pow2;
  }

  /** The printed counter is wide enough for every position in the code. */
  lemma CounterValue(size: nat, pc: nat)
    requires pc < size <= MAX_LENGTH
    ensures var h := HexText(IntToBytes(pc, PCWidth(size))); AllHex(h) && h != [] && FromBase(16, DigitsOf(h)) == pc
  {
    var w := PCWidth(size);
    CounterFits(size, pc);
    var b := IntToBytes(pc, w);
    hide *;
    FromToBase(256, pc, w);
    CounterBytes(pc, w);
    HexBytesValue(HexText(b));
    HexBytesOfText(b);
  }

  lemma CounterFits(size: nat, pc: nat)
    requires pc < size <= MAX_LENGTH
    ensures DigitCount(256, pc) <= PCWidth(size) && PCWidth(size) > 0
  {
    PowersOfBytes();
    hide Pow2, DigitCount;
    CountAtMost(pc, PCWidth(size));
  }

  lemma CounterBytes(pc: nat, w: nat)
    requires w > 0
    ensures IntToBytes(pc, w) == ToBase(256, pc, w) && HexText(IntToBytes(pc, w)) != [] && AllHex(HexText(IntToBytes(pc, w)))
    ensures BytesToInt(IntToBytes(pc, w)) == FromBase(256, ToBase(256, pc, w))
  {
    hide ToBase, FromBase;
  }

  lemma PCLabelParses(h: string, pc: nat, ts: seq<Token>)
    requires AllHex(h) && h != [] && FromBase(16, DigitsOf(h)) == pc
    ensures ParseOne([PCTok(h)] + ts) == if pc < MAX_PC then Got(PCLabelStmt(pc), ts) else Bad
  {
    var text := "0x" + h;
    assert text[2..] == h && HasHexPrefix(text);
    hide FromBase, DigitsOf, AllHex;
    assert PCOf(text) == if pc < MAX_PC then Some(pc) else None;
    assert ([PCTok(h)] + ts)[1..] == ts;
    hide PCOf, HasHexPrefix;
  }

  lemma DocumentBad(ts: seq<Token>)
    requires ts != [] && !IsLineToken(ts[0]) && ts[0].typ != Eof && ParseOne(ts) == Bad
    ensures ParseDocument(ts) == None
  {
    hide ParseOne, AfterStatement;
    assert ParseStatement(ts) == Bad;
    hide ParseStatement;
  }

  /** A label, and the tokens that follow it: those of the rest, or a line break and then the rest. */
  lemma PCLabelDocument(h: string, pc: nat, tail: seq<Token>)
    requires AllHex(h) && h != [] && FromBase(16, DigitsOf(h)) == pc
    requires tail != [] && tail[0].typ != Comment
    ensures ParseDocument([PCTok(h)] + tail) == if pc < MAX_PC then MoreStatements([PCLabelStmt(pc)], ParseDocument(tail)) else None
  {
    PCLabelParses(h, pc, tail);
    var ts := [PCTok(h)] + tail;
    assert ts[0] == PCTok(h);
    hide ParseOne, ParseDocument, FromBase, DigitsOf, AllHex;
    if pc < MAX_PC {
      DocumentStep(ts, PCLabelStmt(pc), tail);
      if tail[0].typ == LineEnd {
        SkipLineToken(tail);
      }
    } else {
      DocumentBad(ts);
    }
  }

  /** Parsing a label, if there is one, and what follows it. */
  function WithLabel(labelled: bool, pc: nat, r: Option<seq<Stmt>>): Option<seq<Stmt>> {
    if !labelled then r
    else if pc < MAX_PC then MoreStatements([PCLabelStmt(pc)], r)
    else None
  }

  lemma CounterPrefix(size: nat, pc: nat, rest: string)
    requires pc < size <= MAX_LENGTH
    requires Lex(rest) != [] && Lex(rest)[0].typ != Comment
    ensures ParseDocument(Lex("0x" + HexText(IntToBytes(pc, PCWidth(size))) + ": " + rest) + [EOF])
            == WithLabel(true, pc, ParseDocument(Lex(rest) + [EOF]))
  {
    hide *;
    CounterValue(size, pc);
    var h := HexText(IntToBytes(pc, PCWidth(size)));
    R.LexSpace(rest);
    LexPCLabel(h, " " + rest);
    ColonText("0x" + h, rest);
    PCLabelTail(h, pc, Lex(rest));
  }

  lemma ColonText(text: string, rest: string)
    ensures text + ": " + rest == text + (":" + (" " + rest))
  {
  }

  lemma PCLabelTail(h: string, pc: nat, ts: seq<Token>)
    requires AllHex(h) && h != [] && FromBase(16, DigitsOf(h)) == pc
    requires ts != [] && ts[0].typ != Comment
    ensures ParseDocument(([PCTok(h)] + ts) + [EOF]) == WithLabel(true, pc, ParseDocument(ts + [EOF]))
  {
    Seq3([PCTok(h)], ts, [EOF]);
    hide ParseDocument, FromBase, DigitsOf, AllHex;
    PCLabelDocument(h, pc, ts + [EOF]);
  }

  lemma IndentLexes(rest: string)
    ensures Lex("    " + rest) == Lex(rest)
  {
    hide *;
    SpacesLex(rest);
    R.LexSpace("   " + rest);
    assert " " + "   " == "    ";
    JoinText(" ", "   ", rest);
  }

  lemma JoinText(a: string, b: string, rest: string)
    ensures a + (b + rest) == (a + b) + rest
  {
  }

  lemma LabelPrefix(pc: nat, rest: string)
    ensures ParseDocument(Lex("0x" + LabelHex(pc) + ":\n" + "    " + rest) + [EOF])
            == WithLabel(true, pc, ParseDocument(Lex(rest) + [EOF]))
  {
    hide *;
    LabelHexValue(pc);
    var h := LabelHex(pc);
    var indented := "    " + rest;
    IndentLexes(rest);
    LexBreak(indented);
    LexPCLabel(h, "\n" + indented);
    BreakText("0x" + h, "    ", rest);
    BreakFirst(Lex(rest));
    PCLabelTail(h, pc, BREAK + Lex(rest));
    SkipBreak(Lex(rest));
  }

  lemma BreakText(text: string, indent: string, rest: string)
    ensures text + ":\n" + indent + rest == text + (":" + ("\n" + (indent + rest)))
  {
  }

  lemma BreakFirst(ts: seq<Token>)
    ensures BREAK + ts != [] && (BREAK + ts)[0].typ != Comment
  {
  }

  /** What is printed before a line parses as a label with the position of the line, or as nothing. */
  lemma PrefixParses(o: Options, size: nat, pc: nat, op: Option<Op>, rest: string)
    requires pc < size <= MAX_LENGTH
    requires Lex(rest) != [] && Lex(rest)[0].typ != Comment
    ensures ParseDocument(Lex(Prefix(o, size, pc, op) + rest) + [EOF])
            == WithLabel(Labelled(o, op), pc, ParseDocument(Lex(rest) + [EOF]))
  {
    PrefixCases(o, size, pc, op);
    LabelledCases(o, op);
    hide *;
    if o.showPC {
      CounterPrefix(size, pc, rest);
    } else if o.pcLabels {
      if op.Some? && op.value.jumpDest {
        LabelPrefix(pc, rest);
      } else {
        IndentLexes(rest);
        NoLabel(pc, ParseDocument(Lex(rest) + [EOF]));
      }
    } else {
      assert "" + rest == rest;
      NoLabel(pc, ParseDocument(Lex(rest) + [EOF]));
    }
  }

  lemma NoLabel(pc: nat, r: Option<seq<Stmt>>)
    ensures WithLabel(false, pc, r) == r
  {
  }

  lemma PrefixCases(o: Options, size: nat, pc: nat, op: Option<Op>)
    ensures o.showPC ==> Prefix(o, size, pc, op) == "0x" + HexText(IntToBytes(pc, PCWidth(size))) + ": "
    ensures !o.showPC && o.pcLabels ==>
              Prefix(o, size, pc, op) == if op.Some? && op.value.jumpDest then "0x" + LabelHex(pc) + ":\n" + "    " else "    "
    ensures !o.showPC && !o.pcLabels ==> Prefix(o, size, pc, op) == ""
  {
    hide HexText, LabelHex, PCWidth;
  }

  lemma LabelledCases(o: Options, op: Option<Op>)
    ensures o.showPC ==> Labelled(o, op)
    ensures !o.showPC ==> (Labelled(o, op) <==> o.pcLabels && op.Some? && op.value.jumpDest)
  {
  }

  // ----- the whole text -----

  /** One line, with its label and its line breaks. */
  lemma LineStepParses(o: Options, t: OpTable, size: nat, line: Line, next: Option<Op>, pc: nat, text: string)
    requires Printable(t) && ValidLine(t, line) && pc < size <= MAX_LENGTH
    ensures ParseDocument(Lex(Prefix(o, size, pc, OpOf(line)) + (Body(o, line) + (Breaks(o, line, next) + text))) + [EOF])
            == WithLabel(Labelled(o, OpOf(line)), pc, MoreStatements([StmtOf(line)], ParseDocument(Lex(text) + [EOF])))
  {
    hide *;
    var toks := BreaksLex(o, line, next, text);
    BreakStarts(o, line, next, text);
    var rest := Body(o, line) + (Breaks(o, line, next) + text);
    LineLexes(o, t, line, Breaks(o, line, next) + text);
    FirstTokens(o, line, toks);
    LineDocument(o, t, line, toks + [EOF]);
    Seq3(LineToks(o, line), toks, [EOF]);
    PrefixParses(o, size, pc, OpOf(line), rest);
  }

  lemma FirstTokens(o: Options, line: Line, toks: seq<Token>)
    requires toks != []
    ensures var ts := LineToks(o, line) + toks; ts != [] && ts[0].typ != Comment
    ensures toks + [EOF] != [] && (toks + [EOF])[0] == toks[0]
  {
    LineFirst(o, line);
    hide LineToks;
  }

  function ReadStmts(items: seq<Item>): Option<seq<Stmt>> {
    if Readable(items) then Some(Stmts(items)) else None
  }

  lemma ReadStep(o: Options, line: Line, more: seq<Item>, pc: nat)
    ensures ReadStmts(LabelItems(o, line, pc) + [LineItem(line)] + more)
            == WithLabel(Labelled(o, OpOf(line)), pc, MoreStatements([StmtOf(line)], ReadStmts(more)))
  {
    hide StmtOf, Labelled;
    ReadLine(line, more);
    if Labelled(o, OpOf(line)) {
      ReadLabel(pc, [LineItem(line)] + more);
      assert [LabelItem(pc)] + [LineItem(line)] + more == [LabelItem(pc)] + ([LineItem(line)] + more);
    } else {
      assert [] + [LineItem(line)] + more == [LineItem(line)] + more;
    }
  }

  lemma ReadLine(line: Line, more: seq<Item>)
    ensures ReadStmts([LineItem(line)] + more) == MoreStatements([StmtOf(line)], ReadStmts(more))
  {
    hide StmtOf;
    var items := [LineItem(line)] + more;
    assert items[1..] == more;
    assert Readable(items) <==> Readable(more) by {
      assert forall i :: 0 <= i < |more| ==> items[i + 1] == more[i];
    }
  }

  lemma ReadLabel(pc: nat, more: seq<Item>)
    ensures ReadStmts([LabelItem(pc)] + more) == WithLabel(true, pc, ReadStmts(more))
  {
    var items := [LabelItem(pc)] + more;
    assert items[1..] == more && items[0] == LabelItem(pc);
    assert Readable(items) <==> Readable(more) && pc < MAX_PC by {
      assert forall i :: 0 <= i < |more| ==> items[i + 1] == more[i];
    }
  }

  lemma {:induction false} LinesParse(o: Options, t: OpTable, size: nat, lines: seq<Line>, pc: nat)
    requires Printable(t) && ValidLines(t, lines) && pc + |AllBytes(lines)| <= size <= MAX_LENGTH
    ensures ParseDocument(Lex(FollowedText(o, size, lines, pc)) + [EOF]) == ReadStmts(Items(o, lines, pc))
    decreases |lines|
  {
    hide *;
    if lines == [] {
      NothingParses(o, size, pc);
    } else {
      var line, more := lines[0], lines[1..];
      var next := pc + |LineBytes(line)|;
      FirstLineFacts(t, lines);
      LinesParse(o, t, size, more, next);
      var text := FollowedText(o, size, more, next);
      LineStepParses(o, t, size, line, NextOp(more), pc, text);
      FollowedStep(o, size, lines, pc);
      ReadStep(o, line, Items(o, more, next), pc);
      ItemsStep(o, lines, pc);
    }
  }

  lemma FirstLineFacts(t: OpTable, lines: seq<Line>)
    requires lines != [] && ValidLines(t, lines)
    ensures ValidLine(t, lines[0]) && ValidLines(t, lines[1..])
    ensures LineBytes(lines[0]) != [] && |AllBytes(lines)| == |LineBytes(lines[0])| + |AllBytes(lines[1..])|
  {
    assert ValidLine(t, lines[0]);
  }

  lemma ItemsStep(o: Options, lines: seq<Line>, pc: nat)
    requires lines != []
    ensures Items(o, lines, pc)
            == LabelItems(o, lines[0], pc) + [LineItem(lines[0])] + Items(o, lines[1..], pc + |LineBytes(lines[0])|)
  {
    hide LabelItems, LineBytes;
  }

  lemma FollowedStep(o: Options, size: nat, lines: seq<Line>, pc: nat)
    requires lines != []
    ensures FollowedText(o, size, lines, pc)
            == Prefix(o, size, pc, OpOf(lines[0]))
               + (Body(o, lines[0])
                  + (Breaks(o, lines[0], NextOp(lines[1..])) + FollowedText(o, size, lines[1..], pc + |LineBytes(lines[0])|)))
  {
    hide Body, Breaks, Prefix, LineBytes;
  }

  lemma NothingParses(o: Options, size: nat, pc: nat)
    ensures ParseDocument(Lex(FollowedText(o, size, [], pc)) + [EOF]) == ReadStmts(Items(o, [], pc))
  {
    assert Lex("") + [EOF] == [EOF];
  }

  lemma BreakStarts(o: Options, line: Line, next: Option<Op>, rest: string)
    ensures StartsLine(Breaks(o, line, next) + rest)
  {
    BreaksAre(o, line, next);
    hide Breaks;
  }

  /**
   * The disassembly of every byte string parses into one statement for each line, and one for each
   * position that is printed, in all modes of printing; it parses without error exactly if the
   * positions that are printed have 32 bits.
   */
  lemma DisassemblyParses(o: Options, t: OpTable, code: seq<Byte>)
    requires Inverse(t) && Printable(t) && |code| <= MAX_LENGTH
    ensures ParseDocument(Tokens(DisasmText(o, t, code))) == ReadStmts(Items(o, Lines(t, code), 0))
  {
    var lines := Lines(t, code);
    hide *;
    LinesCover(t, code);
    TextRegrouped(o, |code|, None, lines, 0);
    LinesParse(o, t, |code|, lines, 0);
    NoBreak(o, lines, FollowedText(o, |code|, lines, 0));
    TokensParse(FollowedText(o, |code|, lines, 0));
    DisasmLines(o, t, code);
  }

  lemma DisasmLines(o: Options, t: OpTable, code: seq<Byte>)
    ensures DisasmText(o, t, code) == LinesText(o, |code|, None, Lines(t, code), 0)
  {
  }

  lemma NoBreak(o: Options, lines: seq<Line>, text: string)
    ensures Newline(o, None, NextOp(lines)) + text == text
  {
  }

  lemma TokensParse(text: string)
    ensures ParseDocument(Tokens(text)) == ParseDocument(Lex(text) + [EOF])
  {
    hide Lex, ParseDocument;
    var ts := Tokens(text);
    assert ts[1..] == Lex(text) + [EOF];
    SkipLineToken(ts);
  }
}
