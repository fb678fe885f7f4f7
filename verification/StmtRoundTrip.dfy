/** Statements with arguments are read back as they are written (parseInstruction and below in internal/ast/parse.go). */
module StmtRoundTrip {
  import opened Base
  import opened Lzint
  import opened Numerals
  import opened Lexer
  import opened Ast
  import opened Parser
  import opened CodeParser
  import opened ExprRoundTrip
  import D = DisasmParses

  function BracketToks(immediates: seq<int>): seq<Token> {
    if immediates == [] then [] else [Token(OpenBracket, "[")] + D.Operands(immediates)
  }

  /** The tokens of a statement: an opcode with immediates and argument, a macro call, or data with or without a name. */
  function StmtToks(s: Stmt): (r: seq<Token>)
    requires s.OpcodeStmt? || s.MacroCallStmt? || s.BytesStmt?
    ensures r != []
  {
    match s
    case OpcodeStmt(op, arg, immediates) =>
      [Token(Identifier, op)] + BracketToks(immediates) + if arg.Some? then Toks(arg.value, None) else []
    case MacroCallStmt(ident, args) => [Token(InstMacroIdent, ident)] + ArgToks(args)
    case BytesStmt(value, name) =>
      [Token(Directive, "#bytes")] + (if name.Some? then [Token(Label, name.value.ident)] else []) + Toks(value, None)
  }

  /** At most two immediates, each of which is a byte. */
  predicate ByteList(immediates: seq<int>) {
    |immediates| <= 2 && forall i :: 0 <= i < |immediates| ==> 0 <= immediates[i] < 256
  }

  /** A statement that the parser can build; opcodes are upper case. */
  predicate WritableStmt(s: Stmt) {
    match s
    case OpcodeStmt(op, arg, immediates) => UpperText(op) == op && ByteList(immediates) && (arg.Some? ==> WellFormed(arg.value))
    case MacroCallStmt(_, args) => WellFormedArgs(args)
    case BytesStmt(value, name) => WellFormed(value) && (name.Some? ==> name.value.dotted)
    case _ => false
  }

  /** The same statement, except for the identities of the labels that it defines. */
  predicate SameStmt(a: Stmt, b: Stmt) {
    if a.BytesStmt? && a.name.Some? then
      b.BytesStmt? && b.value == a.value && b.name.Some? && b.name.value == a.name.value.(id := b.name.value.id)
    else a == b
  }

  lemma {:induction false} NeverEnds(e: Expr, parent: Option<Expr>)
    ensures !EndsStatement(Toks(e, parent)[0]) && Toks(e, parent)[0].typ != Label
    decreases e
  {
    if e.BinaryExpr? {
      NeverEnds(e.left, Some(e));
    }
  }

  lemma ArgFollows(e: Expr, tail: seq<Token>)
    requires WellFormed(e) && EndsStatement(Head(tail))
    ensures var ts := Toks(e, None) + tail;
            && ParseExpr(ts) == Got(e, tail) && !EndsStatement(Head(ts)) && Head(ts).typ != Label && Head(ts).typ != OpenBracket
            && Head(ts) == Toks(e, None)[0]
  {
    hide WellFormed, ParseExpr;
    ExprParses(e, None, tail);
    NeverEnds(e, None);
    FirstTok(e, None);
    hide Toks;
  }

  /** The first token decides how a statement is read. */
  lemma FirstDecides(tok: Token, rest: seq<Token>)
    ensures tok.typ == Identifier ==> ParseOne([tok] + rest) == ParseOpcode(tok.text, rest)
    ensures tok.typ == InstMacroIdent ==> ParseOne([tok] + rest) == ParseMacroCall(tok.text, rest)
    ensures tok == Token(Directive, "#bytes") ==> ParseOne([tok] + rest) == ParseBytes(rest, None)
  {
    hide ParseOpcode, ParseMacroCall, ParseBytes;
    Parts(tok, rest);
  }

  lemma BracketsReadBack(immediates: seq<int>, tail: seq<Token>)
    requires ByteList(immediates) && Head(tail).typ != OpenBracket
    ensures ParseBrackets(BracketToks(immediates) + tail) == Got(immediates, tail)
  {
    hide ParseImmediates;
    if immediates == [] {
      assert BracketToks(immediates) + tail == tail;
    } else {
      var list := D.Operands(immediates) + tail;
      assert BracketToks(immediates) + tail == [Token(OpenBracket, "[")] + list;
      Parts(Token(OpenBracket, "["), list);
      if |immediates| == 1 {
        D.OneOperand(immediates[0], tail, 0);
        assert immediates == [immediates[0]];
      } else {
        D.TwoOperands(immediates[0], immediates[1], tail);
        assert immediates == [immediates[0], immediates[1]];
      }
      hide BracketToks, D.Operands;
    }
  }

  lemma OpcodeReadBack(s: Stmt, tail: seq<Token>)
    requires s.OpcodeStmt? && WritableStmt(s) && EndsStatement(Head(tail))
    ensures ParseOne(StmtToks(s) + tail) == Got(s, tail)
  {
    hide WellFormed, ParseExpr, Toks, UpperText, ParseOne, ParseBrackets, BracketToks, ByteList;
    var arg := (if s.arg.Some? then Toks(s.arg.value, None) else []) + tail;
    var rest := BracketToks(s.immediates) + arg;
    assert StmtToks(s) + tail == [Token(Identifier, s.op)] + rest;
    FirstDecides(Token(Identifier, s.op), rest);
    if s.arg.Some? {
      ArgFollows(s.arg.value, tail);
    } else {
      assert arg == tail;
    }
    BracketsReadBack(s.immediates, arg);
    hide StmtToks;
  }

  lemma ArgsReadBack(ident: string, args: seq<Expr>, tail: seq<Token>)
    requires WellFormedArgs(args) && EndsStatement(Head(tail))
    ensures ParseMacroCall(ident, ArgToks(args) + tail) == Got(MacroCallStmt(ident, args), tail)
  {
    hide WellFormedArgs, ParseCallArgs, ListToks;
    if args == [] {
      assert ArgToks(args) + tail == tail;
    } else {
      var list := ListToks(args) + tail;
      assert ArgToks(args) + tail == [Token(OpenParen, "(")] + list;
      Parts(Token(OpenParen, "("), list);
      ListParses(args, tail);
      hide ArgToks;
    }
  }

  lemma MacroCallReadBack(s: Stmt, tail: seq<Token>)
    requires s.MacroCallStmt? && WritableStmt(s) && EndsStatement(Head(tail))
    ensures ParseOne(StmtToks(s) + tail) == Got(s, tail)
  {
    var tok, rest := Token(InstMacroIdent, s.ident), ArgToks(s.args) + tail;
    assert StmtToks(s) + tail == [tok] + rest by { hide ArgToks; }
    hide StmtToks, ParseOne, ParseMacroCall, ArgToks, WellFormedArgs;
    FirstDecides(tok, rest);
    ArgsReadBack(s.ident, s.args, tail);
  }

  lemma DataReadBack(value: Expr, name: Option<LabelDef>, tail: seq<Token>)
    requires WellFormed(value) && EndsStatement(Head(tail))
    ensures ParseBytes(Toks(value, None) + tail, name) == Got(BytesStmt(value, name), tail)
  {
    ArgFollows(value, tail);
    hide WellFormed, ParseExpr, Toks;
  }

  lemma NameReadBack(name: string, value: seq<Token>)
    ensures var named := [Token(Label, name)] + value;
            ParseBytes(named, None) == ParseBytes(value, Some(LabelDef(|named|, name, true)))
  {
    Parts(Token(Label, name), value);
    hide ParseExpr;
  }

  lemma BytesReadBack(s: Stmt, tail: seq<Token>)
    requires s.BytesStmt? && WritableStmt(s) && EndsStatement(Head(tail))
    ensures var r := ParseOne(StmtToks(s) + tail); r.Got? && SameStmt(s, r.value) && r.rest == tail
  {
    var tok, value := Token(Directive, "#bytes"), Toks(s.value, None) + tail;
    var rest := (if s.name.Some? then [Token(Label, s.name.value.ident)] else []) + value;
    assert StmtToks(s) + tail == [tok] + rest by { hide Toks; }
    hide StmtToks, ParseOne, ParseBytes, Toks, WellFormed;
    FirstDecides(tok, rest);
    if s.name.Some? {
      NameReadBack(s.name.value.ident, value);
      DataReadBack(s.value, Some(LabelDef(|rest|, s.name.value.ident, true)), tail);
    } else {
      assert rest == value;
      DataReadBack(s.value, None, tail);
    }
  }

  /** A statement is read back as it is written, whatever follows its end. */
  lemma StmtReadBack(s: Stmt, tail: seq<Token>)
    requires WritableStmt(s) && EndsStatement(Head(tail))
    ensures var r := ParseOne(StmtToks(s) + tail); r.Got? && SameStmt(s, r.value) && r.rest == tail
  {
    hide StmtToks, ParseOne, WellFormed, WellFormedArgs, UpperText;
    match s
    case OpcodeStmt(_, _, _) => OpcodeReadBack(s, tail);
    case MacroCallStmt(_, _) => MacroCallReadBack(s, tail);
    case BytesStmt(_, _) => BytesReadBack(s, tail);
  }

  /** No longer list of immediates is read, and no larger number. */
  lemma {:induction false} ImmediatesBounded(ts: seq<Token>, n: nat)
    requires n < 2
    ensures var r := ParseImmediates(ts, n);
            r.Got? ==> 1 <= |r.value| <= 2 - n && forall i :: 0 <= i < |r.value| ==> -256 < r.value[i] < 256
    decreases |ts|
  {
    hide Literal, IntegerBitLen;
    var v := Literal(Head(ts).text);
    if v.Ok? && IntegerBitLen(v.value) <= 8 {
      SmallNumber(v.value);
    }
    if n == 0 && ts != [] {
      ImmediatesBounded(Tail(Tail(ts)), 1);
    }
  }

  lemma SmallNumber(v: Value)
    requires IntegerBitLen(v) <= 8
    ensures -256 < v.num < 256
  {
    BitLenSmall(if v.num < 0 then -v.num else v.num, 8);
    assert Pow2(8) == 256;
    hide BitLen;
  }
}
