/** Parsing of statements: labels, opcodes, data and macro calls (parseStatement and below, internal/ast/parse.go). */
module CodeParser {
  import opened Base
  import opened Numerals
  import opened Lzint
  import opened Lexer
  import opened Ast
  import opened Parser
  import PO = ParserObject

  // ----- specification -----

  function Upper(c: char): char {
    if 'a' <= c <= 'z' then c - 'a' + 'A' else c
  }

  function UpperText(s: string): (r: string)
    ensures |r| == |s|
    ensures forall i :: 0 <= i < |s| ==> r[i] == Upper(s[i])
  {
    seq(|s|, i requires 0 <= i < |s| => Upper(s[i]))
  }

  /** Tokens that end a statement: they are not part of its argument. */
  predicate EndsStatement(t: Token) {
    t.typ == LineEnd || t.typ == Eof || t.typ == Comment
  }

  const IMMEDIATE_LIMIT: nat := 2

  /** The bit length of a value as an integer. */
  function IntegerBitLen(v: Value): nat {
    BitLen(if v.num < 0 then -v.num else v.num)
  }

  /** Immediates up to the closing bracket; n is how many come before. */
  function ParseImmediates(ts: seq<Token>, n: nat): (r: Parsing<seq<int>>)
    ensures r.Got? ==> |r.rest| < |ts| && (Terminated(ts) ==> Terminated(r.rest))
    decreases |ts|
  {
    if Head(ts).typ != NumberLiteral then Bad
    else
      var v := Literal(Head(ts).text);
      if v.Err? || IntegerBitLen(v.value) > 8 then Bad
      else if Head(Tail(ts)).typ == CloseBracket then Got([v.value.num], Tail(Tail(ts)))
      else if Head(Tail(ts)).typ != Comma || n + 1 >= IMMEDIATE_LIMIT then Bad
      else
        match ParseImmediates(Tail(Tail(ts)), n + 1)
        case Bad => Bad
        case Got(more, rest) => Got([v.value.num] + more, rest)
  }

  /** The immediates of an opcode, if there is an opening bracket. */
  function ParseBrackets(ts: seq<Token>): (r: Parsing<seq<int>>)
    ensures r.Got? ==> |r.rest| <= |ts| && (Terminated(ts) ==> Terminated(r.rest))
  {
    if Head(ts).typ == OpenBracket then ParseImmediates(Tail(ts), 0) else Got([], ts)
  }

  function ParseArg(op: string, immediates: seq<int>, ts: seq<Token>): (r: Parsing<Stmt>)
    ensures r.Got? ==> |r.rest| <= |ts| && (Terminated(ts) ==> Terminated(r.rest))
  {
    if EndsStatement(Head(ts)) then Got(OpcodeStmt(op, None, immediates), ts)
    else
      match ParseExpr(ts)
      case Bad => Bad
      case Got(arg, rest) => Got(OpcodeStmt(op, Some(arg), immediates), rest)
  }

  /** An opcode, given the tokens after its name. */
  function ParseOpcode(name: string, ts: seq<Token>): (r: Parsing<Stmt>)
    ensures r.Got? ==> |r.rest| <= |ts| && (Terminated(ts) ==> Terminated(r.rest))
  {
    match ParseBrackets(ts)
    case Bad => Bad
    case Got(immediates, rest) => ParseArg(UpperText(name), immediates, rest)
  }

  /** Data, given the tokens after the directive. A label gives the data a name. */
  function ParseBytes(ts: seq<Token>, name: Option<LabelDef>): (r: Parsing<Stmt>)
    ensures r.Got? ==> |r.rest| < |ts| && (Terminated(ts) ==> Terminated(r.rest))
    decreases |ts|
  {
    if Head(ts).typ == LineEnd || Head(ts).typ == Eof then Bad
    else if Head(ts).typ == Label then
      if name.Some? then Bad else ParseBytes(Tail(ts), Some(LabelDef(|ts|, Head(ts).text, true)))
    else
      match ParseExpr(ts)
      case Bad => Bad
      case Got(value, rest) => Got(BytesStmt(value, name), rest)
  }

  /** A call of an instruction macro, given the tokens after the name. */
  function ParseMacroCall(ident: string, ts: seq<Token>): (r: Parsing<Stmt>)
    ensures r.Got? ==> |r.rest| <= |ts| && (Terminated(ts) ==> Terminated(r.rest))
  {
    if EndsStatement(Head(ts)) then Got(MacroCallStmt(ident, []), ts)
    else if Head(ts).typ != OpenParen then Bad
    else
      match ParseCallArgs(Tail(ts))
      case Bad => Bad
      case Got(args, rest) => Got(MacroCallStmt(ident, args), rest)
  }

  const MAX_PC: nat := 0x1_0000_0000

  function PCOf(text: string): Option<nat> {
    if !HasHexPrefix(text) || text[2..] == [] || !AllHex(text[2..]) then None
    else
      var n := FromBase(16, DigitsOf(text[2..]));
      if n < MAX_PC then Some(n) else None
  }

  /** A statement that begins with the first token. Definitions of macros and files are not modelled. */
  function ParseOne(ts: seq<Token>): (r: Parsing<Stmt>)
    requires ts != []
    ensures r.Got? ==> |r.rest| < |ts| && (Terminated(ts) && ts[0].typ != Eof ==> Terminated(r.rest))
  {
    var tok, rest := ts[0], ts[1..];
    match tok.typ
    case Comment => Got(OtherStmt, rest)
    case Label => Got(LabelStmt(LabelDef(|ts|, tok.text, false)), rest)
    case DottedLabel => Got(LabelStmt(LabelDef(|ts|, tok.text, true)), rest)
    case PCLabel => if PCOf(tok.text).None? then Bad else Got(PCLabelStmt(PCOf(tok.text).value), rest)
    case Identifier => ParseOpcode(tok.text, rest)
    case InstMacroIdent => ParseMacroCall(tok.text, rest)
    case Directive => if tok.text == "#bytes" then ParseBytes(rest, None) else Bad
    case _ => Bad
  }

  /** A line end or a comment after a statement belongs to the statement. */
  function AfterStatement(ts: seq<Token>): (r: seq<Token>)
    ensures |r| <= |ts| && (Terminated(ts) ==> Terminated(r))
  {
    if Head(ts).typ == LineEnd || Head(ts).typ == Comment then Tail(ts) else ts
  }

  /** The next statement; None at the end of the document. */
  function ParseStatement(ts: seq<Token>): (r: Parsing<Option<Stmt>>)
    ensures r.Got? && r.value.Some? ==> |r.rest| < |ts| && (Terminated(ts) ==> Terminated(r.rest))
  {
    if Head(ts).typ == Eof then Got(None, Tail(ts))
    else if IsLineToken(Head(ts)) then ParseStatement(ts[1..])
    else
      match ParseOne(ts)
      case Bad => Bad
      case Got(st, rest) => Got(Some(st), AfterStatement(rest))
  }

  /** All statements of a document, if there are no errors. */
  function ParseDocument(ts: seq<Token>): Option<seq<Stmt>>
    decreases |ts|
  {
    match ParseStatement(ts)
    case Bad => None
    case Got(None, _) => Some([])
    case Got(Some(st), rest) =>
      match ParseDocument(rest)
      case None => None
      case Some(more) => Some([st] + more)
  }

  // ----- the statement parser -----

  lemma Whole(p: seq<Token>)
    requires Terminated(p)
    ensures [Head(p)] + Tail(p) == p && p[0] == Head(p) && Tail(p) == p[1..]
    ensures Head(p).typ != Eof ==> Terminated(Tail(p))
  {
  }

  /** The first token and the rest of a pair. */
  lemma Parts(t: Token, p: seq<Token>)
    ensures Head([t] + p) == t && Tail([t] + p) == p && ([t] + p)[0] == t && ([t] + p)[1..] == p
  {
  }

  lemma ImmediatesFact(ts: seq<Token>, n: nat, v: Result<Value, NumberError>, more: Parsing<seq<int>>)
    requires v == Literal(Head(ts).text) && more == ParseImmediates(Tail(Tail(ts)), n + 1)
    ensures ParseImmediates(ts, n) ==
            if Head(ts).typ != NumberLiteral || v.Err? || IntegerBitLen(v.value) > 8 then Bad
            else if Head(Tail(ts)).typ == CloseBracket then Got([v.value.num], Tail(Tail(ts)))
            else if Head(Tail(ts)).typ != Comma || n + 1 >= IMMEDIATE_LIMIT then Bad
            else MoreImmediates([v.value.num], more)
  {
    hide Literal, IntegerBitLen;
  }

  method ParseImmediateList(p: PO.Parser) returns (r: Option<seq<int>>)
    requires Terminated(p.Pending())
    modifies p
    ensures PO.Agrees(ParseImmediates(old(p.Pending()), 0), r, p.Pending())
  {
    hide ParseImmediates, Literal, IntegerBitLen, MoreImmediates, PO.Reverse;
    var args: seq<int> := [];
    ghost var start := p.Pending();
    while true
      invariant Terminated(p.Pending())
      invariant MoreImmediates(args, ParseImmediates(p.Pending(), |args|)) == ParseImmediates(start, 0)
      decreases |p.Pending()|
    {
      ghost var ts := p.Pending();
      ImmediatesFact(ts, |args|, Literal(Head(ts).text), ParseImmediates(Tail(Tail(ts)), |args| + 1));
      FirstImmediates(args, ParseImmediates(ts, |args|));
      var tok := p.Next();
      if tok.typ != NumberLiteral {
        return None;
      }
      var n := ParseNumberLiteral(tok.text);
      if n.Err? || IntegerBitLen(n.value) > 8 {
        return None;
      }
      ghost var before := args;
      args := args + [n.value.num];
      var sep := p.Next();
      if sep.typ == CloseBracket {
        return Some(args);
      }
      if sep.typ != Comma || |args| >= IMMEDIATE_LIMIT {
        return None;
      }
      ImmediatesStep(before, n.value.num, ParseImmediates(p.Pending(), |args|));
    }
  }

  /** A list of immediates whose first part is known. */
  function MoreImmediates(args: seq<int>, r: Parsing<seq<int>>): (s: Parsing<seq<int>>)
    ensures args == [] ==> s == r
  {
    match r
    case Bad => Bad
    case Got(more, rest) =>
      assert args == [] ==> args + more == more;
      Got(args + more, rest)
  }

  lemma FirstImmediates(args: seq<int>, r: Parsing<seq<int>>)
    ensures MoreImmediates(args, r) == if r.Bad? then Bad else Got(args + r.value, r.rest)
  {
  }

  lemma ImmediatesStep(args: seq<int>, n: int, r: Parsing<seq<int>>)
    ensures MoreImmediates(args, MoreImmediates([n], r)) == MoreImmediates(args + [n], r)
  {
    if r.Got? {
      assert args + ([n] + r.value) == args + [n] + r.value;
    }
  }

  method ParseOpcodeStmt(p: PO.Parser, tok: Token) returns (r: Option<Stmt>)
    requires Terminated(p.Pending())
    modifies p
    ensures PO.Agrees(ParseOpcode(tok.text, old(p.Pending())), r, p.Pending())
  {
    hide ParseImmediates, ParseExpr, PO.Reverse;
    ghost var ts := p.Pending();
    Whole(ts);
    var immediates: seq<int> := [];
    var argToken := p.Next();
    if argToken.typ == OpenBracket {
      var list := ParseImmediateList(p);
      if list.None? {
        return None;
      }
      immediates := list.value;
      Whole(p.Pending());
      argToken := p.Next();
    }
    if EndsStatement(argToken) {
      p.Unread(argToken);
      r := Some(OpcodeStmt(UpperText(tok.text), None, immediates));
    } else {
      var arg := p.ParseExpr(argToken);
      r := if arg.Some? then Some(OpcodeStmt(UpperText(tok.text), arg, immediates)) else None;
    }
  }

  method ParseBytesStmt(p: PO.Parser) returns (r: Option<Stmt>)
    requires Terminated(p.Pending())
    modifies p
    ensures PO.Agrees(ParseBytes(old(p.Pending()), None), r, p.Pending())
  {
    hide ParseExpr, PO.Reverse;
    var name: Option<LabelDef> := None;
    while true
      invariant Terminated(p.Pending())
      invariant ParseBytes(p.Pending(), name) == ParseBytes(old(p.Pending()), None)
      decreases |p.Pending()|
    {
      ghost var ts := p.Pending();
      Whole(ts);
      var tok := p.Next();
      if tok.typ == LineEnd || tok.typ == Eof {
        return None;
      } else if tok.typ == Label {
        if name.Some? {
          return None;
        }
        var left := p.Remaining();
        name := Some(LabelDef(left + 1, tok.text, true));
      } else {
        var value := p.ParseExpr(tok);
        return if value.Some? then Some(BytesStmt(value.value, name)) else None;
      }
    }
  }

  method ParseMacroCallStmt(p: PO.Parser, tok: Token) returns (r: Option<Stmt>)
    requires Terminated(p.Pending())
    modifies p
    ensures PO.Agrees(ParseMacroCall(tok.text, old(p.Pending())), r, p.Pending())
  {
    hide ParseCallArgs, PO.Reverse;
    Whole(p.Pending());
    var next := p.Next();
    if EndsStatement(next) {
      p.Unread(next);
      return Some(MacroCallStmt(tok.text, []));
    } else if next.typ != OpenParen {
      return None;
    }
    var args := p.ParseCallArguments();
    r := if args.Some? then Some(MacroCallStmt(tok.text, args.value)) else None;
  }

  /** Parses the statement that begins with tok. */
  method ParseStmt(p: PO.Parser, tok: Token) returns (r: Option<Stmt>)
    requires Terminated([tok] + p.Pending()) && tok.typ != Eof
    modifies p
    ensures PO.Agrees(ParseOne([tok] + old(p.Pending())), r, p.Pending())
  {
    hide ParseOpcode, ParseMacroCall, ParseBytes, PCOf, PO.Reverse;
    Parts(tok, p.Pending());
    Whole([tok] + p.Pending());
    var left := p.Remaining();
    match tok.typ {
      case Comment => r := Some(OtherStmt);
      case Label => r := Some(LabelStmt(LabelDef(left + 1, tok.text, false)));
      case DottedLabel => r := Some(LabelStmt(LabelDef(left + 1, tok.text, true)));
      case PCLabel => r := if PCOf(tok.text).None? then None else Some(PCLabelStmt(PCOf(tok.text).value));
      case Identifier => r := ParseOpcodeStmt(p, tok);
      case InstMacroIdent => r := ParseMacroCallStmt(p, tok);
      case Directive =>
        if tok.text == "#bytes" {
          r := ParseBytesStmt(p);
        } else {
          r := None;
        }
      case _ => r := None;
    }
  }

  /** Reads a single statement; done at the end of the document. */
  method ParseNextStatement(p: PO.Parser) returns (r: Option<Option<Stmt>>)
    requires Terminated(p.Pending())
    modifies p
    ensures PO.Agrees(ParseStatement(old(p.Pending())), r, p.Pending())
  {
    hide ParseOne, PO.Reverse;
    while true
      invariant Terminated(p.Pending())
      invariant ParseStatement(p.Pending()) == ParseStatement(old(p.Pending()))
      decreases |p.Pending()|
    {
      Whole(p.Pending());
      var tok := p.Next();
      if tok.typ == Eof {
        return Some(None);
      } else if !IsLineToken(tok) {
        var st := ParseStmt(p, tok);
        if st.None? {
          return None;
        }
        Whole(p.Pending());
        var next := p.Next();
        if next.typ != LineEnd && next.typ != Comment {
          p.Unread(next);
        }
        return Some(st);
      }
    }
  }

  /** Statements whose first part is known. */
  function MoreStatements(stmts: seq<Stmt>, r: Option<seq<Stmt>>): (s: Option<seq<Stmt>>)
    ensures stmts == [] ==> s == r
  {
    match r
    case None => None
    case Some(more) =>
      assert stmts == [] ==> stmts + more == more;
      Some(stmts + more)
  }

  lemma StatementsStep(stmts: seq<Stmt>, st: Stmt, r: Option<seq<Stmt>>)
    ensures MoreStatements(stmts, MoreStatements([st], r)) == MoreStatements(stmts + [st], r)
  {
    if r.Some? {
      assert stmts + ([st] + r.value) == stmts + [st] + r.value;
    }
  }

  /** Runs the parser on a text. */
  method Parse(text: string) returns (r: Option<seq<Stmt>>)
    ensures r == ParseDocument(Tokens(text))
  {
    hide ParseStatement, PO.Reverse, Tokens;
    var p := new PO.Parser(text);
    assert Terminated(p.Pending()) by { TokensTerminated(text); }
    var stmts: seq<Stmt> := [];
    while true
      invariant fresh(p) && Terminated(p.Pending())
      invariant MoreStatements(stmts, ParseDocument(p.Pending())) == ParseDocument(Tokens(text))
      decreases |p.Pending()|
    {
      var st := ParseNextStatement(p);
      if st.None? {
        return None;
      }
      if st.value.None? {
        assert stmts + [] == stmts;
        return Some(stmts);
      }
      StatementsStep(stmts, st.value.value, ParseDocument(p.Pending()));
      stmts := stmts + [st.value.value];
    }
  }

  lemma TokensTerminated(text: string)
    ensures Terminated(Tokens(text))
  {
  }
}
