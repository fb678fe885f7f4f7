/** The parser object: tokens are read one by one, and can be put back (internal/ast/parse.go). */
module ParserObject {
  import opened Base
  import opened Numerals
  import opened Lzint
  import opened Lexer
  import opened Ast
  import P = Parser

  function Reverse(s: seq<Token>): (r: seq<Token>)
    ensures |r| == |s|
  {
    if s == [] then [] else [s[|s| - 1]] + Reverse(s[..|s| - 1])
  }

  /** The result that a method has, if the specification has one. */
  ghost predicate Agrees<T>(spec: P.Parsing<T>, r: Option<T>, rest: seq<Token>) {
    match spec
    case Bad => r.None?
    case Got(v, after) => r == Some(v) && rest == after
  }

  class Parser {
    var input: seq<Token>
    var buffer: seq<Token>

    /** The tokens that will be read next: those put back, the last one first, then the input. */
    ghost function Pending(): seq<Token>
      reads this
    {
      Reverse(buffer) + input
    }

    constructor (text: string)
      ensures Pending() == Tokens(text)
    {
      input, buffer := Tokens(text), [];
    }

    /** Reads the next token. */
    method Next() returns (t: Token)
      modifies this
      ensures t == P.Head(old(Pending())) && Pending() == P.Tail(old(Pending()))
    {
      if |buffer| > 0 {
        t := buffer[|buffer| - 1];
        buffer := buffer[..|buffer| - 1];
        assert Pending() == old(Pending())[1..];
      } else if |input| > 0 {
        t := input[0];
        input := input[1..];
        assert Pending() == old(Pending())[1..];
      } else {
        t := P.EOF;
      }
    }

    /** How many tokens are left to read. */
    method Remaining() returns (n: nat)
      ensures n == |Pending()|
    {
      n := |buffer| + |input|;
    }

    /** Puts a token back into the queue for reading. */
    method Unread(t: Token)
      modifies this
      ensures Pending() == [t] + old(Pending())
    {
      buffer := buffer + [t];
      assert buffer[..|buffer| - 1] == old(buffer);
    }

    /** Parses an expression that begins with tok. */
    method ParseExpr(tok: Token) returns (r: Option<Expr>)
      requires P.Terminated([tok] + Pending())
      modifies this
      ensures Agrees(P.ParseExpr([tok] + old(Pending())), r, Pending())
      decreases |Pending()|, 3
    {
      hide P.ParsePrimary, P.ParseArith, Reverse;
      var left := ParsePrimary(tok);
      if left.None? {
        return None;
      }
      Split(Pending());
      var t := Next();
      r := ParseArith(left.value, t, 0);
    }

    /** Parses an operand. */
    method ParsePrimary(tok: Token) returns (r: Option<Expr>)
      requires P.Terminated([tok] + Pending())
      modifies this
      ensures Agrees(P.ParsePrimary([tok] + old(Pending())), r, Pending())
      decreases |Pending()|, 0, 1
    {
      ghost var ts := [tok] + Pending();
      FirstOf(tok, Pending());
      hide P.ParseExpr, P.ParseCallArgs, Literal, P.StringBytes, P.OpOfSign, Reverse, P.CloseGroup;
      if tok.typ == Identifier || tok.typ == DottedIdentifier {
        r := ParseCall(tok);
      } else if tok.typ == VariableIdentifier {
        r := Some(VariableExpr(tok.text));
      } else if tok.typ == LabelRef || tok.typ == DottedLabelRef {
        r := Some(LabelRefExpr(tok.text, tok.typ == DottedLabelRef));
      } else if tok.typ == NumberLiteral {
        var v := ParseNumberLiteral(tok.text);
        r := if v.Ok? then Some(LiteralExpr(tok.text, false, v.value)) else None;
      } else if tok.typ == StringLiteral {
        var b := P.StringBytes(tok.text);
        r := if b.Some? then Some(LiteralExpr(tok.text, true, OfBytes(b.value))) else None;
      } else if tok.typ == ArithSign {
        r := ParseUnary(tok);
      } else if tok.typ == OpenParen {
        r := ParseParen(tok);
      } else {
        r := None;
      }
    }

    /** A macro call, with arguments if there is an opening parenthesis. */
    method ParseCall(tok: Token) returns (r: Option<Expr>)
      requires P.Terminated([tok] + Pending()) && (tok.typ == Identifier || tok.typ == DottedIdentifier)
      modifies this
      ensures Agrees(P.ParsePrimary([tok] + old(Pending())), r, Pending())
      decreases |Pending()|, 0, 0
    {
      ghost var p := Pending();
      FirstOf(tok, p);
      hide P.ParseCallArgs, P.ParsePrimary, P.Terminated, P.Head, P.Tail, Reverse;
      CallSpec(tok, p);
      Split(p);
      var next := Next();
      FirstOf(next, P.Tail(p));
      if next.typ != OpenParen {
        Unread(next);
        return Some(MacroCallExpr(tok.text, tok.typ == DottedIdentifier, []));
      }
      var args := ParseCallArguments();
      if args.None? {
        return None;
      }
      r := Some(MacroCallExpr(tok.text, tok.typ == DottedIdentifier, args.value));
    }

    method ParseUnary(tok: Token) returns (r: Option<Expr>)
      requires P.Terminated([tok] + Pending()) && tok.typ == ArithSign
      modifies this
      ensures Agrees(P.ParsePrimary([tok] + old(Pending())), r, Pending())
      decreases |Pending()|, 0, 0
    {
      FirstOf(tok, Pending());
      hide P.OpOfSign, Reverse, P.ParseExpr, P.ParseCallArgs, Literal, P.StringBytes;
      if P.OpOfSign(tok.text) != Some(Minus) {
        return None;
      }
      Split(Pending());
      var next := Next();
      var arg := ParsePrimary(next);
      r := if arg.Some? then Some(UnaryExpr(Minus, arg.value)) else None;
    }

    method ParseParen(tok: Token) returns (r: Option<Expr>)
      requires P.Terminated([tok] + Pending()) && tok.typ == OpenParen
      modifies this
      ensures Agrees(P.ParsePrimary([tok] + old(Pending())), r, Pending())
      decreases |Pending()|, 0, 0
    {
      FirstOf(tok, Pending());
      hide P.ParseExpr, Reverse, P.CloseGroup;
      Split(Pending());
      var next := Next();
      if next.typ == CloseParen {
        return None;
      }
      var inner := ParseExpr(next);
      if inner.None? {
        return None;
      }
      var closed := SkipToClose();
      r := if closed then Some(GroupExpr(inner.value)) else None;
    }

    /** Skips line ends up to a closing parenthesis. */
    method SkipToClose() returns (closed: bool)
      requires P.Terminated(Pending())
      modifies this
      ensures match P.CloseGroup(old(Pending())) case Bad => !closed case Got(_, rest) => closed && Pending() == rest
    {
      hide Reverse;
      ghost var start := Pending();
      while true
        invariant P.Terminated(Pending()) && P.CloseGroup(Pending()) == P.CloseGroup(start)
        decreases |Pending()|
      {
        Split(Pending());
        var tok := Next();
        if tok.typ == CloseParen {
          return true;
        }
        if !P.IsLineToken(tok) {
          return false;
        }
      }
    }

    /** Parses the arguments of a macro call. */
    method ParseCallArguments() returns (r: Option<seq<Expr>>)
      requires P.Terminated(Pending())
      modifies this
      ensures Agrees(P.ParseCallArgs(old(Pending())), r, Pending())
      decreases |Pending()|, 4
    {
      hide P.ParseExpr, P.ListEnd, Reverse;
      var args: seq<Expr> := [];
      ghost var start := Pending();
      NoArgs(P.ParseCallArgs(start));
      while true
        invariant P.Terminated(Pending()) && |Pending()| <= |start|
        invariant P.ParseCallArgs(start) == WithArgs(args, P.ParseCallArgs(Pending()))
        decreases |Pending()|
      {
        ghost var now := Pending();
        Split(Pending());
        var tok := Next();
        if tok.typ == CloseParen {
          assert args + [] == args;
          return Some(args);
        }
        var arg := ParseExpr(tok);
        if arg.None? {
          return None;
        }
        args := args + [arg.value];
        var end := ParseListEnd();
        if end.None? {
          return None;
        }
        if end.value {
          return Some(args);
        }
        MoreArgs(args[..|args| - 1], arg.value, P.ParseCallArgs(Pending()));
      }
    }

    method ParseListEnd() returns (r: Option<bool>)
      requires P.Terminated(Pending())
      modifies this
      ensures Agrees(P.ListEnd(old(Pending())), r, Pending())
    {
      hide Reverse;
      ghost var start := Pending();
      while true
        invariant P.Terminated(Pending()) && P.ListEnd(Pending()) == P.ListEnd(start)
        decreases |Pending()|
      {
        Split(Pending());
        var tok := Next();
        if tok.typ == Comma {
          return Some(false);
        }
        if tok.typ == CloseParen {
          return Some(true);
        }
        if !P.IsLineToken(tok) {
          return None;
        }
      }
    }

    /** Parses operators of at least the given precedence, and their operands. */
    method ParseArith(left0: Expr, tok0: Token, min: nat) returns (r: Option<Expr>)
      requires P.Terminated([tok0] + Pending())
      modifies this
      ensures Agrees(P.ParseArith(left0, [tok0] + old(Pending()), min), r, Pending())
      decreases |Pending()|, 1
    {
      hide P.ParsePrimary, P.ParseInner, P.ParseArith, P.OpOfSign, P.Precedence, Reverse;
      var left, tok := left0, tok0;
      ghost var start := [tok0] + Pending();
      while true
        invariant P.Terminated([tok] + Pending()) && |Pending()| < |start|
        invariant P.ParseArith(left, [tok] + Pending(), min) == P.ParseArith(left0, start, min)
        decreases |Pending()|
      {
        FirstOf(tok, Pending());
        P.ArithFact(left, [tok] + Pending(), min);
        var op := P.OpAt(tok);
        if op.None? || P.Precedence(op.value) < min {
          Unread(tok);
          return Some(left);
        }
        if tok.typ == InstMacroIdent {
          // A name after a dense modulus sign: the name is read again as an identifier.
          Unread(Token(Identifier, tok.text));
        }
        Split(Pending());
        tok := Next();
        var operand := ParsePrimary(tok);
        if operand.None? {
          return None;
        }
        var right := ParseArithInner(operand.value, P.Precedence(op.value));
        if right.None? {
          return None;
        }
        left := BinaryExpr(op.value, left, right.value);
        Split(Pending());
        tok := Next();
      }
    }

    /** Extends a right operand with operators of higher precedence. */
    method ParseArithInner(right0: Expr, cur: nat) returns (r: Option<Expr>)
      requires P.Terminated(Pending())
      modifies this
      ensures Agrees(P.ParseInner(right0, old(Pending()), cur), r, Pending())
      decreases |Pending()|, 0
    {
      hide P.ParseArith, P.ParseInner, P.OpOfSign, P.Precedence, Reverse;
      var right := right0;
      ghost var start := Pending();
      while true
        invariant P.Terminated(Pending()) && |Pending()| <= |start|
        invariant P.ParseInner(right, Pending(), cur) == P.ParseInner(right0, start, cur)
        decreases |Pending()|
      {
        Split(Pending());
        P.InnerFact(right, Pending(), cur);
        var tok := Next();
        var op := P.OpAt(tok);
        if op.None? || P.Precedence(op.value) <= cur {
          Unread(tok);
          return Some(right);
        }
        var next := ParseArith(right, tok, cur + 1);
        if next.None? {
          return None;
        }
        right := next.value;
      }
    }
  }

  /** A terminated stream is not empty. */
  lemma Split(p: seq<Token>)
    requires P.Terminated(p)
    ensures p != [] && p == [P.Head(p)] + P.Tail(p)
  {
  }

  lemma FirstOf(t: Token, p: seq<Token>)
    requires P.Terminated([t] + p)
    ensures P.Head([t] + p) == t && P.Tail([t] + p) == p
    ensures t.typ != Eof ==> P.Terminated(p)
  {
    assert ([t] + p)[1..] == p;
  }

  lemma CallSpec(tok: Token, p: seq<Token>)
    requires P.Terminated([tok] + p) && (tok.typ == Identifier || tok.typ == DottedIdentifier)
    ensures var args, builtin := P.ParseCallArgs(P.Tail(p)), tok.typ == DottedIdentifier;
            P.ParsePrimary([tok] + p) ==
            if P.Head(p).typ != OpenParen then P.Got(MacroCallExpr(tok.text, builtin, []), p)
            else if args.Bad? then P.Bad
            else P.Got(MacroCallExpr(tok.text, builtin, args.value), args.rest)
  {
    FirstOf(tok, p);
    P.CallFact([tok] + p, P.ParseCallArgs(P.Tail(p)));
    hide P.ParsePrimary, P.ParseCallArgs;
  }

  function WithArgs(args: seq<Expr>, rest: P.Parsing<seq<Expr>>): P.Parsing<seq<Expr>> {
    if rest.Bad? then P.Bad else P.Got(args + rest.value, rest.rest)
  }

  lemma NoArgs(rest: P.Parsing<seq<Expr>>)
    ensures WithArgs([], rest) == rest
  {
    if rest.Got? {
      assert [] + rest.value == rest.value;
    }
  }

  lemma MoreArgs(args: seq<Expr>, arg: Expr, rest: P.Parsing<seq<Expr>>)
    ensures WithArgs(args + [arg], rest) == WithArgs(args, WithArgs([arg], rest))
  {
    if rest.Got? {
      assert args + [arg] + rest.value == args + ([arg] + rest.value);
    }
  }
}
