/** Printed expressions read back as the same trees. */
module ExprRoundTrip {
  import opened Base
  import opened Numerals
  import opened Lzint
  import opened Lexer
  import opened Ast
  import opened Parser
  import opened Printer

  // ----- the trees that the parser builds -----

  predicate IdentText(s: string) {
    s != [] && IsIdentBegin(s[0]) && AllOf(IsIdent, s)
  }

  predicate NumberText(s: string) {
    && s != [] && IsDigit(s[0])
    && (AllOf(IsDigit, s) || (|s| >= 2 && (s[1] == 'x' || s[1] == 'X') && AllOf(IsHex, s[2..])))
  }

  /** The raw text between the quotes of a string literal. */
  predicate StringText(s: string) {
    StringScan("\"" + s + "\"", 1) == (|s| + 1, true)
  }

  /** Operands that are not operations themselves, or bind tightly enough. */
  predicate FitsLeft(e: Expr, op: ArithOp) {
    e.BinaryExpr? ==> Precedence(e.op) >= Precedence(op)
  }

  predicate FitsRight(e: Expr, op: ArithOp) {
    e.BinaryExpr? ==> Precedence(e.op) > Precedence(op)
  }

  /**
   * Names and literals are those of the lexer. Every right operand has a strictly higher precedence,
   * every left operand at least the same, and the operand of a sign is no operation.
   */
  predicate WellFormed(e: Expr) {
    match e
    case LiteralExpr(text, isString, value) =>
      if isString then StringText(text) && StringBytes(text).Some? && value == OfBytes(StringBytes(text).value)
      else NumberText(text) && Literal(text) == Ok(value)
    case LabelRefExpr(ident, _) => AllOf(IsIdent, ident)
    case VariableExpr(ident) => AllOf(IsIdent, ident)
    case MacroCallExpr(ident, builtin, args) =>
      (if builtin then AllOf(IsIdent, ident) else IdentText(ident)) && WellFormedArgs(args)
    case BinaryExpr(op, left, right) => WellFormed(left) && WellFormed(right) && FitsLeft(left, op) && FitsRight(right, op)
    case UnaryExpr(op, arg) => op == Minus && WellFormed(arg) && !arg.BinaryExpr?
    case GroupExpr(inner) => WellFormed(inner)
  }

  predicate WellFormedArgs(args: seq<Expr>) {
    args != [] ==> WellFormed(args[0]) && WellFormedArgs(args[1..])
  }

  // ----- tokens have the texts that the lexer gives them -----

  predicate TokenOk(t: Token) {
    match t.typ
    case Identifier => IdentText(t.text)
    case InstMacroIdent => IdentText(t.text)
    case DottedIdentifier => AllOf(IsIdent, t.text)
    case VariableIdentifier => AllOf(IsIdent, t.text)
    case LabelRef => AllOf(IsIdent, t.text)
    case DottedLabelRef => AllOf(IsIdent, t.text)
    case NumberLiteral => NumberText(t.text)
    case StringLiteral => StringText(t.text)
    case _ => true
  }

  predicate TokensOk(ts: seq<Token>) {
    forall i :: 0 <= i < |ts| ==> TokenOk(ts[i])
  }

  lemma ScanPrefix(s: string, i: nat, n: nat)
    requires i <= |s| && StringScan(s, i) == (n, true)
    ensures i <= n && StringScan(s[..n + 1], i) == (n, true)
    decreases |s| - i
  {
    var p := s[..n + 1];
    assert p[n] == '"';
    if s[i] == '\\' {
      ScanPrefix(s, i + 2, n);
    } else if s[i] != '"' {
      ScanPrefix(s, i + 1, n);
    }
  }

  lemma LexStringOk(s: string)
    requires s != [] && s[0] == '"'
    ensures TokensOk(LexString(s).tokens)
  {
    var (end, closed) := StringScan(s, 1);
    if closed {
      ScanPrefix(s, 1, end);
      assert "\"" + s[1..end] + "\"" == s[..end + 1];
    }
  }

  lemma LexNumberOk(s: string)
    requires s != [] && IsDigit(s[0])
    ensures TokensOk(LexNumber(s).tokens)
  {
    var hex := |s| > 1 && (s[1] == 'x' || s[1] == 'X');
    var start := if hex then 2 else 1;
    var k := RunOf(if hex then IsHex else IsDigit, s[start..]);
    var n := start + k;
    assert s[..n][start..] == s[start..][..k];
    if !hex {
      assert AllOf(IsDigit, s[..n]) by {
        forall i | 0 <= i < n
          ensures IsDigit(s[..n][i])
        {
          if i > 0 {
            assert s[..n][i] == s[1..][..k][i - 1];
          }
        }
      }
    }
    hide RunOf;
  }

  lemma RunWord(s: string, from: nat)
    requires from <= |s|
    ensures var n := from + RunOf(IsIdent, s[from..]);
            n <= |s| && AllOf(IsIdent, s[from..n])
  {
    var k := RunOf(IsIdent, s[from..]);
    assert s[from..from + k] == s[from..][..k];
  }

  lemma LexLabelRefOk(s: string)
    requires s != []
    ensures TokensOk(LexLabelRef(s).tokens)
  {
    hide RunOf;
    RunWord(s, 1);
    if |s| > 1 {
      RunWord(s, 2);
    }
  }

  lemma LexWordOk(s: string)
    requires s != []
    ensures TokensOk(LexWord(VariableIdentifier, s, 1).tokens) && TokensOk(LexWord(Directive, s, 0).tokens)
  {
    hide RunOf;
    RunWord(s, 1);
  }

  lemma LexOneOk(s: string)
    requires s != []
    ensures TokensOk(LexOne(s).tokens)
  {
    hide RunOf, StringScan, LexString, LexNumber, LexIdentifier, LexPercent, LexLabelRef, LexWord, IdentText, NumberText, StringText;
    var c := s[0];
    if c == '"' {
      LexStringOk(s);
    } else if c == '@' {
      LexLabelRefOk(s);
    } else if c == '$' || c == '#' {
      LexWordOk(s);
    } else if IsDigit(c) {
      LexNumberOk(s);
    } else if c == '.' || IsIdentBegin(c) {
      LexIdentifierOk(s);
    } else if c == '%' {
      LexPercentOk(s);
    }
  }

  lemma LexIdentifierOk(s: string)
    requires s != [] && (s[0] == '.' || IsIdentBegin(s[0]))
    ensures TokensOk(LexIdentifier(s).tokens)
  {
    hide RunOf;
    RunWord(s, 1);
    var n := 1 + RunOf(IsIdent, s[1..]);
    assert s[1..n] == s[..n][1..];
    if s[0] != '.' {
      assert AllOf(IsIdent, s[..n]) by {
        forall i | 0 <= i < n
          ensures IsIdent(s[..n][i])
        {
          if i > 0 {
            assert s[..n][i] == s[1..n][i - 1];
          }
        }
      }
    }
  }

  lemma LexPercentOk(s: string)
    requires s != []
    ensures TokensOk(LexPercent(s).tokens)
  {
    hide RunOf;
    RunWord(s, 1);
  }

  /** All tokens of the lexer are as expected. */
  lemma {:induction false} LexOk(s: string)
    ensures TokensOk(Lex(s))
    decreases |s|
  {
    hide LexOne;
    if s != [] {
      LexOneOk(s);
      LexOk(s[LexOne(s).size..]);
    }
  }

  // ----- everything that is parsed is well-formed -----

  lemma TailOk(ts: seq<Token>)
    requires TokensOk(ts)
    ensures TokensOk(Tail(ts)) && TokenOk(Head(ts))
  {
  }

  lemma {:induction false} ListEndOk(ts: seq<Token>)
    requires TokensOk(ts)
    ensures ListEnd(ts).Got? ==> TokensOk(ListEnd(ts).rest)
    ensures CloseGroup(ts).Got? ==> TokensOk(CloseGroup(ts).rest)
    decreases |ts|
  {
    hide TokenOk;
    if ts != [] && IsLineToken(ts[0]) {
      ListEndOk(ts[1..]);
    }
  }

  lemma LeafWellFormed(ts: seq<Token>)
    requires TokensOk(ts) && IsLeaf(Head(ts))
    ensures var r := ParsePrimary(ts); r.Got? ==> WellFormed(r.value) && TokensOk(r.rest)
  {
    TailOk(ts);
    LeafFact(ts);
    hide ParsePrimary, TokensOk, Literal, StringBytes, StringText, NumberText, AllOf;
  }

  lemma {:induction false} PrimaryWellFormed(ts: seq<Token>)
    requires TokensOk(ts)
    ensures var r := ParsePrimary(ts); r.Got? ==> WellFormed(r.value) && TokensOk(r.rest)
    decreases |ts|, 0
  {
    var t := Head(ts);
    TailOk(ts);
    TailOk(Tail(ts));
    hide TokensOk, TokenOk, WellFormed, WellFormedArgs, ParsePrimary, ParseExpr, ParseCallArgs, OpOfSign;
    if IsLeaf(t) {
      LeafWellFormed(ts);
    } else if t.typ == Identifier || t.typ == DottedIdentifier {
      var args := if Head(Tail(ts)).typ == OpenParen then ParseCallArgs(Tail(Tail(ts))) else Bad;
      CallFact(ts, args);
      CallWellFormed(t, []);
      NoArgsWellFormed();
      if Head(Tail(ts)).typ == OpenParen {
        CallArgsWellFormed(Tail(Tail(ts)));
        if args.Got? {
          CallWellFormed(t, args.value);
        }
      }
    } else if t.typ == ArithSign {
      var arg := ParsePrimary(Tail(ts));
      UnaryFact(ts, arg);
      PrimaryWellFormed(Tail(ts));
      if arg.Got? {
        ExprShorter(Tail(ts));
        OperandsWellFormed(arg.value);
      }
    } else if t.typ == OpenParen {
      var inner := ParseExpr(Tail(ts));
      GroupFact(ts, inner, if inner.Got? then CloseGroup(inner.rest) else Bad);
      ExprWellFormed(Tail(ts));
      if inner.Got? {
        ListEndOk(inner.rest);
        OperandsWellFormed(inner.value);
      }
    } else {
      OtherFact(ts);
    }
  }

  lemma NoArgsWellFormed()
    ensures WellFormedArgs([])
  {
  }

  lemma CallWellFormed(t: Token, args: seq<Expr>)
    requires TokenOk(t) && (t.typ == Identifier || t.typ == DottedIdentifier)
    ensures WellFormedArgs(args) ==> WellFormed(MacroCallExpr(t.text, t.typ == DottedIdentifier, args))
  {
  }

  lemma OperandsWellFormed(e: Expr)
    requires WellFormed(e)
    ensures WellFormed(GroupExpr(e)) && (!e.BinaryExpr? ==> WellFormed(UnaryExpr(Minus, e)))
  {
  }

  lemma ExprShorter(ts: seq<Token>)
    ensures !ParsePrimary(ts).Bad? ==> !ParsePrimary(ts).value.BinaryExpr?
  {
  }

  lemma {:induction false} CallArgsWellFormed(ts: seq<Token>)
    requires TokensOk(ts)
    ensures var r := ParseCallArgs(ts); r.Got? ==> WellFormedArgs(r.value) && TokensOk(r.rest)
    decreases |ts|, 4
  {
    TailOk(ts);
    hide TokensOk, WellFormed, ListEnd, ParseExpr;
    if Head(ts).typ != CloseParen {
      ExprWellFormed(ts);
      var r := ParseExpr(ts);
      if r.Got? {
        ListEndOk(r.rest);
        var e := ListEnd(r.rest);
        if e.Got? && !e.value {
          CallArgsWellFormed(e.rest);
          var more := ParseCallArgs(e.rest);
          if more.Got? {
            assert ([r.value] + more.value)[1..] == more.value;
          }
        } else if e.Got? {
          assert [r.value][1..] == [];
        }
      }
    }
  }

  lemma OperandOk(ts: seq<Token>)
    requires TokensOk(ts) && ts != []
    ensures TokensOk(OperandTokens(ts))
  {
  }

  lemma BinaryWellFormed(op: ArithOp, left: Expr, right: Expr)
    requires WellFormed(left) && WellFormed(right) && FitsLeft(left, op) && FitsRight(right, op)
    ensures WellFormed(BinaryExpr(op, left, right))
  {
  }

  /** The result is the left operand, or an operation of high enough precedence; what follows is lower. */
  ghost predicate Climbed(left: Expr, r: Parsing<Expr>, min: nat) {
    r.Got? ==> && WellFormed(r.value) && TokensOk(r.rest)
               && (r.value == left || (r.value.BinaryExpr? && Precedence(r.value.op) >= min))
               && (OpAt(Head(r.rest)).Some? ==> Precedence(OpAt(Head(r.rest)).value) < min)
  }

  lemma {:induction false} ArithWellFormed(left: Expr, ts: seq<Token>, min: nat)
    requires TokensOk(ts) && WellFormed(left) && (left.BinaryExpr? ==> Precedence(left.op) >= min)
    requires OpAt(Head(ts)).Some? && Precedence(OpAt(Head(ts)).value) >= min ==> FitsLeft(left, OpAt(Head(ts)).value)
    ensures Climbed(left, ParseArith(left, ts, min), min)
    decreases |ts|, 1
  {
    ArithFact(left, ts, min);
    var op := OpAt(Head(ts));
    if op.Some? && Precedence(op.value) >= min {
      OperandOk(ts);
      hide TokensOk, TokenOk, WellFormed, ParseArith, ParsePrimary, ParseInner, OpAt, OperandTokens;
      PrimaryWellFormed(OperandTokens(ts));
      var operand := ParsePrimary(OperandTokens(ts));
      if operand.Got? {
        InnerWellFormed(operand.value, operand.rest, Precedence(op.value));
        var right := ParseInner(operand.value, operand.rest, Precedence(op.value));
        if right.Got? {
          BinaryWellFormed(op.value, left, right.value);
          ArithWellFormed(BinaryExpr(op.value, left, right.value), right.rest, min);
        }
      }
    } else {
      hide WellFormed, ParseArith, TokensOk;
    }
  }

  /** The result has a higher precedence; what follows has not. */
  ghost predicate Extended(r: Parsing<Expr>, cur: nat) {
    r.Got? ==> && WellFormed(r.value) && TokensOk(r.rest) && (r.value.BinaryExpr? ==> Precedence(r.value.op) > cur)
               && (OpAt(Head(r.rest)).Some? ==> Precedence(OpAt(Head(r.rest)).value) <= cur)
  }

  lemma {:induction false} InnerWellFormed(right: Expr, ts: seq<Token>, cur: nat)
    requires TokensOk(ts) && WellFormed(right) && (right.BinaryExpr? ==> Precedence(right.op) > cur)
    requires OpAt(Head(ts)).Some? && Precedence(OpAt(Head(ts)).value) > cur ==> FitsLeft(right, OpAt(Head(ts)).value)
    ensures Extended(ParseInner(right, ts, cur), cur)
    decreases |ts|, 2
  {
    InnerFact(right, ts, cur);
    hide TokensOk, WellFormed, ParseInner, ParseArith, OpAt;
    var op := OpAt(Head(ts));
    if op.Some? && Precedence(op.value) > cur {
      ArithWellFormed(right, ts, cur + 1);
      var r := ParseArith(right, ts, cur + 1);
      if r.Got? {
        ArithShorter(right, ts, cur + 1);
        InnerWellFormed(r.value, r.rest, cur);
      }
    }
  }

  lemma ArithShorter(left: Expr, ts: seq<Token>, min: nat)
    requires OpAt(Head(ts)).Some? && Precedence(OpAt(Head(ts)).value) >= min && ParseArith(left, ts, min).Got?
    ensures |ParseArith(left, ts, min).rest| < |ts|
  {
    hide ParseArith;
  }

  /** Whatever the parser builds from lexed tokens is well-formed. */
  lemma {:induction false} ExprWellFormed(ts: seq<Token>)
    requires TokensOk(ts)
    ensures var r := ParseExpr(ts); r.Got? ==> WellFormed(r.value) && TokensOk(r.rest)
    decreases |ts|, 3
  {
    hide TokensOk, WellFormed;
    PrimaryWellFormed(ts);
    var r := ParsePrimary(ts);
    if r.Got? {
      ArithWellFormed(r.value, r.rest, 0);
    }
  }

  // ----- the tokens of a printed expression -----

  /** The operator and the tokens after it. A dense modulus sign merges with a name. */
  function OpToks(op: ArithOp, dense: bool, right: seq<Token>): (r: seq<Token>)
    ensures r != []
  {
    if op == Mod && dense && Head(right).typ == Identifier then [Token(InstMacroIdent, Head(right).text)] + Tail(right)
    else [Token(ArithSign, Sign(op))] + right
  }

  function Toks(e: Expr, parent: Option<Expr>): (r: seq<Token>)
    ensures r != []
    decreases e, 1
  {
    match e
    case LiteralExpr(text, isString, _) => [Token(if isString then StringLiteral else NumberLiteral, text)]
    case LabelRefExpr(ident, dotted) => [Token(if dotted then DottedLabelRef else LabelRef, ident)]
    case VariableExpr(ident) => [Token(VariableIdentifier, ident)]
    case GroupExpr(inner) => [Token(OpenParen, "(")] + (Toks(inner, Some(e)) + [Token(CloseParen, ")")])
    case UnaryExpr(op, arg) => [Token(ArithSign, Sign(op))] + Toks(arg, Some(e))
    case BinaryExpr(op, left, right) => Toks(left, Some(e)) + OpToks(op, Dense(e, parent), Toks(right, Some(e)))
    case MacroCallExpr(ident, builtin, args) => [Token(if builtin then DottedIdentifier else Identifier, ident)] + ArgToks(args)
  }

  function ArgToks(args: seq<Expr>): seq<Token>
    decreases args, 2
  {
    if args == [] then [] else [Token(OpenParen, "(")] + ListToks(args)
  }

  function ListToks(args: seq<Expr>): (r: seq<Token>)
    requires args != []
    ensures r != []
    decreases args, 1
  {
    if |args| == 1 then Toks(args[0], None) + [Token(CloseParen, ")")]
    else Toks(args[0], None) + ([Token(Comma, ",")] + ListToks(args[1..]))
  }

  /** The text that follows cannot extend a name or a number. */
  predicate Delim(rest: string) {
    rest == [] || (!IsIdent(rest[0]) && rest[0] != ':' && rest[0] != '.')
  }

  /** The operand is printed without parentheses of its own. */
  predicate Bare(e: Expr, parent: Option<Expr>) {
    !NeedsParens(e, parent)
  }

  lemma LexSpace(rest: string)
    ensures Lex(" " + rest) == Lex(rest)
  {
    LexPiece(" ", rest, []);
  }

  lemma LexSymbol(c: char, rest: string)
    requires SymbolType(c).Some?
    ensures Lex([c] + rest) == [Token(SymbolType(c).value, [c])] + Lex(rest)
  {
    var s := [c] + rest;
    assert s[..1] == [c];
    assert LexOne(s) == Lexeme([Token(SymbolType(c).value, [c])], 1);
    LexPiece([c], rest, [Token(SymbolType(c).value, [c])]);
  }

  lemma LexIdent(ident: string, rest: string)
    requires IdentText(ident) && Delim(rest)
    ensures Lex(ident + rest) == [Token(Identifier, ident)] + Lex(rest)
  {
    var s := ident + rest;
    assert s[1..] == ident[1..] + rest;
    RunStops(IsIdent, ident[1..], rest);
    assert s[..|ident|] == ident;
    hide RunOf;
    IdentBeginClass(ident[0]);
    assert LexIdentifier(s) == Lexeme([Token(Identifier, ident)], |ident|);
    LexPiece(ident, rest, [Token(Identifier, ident)]);
  }

  lemma IdentBeginClass(c: char)
    requires IsIdentBegin(c)
    ensures SymbolType(c).None? && !IsDigit(c) && c != ';' && c != '@' && c != '$' && c != '"' && c != '#' && c != '.'
  {
  }

  lemma LexDotted(ident: string, rest: string)
    requires AllOf(IsIdent, ident) && Delim(rest)
    ensures Lex("." + ident + rest) == [Token(DottedIdentifier, ident)] + Lex(rest)
  {
    var s := "." + ident + rest;
    assert s[1..] == ident + rest;
    RunStops(IsIdent, ident, rest);
    assert s[1..1 + |ident|] == ident;
    hide RunOf;
    LexPiece("." + ident, rest, [Token(DottedIdentifier, ident)]);
  }

  lemma LexVariable(ident: string, rest: string)
    requires AllOf(IsIdent, ident) && Delim(rest)
    ensures Lex("$" + ident + rest) == [Token(VariableIdentifier, ident)] + Lex(rest)
  {
    var s := "$" + ident + rest;
    assert s[1..] == ident + rest;
    RunStops(IsIdent, ident, rest);
    assert s[1..1 + |ident|] == ident;
    hide RunOf;
    LexPiece("$" + ident, rest, [Token(VariableIdentifier, ident)]);
  }

  /** A label reference is scanned up to the end of its name. */
  lemma ScanLabel(at: string, ident: string, rest: string)
    requires at == "@" || at == "@."
    requires AllOf(IsIdent, ident) && Delim(rest)
    ensures RunOf(IsIdent, (at + ident + rest)[|at|..]) == |ident|
    ensures (at + ident + rest)[|at|..|at| + |ident|] == ident && (at + ident + rest)[0] == '@'
    ensures |at + ident + rest| > 1 && (at + ident + rest)[1] == '.' <==> at == "@."
  {
    assert (at + ident + rest)[|at|..] == ident + rest;
    RunStops(IsIdent, ident, rest);
    hide RunOf;
    if at == "@" && |ident + rest| > 0 {
      assert (at + ident + rest)[1] == (ident + rest)[0];
    }
  }

  lemma LexLabel(ident: string, dotted: bool, rest: string)
    requires AllOf(IsIdent, ident) && Delim(rest)
    ensures Lex((if dotted then "@." else "@") + ident + rest) == [Token(if dotted then DottedLabelRef else LabelRef, ident)] + Lex(rest)
  {
    var at := if dotted then "@." else "@";
    ScanLabel(at, ident, rest);
    hide RunOf, AllOf, Delim, Lex;
    LexPiece(at + ident, rest, [Token(if dotted then DottedLabelRef else LabelRef, ident)]);
  }

  /** The digits from a position on are one run, which rest does not extend. */
  lemma DigitRun(f: char -> bool, text: string, start: nat, rest: string)
    requires start <= |text| && AllOf(f, text[start..]) && (rest != [] ==> !f(rest[0]) && !IsHex(rest[0]))
    ensures RunOf(f, (text + rest)[start..]) == |text| - start
    ensures RunOf(IsHex, (text + rest)[|text|..]) == 0
  {
    hide RunOf;
    assert (text + rest)[start..] == text[start..] + rest;
    RunStops(f, text[start..], rest);
    assert (text + rest)[|text|..] == [] + rest;
    RunStops(IsHex, [], rest);
  }

  lemma DelimNotHex(rest: string)
    requires Delim(rest) && rest != []
    ensures !IsHex(rest[0]) && !IsDigit(rest[0]) && rest[0] != ':' && rest[0] != 'x' && rest[0] != 'X'
  {
  }

  lemma TailDigits(text: string)
    requires AllOf(IsDigit, text) && text != []
    ensures AllOf(IsDigit, text[1..]) && (|text| > 1 ==> text[1] != 'x' && text[1] != 'X')
  {
    if |text| > 1 {
      assert IsDigit(text[1]);
    }
  }

  lemma NumberRuns(text: string, rest: string)
    requires NumberText(text) && Delim(rest)
    ensures LexNumber(text + rest) == Lexeme([Token(NumberLiteral, text)], |text|)
  {
    var s := text + rest;
    if rest != [] {
      DelimNotHex(rest);
    }
    assert s[..|text|] == text;
    if AllOf(IsDigit, text) {
      TailDigits(text);
      DigitRun(IsDigit, text, 1, rest);
    } else {
      DigitRun(IsHex, text, 2, rest);
    }
    hide RunOf, AllOf, Delim;
  }

  lemma LexNumberText(text: string, rest: string)
    requires NumberText(text) && Delim(rest)
    ensures Lex(text + rest) == [Token(NumberLiteral, text)] + Lex(rest)
  {
    NumberRuns(text, rest);
    hide LexNumber;
    assert (text + rest)[0] == text[0];
    DigitClass(text[0]);
    LexPiece(text, rest, [Token(NumberLiteral, text)]);
  }

  lemma DigitClass(c: char)
    requires IsDigit(c)
    ensures SymbolType(c).None? && c != ';' && c != '@' && c != '$' && c != '"' && c != '#'
  {
  }

  lemma {:induction false} ScanExtended(s: string, rest: string, i: nat, n: nat)
    requires i <= |s| && StringScan(s, i) == (n, true)
    ensures StringScan(s + rest, i) == (n, true)
    decreases |s| - i
  {
    if s[i] == '\\' {
      ScanExtended(s, rest, i + 2, n);
    } else if s[i] != '"' {
      ScanExtended(s, rest, i + 1, n);
    }
  }

  lemma LexStringText(text: string, rest: string)
    requires StringText(text)
    ensures Lex("\"" + text + "\"" + rest) == [Token(StringLiteral, text)] + Lex(rest)
  {
    var x := "\"" + text + "\"";
    var s := x + rest;
    ScanExtended(x, rest, 1, |text| + 1);
    assert s[1..|text| + 1] == text;
    hide StringScan;
    LexPiece(x, rest, [Token(StringLiteral, text)]);
  }

  /** The first character of an expression starts a name only if the expression is a macro call. */
  predicate NameFirst(e: Expr) {
    e.MacroCallExpr? && !e.builtin
  }

  lemma LexShiftSign(c: char, rest: string)
    requires c == '<' || c == '>'
    ensures Lex([c, c] + rest) == [Token(ArithSign, [c, c])] + Lex(rest)
  {
    var s := [c, c] + rest;
    assert s[..2] == [c, c];
    LexPiece([c, c], rest, [Token(ArithSign, [c, c])]);
  }

  lemma LexPercentSign(rest: string)
    requires rest == [] || !IsIdentBegin(rest[0])
    ensures Lex("%" + rest) == [Token(ArithSign, "%")] + Lex(rest)
  {
    var s := "%" + rest;
    assert s[..1] == "%" && (|s| > 1 ==> s[1] == rest[0]);
    assert LexPercent(s) == Lexeme([Token(ArithSign, "%")], 1);
    hide LexPercent, IsIdentBegin;
    assert LexOne(s) == LexPercent(s) by {
      hide LexString, LexNumber, LexIdentifier, LexLabelRef, LexShift;
      assert s[0] == '%' && SymbolType('%').None?;
    }
    LexPiece("%", rest, [Token(ArithSign, "%")]);
  }

  lemma PlainSign(op: ArithOp)
    requires op != Mod && op != Lshift && op != Rshift
    ensures Sign(op) == [Sign(op)[0]] && SymbolType(Sign(op)[0]) == Some(ArithSign)
  {
  }

  /** A sign before an operand. */
  lemma LexSign(op: ArithOp, rest: string)
    requires op == Mod ==> rest == [] || !IsIdentBegin(rest[0])
    ensures Lex(Sign(op) + rest) == [Token(ArithSign, Sign(op))] + Lex(rest)
  {
    hide Lex;
    if op == Mod {
      LexPercentSign(rest);
    } else if op == Lshift {
      LexShiftSign('<', rest);
    } else if op == Rshift {
      LexShiftSign('>', rest);
    } else {
      PlainSign(op);
      LexSymbol(Sign(op)[0], rest);
    }
  }

  lemma LexPercentName(ident: string, rest: string)
    requires IdentText(ident) && Delim(rest)
    ensures Lex("%" + ident + rest) == [Token(InstMacroIdent, ident)] + Lex(rest)
  {
    var s := "%" + ident + rest;
    assert s[1..] == ident + rest;
    RunStops(IsIdent, ident, rest);
    assert s[1..1 + |ident|] == ident;
    hide RunOf;
    LexPiece("%" + ident, rest, [Token(InstMacroIdent, ident)]);
  }

  // ----- lexing printed expressions -----

  lemma OperatorDelim(op: ArithOp, dense: bool, rest: string)
    ensures Delim(Spaced(Sign(op), dense) + rest)
  {
    var s := Spaced(Sign(op), dense);
    assert (s + rest)[0] == s[0];
  }

  lemma FirstChar(e: Expr, parent: Option<Expr>)
    requires WellFormed(e) && !e.BinaryExpr?
    ensures Print(e, parent) != []
    ensures !NameFirst(e) ==> !IsIdentBegin(Print(e, parent)[0])
    ensures NameFirst(e) <==> Toks(e, parent)[0].typ == Identifier
  {
    hide StringText, Literal, StringBytes, AllOf;
    match e
    case LiteralExpr(text, isString, value) =>
      if !isString {
        DigitClass(text[0]);
      }
    case LabelRefExpr(ident, dotted) =>
    case VariableExpr(ident) =>
    case GroupExpr(inner) =>
    case UnaryExpr(op, arg) =>
    case MacroCallExpr(ident, builtin, args) =>
  }

  /** The text after the name of a macro call. */
  lemma AfterName(e: Expr, parent: Option<Expr>, rest: string)
    requires WellFormed(e) && NameFirst(e) && Delim(PrintArgs(e.args) + rest)
    requires Lex(Print(e, parent) + rest) == Toks(e, parent) + Lex(rest)
    ensures Print(e, parent) + rest == e.ident + (PrintArgs(e.args) + rest)
    ensures Lex(PrintArgs(e.args) + rest) == Tail(Toks(e, parent)) + Lex(rest)
  {
    hide AllOf, PrintArgs, ArgToks, Delim, WellFormedArgs, Lex;
    assert Print(e, parent) == e.ident + PrintArgs(e.args);
    assert e.ident + PrintArgs(e.args) + rest == e.ident + (PrintArgs(e.args) + rest);
    LexIdent(e.ident, PrintArgs(e.args) + rest);
    var name := [Token(Identifier, e.ident)];
    assert Toks(e, parent) == name + ArgToks(e.args);
    assert name + ArgToks(e.args) + Lex(rest) == name + (ArgToks(e.args) + Lex(rest));
    SameTail(name, Lex(PrintArgs(e.args) + rest), ArgToks(e.args) + Lex(rest));
  }

  lemma SameTail(a: seq<Token>, b: seq<Token>, c: seq<Token>)
    requires a + b == a + c
    ensures b == c
  {
    assert (a + b)[|a|..] == b && (a + c)[|a|..] == c;
  }

  lemma ArgsDelim(args: seq<Expr>, rest: string)
    requires Delim(rest)
    ensures Delim(PrintArgs(args) + rest)
  {
    if args == [] {
      assert PrintArgs(args) + rest == rest;
    } else {
      assert (PrintArgs(args) + rest)[0] == '(';
    }
  }

  /** An operator and its right operand. */
  lemma LexOperator(op: ArithOp, dense: bool, right: Expr, parent: Option<Expr>, rest: string)
    requires WellFormed(right) && FitsRight(right, op) && Delim(rest)
    requires Lex(Print(right, parent) + rest) == Toks(right, parent) + Lex(rest)
    ensures Lex(Spaced(Sign(op), dense) + (Print(right, parent) + rest)) == OpToks(op, dense, Toks(right, parent)) + Lex(rest)
  {
    hide Lex, WellFormed, Toks, Print, Delim;
    var x := Print(right, parent) + rest;
    var sign := [Token(ArithSign, Sign(op))];
    if !dense {
      assert Spaced(Sign(op), dense) + x == " " + (Sign(op) + (" " + x));
      LexSpace(Sign(op) + (" " + x));
      LexSign(op, " " + x);
      LexSpace(x);
      assert sign + (Toks(right, parent) + Lex(rest)) == sign + Toks(right, parent) + Lex(rest);
    } else if op == Mod && NameFirst(right) {
      LexMerged(right, parent, rest);
    } else {
      if op == Mod {
        FirstChar(right, parent);
        assert x[0] == Print(right, parent)[0];
      }
      LexSign(op, x);
      assert sign + (Toks(right, parent) + Lex(rest)) == sign + Toks(right, parent) + Lex(rest);
    }
  }

  /** A dense modulus sign and a macro name are lexed as one token. */
  lemma LexMerged(right: Expr, parent: Option<Expr>, rest: string)
    requires WellFormed(right) && NameFirst(right) && Delim(rest)
    requires Lex(Print(right, parent) + rest) == Toks(right, parent) + Lex(rest)
    ensures Lex("%" + (Print(right, parent) + rest)) == OpToks(Mod, true, Toks(right, parent)) + Lex(rest)
  {
    NamedCall(right, parent);
    ArgsDelim(right.args, rest);
    hide *;
    AfterName(right, parent, rest);
    var after := PrintArgs(right.args) + rest;
    assert "%" + (right.ident + after) == "%" + right.ident + after;
    LexPercentName(right.ident, after);
    SeqAssoc([Token(InstMacroIdent, right.ident)], Tail(Toks(right, parent)), Lex(rest));
    MergedToks(Toks(right, parent));
  }

  lemma NamedCall(e: Expr, parent: Option<Expr>)
    requires WellFormed(e) && NameFirst(e)
    ensures e.MacroCallExpr? && IdentText(e.ident) && Head(Toks(e, parent)) == Token(Identifier, e.ident)
  {
    hide IdentText, WellFormedArgs;
  }

  lemma MergedToks(ts: seq<Token>)
    requires Head(ts).typ == Identifier
    ensures OpToks(Mod, true, ts) == [Token(InstMacroIdent, Head(ts).text)] + Tail(ts)
  {
  }

  lemma {:induction false} PrintLexes(e: Expr, parent: Option<Expr>, rest: string)
    requires WellFormed(e) && Bare(e, parent) && Delim(rest)
    ensures Lex(Print(e, parent) + rest) == Toks(e, parent) + Lex(rest)
    decreases e, 1
  {
    hide Lex, AllOf, StringText, NumberText, IdentText, StringBytes, Literal;
    match e
    case LiteralExpr(text, isString, _) =>
      if isString {
        LexStringText(text, rest);
      } else {
        LexNumberText(text, rest);
      }
    case LabelRefExpr(ident, dotted) => LexLabel(ident, dotted, rest);
    case VariableExpr(ident) => LexVariable(ident, rest);
    case GroupExpr(inner) => GroupLexes(e, parent, rest);
    case UnaryExpr(op, arg) =>
      var x := Print(arg, Some(e)) + rest;
      assert Sign(op) + Print(arg, Some(e)) + rest == Sign(op) + x;
      LexSign(op, x);
      PrintLexes(arg, Some(e), rest);
      SeqAssoc([Token(ArithSign, Sign(op))], Toks(arg, Some(e)), Lex(rest));
    case BinaryExpr(op, left, right) => BinaryLexes(e, parent, rest);
    case MacroCallExpr(ident, builtin, args) => CallLexes(e, parent, rest);
  }

  lemma SeqAssoc(a: seq<Token>, b: seq<Token>, c: seq<Token>)
    ensures a + (b + c) == a + b + c
  {
  }

  lemma {:induction false} GroupLexes(e: Expr, parent: Option<Expr>, rest: string)
    requires WellFormed(e) && e.GroupExpr? && Delim(rest)
    ensures Lex(Print(e, parent) + rest) == Toks(e, parent) + Lex(rest)
    decreases e, 0
  {
    GroupParts(e, parent, rest);
    hide *;
    var p, t := Print(e.inner, Some(e)), Toks(e.inner, Some(e));
    OpenLexes(p + (")" + rest));
    PrintLexes(e.inner, Some(e), ")" + rest);
    CloseLexes(rest);
    TokensGroup([Token(OpenParen, "(")], t, [Token(CloseParen, ")")], Lex(rest));
  }

  lemma GroupParts(e: Expr, parent: Option<Expr>, rest: string)
    requires WellFormed(e) && e.GroupExpr? && Delim(rest)
    ensures WellFormed(e.inner) && Delim(")" + rest)
    ensures Print(e, parent) + rest == "(" + (Print(e.inner, Some(e)) + (")" + rest))
    ensures Toks(e, parent) == [Token(OpenParen, "(")] + (Toks(e.inner, Some(e)) + [Token(CloseParen, ")")])
  {
    var p := Print(e.inner, Some(e));
    hide Toks, WellFormed, Print;
    assert Print(e, parent) == "(" + p + ")" && WellFormed(e.inner) by {
      GroupDefinition(e, parent);
    }
    assert Toks(e, parent) == [Token(OpenParen, "(")] + (Toks(e.inner, Some(e)) + [Token(CloseParen, ")")]) by {
      GroupDefinition(e, parent);
    }
    assert "(" + p + ")" + rest == "(" + (p + (")" + rest));
    assert (")" + rest)[0] == ')';
  }

  lemma GroupDefinition(e: Expr, parent: Option<Expr>)
    requires WellFormed(e) && e.GroupExpr?
    ensures Print(e, parent) == "(" + Print(e.inner, Some(e)) + ")" && WellFormed(e.inner)
    ensures Toks(e, parent) == [Token(OpenParen, "(")] + (Toks(e.inner, Some(e)) + [Token(CloseParen, ")")])
  {
  }

  lemma OpenLexes(rest: string)
    ensures Lex("(" + rest) == [Token(OpenParen, "(")] + Lex(rest)
  {
    hide Lex;
    LexSymbol('(', rest);
  }

  lemma CloseLexes(rest: string)
    ensures Lex(")" + rest) == [Token(CloseParen, ")")] + Lex(rest)
  {
    hide Lex;
    LexSymbol(')', rest);
  }

  lemma TokensGroup(a: seq<Token>, b: seq<Token>, c: seq<Token>, d: seq<Token>)
    ensures a + (b + (c + d)) == a + (b + c) + d
  {
  }

  lemma {:induction false} BinaryLexes(e: Expr, parent: Option<Expr>, rest: string)
    requires WellFormed(e) && e.BinaryExpr? && Bare(e, parent) && Delim(rest)
    ensures Lex(Print(e, parent) + rest) == Toks(e, parent) + Lex(rest)
    decreases e, 0
  {
    hide *;
    BinaryParts(e, parent);
    var l, r := Print(e.left, Some(e)), Print(e.right, Some(e));
    var dense := Dense(e, parent);
    var op := Spaced(Sign(e.op), dense);
    assert l + op + r + rest == l + (op + (r + rest));
    PrintLexes(e.right, Some(e), rest);
    OperatorDelim(e.op, dense, r + rest);
    PrintLexes(e.left, Some(e), op + (r + rest));
    LexOperator(e.op, dense, e.right, Some(e), rest);
    SeqAssoc(Toks(e.left, Some(e)), OpToks(e.op, dense, Toks(e.right, Some(e))), Lex(rest));
  }

  lemma BinaryParts(e: Expr, parent: Option<Expr>)
    requires WellFormed(e) && e.BinaryExpr? && Bare(e, parent)
    ensures Print(e, parent) == Print(e.left, Some(e)) + Spaced(Sign(e.op), Dense(e, parent)) + Print(e.right, Some(e))
    ensures Toks(e, parent) == Toks(e.left, Some(e)) + OpToks(e.op, Dense(e, parent), Toks(e.right, Some(e)))
    ensures WellFormed(e.left) && WellFormed(e.right) && FitsRight(e.right, e.op)
    ensures Bare(e.left, Some(e)) && Bare(e.right, Some(e))
  {
  }

  lemma {:induction false} CallLexes(e: Expr, parent: Option<Expr>, rest: string)
    requires WellFormed(e) && e.MacroCallExpr? && Delim(rest)
    ensures Lex(Print(e, parent) + rest) == Toks(e, parent) + Lex(rest)
    decreases e, 0
  {
    CallName(e);
    hide *;
    var name, args := CallText(e), PrintArgs(e.args);
    CallParts(e, parent);
    ArgsDelim(e.args, rest);
    CallNameLexes(e, args + rest);
    ArgsLex(e.args, rest);
    TextAssoc(name, args, rest);
    SeqAssoc([CallToken(e)], ArgToks(e.args), Lex(rest));
  }

  lemma TextAssoc(a: string, b: string, c: string)
    ensures a + b + c == a + (b + c)
  {
  }

  /** The text of the name of a called macro, and its token. */
  function CallText(e: Expr): string
    requires e.MacroCallExpr?
  {
    if e.builtin then "." + e.ident else e.ident
  }

  function CallToken(e: Expr): Token
    requires e.MacroCallExpr?
  {
    Token(if e.builtin then DottedIdentifier else Identifier, e.ident)
  }

  lemma CallParts(e: Expr, parent: Option<Expr>)
    requires e.MacroCallExpr?
    ensures Print(e, parent) == CallText(e) + PrintArgs(e.args) && Toks(e, parent) == [CallToken(e)] + ArgToks(e.args)
  {
    hide PrintArgs, ArgToks;
    assert "" + e.ident == e.ident;
  }

  lemma CallName(e: Expr)
    requires WellFormed(e) && e.MacroCallExpr?
    ensures if e.builtin then AllOf(IsIdent, e.ident) else IdentText(e.ident)
    ensures WellFormedArgs(e.args)
  {
    hide AllOf, IdentText;
  }

  lemma CallNameLexes(e: Expr, after: string)
    requires e.MacroCallExpr? && Delim(after) && if e.builtin then AllOf(IsIdent, e.ident) else IdentText(e.ident)
    ensures Lex(CallText(e) + after) == [CallToken(e)] + Lex(after)
  {
    hide Lex, AllOf, IdentText, Delim;
    if e.builtin {
      LexDotted(e.ident, after);
    } else {
      LexIdent(e.ident, after);
    }
  }

  lemma {:induction false} ArgsLex(args: seq<Expr>, rest: string)
    requires WellFormedArgs(args) && Delim(rest)
    ensures Lex(PrintArgs(args) + rest) == ArgToks(args) + Lex(rest)
    decreases args, 2
  {
    hide Lex;
    if args == [] {
      assert PrintArgs(args) + rest == rest;
    } else {
      assert PrintArgs(args) + rest == "(" + (PrintList(args) + (")" + rest));
      LexSymbol('(', PrintList(args) + (")" + rest));
      ListLex(args, rest);
      SeqAssoc([Token(OpenParen, "(")], ListToks(args), Lex(rest));
    }
  }

  lemma {:induction false} ListLex(args: seq<Expr>, rest: string)
    requires args != [] && WellFormedArgs(args)
    ensures Lex(PrintList(args) + (")" + rest)) == ListToks(args) + Lex(rest)
    decreases args, 1
  {
    hide *;
    var p, t := Print(args[0], None), Toks(args[0], None);
    ArgsWellFormed(args);
    BareAlone(args[0]);
    if |args| == 1 {
      LastPrinted(args);
      StartDelim(')', rest);
      PrintLexes(args[0], None, ")" + rest);
      SymbolTypes();
      LexSymbol(')', rest);
      SeqAssoc(t, [Token(CloseParen, ")")], Lex(rest));
    } else {
      var more := PrintList(args[1..]) + (")" + rest);
      MorePrinted(args, rest);
      StartDelim(',', " " + more);
      PrintLexes(args[0], None, "," + (" " + more));
      SymbolTypes();
      LexSymbol(',', " " + more);
      LexSpace(more);
      ListLex(args[1..], rest);
      MoreToks(t, ListToks(args[1..]), Lex(rest));
    }
  }

  lemma MoreToks(t: seq<Token>, list: seq<Token>, rest: seq<Token>)
    ensures t + ([Token(Comma, ",")] + (list + rest)) == t + ([Token(Comma, ",")] + list) + rest
  {
  }

  lemma BareAlone(e: Expr)
    ensures Bare(e, None)
  {
  }

  lemma SymbolTypes()
    ensures SymbolType('(') == Some(OpenParen) && SymbolType(')') == Some(CloseParen) && SymbolType(',') == Some(Comma)
  {
  }

  lemma StartDelim(c: char, rest: string)
    requires c == ')' || c == ',' || c == '(' || c == ' '
    ensures Delim([c] + rest)
  {
  }

  lemma LastPrinted(args: seq<Expr>)
    requires |args| == 1
    ensures PrintList(args) == Print(args[0], None) && ListToks(args) == Toks(args[0], None) + [Token(CloseParen, ")")]
  {
    hide Print, Toks;
  }

  lemma MorePrinted(args: seq<Expr>, rest: string)
    requires |args| > 1
    ensures PrintList(args) + (")" + rest) == Print(args[0], None) + ("," + (" " + (PrintList(args[1..]) + (")" + rest))))
    ensures ListToks(args) == Toks(args[0], None) + ([Token(Comma, ",")] + ListToks(args[1..]))
  {
    hide Print, Toks;
    assert ", " == "," + " ";
  }

  // ----- parsing the tokens -----

  /** What comes next cannot be taken for an operand list, nor for an operator that belongs to e. */
  predicate Follows(e: Expr, tail: seq<Token>) {
    && Head(tail).typ != OpenParen
    && (OpAt(Head(tail)).Some? && e.BinaryExpr? ==> Precedence(OpAt(Head(tail)).value) <= Precedence(e.op))
  }

  predicate TopAtLeast(e: Expr, min: nat) {
    e.BinaryExpr? ==> Precedence(e.op) >= min
  }

  /** A primary expression, continued with operators of at least the given precedence. */
  function Climb(ts: seq<Token>, min: nat): Parsing<Expr> {
    var r := ParsePrimary(ts);
    if r.Bad? then Bad else ParseArith(r.value, r.rest, min)
  }

  lemma HeadOf(ts: seq<Token>, tail: seq<Token>)
    requires ts != []
    ensures Head(ts + tail) == ts[0] && Tail(ts + tail) == Tail(ts) + tail
  {
  }

  /** The first token of an expression. */
  lemma FirstTok(e: Expr, parent: Option<Expr>)
    requires WellFormed(e)
    ensures Toks(e, parent)[0].typ != CloseParen && Toks(e, parent)[0].typ != OpenBracket
    decreases e
  {
    hide WellFormed, Literal, StringText, StringBytes, NumberText;
    if e.BinaryExpr? {
      assert WellFormed(e.left) by { LeftWellFormed(e); }
      FirstTok(e.left, Some(e));
    }
  }

  lemma LeftWellFormed(e: Expr)
    requires WellFormed(e) && e.BinaryExpr?
    ensures WellFormed(e.left) && WellFormed(e.right) && FitsLeft(e.left, e.op) && FitsRight(e.right, e.op)
  {
  }

  lemma MergedOperand(right: seq<Token>, tail: seq<Token>)
    requires right != [] && right[0].typ == Identifier
    ensures var ts := [Token(InstMacroIdent, right[0].text)] + Tail(right) + tail;
            OpAt(Head(ts)) == Some(Mod) && Head(ts).typ != OpenParen && OperandTokens(ts) == right + tail
  {
    var ts := [Token(InstMacroIdent, right[0].text)] + Tail(right) + tail;
    assert ts[1..] == Tail(right) + tail;
    assert [Token(Identifier, right[0].text)] + (Tail(right) + tail) == right + tail;
  }

  lemma SignedOperand(op: ArithOp, right: seq<Token>, tail: seq<Token>)
    ensures var ts := [Token(ArithSign, Sign(op))] + right + tail;
            OpAt(Head(ts)) == Some(op) && Head(ts).typ != OpenParen && OperandTokens(ts) == right + tail
  {
    SignRoundTrip(op);
    hide OpOfSign, Sign;
    var ts := [Token(ArithSign, Sign(op))] + right + tail;
    assert ts[1..] == right + tail;
  }

  lemma OperandAfter(op: ArithOp, dense: bool, right: seq<Token>, tail: seq<Token>)
    requires right != []
    ensures var ts := OpToks(op, dense, right) + tail;
            && OpAt(Head(ts)) == Some(op) && Head(ts).typ != OpenParen
            && OperandTokens(ts) == right + tail
  {
    hide OpAt, OperandTokens, Sign;
    if op == Mod && dense && right[0].typ == Identifier {
      MergedOperand(right, tail);
    } else {
      SignedOperand(op, right, tail);
    }
  }

  lemma LeafParses(e: Expr, parent: Option<Expr>, tail: seq<Token>)
    requires WellFormed(e) && (e.LiteralExpr? || e.LabelRefExpr? || e.VariableExpr?)
    ensures ParsePrimary(Toks(e, parent) + tail) == Got(e, tail)
  {
    var ts := Toks(e, parent) + tail;
    HeadOf(Toks(e, parent), tail);
    assert Tail(ts) == tail;
    LeafFact(ts);
    hide ParsePrimary, AllOf, StringText, NumberText, StringBytes, Literal;
  }

  lemma {:induction false} PrimaryParses(e: Expr, parent: Option<Expr>, tail: seq<Token>)
    requires WellFormed(e) && !e.BinaryExpr? && Head(tail).typ != OpenParen
    ensures ParsePrimary(Toks(e, parent) + tail) == Got(e, tail)
    decreases e, 1
  {
    if e.GroupExpr? {
      GroupParses(e, parent, tail);
    } else if e.UnaryExpr? {
      UnaryParses(e, parent, tail);
    } else if e.MacroCallExpr? {
      CallParses(e, parent, tail);
    } else {
      LeafParses(e, parent, tail);
    }
    hide ParsePrimary, Toks, WellFormed;
  }

  lemma {:induction false} UnaryParses(e: Expr, parent: Option<Expr>, tail: seq<Token>)
    requires WellFormed(e) && e.UnaryExpr? && Head(tail).typ != OpenParen
    ensures ParsePrimary(Toks(e, parent) + tail) == Got(e, tail)
    decreases e, 0
  {
    var ts := Toks(e, parent) + tail;
    var arg := Toks(e.arg, Some(e)) + tail;
    assert ts == [Token(ArithSign, Sign(e.op))] + arg;
    assert Head(ts) == Token(ArithSign, Sign(e.op)) && Tail(ts) == arg;
    SignRoundTrip(e.op);
    PrimaryParses(e.arg, Some(e), tail);
    UnaryFact(ts, ParsePrimary(arg));
    hide ParsePrimary, Toks;
  }

  lemma {:induction false} GroupParses(e: Expr, parent: Option<Expr>, tail: seq<Token>)
    requires WellFormed(e) && e.GroupExpr?
    ensures ParsePrimary(Toks(e, parent) + tail) == Got(e, tail)
    decreases e, 0
  {
    GroupToks(e, parent, tail);
    hide *;
    var ts := Toks(e, parent) + tail;
    var after := [Token(CloseParen, ")")] + tail;
    ExprParses(e.inner, Some(e), after);
    GroupFact(ts, Got(e.inner, after), Got(true, tail));
  }

  lemma GroupToks(e: Expr, parent: Option<Expr>, tail: seq<Token>)
    requires WellFormed(e) && e.GroupExpr?
    ensures var ts, after := Toks(e, parent) + tail, [Token(CloseParen, ")")] + tail;
            && WellFormed(e.inner)
            && Head(ts).typ == OpenParen && Tail(ts) == Toks(e.inner, Some(e)) + after && Head(Tail(ts)).typ != CloseParen
            && OpAt(Head(after)).None? && Head(after).typ != OpenParen && CloseGroup(after) == Got(true, tail)
  {
    hide *;
    InnerWell(e);
    GroupSplit(e, parent, tail);
    var after := [Token(CloseParen, ")")] + tail;
    FirstTok(e.inner, Some(e));
    HeadOf(Toks(e.inner, Some(e)), after);
    Prepended(Token(OpenParen, "("), Toks(e.inner, Some(e)) + after);
    Prepended(Token(CloseParen, ")"), tail);
    ClosesGroup(after, tail);
  }

  lemma InnerWell(e: Expr)
    requires WellFormed(e) && e.GroupExpr?
    ensures WellFormed(e.inner) && Toks(e.inner, Some(e)) != []
  {
  }

  lemma GroupSplit(e: Expr, parent: Option<Expr>, tail: seq<Token>)
    requires e.GroupExpr?
    ensures Toks(e, parent) + tail == [Token(OpenParen, "(")] + (Toks(e.inner, Some(e)) + ([Token(CloseParen, ")")] + tail))
  {
    var inner := Toks(e.inner, Some(e));
    assert Toks(e, parent) == [Token(OpenParen, "(")] + (inner + [Token(CloseParen, ")")]);
    hide Toks;
  }

  lemma Prepended(t: Token, ts: seq<Token>)
    ensures Head([t] + ts) == t && Tail([t] + ts) == ts
  {
    assert ([t] + ts)[1..] == ts;
  }

  lemma ClosesGroup(ts: seq<Token>, tail: seq<Token>)
    requires Head(ts) == Token(CloseParen, ")") && Tail(ts) == tail
    ensures OpAt(Head(ts)).None? && Head(ts).typ != OpenParen && CloseGroup(ts) == Got(true, tail)
  {
  }

  lemma {:induction false} CallParses(e: Expr, parent: Option<Expr>, tail: seq<Token>)
    requires WellFormed(e) && e.MacroCallExpr? && Head(tail).typ != OpenParen
    ensures ParsePrimary(Toks(e, parent) + tail) == Got(e, tail)
    decreases e, 0
  {
    CallToks(e, parent, tail);
    var ts := Toks(e, parent) + tail;
    if e.args == [] {
      CallFact(ts, Bad);
    } else {
      ListParses(e.args, tail);
      CallFact(ts, ParseCallArgs(Tail(Tail(ts))));
    }
    hide ParsePrimary, Toks, ParseCallArgs, WellFormed;
  }

  lemma CallToks(e: Expr, parent: Option<Expr>, tail: seq<Token>)
    requires WellFormed(e) && e.MacroCallExpr?
    ensures WellFormedArgs(e.args)
    ensures var ts := Toks(e, parent) + tail;
            && Head(ts) == Token(if e.builtin then DottedIdentifier else Identifier, e.ident)
            && (if e.args == [] then Tail(ts) == tail
                else Head(Tail(ts)).typ == OpenParen && Tail(Tail(ts)) == ListToks(e.args) + tail)
  {
    hide AllOf, IdentText;
    var name := Token(if e.builtin then DottedIdentifier else Identifier, e.ident);
    var ts := Toks(e, parent) + tail;
    assert ts == [name] + (ArgToks(e.args) + tail);
    if e.args != [] {
      assert Tail(ts) == [Token(OpenParen, "(")] + (ListToks(e.args) + tail);
    }
  }

  lemma ArgsFact(ts: seq<Token>, arg: Parsing<Expr>, end: Parsing<bool>, more: Parsing<seq<Expr>>)
    requires Head(ts).typ != CloseParen && ParseExpr(ts) == arg && arg.Got? && ListEnd(arg.rest) == end && end.Got?
    requires !end.value ==> more == ParseCallArgs(end.rest) && more.Got?
    ensures ParseCallArgs(ts) == if end.value then Got([arg.value], end.rest) else Got([arg.value] + more.value, more.rest)
  {
    hide ParseExpr, ListEnd;
  }

  lemma {:induction false} ListParses(args: seq<Expr>, tail: seq<Token>)
    requires args != [] && WellFormedArgs(args)
    ensures ParseCallArgs(ListToks(args) + tail) == Got(args, tail)
    decreases args, 2
  {
    hide *;
    ListHead(args, tail);
    var ts := ListToks(args) + tail;
    var more := AfterArg(args, tail);
    ExprParses(args[0], None, more);
    if |args| == 1 {
      ArgsFact(ts, Got(args[0], more), Got(true, tail), Bad);
      assert args == [args[0]];
    } else {
      ListParses(args[1..], tail);
      ArgsFact(ts, Got(args[0], more), Got(false, ListToks(args[1..]) + tail), Got(args[1..], tail));
      assert args == [args[0]] + args[1..];
    }
  }

  function AfterArg(args: seq<Expr>, tail: seq<Token>): seq<Token>
    requires args != []
  {
    if |args| == 1 then [Token(CloseParen, ")")] + tail else [Token(Comma, ",")] + (ListToks(args[1..]) + tail)
  }

  lemma ListHead(args: seq<Expr>, tail: seq<Token>)
    requires args != [] && WellFormedArgs(args)
    ensures WellFormed(args[0]) && WellFormedArgs(args[1..])
    ensures var ts, more := ListToks(args) + tail, AfterArg(args, tail);
            && ts == Toks(args[0], None) + more && Head(ts).typ != CloseParen
            && OpAt(Head(more)).None? && Head(more).typ != OpenParen
            && ListEnd(more) == if |args| == 1 then Got(true, tail) else Got(false, ListToks(args[1..]) + tail)
  {
    hide *;
    ListSplit(args, tail);
    ArgsWellFormed(args);
    FirstTok(args[0], None);
    NotEmpty(args[0]);
    HeadOf(Toks(args[0], None), AfterArg(args, tail));
    AfterArgEnd(args, tail);
  }

  lemma NotEmpty(e: Expr)
    ensures Toks(e, None) != []
  {
  }

  lemma ArgsWellFormed(args: seq<Expr>)
    requires args != [] && WellFormedArgs(args)
    ensures WellFormed(args[0]) && WellFormedArgs(args[1..])
  {
  }

  lemma ListSplit(args: seq<Expr>, tail: seq<Token>)
    requires args != []
    ensures ListToks(args) + tail == Toks(args[0], None) + AfterArg(args, tail)
  {
    hide Toks;
  }

  lemma AfterArgEnd(args: seq<Expr>, tail: seq<Token>)
    requires args != []
    ensures var more := AfterArg(args, tail);
            && OpAt(Head(more)).None? && Head(more).typ != OpenParen
            && ListEnd(more) == if |args| == 1 then Got(true, tail) else Got(false, ListToks(args[1..]) + tail)
  {
    hide ListToks;
    var more := AfterArg(args, tail);
    if |args| == 1 {
      assert Tail(more) == tail;
    } else {
      assert Tail(more) == ListToks(args[1..]) + tail;
    }
  }

  /** The parser climbs up the left spine of an expression. */
  lemma {:induction false} Climbs(e: Expr, parent: Option<Expr>, tail: seq<Token>, min: nat)
    requires WellFormed(e) && TopAtLeast(e, min) && Follows(e, tail)
    ensures Climb(Toks(e, parent) + tail, min) == ParseArith(e, tail, min)
    decreases e, 3
  {
    if !e.BinaryExpr? {
      PrimaryParses(e, parent, tail);
      hide ParsePrimary, Toks, WellFormed;
    } else {
      ClimbsBinary(e, parent, tail, min);
    }
  }

  lemma {:induction false} ClimbsBinary(e: Expr, parent: Option<Expr>, tail: seq<Token>, min: nat)
    requires WellFormed(e) && e.BinaryExpr? && TopAtLeast(e, min) && Follows(e, tail)
    ensures Climb(Toks(e, parent) + tail, min) == ParseArith(e, tail, min)
    decreases e, 2
  {
    LeftWellFormed(e);
    var left, right := Toks(e.left, Some(e)), Toks(e.right, Some(e));
    var dense := Dense(e, parent);
    var rest := OpToks(e.op, dense, right) + tail;
    assert Toks(e, parent) + tail == left + rest;
    OperandAfter(e.op, dense, right, tail);
    hide WellFormed, Toks, OpToks, OperandTokens, OpAt, ParseExpr;
    Climbs(e.left, Some(e), rest, min);
    RightParses(e.right, Some(e), tail, Precedence(e.op));
    hide Climb, ParseInner, ParsePrimary;
    ArithStep(e.left, rest, min, e.op, right + tail, e.right, tail);
  }

  /** One step of the operator loop. */
  lemma ArithStep(left: Expr, ts: seq<Token>, min: nat, op: ArithOp, operand: seq<Token>, right: Expr, tail: seq<Token>)
    requires ts != [] && OpAt(Head(ts)) == Some(op) && Precedence(op) >= min && OperandTokens(ts) == operand
    requires var r := ParsePrimary(operand); r.Got? && ParseInner(r.value, r.rest, Precedence(op)) == Got(right, tail)
    ensures ParseArith(left, ts, min) == ParseArith(BinaryExpr(op, left, right), tail, min)
  {
    hide ParsePrimary, ParseInner, OpAt, OperandTokens;
  }

  /** The right operand of an operator, with all operators of higher precedence. */
  lemma {:induction false} RightParses(e: Expr, parent: Option<Expr>, tail: seq<Token>, cur: nat)
    requires WellFormed(e) && TopAtLeast(e, cur + 1) && Head(tail).typ != OpenParen
    requires OpAt(Head(tail)).Some? ==> Precedence(OpAt(Head(tail)).value) <= cur
    ensures var r := ParsePrimary(Toks(e, parent) + tail); r.Got? && ParseInner(r.value, r.rest, cur) == Got(e, tail)
    decreases e, 4
  {
    Climbs(e, parent, tail, cur + 1);
    hide WellFormed, Toks;
    StopsHere(e, tail, cur + 1);
    InnerIsClimb(Toks(e, parent) + tail, cur, e, tail);
  }

  lemma StopsHere(e: Expr, tail: seq<Token>, min: nat)
    requires OpAt(Head(tail)).Some? ==> Precedence(OpAt(Head(tail)).value) < min
    ensures ParseArith(e, tail, min) == Got(e, tail)
  {
  }

  lemma InnerIsClimb(ts: seq<Token>, cur: nat, e: Expr, tail: seq<Token>)
    requires Climb(ts, cur + 1) == Got(e, tail)
    requires OpAt(Head(tail)).Some? ==> Precedence(OpAt(Head(tail)).value) <= cur
    ensures var r := ParsePrimary(ts); r.Got? && ParseInner(r.value, r.rest, cur) == Got(e, tail)
  {
    var r := ParsePrimary(ts);
    hide ParsePrimary;
    assert ParseInner(e, tail, cur) == Got(e, tail);
    var op := OpAt(Head(r.rest));
    if op.None? || Precedence(op.value) <= cur {
      StopsHere(r.value, r.rest, cur + 1);
    }
    hide ParseArith, OpAt;
  }

  lemma {:induction false} ExprParses(e: Expr, parent: Option<Expr>, tail: seq<Token>)
    requires WellFormed(e) && OpAt(Head(tail)).None? && Head(tail).typ != OpenParen
    ensures ParseExpr(Toks(e, parent) + tail) == Got(e, tail)
    decreases e, 5
  {
    Climbs(e, parent, tail, 0);
    StopsHere(e, tail, 0);
    hide Toks, ParsePrimary, ParseArith, WellFormed;
  }

  // ----- the round trip -----

  /** For every tree that the parser can build, parsing the printed text gives the same tree. */
  lemma PrintedParses(e: Expr)
    requires WellFormed(e)
    ensures ParseExpr(Lex(Print(e, None)) + [EOF]) == Got(e, [EOF])
  {
    hide WellFormed, Print, Toks, ParseExpr;
    PrintLexes(e, None, "");
    assert Print(e, None) + "" == Print(e, None);
    assert Lex("") == [];
    assert Toks(e, None) + [] == Toks(e, None);
    ExprParses(e, None, [EOF]);
  }

  /** The well-formed trees are exactly those that the parser can build from a text. */
  lemma WellFormedIff(e: Expr)
    ensures WellFormed(e) <==> exists s: string, rest: seq<Token> :: ParseExpr(Lex(s) + [EOF]) == Got(e, rest)
  {
    hide WellFormed, ParseExpr, Print, Lex;
    if WellFormed(e) {
      PrintedParses(e);
    }
    if s: string, rest: seq<Token> :| ParseExpr(Lex(s) + [EOF]) == Got(e, rest) {
      LexOk(s);
      EofOk(Lex(s));
      ExprWellFormed(Lex(s) + [EOF]);
    }
  }

  lemma EofOk(ts: seq<Token>)
    requires TokensOk(ts)
    ensures TokensOk(ts + [EOF])
  {
  }
}
