/** Parsing of expressions (parseExpr and the functions it uses, internal/ast/parse.go). */
module Parser {
  import opened Base
  import opened Numerals
  import opened Lzint
  import opened Lexer
  import opened Ast

  // ----- operators -----

  function Precedence(op: ArithOp): nat {
    match op
    case Plus => 1
    case Minus => 1
    case Or => 1
    case Xor => 1
    case _ => 2
  }

  function Sign(op: ArithOp): (s: string)
    ensures s != []
  {
    match op
    case Plus => "+"
    case Minus => "-"
    case Mul => "*"
    case Div => "/"
    case Mod => "%"
    case Lshift => "<<"
    case Rshift => ">>"
    case And => "&"
    case Or => "|"
    case Xor => "^"
  }

  /** The operation that an operator token stands for. */
  function OpOfSign(text: string): Option<ArithOp> {
    if text == "<<" then Some(Lshift)
    else if text == ">>" then Some(Rshift)
    else if text == "%" then Some(Mod)
    else if text == [] then None
    else
      match text[0]
      case '+' => Some(Plus)
      case '-' => Some(Minus)
      case '*' => Some(Mul)
      case '/' => Some(Div)
      case '&' => Some(And)
      case '|' => Some(Or)
      case '^' => Some(Xor)
      case _ => None
  }

  lemma SignRoundTrip(op: ArithOp)
    ensures OpOfSign(Sign(op)) == Some(op)
  {
  }

  // ----- literals -----

  /** The bytes of a string literal; None for invalid escape sequences and characters that are not ASCII. */
  function StringBytes(text: string): Option<seq<Byte>>
    decreases |text|
  {
    if text == [] then Some([])
    else if text[0] != '\\' then
      if text[0] >= 128 as char then None else Prefixed(text[0] as int, StringBytes(text[1..]))
    else if |text| == 1 then None
    else if text[1] == 'x' then
      if |text| < 4 || !IsHex(text[2]) || !IsHex(text[3]) then None
      else Prefixed(DigitValue(text[2]) * 16 + DigitValue(text[3]), StringBytes(text[4..]))
    else
      match text[1]
      case '\\' => Prefixed(92, StringBytes(text[2..]))
      case '"' => Prefixed(34, StringBytes(text[2..]))
      case 'n' => Prefixed(10, StringBytes(text[2..]))
      case 'r' => Prefixed(13, StringBytes(text[2..]))
      case 't' => Prefixed(9, StringBytes(text[2..]))
      case _ => None
  }

  function Prefixed(b: Byte, rest: Option<seq<Byte>>): Option<seq<Byte>> {
    if rest.Some? then Some([b] + rest.value) else None
  }

  // ----- specification of the parser -----

  datatype Parsing<T> = Got(value: T, rest: seq<Token>) | Bad

  const EOF: Token := Token(Eof, [])

  function Head(ts: seq<Token>): Token {
    if ts == [] then EOF else ts[0]
  }

  function Tail(ts: seq<Token>): (r: seq<Token>)
    ensures ts != [] ==> |r| == |ts| - 1
    ensures |r| <= |ts|
  {
    if ts == [] then [] else ts[1..]
  }

  /** The stream ends with the end-of-file token. */
  predicate Terminated(ts: seq<Token>) {
    ts != [] && ts[|ts| - 1].typ == Eof
  }

  predicate IsLineToken(t: Token) {
    t.typ == LineStart || t.typ == LineEnd
  }

  /** The operator that a token can continue an expression with. A macro identifier is a modulus and a name. */
  function OpAt(t: Token): Option<ArithOp> {
    if t.typ == ArithSign then OpOfSign(t.text)
    else if t.typ == InstMacroIdent then Some(Mod)
    else None
  }

  /** The tokens of the right operand. */
  function OperandTokens(ts: seq<Token>): (r: seq<Token>)
    requires ts != []
    ensures |r| <= |ts| && (Terminated(ts) && ts[0].typ != Eof ==> Terminated(r))
  {
    if ts[0].typ == InstMacroIdent then [Token(Identifier, ts[0].text)] + ts[1..] else ts[1..]
  }

  /** Skips line ends up to a closing parenthesis. */
  function CloseGroup(ts: seq<Token>): (r: Parsing<bool>)
    ensures r.Got? ==> |r.rest| < |ts| && (Terminated(ts) ==> Terminated(r.rest))
  {
    if Head(ts).typ == CloseParen then Got(true, Tail(ts))
    else if ts != [] && IsLineToken(ts[0]) then CloseGroup(ts[1..])
    else Bad
  }

  /** The end of a list item; true if the list is finished. */
  function ListEnd(ts: seq<Token>): (r: Parsing<bool>)
    ensures r.Got? ==> |r.rest| < |ts| && (Terminated(ts) ==> Terminated(r.rest))
  {
    if Head(ts).typ == Comma then Got(false, Tail(ts))
    else if Head(ts).typ == CloseParen then Got(true, Tail(ts))
    else if ts != [] && IsLineToken(ts[0]) then ListEnd(ts[1..])
    else Bad
  }

  /** What is left after success: fewer tokens, and still the end of the stream. */
  ghost predicate Shorter(r: Parsing<Expr>, ts: seq<Token>) {
    r.Got? ==> |r.rest| < |ts| && (Terminated(ts) ==> Terminated(r.rest))
  }

  function ParseNumber(ts: seq<Token>): (r: Parsing<Expr>)
    requires Head(ts).typ == NumberLiteral
    ensures Shorter(r, ts) && (r.Got? ==> r.value.LiteralExpr?)
  {
    match Literal(Head(ts).text)
    case Err(_) => Bad
    case Ok(v) => Got(LiteralExpr(Head(ts).text, false, v), Tail(ts))
  }

  function ParseString(ts: seq<Token>): (r: Parsing<Expr>)
    requires Head(ts).typ == StringLiteral
    ensures Shorter(r, ts) && (r.Got? ==> r.value.LiteralExpr?)
  {
    match StringBytes(Head(ts).text)
    case None => Bad
    case Some(b) => Got(LiteralExpr(Head(ts).text, true, OfBytes(b)), Tail(ts))
  }

  function ParsePrimary(ts: seq<Token>): (r: Parsing<Expr>)
    ensures Shorter(r, ts) && (r.Got? ==> !r.value.BinaryExpr?)
    decreases |ts|, 0
  {
    var t := Head(ts);
    if t.typ == Identifier || t.typ == DottedIdentifier then
      if Head(Tail(ts)).typ == OpenParen then
        match ParseCallArgs(Tail(Tail(ts)))
        case Bad => Bad
        case Got(args, rest) => Got(MacroCallExpr(t.text, t.typ == DottedIdentifier, args), rest)
      else Got(MacroCallExpr(t.text, t.typ == DottedIdentifier, []), Tail(ts))
    else if t.typ == VariableIdentifier then Got(VariableExpr(t.text), Tail(ts))
    else if t.typ == LabelRef || t.typ == DottedLabelRef then Got(LabelRefExpr(t.text, t.typ == DottedLabelRef), Tail(ts))
    else if t.typ == NumberLiteral then ParseNumber(ts)
    else if t.typ == StringLiteral then ParseString(ts)
    else if t.typ == ArithSign then
      if OpOfSign(t.text) != Some(Minus) then Bad
      else
        match ParsePrimary(Tail(ts))
        case Bad => Bad
        case Got(arg, rest) => Got(UnaryExpr(Minus, arg), rest)
    else if t.typ == OpenParen then
      if Head(Tail(ts)).typ == CloseParen then Bad
      else
        match ParseExpr(Tail(ts))
        case Bad => Bad
        case Got(inner, rest) =>
          match CloseGroup(rest)
          case Bad => Bad
          case Got(_, rest) => Got(GroupExpr(inner), rest)
    else Bad
  }

  /** Arguments up to the closing parenthesis. */
  function ParseCallArgs(ts: seq<Token>): (r: Parsing<seq<Expr>>)
    ensures r.Got? ==> |r.rest| < |ts| && (Terminated(ts) ==> Terminated(r.rest))
    decreases |ts|, 4
  {
    if Head(ts).typ == CloseParen then Got([], Tail(ts))
    else
      match ParseExpr(ts)
      case Bad => Bad
      case Got(arg, rest) =>
        match ListEnd(rest)
        case Bad => Bad
        case Got(done, rest) =>
          if done then Got([arg], rest)
          else
            match ParseCallArgs(rest)
            case Bad => Bad
            case Got(args, rest) => Got([arg] + args, rest)
  }

  /** Continues an expression with operators of at least the given precedence. */
  function ParseArith(left: Expr, ts: seq<Token>, min: nat): (r: Parsing<Expr>)
    ensures r.Got? ==> |r.rest| <= |ts| && (Terminated(ts) ==> Terminated(r.rest))
    ensures r.Got? && OpAt(Head(ts)).Some? && Precedence(OpAt(Head(ts)).value) >= min ==> |r.rest| < |ts|
    decreases |ts|, 1
  {
    var op := OpAt(Head(ts));
    if op.None? || Precedence(op.value) < min then Got(left, ts)
    else
      match ParsePrimary(OperandTokens(ts))
      case Bad => Bad
      case Got(operand, rest) =>
        match ParseInner(operand, rest, Precedence(op.value))
        case Bad => Bad
        case Got(right, rest) => ParseArith(BinaryExpr(op.value, left, right), rest, min)
  }

  /** Extends a right operand with operators of higher precedence. */
  function ParseInner(right: Expr, ts: seq<Token>, cur: nat): (r: Parsing<Expr>)
    ensures r.Got? ==> |r.rest| <= |ts| && (Terminated(ts) ==> Terminated(r.rest))
    decreases |ts|, 2
  {
    var op := OpAt(Head(ts));
    if op.None? || Precedence(op.value) <= cur then Got(right, ts)
    else
      match ParseArith(right, ts, cur + 1)
      case Bad => Bad
      case Got(r, rest) => ParseInner(r, rest, cur)
  }

  function ParseExpr(ts: seq<Token>): (r: Parsing<Expr>)
    ensures Shorter(r, ts)
    decreases |ts|, 3
  {
    match ParsePrimary(ts)
    case Bad => Bad
    case Got(left, rest) => ParseArith(left, rest, 0)
  }

  // ----- one step of the loops -----

  lemma ArithFact(left: Expr, ts: seq<Token>, min: nat)
    ensures var op := OpAt(Head(ts));
            if op.None? || Precedence(op.value) < min then ParseArith(left, ts, min) == Got(left, ts)
            else
              var operand := ParsePrimary(OperandTokens(ts));
              if operand.Bad? then ParseArith(left, ts, min) == Bad
              else
                var right := ParseInner(operand.value, operand.rest, Precedence(op.value));
                ParseArith(left, ts, min) ==
                  if right.Bad? then Bad else ParseArith(BinaryExpr(op.value, left, right.value), right.rest, min)
  {
    hide ParsePrimary, ParseInner, OpAt, OperandTokens;
  }

  lemma InnerFact(right: Expr, ts: seq<Token>, cur: nat)
    ensures var op := OpAt(Head(ts));
            if op.None? || Precedence(op.value) <= cur then ParseInner(right, ts, cur) == Got(right, ts)
            else
              var r := ParseArith(right, ts, cur + 1);
              ParseInner(right, ts, cur) == if r.Bad? then Bad else ParseInner(r.value, r.rest, cur)
  {
    hide ParseArith, OpAt;
  }

  // ----- how primary expressions are parsed, case by case -----

  lemma GroupFact(ts: seq<Token>, inner: Parsing<Expr>, end: Parsing<bool>)
    requires Head(ts).typ == OpenParen && inner == ParseExpr(Tail(ts)) && (inner.Got? ==> end == CloseGroup(inner.rest))
    ensures ParsePrimary(ts) ==
            if Head(Tail(ts)).typ == CloseParen || inner.Bad? || end.Bad? then Bad else Got(GroupExpr(inner.value), end.rest)
  {
    hide ParseExpr, CloseGroup;
  }

  lemma UnaryFact(ts: seq<Token>, arg: Parsing<Expr>)
    requires Head(ts).typ == ArithSign && arg == ParsePrimary(Tail(ts))
    ensures ParsePrimary(ts) == if OpOfSign(Head(ts).text) != Some(Minus) || arg.Bad? then Bad else Got(UnaryExpr(Minus, arg.value), arg.rest)
  {
    hide OpOfSign, Literal, StringBytes;
  }

  lemma CallFact(ts: seq<Token>, args: Parsing<seq<Expr>>)
    requires Head(ts).typ == Identifier || Head(ts).typ == DottedIdentifier
    requires Head(Tail(ts)).typ == OpenParen ==> args == ParseCallArgs(Tail(Tail(ts)))
    ensures ParsePrimary(ts) ==
            if Head(Tail(ts)).typ != OpenParen then Got(MacroCallExpr(Head(ts).text, Head(ts).typ == DottedIdentifier, []), Tail(ts))
            else if args.Bad? then Bad
            else Got(MacroCallExpr(Head(ts).text, Head(ts).typ == DottedIdentifier, args.value), args.rest)
  {
    hide ParseCallArgs;
  }

  /** Names, labels and literals. */
  predicate IsLeaf(t: Token) {
    || t.typ == VariableIdentifier || t.typ == LabelRef || t.typ == DottedLabelRef
    || t.typ == NumberLiteral || t.typ == StringLiteral
  }

  lemma LeafFact(ts: seq<Token>)
    requires IsLeaf(Head(ts))
    ensures ParsePrimary(ts) ==
            match Head(ts).typ
            case VariableIdentifier => Got(VariableExpr(Head(ts).text), Tail(ts))
            case NumberLiteral => ParseNumber(ts)
            case StringLiteral => ParseString(ts)
            case _ => Got(LabelRefExpr(Head(ts).text, Head(ts).typ == DottedLabelRef), Tail(ts))
  {
    hide ParseNumber, ParseString;
  }

  lemma OtherFact(ts: seq<Token>)
    requires !IsLeaf(Head(ts)) && Head(ts).typ != OpenParen && Head(ts).typ != ArithSign
    requires Head(ts).typ != Identifier && Head(ts).typ != DottedIdentifier
    ensures ParsePrimary(ts) == Bad
  {
  }
}
