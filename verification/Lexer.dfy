/** Tokens of the source language, for ASCII text (internal/ast/lexer.go). */
module Lexer {
  import opened Base
  import opened Numerals

  datatype TokenType =
    | Eof
    | LineStart
    | LineEnd
    | InvalidToken
    | Identifier
    | DottedIdentifier
    | VariableIdentifier
    | LabelRef
    | DottedLabelRef
    | Label
    | DottedLabel
    | PCLabel
    | NumberLiteral
    | StringLiteral
    | OpenParen
    | CloseParen
    | Comma
    | Directive
    | InstMacroIdent
    | OpenBrace
    | CloseBrace
    | OpenBracket
    | CloseBracket
    | Equals
    | ArithSign
    | Comment

  datatype Token = Token(typ: TokenType, text: string)

  // ----- character classes -----

  predicate IsBlank(c: char) {
    c == ' ' || c == '\t' || c == '\n' || c == '\r' || c == 11 as char || c == 12 as char
  }

  predicate IsIdentBegin(c: char) {
    c == '_' || IsLetter(c)
  }

  predicate IsIdent(c: char) {
    c == '_' || IsLetter(c) || IsDigit(c)
  }

  predicate IsArithChar(c: char) {
    c == '+' || c == '-' || c == '*' || c == '/' || c == '&' || c == '|' || c == '^'
  }

  predicate AllOf(f: char -> bool, s: string) {
    forall i :: 0 <= i < |s| ==> f(s[i])
  }

  /** The length of the longest prefix with characters of one class. */
  function RunOf(f: char -> bool, s: string): (n: nat)
    ensures n <= |s|
    ensures AllOf(f, s[..n]) && (n < |s| ==> !f(s[n]))
  {
    if s == [] || !f(s[0]) then 0 else 1 + RunOf(f, s[1..])
  }

  lemma {:induction false} RunStops(f: char -> bool, x: string, rest: string)
    requires AllOf(f, x) && (rest != [] ==> !f(rest[0]))
    ensures RunOf(f, x + rest) == |x|
  {
    if x == [] {
      assert x + rest == rest;
    } else {
      assert (x + rest)[1..] == x[1..] + rest;
      RunStops(f, x[1..], rest);
    }
  }

  // ----- one token -----

  function LineRest(c: char): bool {
    c != '\n'
  }

  /** Where a string literal ends: the position of the closing quote, if there is one. */
  function StringScan(s: string, i: nat): (r: (nat, bool))
    requires i <= |s|
    ensures i <= r.0 <= |s| && (r.1 ==> r.0 < |s| && s[r.0] == '"')
    decreases |s| - i
  {
    if i == |s| then (i, false)
    else if s[i] == '\\' then
      if i + 1 == |s| then (i + 1, false)
      else if s[i + 1] == '\0' then (i + 1, false)
      else StringScan(s, i + 2)
    else if s[i] == '"' then (i, true)
    else if s[i] == '\0' then (i, false)
    else StringScan(s, i + 1)
  }

  /** Tokens, and the number of characters they take up. */
  datatype Lexeme = Lexeme(tokens: seq<Token>, size: nat)

  function Tok(typ: TokenType, text: string, size: nat): Lexeme {
    Lexeme([Token(typ, text)], size)
  }

  function LexLabelRef(s: string): (r: Lexeme)
    requires s != []
    ensures 1 <= r.size <= |s|
  {
    var dotted := |s| > 1 && s[1] == '.';
    var start := if dotted then 2 else 1;
    var n := RunOf(IsIdent, s[start..]);
    Tok(if dotted then DottedLabelRef else LabelRef, s[start..start + n], start + n)
  }

  function LexNumber(s: string): (r: Lexeme)
    requires s != []
    ensures 1 <= r.size <= |s|
  {
    var hex := |s| > 1 && (s[1] == 'x' || s[1] == 'X');
    var start := if hex then 2 else 1;
    var n := start + RunOf(if hex then IsHex else IsDigit, s[start..]);
    var m := n + RunOf(IsHex, s[n..]);
    // A number followed by ':' is a pc label, which may continue with hex characters.
    if m < |s| && s[m] == ':' then Tok(PCLabel, s[..m], m + 1) else Tok(NumberLiteral, s[..n], n)
  }

  function LexIdentifier(s: string): (r: Lexeme)
    requires s != []
    ensures 1 <= r.size <= |s|
  {
    var dotted := s[0] == '.';
    var start := if dotted then 1 else 0;
    var n := 1 + RunOf(IsIdent, s[1..]);
    if n < |s| && s[n] == ':' then Tok(if dotted then DottedLabel else Label, s[start..n], n + 1)
    else Tok(if dotted then DottedIdentifier else Identifier, s[start..n], n)
  }

  function LexString(s: string): (r: Lexeme)
    requires s != []
    ensures 1 <= r.size <= |s|
  {
    var (end, closed) := StringScan(s, 1);
    if closed then Tok(StringLiteral, s[1..end], end + 1) else Tok(InvalidToken, s[..end], end)
  }

  function LexPercent(s: string): (r: Lexeme)
    requires s != []
    ensures 1 <= r.size <= |s|
  {
    if |s| > 1 && IsIdentBegin(s[1]) then
      var n := 1 + RunOf(IsIdent, s[1..]);
      Tok(InstMacroIdent, s[1..n], n)
    else Tok(ArithSign, s[..1], 1)
  }

  function LexShift(s: string): (r: Lexeme)
    requires s != []
    ensures 1 <= r.size <= |s|
  {
    if |s| > 1 && s[1] == s[0] then Tok(ArithSign, s[..2], 2) else Tok(InvalidToken, s[..1], 1)
  }

  function LexWord(typ: TokenType, s: string, skip: nat): (r: Lexeme)
    requires s != [] && skip <= 1
    ensures 1 <= r.size <= |s|
  {
    var n := 1 + RunOf(IsIdent, s[1..]);
    Tok(typ, s[skip..n], n)
  }

  function SymbolType(c: char): Option<TokenType> {
    match c
    case '(' => Some(OpenParen)
    case ')' => Some(CloseParen)
    case '{' => Some(OpenBrace)
    case '}' => Some(CloseBrace)
    case '[' => Some(OpenBracket)
    case ']' => Some(CloseBracket)
    case ',' => Some(Comma)
    case '=' => Some(Equals)
    case _ => if IsArithChar(c) then Some(ArithSign) else None
  }

  function LexOne(s: string): (r: Lexeme)
    requires s != []
    ensures 1 <= r.size <= |s|
  {
    var c := s[0];
    if c == ';' then var n := RunOf(LineRest, s); Tok(Comment, s[..n], n)
    else if c == '@' then LexLabelRef(s)
    else if c == '$' then LexWord(VariableIdentifier, s, 1)
    else if c == '"' then LexString(s)
    else if SymbolType(c).Some? then Tok(SymbolType(c).value, s[..1], 1)
    else if c == '#' then LexWord(Directive, s, 0)
    else if IsDigit(c) then LexNumber(s)
    else if c == '.' || IsIdentBegin(c) then LexIdentifier(s)
    else if c == '<' || c == '>' then LexShift(s)
    else if c == '%' then LexPercent(s)
    else if c == '\n' then Lexeme([Token(LineEnd, s[..1]), Token(LineStart, [])], 1)
    else if IsBlank(c) then Lexeme([], 1)
    else Tok(InvalidToken, s[..1], 1)
  }

  /** The tokens of a text. */
  function Lex(s: string): seq<Token>
    decreases |s|
  {
    if s == [] then []
    else
      var r := LexOne(s);
      r.tokens + Lex(s[r.size..])
  }

  /** The token stream that the parser reads. */
  function Tokens(s: string): seq<Token> {
    [Token(LineStart, [])] + Lex(s) + [Token(Eof, [])]
  }

  // ----- lexing a text piece by piece -----

  /** The text x makes up the given tokens when followed by rest. */
  lemma LexPiece(x: string, rest: string, tokens: seq<Token>)
    requires x != [] && LexOne(x + rest) == Lexeme(tokens, |x|)
    ensures Lex(x + rest) == tokens + Lex(rest)
  {
    assert (x + rest)[|x|..] == rest;
  }
}
