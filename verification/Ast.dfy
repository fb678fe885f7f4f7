/** Syntax trees of programs, and the definitions visible in them (internal/ast, internal/loader/program.go). */
module Ast {
  import opened Base
  import opened Lzint

  datatype ArithOp = Plus | Minus | Mul | Div | Mod | Lshift | Rshift | And | Or | Xor

  datatype Expr =
    | LiteralExpr(text: string, isString: bool, value: Value)
    | LabelRefExpr(ident: string, dotted: bool)
    | VariableExpr(ident: string)
    | MacroCallExpr(ident: string, builtin: bool, args: seq<Expr>)
    | BinaryExpr(op: ArithOp, left: Expr, right: Expr)
    | UnaryExpr(op: ArithOp, arg: Expr)
    | GroupExpr(inner: Expr)

  /** A label definition. The id stands for the identity of the definition in the source. */
  datatype LabelDef = LabelDef(id: nat, ident: string, dotted: bool)

  /**
   * A statement. Opcode names are upper case. The body of an include is that of the included
   * document, if it could be parsed.
   */
  datatype Stmt =
    | OpcodeStmt(op: string, arg: Option<Expr>, immediates: seq<int>)
    | LabelStmt(def: LabelDef)
    | PCLabelStmt(pc: nat)
    | MacroCallStmt(ident: string, args: seq<Expr>)
    | IncludeStmt(doc: nat, loaded: bool, body: seq<Stmt>)
    | BytesStmt(value: Expr, name: Option<LabelDef>)
    | MacroDefStmt(params: seq<string>)
    | OtherStmt

  // ----- definitions -----

  /** The definitions of a document. Macros are numbered. */
  datatype Document = Document(
    parent: Option<nat>,
    labels: map<string, LabelDef>,
    exprMacros: map<string, nat>,
    instrMacros: map<string, nat>)

  datatype ExprMacro = ExprMacro(ident: string, params: seq<string>, body: Expr, doc: nat)

  /** An instruction macro; doc is the document of its body. */
  datatype InstrMacro = InstrMacro(ident: string, params: seq<string>, body: seq<Stmt>, doc: nat)

  datatype Program = Program(
    docs: seq<Document>,
    global: Document,
    exprMacros: seq<ExprMacro>,
    instrMacros: seq<InstrMacro>,
    top: nat,
    statements: seq<Stmt>)

  /** ASCII part of unicode.IsUpper. */
  predicate IsGlobal(name: string) {
    name != [] && 'A' <= name[0] <= 'Z'
  }

  function Get<T>(m: map<string, T>, name: string): Option<T> {
    if name in m then Some(m[name]) else None
  }

  /** The enclosing document. Documents are created after the documents that enclose them. */
  function Enclosing(docs: seq<Document>, doc: nat): (r: Option<nat>)
    ensures r.Some? ==> r.value < doc < |docs| && docs[doc].parent == r
  {
    if doc < |docs| && docs[doc].parent.Some? && docs[doc].parent.value < doc then docs[doc].parent else None
  }

  function LabelIn(docs: seq<Document>, name: string, doc: nat): Option<LabelDef>
    decreases doc
  {
    if doc < |docs| && name in docs[doc].labels then Some(docs[doc].labels[name])
    else
      match Enclosing(docs, doc)
      case None => None
      case Some(up) => LabelIn(docs, name, up)
  }

  function ExprMacroIn(docs: seq<Document>, name: string, doc: nat): Option<nat>
    decreases doc
  {
    if doc < |docs| && name in docs[doc].exprMacros then Some(docs[doc].exprMacros[name])
    else
      match Enclosing(docs, doc)
      case None => None
      case Some(up) => ExprMacroIn(docs, name, up)
  }

  function InstrMacroIn(docs: seq<Document>, name: string, doc: nat): Option<nat>
    decreases doc
  {
    if doc < |docs| && name in docs[doc].instrMacros then Some(docs[doc].instrMacros[name])
    else
      match Enclosing(docs, doc)
      case None => None
      case Some(up) => InstrMacroIn(docs, name, up)
  }

  function LookupLabel(p: Program, docs: seq<Document>, name: string, doc: nat): Option<LabelDef> {
    if IsGlobal(name) then Get(p.global.labels, name) else LabelIn(docs, name, doc)
  }

  function LookupExprMacro(p: Program, docs: seq<Document>, name: string, doc: nat): Option<nat> {
    if IsGlobal(name) then Get(p.global.exprMacros, name) else ExprMacroIn(docs, name, doc)
  }

  /** A global name that has no global definition is also looked up as a local one. */
  function LookupInstrMacro(p: Program, docs: seq<Document>, name: string, doc: nat): Option<nat> {
    if IsGlobal(name) && name in p.global.instrMacros then Some(p.global.instrMacros[name])
    else InstrMacroIn(docs, name, doc)
  }
}
