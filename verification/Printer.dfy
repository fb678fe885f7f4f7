/** Printing of expressions (expr and argumentList, internal/printer/printer.go). */
module Printer {
  import opened Base
  import opened Ast
  import opened Parser

  // ----- specification -----

  /** An operand that binds less tightly than its parent is put into parentheses. */
  predicate NeedsParens(e: Expr, parent: Option<Expr>) {
    && e.BinaryExpr? && parent.Some?
    && (parent.value.UnaryExpr? || (parent.value.BinaryExpr? && Precedence(parent.value.op) > Precedence(e.op)))
  }

  /** An operation inside of one with lower precedence is printed without spaces. */
  predicate Dense(e: Expr, parent: Option<Expr>) {
    && e.BinaryExpr? && parent.Some? && parent.value.BinaryExpr?
    && Precedence(parent.value.op) < Precedence(e.op)
  }

  function Spaced(sign: string, dense: bool): string {
    if dense then sign else " " + sign + " "
  }

  function Print(e: Expr, parent: Option<Expr>): string
    decreases e, 1
  {
    match e
    case LiteralExpr(text, isString, _) => if isString then "\"" + text + "\"" else text
    case LabelRefExpr(ident, dotted) => (if dotted then "@." else "@") + ident
    case VariableExpr(ident) => "$" + ident
    case GroupExpr(inner) => "(" + Print(inner, Some(e)) + ")"
    case UnaryExpr(op, arg) => Sign(op) + Print(arg, Some(e))
    case BinaryExpr(op, left, right) =>
      var body := Print(left, Some(e)) + Spaced(Sign(op), Dense(e, parent)) + Print(right, Some(e));
      if NeedsParens(e, parent) then "(" + body + ")" else body
    case MacroCallExpr(ident, builtin, args) => (if builtin then "." else "") + ident + PrintArgs(args)
  }

  function PrintArgs(args: seq<Expr>): string
    decreases args, 2
  {
    if args == [] then "" else "(" + PrintList(args) + ")"
  }

  function PrintList(args: seq<Expr>): string
    requires args != []
    decreases args, 1
  {
    if |args| == 1 then Print(args[0], None) else Print(args[0], None) + ", " + PrintList(args[1..])
  }

  /** The length of the current line after a text has been printed. */
  function LineLength(length: nat, s: string): nat {
    if s == [] then length
    else if s[|s| - 1] == '\n' then 0
    else LineLength(length, s[..|s| - 1]) + 1
  }

  lemma {:induction false} LineLengthConcat(length: nat, a: string, b: string)
    ensures LineLength(length, a + b) == LineLength(LineLength(length, a), b)
    decreases |b|
  {
    if b == [] {
      assert a + b == a;
    } else {
      assert (a + b)[..|a + b| - 1] == a + b[..|b| - 1];
      LineLengthConcat(length, a, b[..|b| - 1]);
    }
  }

  /** The position of the last line break, or -1. */
  function LastNewline(s: string): (nl: int)
    ensures -1 <= nl < |s|
  {
    if s == [] then -1
    else if s[|s| - 1] == '\n' then |s| - 1
    else LastNewline(s[..|s| - 1])
  }

  lemma {:induction false} LengthByNewline(length: nat, s: string)
    ensures var nl := LastNewline(s);
            LineLength(length, s) == if nl >= 0 then |s| - nl - 1 else length + |s|
    decreases |s|
  {
    if s != [] {
      LengthByNewline(length, s[..|s| - 1]);
    }
  }

  // ----- the printer -----

  class Printer {
    var out: string
    var lineLength: nat

    constructor ()
      ensures out == "" && lineLength == 0
    {
      out, lineLength := "", 0;
    }

    method WriteString(s: string)
      modifies this
      ensures out == old(out) + s && lineLength == LineLength(old(lineLength), s)
    {
      LengthByNewline(lineLength, s);
      out := out + s;
      var nl := LastNewline(s);
      if nl >= 0 {
        lineLength := |s| - nl - 1;
      } else {
        lineLength := lineLength + |s|;
      }
    }

    /** Writes an expression. */
    method WriteExpr(e: Expr, parent: Option<Expr>)
      modifies this
      ensures out == old(out) + Print(e, parent) && lineLength == LineLength(old(lineLength), Print(e, parent))
      decreases e, 2
    {
      hide LineLength, Sign;
      ghost var start, length := out, lineLength;
      match e {
        case LiteralExpr(text, isString, _) => WriteString(if isString then "\"" + text + "\"" else text);
        case LabelRefExpr(ident, dotted) => WriteString((if dotted then "@." else "@") + ident);
        case VariableExpr(ident) => WriteString("$" + ident);
        case GroupExpr(inner) =>
          WriteString("(");
          WriteExpr(inner, Some(e));
          Chain(start, length, "(", Print(inner, Some(e)));
          WriteString(")");
          Chain(start, length, "(" + Print(inner, Some(e)), ")");
        case UnaryExpr(op, arg) =>
          WriteString(Sign(op));
          WriteExpr(arg, Some(e));
          Chain(start, length, Sign(op), Print(arg, Some(e)));
        case BinaryExpr(op, left, right) => WriteBinary(e, parent);
        case MacroCallExpr(ident, builtin, args) =>
          WriteString((if builtin then "." else "") + ident);
          WriteArgs(args);
          Chain(start, length, (if builtin then "." else "") + ident, PrintArgs(args));
      }
    }

    method WriteBinary(e: Expr, parent: Option<Expr>)
      requires e.BinaryExpr?
      modifies this
      ensures out == old(out) + Print(e, parent) && lineLength == LineLength(old(lineLength), Print(e, parent))
      decreases e, 1
    {
      hide LineLength, Sign;
      ghost var start, length := out, lineLength;
      var paren := NeedsParens(e, parent);
      var dense := Dense(e, parent);
      ghost var w := "";
      Chain(start, length, "", "(");
      if paren {
        WriteString("(");
        w := "(";
      } else {
        NoText(start, length);
      }
      WriteExpr(e.left, Some(e));
      Chain(start, length, w, Print(e.left, Some(e)));
      w := w + Print(e.left, Some(e));
      WriteString(Spaced(Sign(e.op), dense));
      Chain(start, length, w, Spaced(Sign(e.op), dense));
      w := w + Spaced(Sign(e.op), dense);
      WriteExpr(e.right, Some(e));
      Chain(start, length, w, Print(e.right, Some(e)));
      w := w + Print(e.right, Some(e));
      if paren {
        WriteString(")");
        Chain(start, length, w, ")");
        w := w + ")";
      }
      BinaryText(e, parent, w);
    }

    /** Writes the arguments of a macro call; nothing if there are none. */
    method WriteArgs(args: seq<Expr>)
      modifies this
      ensures out == old(out) + PrintArgs(args) && lineLength == LineLength(old(lineLength), PrintArgs(args))
      decreases args
    {
      hide LineLength, Print;
      ghost var start, length := out, lineLength;
      NoText(start, length);
      if |args| == 0 {
        return;
      }
      WriteString("(");
      ghost var w := "(";
      Chain(start, length, "", "(");
      assert args[0..] == args;
      for i := 0 to |args|
        invariant out == start + w && lineLength == LineLength(length, w)
        invariant ListText(args, i, w)
      {
        ListNext(args, i, w);
        if i > 0 {
          WriteString(", ");
          Chain(start, length, w, ", ");
          w := w + ", ";
        }
        WriteExpr(args[i], None);
        Chain(start, length, w, Print(args[i], None));
        w := w + Print(args[i], None);
      }
      WriteString(")");
      Chain(start, length, w, ")");
    }
  }

  lemma Chain(start: string, length: nat, w: string, x: string)
    ensures start + w + x == start + (w + x)
    ensures LineLength(LineLength(length, w), x) == LineLength(length, w + x)
  {
    LineLengthConcat(length, w, x);
  }

  lemma NoText(start: string, length: nat)
    ensures start + "" == start && LineLength(length, "") == length
  {
  }

  lemma BinaryText(e: Expr, parent: Option<Expr>, w: string)
    requires e.BinaryExpr?
    requires var body := Print(e.left, Some(e)) + Spaced(Sign(e.op), Dense(e, parent)) + Print(e.right, Some(e));
             w == if NeedsParens(e, parent)
                  then "(" + Print(e.left, Some(e)) + Spaced(Sign(e.op), Dense(e, parent)) + Print(e.right, Some(e)) + ")"
                  else "" + Print(e.left, Some(e)) + Spaced(Sign(e.op), Dense(e, parent)) + Print(e.right, Some(e))
    ensures w == Print(e, parent)
  {
    var l, s, r := Print(e.left, Some(e)), Spaced(Sign(e.op), Dense(e, parent)), Print(e.right, Some(e));
    assert "(" + l + s + r + ")" == "(" + (l + s + r) + ")";
    assert "" + l + s + r == l + s + r;
  }

  /** The text of an argument list after i arguments. */
  ghost predicate ListText(args: seq<Expr>, i: nat, w: string)
    requires args != [] && i <= |args|
  {
    if i == 0 then w == "("
    else if i == |args| then w == "(" + PrintList(args)
    else w + ", " + PrintList(args[i..]) == "(" + PrintList(args)
  }

  lemma ListNext(args: seq<Expr>, i: nat, w: string)
    requires i < |args| && ListText(args, i, w)
    ensures ListText(args, i + 1, (if i > 0 then w + ", " else w) + Print(args[i], None))
  {
    var rest := args[i..];
    var x := Print(args[i], None);
    assert rest[0] == args[i] && args[0..] == args;
    if |rest| > 1 {
      assert rest[1..] == args[i + 1..];
      hide Print;
      if i > 0 {
        assert w + ", " + x + ", " + PrintList(args[i + 1..]) == w + ", " + (x + ", " + PrintList(args[i + 1..]));
      } else {
        assert w + x + ", " + PrintList(args[i + 1..]) == w + (x + ", " + PrintList(args[i + 1..]));
      }
    }
  }
}
