/**
 * Which operators of an expression bind tighter (parseArith in internal/ast/parse.go, the precedences of
 * internal/ast/arith.go): the parser gives every chain of operands the tree whose root is the last of the
 * loosest operators.
 */
module Grammar {
  import opened Base
  import opened Lexer
  import opened Ast
  import opened Parser

  /** The operators of sums. All others are operators of products and bind tighter. */
  predicate IsSum(op: ArithOp) {
    op == Plus || op == Minus || op == Or || op == Xor
  }

  predicate IsProduct(op: ArithOp) {
    op == Mul || op == Div || op == Mod || op == Lshift || op == Rshift || op == And
  }

  // ----- chains of operands -----

  /** An operator with the operand after it. */
  datatype Link = Link(op: ArithOp, operand: Expr)

  /** Reads operators and operands as long as there are any, whatever the operators are. */
  function ReadLinks(ts: seq<Token>): (r: Parsing<seq<Link>>)
    ensures r.Got? ==> |r.rest| <= |ts|
    decreases |ts|
  {
    var op := OpAt(Head(ts));
    if op.None? then Got([], ts)
    else
      match ParsePrimary(OperandTokens(ts))
      case Bad => Bad
      case Got(operand, rest) =>
        match ReadLinks(rest)
        case Bad => Bad
        case Got(links, rest) => Got([Link(op.value, operand)] + links, rest)
  }

  /** The last sum operator. */
  function LastSum(links: seq<Link>): (k: int)
    ensures -1 <= k < |links|
    ensures k >= 0 ==> IsSum(links[k].op)
    ensures forall i :: k < i < |links| ==> !IsSum(links[i].op)
  {
    if links == [] then -1
    else if IsSum(links[|links| - 1].op) then |links| - 1
    else LastSum(links[..|links| - 1])
  }

  /**
   * The tree of a chain: its root is the last sum operator, or if there is none, the last operator. What
   * comes before it is the left operand, what comes after it the right one.
   */
  function TreeOf(first: Expr, links: seq<Link>): Expr
    decreases |links|
  {
    if links == [] then first
    else
      var k := if LastSum(links) >= 0 then LastSum(links) else |links| - 1;
      BinaryExpr(links[k].op, TreeOf(first, links[..k]), TreeOf(links[k].operand, links[k + 1..]))
  }

  // ----- the two levels, read from left to right -----

  /** The leading links with product operators. */
  function ReadProducts(ts: seq<Token>): (r: Parsing<seq<Link>>)
    ensures r.Got? ==> |r.rest| <= |ts| && forall i :: 0 <= i < |r.value| ==> IsProduct(r.value[i].op)
    ensures r.Got? ==> OpAt(Head(r.rest)).None? || IsSum(OpAt(Head(r.rest)).value)
    decreases |ts|
  {
    var op := OpAt(Head(ts));
    if op.None? || IsSum(op.value) then Got([], ts)
    else
      match ParsePrimary(OperandTokens(ts))
      case Bad => Bad
      case Got(operand, rest) =>
        match ReadProducts(rest)
        case Bad => Bad
        case Got(links, rest) => Got([Link(op.value, operand)] + links, rest)
  }

  /** Operators applied from left to right. */
  function Chained(left: Expr, links: seq<Link>): Expr
    decreases |links|
  {
    if links == [] then left else Chained(BinaryExpr(links[0].op, left, links[0].operand), links[1..])
  }

  /** There is a token where an operator can be read, and an operand after it leaves fewer tokens. */
  lemma AtOperator(ts: seq<Token>)
    ensures OpAt(Head(ts)).Some? ==> ts != []
    ensures OpAt(Head(ts)).Some? && ParsePrimary(OperandTokens(ts)).Got? ==> |ParsePrimary(OperandTokens(ts)).rest| < |ts|
  {
    hide ParsePrimary;
  }

  // ----- the parser on products -----

  lemma PrecedenceIs(op: ArithOp)
    ensures IsSum(op) <==> Precedence(op) == 1
    ensures IsProduct(op) <==> Precedence(op) == 2
    ensures IsSum(op) <==> !IsProduct(op)
  {
  }

  /** After an operator of a product, the right operand is not extended. */
  lemma InnerProduct(right: Expr, ts: seq<Token>)
    ensures ParseInner(right, ts, 2) == Got(right, ts)
  {
    InnerFact(right, ts, 2);
    if OpAt(Head(ts)).Some? {
      PrecedenceIs(OpAt(Head(ts)).value);
    }
    hide ParseInner, ParseArith, OpAt, Precedence;
  }

  function Extended(left: Expr, r: Parsing<seq<Link>>): Parsing<Expr> {
    if r.Bad? then Bad else Got(Chained(left, r.value), r.rest)
  }

  lemma {:induction false} ArithProduct(left: Expr, ts: seq<Token>)
    ensures ParseArith(left, ts, 2) == Extended(left, ReadProducts(ts))
    decreases |ts|
  {
    hide ParseArith, ParseInner, ParsePrimary, OpAt, OperandTokens, Precedence, IsSum, IsProduct;
    AtOperator(ts);
    ArithFact(left, ts, 2);
    var op := OpAt(Head(ts));
    if op.Some? {
      PrecedenceIs(op.value);
      if IsProduct(op.value) {
        var operand := ParsePrimary(OperandTokens(ts));
        if operand.Got? {
          InnerProduct(operand.value, operand.rest);
          ArithProduct(BinaryExpr(op.value, left, operand.value), operand.rest);
          ChainedFirst(left, Link(op.value, operand.value), ReadProducts(operand.rest));
        }
      }
    }
  }

  lemma ChainedFirst(left: Expr, link: Link, more: Parsing<seq<Link>>)
    ensures more.Got? ==> Chained(left, [link] + more.value) == Chained(BinaryExpr(link.op, left, link.operand), more.value)
  {
    if more.Got? {
      assert ([link] + more.value)[1..] == more.value;
    }
  }

  /** After an operator of a sum, the right operand is the whole product. */
  lemma InnerSum(right: Expr, ts: seq<Token>)
    ensures ParseInner(right, ts, 1) == Extended(right, ReadProducts(ts))
  {
    InnerFact(right, ts, 1);
    ArithProduct(right, ts);
    var op := OpAt(Head(ts));
    if op.Some? {
      PrecedenceIs(op.value);
    }
    var r := ReadProducts(ts);
    if r.Got? {
      InnerFact(Chained(right, r.value), r.rest, 1);
      if OpAt(Head(r.rest)).Some? {
        PrecedenceIs(OpAt(Head(r.rest)).value);
      }
    }
    hide ParseArith, ParseInner, ParsePrimary, OpAt, OperandTokens, Precedence;
  }

  // ----- the parser on sums -----

  /** How many links at the front have product operators. */
  function Leading(links: seq<Link>): (n: nat)
    ensures n <= |links|
  {
    if links == [] || IsSum(links[0].op) then 0 else 1 + Leading(links[1..])
  }

  /** A sum of products, for links that start with a sum operator. */
  function SumTree(left: Expr, links: seq<Link>): Expr
    decreases |links|
  {
    if links == [] then left
    else
      var n := Leading(links[1..]);
      SumTree(BinaryExpr(links[0].op, left, Chained(links[0].operand, links[1..][..n])), links[1..][n..])
  }

  /** The tree of a chain, read from left to right. */
  function ChainTree(first: Expr, links: seq<Link>): Expr {
    SumTree(Chained(first, links[..Leading(links)]), links[Leading(links)..])
  }

  lemma {:induction false} LeadingAppend(a: seq<Link>, b: seq<Link>)
    requires forall i :: 0 <= i < |a| ==> IsProduct(a[i].op)
    ensures Leading(a + b) == |a| + Leading(b)
    decreases |a|
  {
    if a == [] {
      assert a + b == b;
    } else {
      assert (a + b)[1..] == a[1..] + b;
      LeadingAppend(a[1..], b);
    }
  }

  /** Reading all links is reading the products first. */
  lemma {:induction false} ReadSplit(ts: seq<Token>)
    ensures var p := ReadProducts(ts);
            if p.Bad? then ReadLinks(ts) == Bad
            else
              var more := ReadLinks(p.rest);
              ReadLinks(ts) == if more.Bad? then Bad else Got(p.value + more.value, more.rest)
    decreases |ts|
  {
    hide ParsePrimary, OpAt, OperandTokens, IsSum, IsProduct;
    AtOperator(ts);
    var op := OpAt(Head(ts));
    if op.Some? && !IsSum(op.value) {
      var operand := ParsePrimary(OperandTokens(ts));
      if operand.Got? {
        ReadSplit(operand.rest);
        var p := ReadProducts(operand.rest);
        if p.Got? && ReadLinks(p.rest).Got? {
          LinksAssoc(Link(op.value, operand.value), p.value, ReadLinks(p.rest).value);
        }
      }
    } else {
      NothingBefore(ReadLinks(ts));
    }
  }

  lemma LinksAssoc(link: Link, a: seq<Link>, b: seq<Link>)
    ensures [link] + (a + b) == [link] + a + b
  {
  }

  lemma NothingBefore(all: Parsing<seq<Link>>)
    ensures all.Got? ==> [] + all.value == all.value
  {
  }

  lemma ReadFirst(ts: seq<Token>)
    ensures ReadLinks(ts).Got? && ReadLinks(ts).value != [] ==>
              OpAt(Head(ts)).Some? && ReadLinks(ts).value[0].op == OpAt(Head(ts)).value
  {
    hide ParsePrimary, OpAt, OperandTokens;
  }

  function Treed(left: Expr, r: Parsing<seq<Link>>): Parsing<Expr> {
    if r.Bad? then Bad else Got(ChainTree(left, r.value), r.rest)
  }

  lemma TreeProduct(left: Expr, link: Link, more: seq<Link>)
    requires IsProduct(link.op)
    ensures ChainTree(left, [link] + more) == ChainTree(BinaryExpr(link.op, left, link.operand), more)
  {
    var all := [link] + more;
    var n := Leading(more);
    assert all[1..] == more;
    assert all[..1 + n] == [link] + more[..n] && all[1 + n..] == more[n..];
    ChainedFirst(left, link, Got(more[..n], []));
    hide SumTree, Chained;
  }

  lemma TreeSum(left: Expr, link: Link, p: seq<Link>, more: seq<Link>)
    requires IsSum(link.op) && (forall i :: 0 <= i < |p| ==> IsProduct(p[i].op)) && Leading(more) == 0
    ensures ChainTree(left, [link] + (p + more)) == ChainTree(BinaryExpr(link.op, left, Chained(link.operand, p)), more)
  {
    var all := [link] + (p + more);
    LeadingAppend(p, more);
    assert all[1..] == p + more && all[1..][..|p|] == p && all[1..][|p|..] == more;
    assert all[0..] == all && all[..0] == [] && more[0..] == more && more[..0] == [];
    hide Leading;
    assert Leading(all) == 0 by {
      LeadingSum(all);
    }
  }

  lemma LeadingSum(links: seq<Link>)
    requires links != [] && IsSum(links[0].op)
    ensures Leading(links) == 0
  {
  }

  /** The loop over operators builds the tree of the chain. */
  lemma {:induction false} ArithChain(left: Expr, ts: seq<Token>)
    ensures ParseArith(left, ts, 0) == Treed(left, ReadLinks(ts))
    decreases |ts|, 0
  {
    hide ParseArith, ParseInner, ParsePrimary, OpAt, OperandTokens, Precedence, IsSum, IsProduct, ChainTree, Chained, ReadProducts;
    AtOperator(ts);
    ArithFact(left, ts, 0);
    var op := OpAt(Head(ts));
    if op.None? {
      EmptyTree(left);
    } else {
      PrecedenceIs(op.value);
      var operand := ParsePrimary(OperandTokens(ts));
      if operand.Got? {
        if IsProduct(op.value) {
          ChainProduct(left, op.value, operand);
        } else {
          ChainSum(left, op.value, operand);
        }
      }
    }
  }

  lemma EmptyTree(left: Expr)
    ensures ChainTree(left, []) == left
  {
  }

  /** The rest of a chain after a product operator. */
  lemma {:induction false} ChainProduct(left: Expr, op: ArithOp, operand: Parsing<Expr>)
    requires IsProduct(op) && operand.Got?
    ensures ParseInner(operand.value, operand.rest, 2) == Got(operand.value, operand.rest)
    ensures var more := ReadLinks(operand.rest);
            ParseArith(BinaryExpr(op, left, operand.value), operand.rest, 0)
            == if more.Bad? then Bad else Got(ChainTree(left, [Link(op, operand.value)] + more.value), more.rest)
    decreases |operand.rest|, 1
  {
    hide ParseArith, ParseInner, ReadLinks, IsProduct, ChainTree;
    InnerProduct(operand.value, operand.rest);
    ArithChain(BinaryExpr(op, left, operand.value), operand.rest);
    var more := ReadLinks(operand.rest);
    if more.Got? {
      TreeProduct(left, Link(op, operand.value), more.value);
    }
  }

  /** The rest of a chain after a sum operator. */
  lemma {:induction false} ChainSum(left: Expr, op: ArithOp, operand: Parsing<Expr>)
    requires IsSum(op) && operand.Got?
    ensures var right := ParseInner(operand.value, operand.rest, 1);
            var more := ReadLinks(operand.rest);
            (if right.Bad? then Bad else ParseArith(BinaryExpr(op, left, right.value), right.rest, 0))
            == if more.Bad? then Bad else Got(ChainTree(left, [Link(op, operand.value)] + more.value), more.rest)
    decreases |operand.rest|, 1
  {
    InnerSum(operand.value, operand.rest);
    ReadSplit(operand.rest);
    var p := ReadProducts(operand.rest);
    if p.Got? {
      ArithChain(BinaryExpr(op, left, Chained(operand.value, p.value)), p.rest);
      var more := ReadLinks(p.rest);
      if more.Got? {
        ReadFirst(p.rest);
        assert more.value != [] ==> IsSum(more.value[0].op);
        TreeSum(left, Link(op, operand.value), p.value, more.value);
      }
    }
    hide ParseArith, ParseInner, ReadLinks, ReadProducts, IsSum, ChainTree, Chained;
  }

  // ----- the root of a chain -----

  lemma {:induction false} ChainedLast(left: Expr, links: seq<Link>)
    requires links != []
    ensures var last := links[|links| - 1];
            Chained(left, links) == BinaryExpr(last.op, Chained(left, links[..|links| - 1]), last.operand)
    decreases |links|
  {
    if |links| > 1 {
      var rest := links[1..];
      ChainedLast(BinaryExpr(links[0].op, left, links[0].operand), rest);
      assert links[..|links| - 1][1..] == rest[..|rest| - 1];
    } else {
      assert links[1..] == [] && links[..0] == [];
    }
  }

  /** Without sums, the last operator is the root. */
  lemma {:induction false} ProductsTree(first: Expr, links: seq<Link>)
    requires forall i :: 0 <= i < |links| ==> IsProduct(links[i].op)
    ensures TreeOf(first, links) == Chained(first, links)
    decreases |links|
  {
    if links != [] {
      var k := |links| - 1;
      NoSum(links);
      ChainedLast(first, links);
      ProductsTree(first, links[..k]);
      assert links[k + 1..] == [];
      hide Chained, IsProduct, LastSum;
    }
  }

  lemma NoSum(links: seq<Link>)
    requires forall i :: 0 <= i < |links| ==> IsProduct(links[i].op)
    ensures LastSum(links) == -1
  {
    forall i | 0 <= i < |links|
      ensures !IsSum(links[i].op)
    {
      PrecedenceIs(links[i].op);
    }
  }

  lemma LeadingBefore(a: seq<Link>, link: Link, p: seq<Link>)
    requires IsSum(link.op)
    ensures Leading(a + ([link] + p)) == Leading(a)
    decreases |a|
  {
    var all := a + ([link] + p);
    if a == [] {
      assert all == [link] + p;
    } else {
      assert all[1..] == a[1..] + ([link] + p) && all[0] == a[0];
      LeadingBefore(a[1..], link, p);
    }
  }

  /** The last sum operator is the root of a sum. */
  lemma {:induction false} SumLast(left: Expr, b: seq<Link>, link: Link, p: seq<Link>)
    requires IsSum(link.op) && forall i :: 0 <= i < |p| ==> IsProduct(p[i].op)
    ensures SumTree(left, b + ([link] + p)) == BinaryExpr(link.op, SumTree(left, b), Chained(link.operand, p))
    decreases |b|
  {
    var all := b + ([link] + p);
    if b == [] {
      assert all == [link] + p && all[1..] == p;
      LeadingAppend(p, []);
      assert p + [] == p && p[..|p|] == p && p[|p|..] == [];
    } else {
      var rest := b[1..];
      LeadingBefore(rest, link, p);
      var n := Leading(rest);
      assert all[1..] == rest + ([link] + p);
      assert all[1..][..n] == rest[..n] && all[1..][n..] == rest[n..] + ([link] + p);
      SumLast(BinaryExpr(b[0].op, left, Chained(b[0].operand, rest[..n])), rest[n..], link, p);
      hide Chained, Leading, IsSum, IsProduct;
    }
  }

  lemma TreeLast(first: Expr, a: seq<Link>, link: Link, p: seq<Link>)
    requires IsSum(link.op) && forall i :: 0 <= i < |p| ==> IsProduct(p[i].op)
    ensures ChainTree(first, a + ([link] + p)) == BinaryExpr(link.op, ChainTree(first, a), Chained(link.operand, p))
  {
    LeadingBefore(a, link, p);
    var n, all := Leading(a), a + ([link] + p);
    assert all[..n] == a[..n] && all[n..] == a[n..] + ([link] + p);
    SumLast(Chained(first, a[..n]), a[n..], link, p);
    hide SumTree, Chained, Leading, IsSum, IsProduct;
  }

  /** A chain without sums. */
  lemma ProductChain(first: Expr, links: seq<Link>)
    requires LastSum(links) < 0
    ensures ChainTree(first, links) == TreeOf(first, links)
  {
    forall i | 0 <= i < |links|
      ensures IsProduct(links[i].op)
    {
      PrecedenceIs(links[i].op);
    }
    ProductsTree(first, links);
    LeadingAppend(links, []);
    assert links + [] == links && links[..|links|] == links && links[|links|..] == [];
    hide TreeOf, Chained, IsSum, IsProduct;
  }

  /** A chain with a sum is split at the last one. */
  lemma SumChain(first: Expr, links: seq<Link>)
    requires LastSum(links) >= 0
    ensures var k := LastSum(links);
            ChainTree(first, links)
            == BinaryExpr(links[k].op, ChainTree(first, links[..k]), TreeOf(links[k].operand, links[k + 1..]))
  {
    var k := LastSum(links);
    hide *;
    LastSumParts(links);
    TreeLast(first, links[..k], links[k], links[k + 1..]);
    ProductsTree(links[k].operand, links[k + 1..]);
  }

  lemma LastSumParts(links: seq<Link>)
    requires LastSum(links) >= 0
    ensures var (k, p) := (LastSum(links), links[LastSum(links) + 1..]);
            && links == links[..k] + ([links[k]] + p) && IsSum(links[k].op)
            && forall i :: 0 <= i < |p| ==> IsProduct(p[i].op)
  {
    var k := LastSum(links);
    var p := links[k + 1..];
    forall i | 0 <= i < |p|
      ensures IsProduct(p[i].op)
    {
      PrecedenceIs(links[k + 1 + i].op);
    }
    hide LastSum, IsSum, IsProduct;
  }

  lemma TreeSplit(first: Expr, links: seq<Link>)
    requires LastSum(links) >= 0
    ensures var k := LastSum(links);
            TreeOf(first, links) == BinaryExpr(links[k].op, TreeOf(first, links[..k]), TreeOf(links[k].operand, links[k + 1..]))
  {
  }

  /** The loosest and last operator of a chain is its root. */
  lemma {:induction false} ChainIsTree(first: Expr, links: seq<Link>)
    ensures ChainTree(first, links) == TreeOf(first, links)
    decreases |links|
  {
    hide *;
    if LastSum(links) >= 0 {
      SumChain(first, links);
      TreeSplit(first, links);
      ChainIsTree(first, links[..LastSum(links)]);
    } else {
      ProductChain(first, links);
    }
  }

  // ----- the theorem -----

  /** The tree of the chain of operands at the start of some tokens, or none if an operand is missing. */
  function Derived(ts: seq<Token>): Parsing<Expr> {
    match ParsePrimary(ts)
    case Bad => Bad
    case Got(first, rest) =>
      match ReadLinks(rest)
      case Bad => Bad
      case Got(links, rest) => Got(TreeOf(first, links), rest)
  }

  /** The parser reads an expression as the whole chain of operands, and gives it the tree of the grammar. */
  lemma ParsesChain(ts: seq<Token>)
    ensures ParseExpr(ts) == Derived(ts)
  {
    hide ParsePrimary, ParseArith, ReadLinks, TreeOf, ChainTree;
    var first := ParsePrimary(ts);
    if first.Got? {
      ArithChain(first.value, first.rest);
      var links := ReadLinks(first.rest);
      if links.Got? {
        ChainIsTree(first.value, links.value);
      }
    }
  }

  /** Of two operators, the second one binds its operands first exactly if it is tighter. */
  lemma TwoOperators(a: Expr, op1: ArithOp, b: Expr, op2: ArithOp, c: Expr)
    ensures TreeOf(a, [Link(op1, b), Link(op2, c)])
            == if (op1 == Plus || op1 == Minus || op1 == Or || op1 == Xor)
                  && (op2 == Mul || op2 == Div || op2 == Mod || op2 == Lshift || op2 == Rshift || op2 == And)
               then BinaryExpr(op1, a, BinaryExpr(op2, b, c))
               else BinaryExpr(op2, BinaryExpr(op1, a, b), c)
  {
    var l1, l2 := Link(op1, b), Link(op2, c);
    var links := [l1, l2];
    assert links[..1] == [l1] && links[..0] == [] && links[1..] == [l2] && links[2..] == [];
    OneOperator(a, l1);
    OneOperator(b, l2);
    assert LastSum(links) == if IsSum(op2) then 1 else if IsSum(op1) then 0 else -1;
  }

  lemma OneOperator(a: Expr, link: Link)
    ensures TreeOf(a, [link]) == BinaryExpr(link.op, a, link.operand)
    ensures TreeOf(a, []) == a && LastSum([link]) == if IsSum(link.op) then 0 else -1
  {
    assert [link][..0] == [] && [link][1..] == [];
  }

  /** What the sign of each operator means. */
  function MeaningOf(sign: string): Option<ArithOp> {
    if sign == "+" then Some(Plus) else if sign == "-" then Some(Minus) else if sign == "*" then Some(Mul)
    else if sign == "/" then Some(Div) else if sign == "%" then Some(Mod) else if sign == "<<" then Some(Lshift)
    else if sign == ">>" then Some(Rshift) else if sign == "&" then Some(And) else if sign == "|" then Some(Or)
    else if sign == "^" then Some(Xor) else None
  }

  lemma SignsMean(sign: string)
    requires MeaningOf(sign).Some?
    ensures OpAt(Token(ArithSign, sign)) == MeaningOf(sign)
  {
  }

  /** "a op1 b op2 c" groups to the right if and only if op1 is an operator of sums and op2 one of products. */
  lemma ThreeOperands(ts: seq<Token>, a: Parsing<Expr>, b: Parsing<Expr>, c: Parsing<Expr>, op1: ArithOp, op2: ArithOp)
    requires ParsePrimary(ts) == a && a.Got? && OpAt(Head(a.rest)) == Some(op1) && a.rest != []
    requires ParsePrimary(OperandTokens(a.rest)) == b && b.Got? && OpAt(Head(b.rest)) == Some(op2) && b.rest != []
    requires ParsePrimary(OperandTokens(b.rest)) == c && c.Got? && OpAt(Head(c.rest)).None?
    ensures ParseExpr(ts) ==
            Got(if (op1 == Plus || op1 == Minus || op1 == Or || op1 == Xor)
                   && (op2 == Mul || op2 == Div || op2 == Mod || op2 == Lshift || op2 == Rshift || op2 == And)
                then BinaryExpr(op1, a.value, BinaryExpr(op2, b.value, c.value))
                else BinaryExpr(op2, BinaryExpr(op1, a.value, b.value), c.value),
                c.rest)
  {
    ParsesChain(ts);
    TwoOperators(a.value, op1, b.value, op2, c.value);
    hide ParsePrimary, ParseExpr, OpAt, OperandTokens, TreeOf;
    assert ReadLinks(c.rest) == Got([], c.rest);
    assert ReadLinks(b.rest) == Got([Link(op2, c.value)], c.rest) by {
      assert [Link(op2, c.value)] + [] == [Link(op2, c.value)];
    }
    assert [Link(op1, b.value)] + [Link(op2, c.value)] == [Link(op1, b.value), Link(op2, c.value)];
  }
}
