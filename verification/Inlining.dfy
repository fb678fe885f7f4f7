/** Included files written in place: a program has the same code without its include statements (asm/compiler_expand.go). */
module Inlining {
  import opened Base
  import opened InstructionSets
  import opened Ast
  import opened Evaluator
  import opened Expansion
  import opened Assembly
  import opened Listing

  /** The statements, with the statements of loaded files in place of their include statements. */
  function Inlined(stmts: seq<Stmt>): seq<Stmt>
    decreases stmts
  {
    if stmts == [] then []
    else (if stmts[0].IncludeStmt? && stmts[0].loaded then Inlined(stmts[0].body) else [stmts[0]]) + Inlined(stmts[1..])
  }

  function InlinedProgram(p: Program): Program {
    p.(statements := Inlined(p.statements))
  }

  // ----- files that can be written in place -----

  /** A statement that places no label. */
  predicate NoLabel(s: Stmt) {
    !s.LabelStmt? && (s.BytesStmt? ==> s.name.None?)
  }

  /** The loaded files are documents within the document that includes them, and place no labels. */
  ghost predicate Placeable(docs: seq<Document>, files: set<nat>, stmts: seq<Stmt>, doc: nat)
    decreases stmts
  {
    forall k :: 0 <= k < |stmts| && stmts[k].IncludeStmt? && stmts[k].loaded ==>
      && stmts[k].doc in files && Enclosing(docs, stmts[k].doc) == Some(doc)
      && (forall j :: 0 <= j < |stmts[k].body| ==> NoLabel(stmts[k].body[j]))
      && Placeable(docs, files, stmts[k].body, stmts[k].doc)
  }

  /** None of the files is included from a body. */
  ghost predicate AwayFrom(files: set<nat>, stmts: seq<Stmt>)
    decreases stmts
  {
    forall k :: 0 <= k < |stmts| && stmts[k].IncludeStmt? ==> stmts[k].doc !in files && AwayFrom(files, stmts[k].body)
  }

  /** The files define no local names. */
  ghost predicate Bare(docs: seq<Document>, files: set<nat>) {
    forall d :: d in files ==>
      && d < |docs| && Enclosing(docs, d).Some?
      && docs[d].labels == map[] && docs[d].exprMacros == map[] && docs[d].instrMacros == map[]
  }

  /** The document that a chain of files is included from. */
  ghost function Home(docs: seq<Document>, files: set<nat>, d: nat): nat
    decreases d
  {
    if d in files && Enclosing(docs, d).Some? then Home(docs, files, Enclosing(docs, d).value) else d
  }

  /** Builtins find the same foreign code from a file as from the document around it. */
  ghost predicate SameForeign(docs: seq<Document>, files: set<nat>, foreign: Foreign) {
    forall d, name, bytes :: d in files && Enclosing(docs, d).Some? ==>
      foreign.ofBytes(name, d, bytes) == foreign.ofBytes(name, Enclosing(docs, d).value, bytes)
  }

  /** The files of all include statements outside of macros. */
  ghost predicate PlainFiles(i: Input, files: set<nat>) {
    && Bare(i.p.docs, files) && i.p.top !in files && SameForeign(i.p.docs, files, i.foreign)
    && Placeable(i.p.docs, files, i.p.statements, i.p.top)
    && forall m :: 0 <= m < |i.p.instrMacros| ==> AwayFrom(files, i.p.instrMacros[m].body)
  }

  // ----- names -----

  /** Documents that have been added to those of the program. */
  ghost predicate Extends(docs: seq<Document>, more: seq<Document>) {
    |docs| <= |more| && more[..|docs|] == docs
  }

  lemma FileDoc(docs: seq<Document>, files: set<nat>, more: seq<Document>, d: nat)
    requires Bare(docs, files) && Extends(docs, more) && d in files
    ensures d < |more| && more[d] == docs[d] && Enclosing(more, d) == Enclosing(docs, d) && Enclosing(docs, d).Some?
  {
    assert more[..|docs|][d] == docs[d];
  }

  lemma {:induction false} HomeNames(docs: seq<Document>, files: set<nat>, more: seq<Document>, name: string, d: nat)
    requires Bare(docs, files) && Extends(docs, more)
    ensures var h := Home(docs, files, d);
            && LabelIn(more, name, d) == LabelIn(more, name, h)
            && ExprMacroIn(more, name, d) == ExprMacroIn(more, name, h)
            && InstrMacroIn(more, name, d) == InstrMacroIn(more, name, h)
    decreases d
  {
    if d in files && Enclosing(docs, d).Some? {
      FileDoc(docs, files, more, d);
      HomeNames(docs, files, more, name, Enclosing(docs, d).value);
    }
  }

  /** Scopes that differ in files only. */
  ghost predicate Alike(docs: seq<Document>, files: set<nat>, a: Scope, b: Scope)
    decreases a
  {
    && Home(docs, files, a.doc) == Home(docs, files, b.doc)
    && match a.args
       case None => b.args.None?
       case Some(call) =>
         && b.args.Some? && b.args.value.params == call.params && b.args.value.args == call.args
         && Alike(docs, files, call.callsite, b.args.value.callsite)
  }

  lemma {:induction false} AlikeSame(docs: seq<Document>, files: set<nat>, a: Scope)
    ensures Alike(docs, files, a, a)
    decreases a
  {
    if a.args.Some? {
      AlikeSame(docs, files, a.args.value.callsite);
    }
  }

  lemma SameNames(docs: seq<Document>, files: set<nat>, more: seq<Document>, p: Program, name: string, a: nat, b: nat)
    requires Bare(docs, files) && Extends(docs, more) && Home(docs, files, a) == Home(docs, files, b)
    ensures LookupLabel(p, more, name, a) == LookupLabel(p, more, name, b)
    ensures LookupExprMacro(p, more, name, a) == LookupExprMacro(p, more, name, b)
    ensures LookupInstrMacro(p, more, name, a) == LookupInstrMacro(p, more, name, b)
  {
    HomeNames(docs, files, more, name, a);
    HomeNames(docs, files, more, name, b);
    hide LabelIn, ExprMacroIn, InstrMacroIn, Home, Bare, Extends;
  }

  // ----- lists that differ in files only -----

  ghost predicate AlikeItem(docs: seq<Document>, files: set<nat>, a: Item, b: Item) {
    match a
    case Mark(def, doc) => b == a && doc !in files
    case Operation(op, arg, data, claims, scope) =>
      b.Operation? && b == a.(scope := b.scope) && Alike(docs, files, scope, b.scope)
  }

  ghost predicate AlikeItems(docs: seq<Document>, files: set<nat>, a: seq<Item>, b: seq<Item>) {
    |a| == |b| && forall k :: 0 <= k < |a| ==> AlikeItem(docs, files, a[k], b[k])
  }

  ghost predicate AlikeLists(docs: seq<Document>, files: set<nat>, a: Listed, b: Listed) {
    if a.Improper? then b.Improper?
    else b.Listed? && a.next == b.next && Extends(docs, a.next.docs) && AlikeItems(docs, files, a.items, b.items)
  }

  lemma AlikeThen(docs: seq<Document>, files: set<nat>, a: Listed, b: Listed, c: Listed, d: Listed)
    requires AlikeLists(docs, files, a, b) && AlikeLists(docs, files, c, d)
    ensures AlikeLists(docs, files, Then(a, c), Then(b, d))
  {
    hide AlikeItem, Extends;
  }

  ghost predicate Settled(files: set<nat>, s: Stmt, a: Scope, b: Scope) {
    NoLabel(s) || (a.doc == b.doc && a.doc !in files)
  }

  lemma AlikeLabel(docs: seq<Document>, files: set<nat>, def: LabelDef, a: Scope, b: Scope, ctx: Context)
    requires Alike(docs, files, a, b) && a.doc == b.doc && a.doc !in files && Extends(docs, ctx.docs)
    ensures AlikeLists(docs, files, ListLabel(def, a, ctx), ListLabel(def, b, ctx))
  {
    hide Alike, Extends;
  }

  lemma AlikeProper(docs: seq<Document>, files: set<nat>, t: Target, p: Program, ctx: Context,
                    op: string, arg: Option<Expr>, immediates: seq<int>, a: nat, b: nat)
    requires Bare(docs, files) && Extends(docs, ctx.docs) && Home(docs, files, a) == Home(docs, files, b)
    ensures Proper(t, p, ctx, op, arg, immediates, a) == Proper(t, p, ctx, op, arg, immediates, b)
  {
    if arg.Some? && arg.value.LabelRefExpr? {
      SameNames(docs, files, ctx.docs, p, arg.value.ident, a, b);
    }
    hide LookupLabel, IsPush, IsJump, Bare, Extends, Home;
  }

  lemma AlikeOpcode(docs: seq<Document>, files: set<nat>, t: Target, op: string, arg: Option<Expr>, immediates: seq<int>, a: Scope, b: Scope)
    requires Alike(docs, files, a, b)
    ensures AlikeItems(docs, files, OpcodeItems(t, op, arg, immediates, a), OpcodeItems(t, op, arg, immediates, b))
  {
    hide Alike, IsPush, IsJump;
  }

  /** A statement that includes no file has alike lists in alike scopes. */
  lemma {:induction false} AlikeStmt(docs: seq<Document>, files: set<nat>, t: Target, p: Program, s: Stmt, a: Scope, b: Scope, open: set<nat>, ctx: Context)
    requires Bare(docs, files) && Extends(docs, ctx.docs) && Alike(docs, files, a, b) && Settled(files, s, a, b)
    requires forall m :: 0 <= m < |p.instrMacros| ==> AwayFrom(files, p.instrMacros[m].body)
    requires s.IncludeStmt? && s.loaded ==> s.doc !in files && AwayFrom(files, s.body)
    ensures AlikeLists(docs, files, ListStmt(t, p, s, a, open, ctx), ListStmt(t, p, s, b, open, ctx))
    decreases MacrosLeft(p, open), s, 1
  {
    hide Bare, Home, MacrosLeft, ListLabel, Proper, OpcodeItems, Distinct, LookupInstrMacro;
    match s
    case OpcodeStmt(op, arg, immediates) =>
      AlikeProper(docs, files, t, p, ctx, op, arg, immediates, a.doc, b.doc);
      AlikeOpcode(docs, files, t, op, arg, immediates, a, b);
      hide Alike, Extends, AlikeItem;
    case LabelStmt(def) => AlikeLabel(docs, files, def, a, b, ctx);
    case PCLabelStmt(pc) =>
      hide Alike, Extends;
    case MacroCallStmt(ident, args) =>
      SameNames(docs, files, ctx.docs, p, ident, a.doc, b.doc);
      var m := LookupInstrMacro(p, ctx.docs, ident, a.doc);
      if m.Some? && m.value < |p.instrMacros| && m.value !in open && |args| == |p.instrMacros[m.value].params| {
        var def, copy := p.instrMacros[m.value], |ctx.docs|;
        EnterLeaves(p, open, m.value);
        CopyNew(docs, files, ctx.docs);
        var next := ctx.(docs := ctx.docs + [Document(Some(def.doc), map[], map[], map[])]);
        var inA, inB := Scope(copy, Some(CallArgs(a, def.params, args))), Scope(copy, Some(CallArgs(b, def.params, args)));
        assert Extends(docs, next.docs);
        hide ListBody, AlikeLists, AwayFrom, Extends;
        AlikeBody(docs, files, t, p, def.body, inA, inB, open + {m.value}, next);
      } else {
        hide Alike, Extends;
      }
    case IncludeStmt(incdoc, loaded, body) =>
      if loaded {
        hide ListBody, AlikeLists, AwayFrom, Extends;
        AlikeBody(docs, files, t, p, body, Scope(incdoc, a.args), Scope(incdoc, b.args), open, ctx);
      } else {
        hide Alike, Extends;
      }
    case BytesStmt(value, name) =>
      if name.Some? {
        AlikeLabel(docs, files, name.value, a, b, ctx);
      }
      hide Alike, Extends;
    case MacroDefStmt(params) =>
      hide Alike, Extends;
    case OtherStmt =>
      hide Alike, Extends;
  }

  lemma CopyNew(docs: seq<Document>, files: set<nat>, more: seq<Document>)
    requires Bare(docs, files) && Extends(docs, more)
    ensures |more| !in files && Home(docs, files, |more|) == |more|
  {
  }

  lemma {:induction false} AlikeBody(docs: seq<Document>, files: set<nat>, t: Target, p: Program, stmts: seq<Stmt>, a: Scope, b: Scope, open: set<nat>, ctx: Context)
    requires Bare(docs, files) && Extends(docs, ctx.docs) && Alike(docs, files, a, b)
    requires a.doc == b.doc && a.doc !in files && AwayFrom(files, stmts)
    requires forall m :: 0 <= m < |p.instrMacros| ==> AwayFrom(files, p.instrMacros[m].body)
    ensures AlikeLists(docs, files, ListBody(t, p, stmts, a, open, ctx), ListBody(t, p, stmts, b, open, ctx))
    decreases MacrosLeft(p, open), stmts, 0
  {
    if stmts == [] {
    } else {
      assert AwayFrom(files, stmts[1..]);
      assert Settled(files, stmts[0], a, b);
      hide Alike, Bare, MacrosLeft, ListStmt, AwayFrom, Then, AlikeItems, Extends;
      AlikeStmt(docs, files, t, p, stmts[0], a, b, open, ctx);
      var first, second := ListStmt(t, p, stmts[0], a, open, ctx), ListStmt(t, p, stmts[0], b, open, ctx);
      if first.Listed? {
        AlikeBody(docs, files, t, p, stmts[1..], a, b, open, first.next);
        AlikeThen(docs, files, first, second, ListBody(t, p, stmts[1..], a, open, first.next), ListBody(t, p, stmts[1..], b, open, first.next));
      }
    }
  }

  // ----- files in place -----

  lemma {:induction false} ListConcat(t: Target, p: Program, x: seq<Stmt>, y: seq<Stmt>, scope: Scope, open: set<nat>, ctx: Context)
    ensures var first := ListBody(t, p, x, scope, open, ctx);
            ListBody(t, p, x + y, scope, open, ctx)
              == if first.Improper? then Improper else Then(first, ListBody(t, p, y, scope, open, first.next))
    decreases x
  {
    if x == [] {
      assert x + y == y;
      var l := ListBody(t, p, y, scope, open, ctx);
      if l.Listed? {
        assert [] + l.items == l.items;
      }
    } else {
      assert (x + y)[1..] == x[1..] + y && (x + y)[0] == x[0];
      var first := ListStmt(t, p, x[0], scope, open, ctx);
      hide ListStmt;
      if first.Listed? {
        ListConcat(t, p, x[1..], y, scope, open, first.next);
        var mid := ListBody(t, p, x[1..], scope, open, first.next);
        if mid.Listed? {
          ThenThen(first, mid, ListBody(t, p, y, scope, open, mid.next));
        }
      }
    }
  }

  lemma ThenThen(a: Listed, b: Listed, c: Listed)
    ensures Then(Then(a, b), c) == Then(a, Then(b, c))
  {
    if a.Listed? && b.Listed? && c.Listed? {
      assert a.items + b.items + c.items == a.items + (b.items + c.items);
    }
  }

  lemma ListOne(t: Target, p: Program, s: Stmt, scope: Scope, open: set<nat>, ctx: Context)
    ensures ListBody(t, p, [s], scope, open, ctx) == ListStmt(t, p, s, scope, open, ctx)
  {
    var l := ListStmt(t, p, s, scope, open, ctx);
    assert [s][1..] == [];
    hide ListStmt;
    if l.Listed? {
      assert l.items + [] == l.items;
    }
  }

  /** What a statement is replaced with. */
  function InlinedStmt(s: Stmt): seq<Stmt> {
    if s.IncludeStmt? && s.loaded then Inlined(s.body) else [s]
  }

  /** Where statements stand: in the top document, or in a file, which places no label. */
  ghost predicate Standing(docs: seq<Document>, files: set<nat>, stmts: seq<Stmt>, a: Scope, b: Scope) {
    && Placeable(docs, files, stmts, a.doc)
    && forall k :: 0 <= k < |stmts| ==> Settled(files, stmts[k], a, b)
  }

  lemma {:induction false} InlinedAlike(docs: seq<Document>, files: set<nat>, t: Target, p: Program, stmts: seq<Stmt>, a: Scope, b: Scope, open: set<nat>, ctx: Context)
    requires Bare(docs, files) && Extends(docs, ctx.docs) && Alike(docs, files, a, b)
    requires Standing(docs, files, stmts, a, b)
    requires forall m :: 0 <= m < |p.instrMacros| ==> AwayFrom(files, p.instrMacros[m].body)
    ensures AlikeLists(docs, files, ListBody(t, p, stmts, a, open, ctx), ListBody(t, p, Inlined(stmts), b, open, ctx))
    decreases stmts
  {
    if stmts == [] {
      NothingAlike(docs, files, t, p, a, b, open, ctx);
    } else {
      var s, rest := stmts[0], stmts[1..];
      StandingParts(docs, files, stmts, a, b);
      ListConcat(t, p, InlinedStmt(s), Inlined(rest), b, open, ctx);
      var first, second := ListStmt(t, p, s, a, open, ctx), ListBody(t, p, InlinedStmt(s), b, open, ctx);
      hide ListStmt, Inlined, InlinedStmt, Standing, AwayFrom, Bare, Alike, Extends, AlikeItems, Then;
      InlinedFirst(docs, files, t, p, s, a, b, open, ctx);
      if first.Listed? {
        InlinedAlike(docs, files, t, p, rest, a, b, open, first.next);
        AlikeThen(docs, files, first, second, ListBody(t, p, rest, a, open, first.next), ListBody(t, p, Inlined(rest), b, open, first.next));
      }
    }
  }

  lemma NothingAlike(docs: seq<Document>, files: set<nat>, t: Target, p: Program, a: Scope, b: Scope, open: set<nat>, ctx: Context)
    requires Extends(docs, ctx.docs)
    ensures AlikeLists(docs, files, ListBody(t, p, [], a, open, ctx), ListBody(t, p, Inlined([]), b, open, ctx))
  {
    hide Extends, ListStmt;
  }

  lemma StandingParts(docs: seq<Document>, files: set<nat>, stmts: seq<Stmt>, a: Scope, b: Scope)
    requires stmts != [] && Standing(docs, files, stmts, a, b)
    ensures Inlined(stmts) == InlinedStmt(stmts[0]) + Inlined(stmts[1..])
    ensures Standing(docs, files, [stmts[0]], a, b) && Standing(docs, files, stmts[1..], a, b)
  {
    hide Settled;
  }

  lemma {:induction false} InlinedFirst(docs: seq<Document>, files: set<nat>, t: Target, p: Program, s: Stmt, a: Scope, b: Scope, open: set<nat>, ctx: Context)
    requires Bare(docs, files) && Extends(docs, ctx.docs) && Alike(docs, files, a, b)
    requires Standing(docs, files, [s], a, b)
    requires forall m :: 0 <= m < |p.instrMacros| ==> AwayFrom(files, p.instrMacros[m].body)
    ensures AlikeLists(docs, files, ListStmt(t, p, s, a, open, ctx), ListBody(t, p, InlinedStmt(s), b, open, ctx))
    decreases s
  {
    if s.IncludeStmt? && s.loaded {
      FileStanding(docs, files, s, a, b);
      hide Bare, Alike, Standing, AwayFrom, Extends, AlikeLists;
      InlinedAlike(docs, files, t, p, s.body, Scope(s.doc, a.args), b, open, ctx);
    } else {
      assert Settled(files, [s][0], a, b);
      hide ListStmt, Standing, Inlined, AwayFrom, AlikeLists;
      ListOne(t, p, s, b, open, ctx);
      AlikeStmt(docs, files, t, p, s, a, b, open, ctx);
    }
  }

  lemma FileStanding(docs: seq<Document>, files: set<nat>, s: Stmt, a: Scope, b: Scope)
    requires s.IncludeStmt? && s.loaded && Alike(docs, files, a, b) && Standing(docs, files, [s], a, b)
    ensures Standing(docs, files, s.body, Scope(s.doc, a.args), b) && Alike(docs, files, Scope(s.doc, a.args), b)
  {
    assert [s][0] == s;
  }
}
