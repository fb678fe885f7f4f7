/** A program with its included files written in place has the same code (asm/compiler_expand.go, asm/evaluator.go). */
module InlinedCode {
  import opened Base
  import opened Lzint
  import opened InstructionSets
  import opened Ast
  import opened Arithmetic
  import opened Evaluator
  import opened CompilerProg
  import opened Expansion
  import opened Relaxation
  import opened Assembly
  import opened CodeOutput
  import opened Listing
  import opened Inlining

  // ----- statements are not part of what is looked up -----

  lemma {:induction false} SameStmtList(t: Target, p: Program, q: Program, s: Stmt, scope: Scope, open: set<nat>, ctx: Context)
    requires q == p.(statements := q.statements)
    ensures ListStmt(t, q, s, scope, open, ctx) == ListStmt(t, p, s, scope, open, ctx)
    decreases MacrosLeft(p, open), s, 1
  {
    hide ListLabel, Proper, OpcodeItems, Distinct, MacrosLeft;
    match s
    case OpcodeStmt(op, arg, immediates) => SameProper(t, p, q, ctx, op, arg, immediates, scope.doc);
    case MacroCallStmt(ident, args) =>
      var m := LookupInstrMacro(p, ctx.docs, ident, scope.doc);
      assert LookupInstrMacro(q, ctx.docs, ident, scope.doc) == m;
      hide LookupInstrMacro;
      if m.Some? && m.value < |p.instrMacros| && m.value !in open && |args| == |p.instrMacros[m.value].params| {
        var def := p.instrMacros[m.value];
        EnterLeaves(p, open, m.value);
        SameBodyList(t, p, q, def.body, Scope(|ctx.docs|, Some(CallArgs(scope, def.params, args))), open + {m.value},
                     ctx.(docs := ctx.docs + [Document(Some(def.doc), map[], map[], map[])]));
      }
    case IncludeStmt(incdoc, loaded, body) =>
      if loaded {
        SameBodyList(t, p, q, body, Scope(incdoc, scope.args), open, ctx);
      }
    case LabelStmt(_) =>
    case PCLabelStmt(_) =>
    case BytesStmt(_, _) =>
    case MacroDefStmt(_) =>
    case OtherStmt =>
  }

  lemma SameProper(t: Target, p: Program, q: Program, ctx: Context, op: string, arg: Option<Expr>, immediates: seq<int>, doc: nat)
    requires q == p.(statements := q.statements)
    ensures Proper(t, q, ctx, op, arg, immediates, doc) == Proper(t, p, ctx, op, arg, immediates, doc)
  {
    hide IsPush, IsJump;
  }

  lemma {:induction false} SameBodyList(t: Target, p: Program, q: Program, stmts: seq<Stmt>, scope: Scope, open: set<nat>, ctx: Context)
    requires q == p.(statements := q.statements)
    ensures ListBody(t, q, stmts, scope, open, ctx) == ListBody(t, p, stmts, scope, open, ctx)
    decreases MacrosLeft(p, open), stmts, 0
  {
    hide ListStmt, MacrosLeft;
    if stmts != [] {
      SameStmtList(t, p, q, stmts[0], scope, open, ctx);
      var first := ListStmt(t, p, stmts[0], scope, open, ctx);
      if first.Listed? {
        SameBodyList(t, p, q, stmts[1..], scope, open, first.next);
      }
    }
  }

  // ----- evaluation in alike scopes -----

  /** Worlds of a program and the same program with other statements. */
  ghost predicate SameWorld(docs: seq<Document>, files: set<nat>, v: World, w: World) {
    && w == v.(prog := w.prog) && w.prog == v.prog.(statements := w.prog.statements)
    && Bare(docs, files) && Extends(docs, v.docs) && SameForeign(docs, files, v.foreign)
  }

  /** No label is in one of the files. */
  ghost predicate NoneInFiles(files: set<nat>, table: map<LabelKey, nat>) {
    forall key :: key in table && key.doc.Some? ==> key.doc.value !in files
  }

  ghost predicate LabelsApart(files: set<nat>, labels: Labels) {
    labels.Placed? ==> NoneInFiles(files, labels.instr)
  }

  lemma {:induction false} HomeInstance(docs: seq<Document>, files: set<nat>, w: World, instr: map<LabelKey, nat>, def: LabelDef, d: nat)
    requires Bare(docs, files) && Extends(docs, w.docs) && NoneInFiles(files, instr)
    ensures LocalInstance(w, instr, def, d) == LocalInstance(w, instr, def, Home(docs, files, d))
    decreases d
  {
    if d in files && Enclosing(docs, d).Some? {
      FileDoc(docs, files, w.docs, d);
      HomeInstance(docs, files, w, instr, def, Enclosing(docs, d).value);
    }
  }

  lemma {:induction false} SameInstance(v: World, w: World, instr: map<LabelKey, nat>, def: LabelDef, d: nat)
    requires w == v.(prog := w.prog)
    ensures LocalInstance(w, instr, def, d) == LocalInstance(v, instr, def, d)
    decreases d
  {
    if LabelKey(Some(d), def) !in instr && Enclosing(v.docs, d).Some? {
      SameInstance(v, w, instr, def, Enclosing(v.docs, d).value);
    }
  }

  lemma AlikeEvalLabel(docs: seq<Document>, files: set<nat>, v: World, w: World, labels: Labels, ident: string, dotted: bool, a: nat, b: nat)
    requires SameWorld(docs, files, v, w) && LabelsApart(files, labels) && Home(docs, files, a) == Home(docs, files, b)
    ensures EvalLabel(w, labels, ident, dotted, b) == EvalLabel(v, labels, ident, dotted, a)
  {
    SameNames(docs, files, v.docs, v.prog, ident, a, b);
    assert FindLabel(v, ident, a) == FindLabel(w, ident, b);
    var def := FindLabel(v, ident, a);
    if labels.Placed? && def.Some? {
      HomeInstance(docs, files, v, labels.instr, def.value, a);
      HomeInstance(docs, files, v, labels.instr, def.value, b);
      SameInstance(v, w, labels.instr, def.value, b);
      hide Bare, Extends, Home, LocalInstance, FindLabel, NoneInFiles;
    }
  }

  lemma {:induction false} HomeForeign(docs: seq<Document>, files: set<nat>, foreign: Foreign, name: string, d: nat, bytes: seq<Byte>)
    requires Bare(docs, files) && SameForeign(docs, files, foreign)
    ensures foreign.ofBytes(name, d, bytes) == foreign.ofBytes(name, Home(docs, files, d), bytes)
    decreases d
  {
    if d in files && Enclosing(docs, d).Some? {
      HomeForeign(docs, files, foreign, name, Enclosing(docs, d).value, bytes);
    }
  }

  lemma AlikeBuiltin(docs: seq<Document>, files: set<nat>, v: World, w: World, name: string, a: nat, b: nat, x: Value)
    requires SameWorld(docs, files, v, w) && Home(docs, files, a) == Home(docs, files, b) && IsBuiltin(name) && !IsForeignText(name)
    ensures ApplyBuiltin(w, name, b, x) == ApplyBuiltin(v, name, a, x)
  {
    hide Home, Bare, Extends, SameForeign, BitLen, ByteLen, FromInt, Bytes;
    if Bytes(x).Ok? {
      HomeForeign(docs, files, v.foreign, name, a, Bytes(x).value);
      HomeForeign(docs, files, v.foreign, name, b, Bytes(x).value);
    }
  }

  /** An expression has the same value in alike scopes. */
  lemma {:induction false} AlikeEval(docs: seq<Document>, files: set<nat>, v: World, w: World, labels: Labels, stack: set<nat>,
                                     a: Scope, b: Scope, variables: map<string, Value>, e: Expr)
    requires SameWorld(docs, files, v, w) && LabelsApart(files, labels) && Alike(docs, files, a, b)
    ensures Eval(w, labels, stack, Env(b, variables), e) == Eval(v, labels, stack, Env(a, variables), e)
    decreases Remaining(v, stack), a, e
  {
    hide Remaining, Apply, EvalLabel, FindMacro, Bind, FromInt, SameWorld, LabelsApart, Home;
    match e
    case LiteralExpr(_, _, _) =>
    case LabelRefExpr(ident, dotted) =>
      AlikeEvalLabel(docs, files, v, w, labels, ident, dotted, a.doc, b.doc);
    case GroupExpr(inner) => AlikeEval(docs, files, v, w, labels, stack, a, b, variables, inner);
    case UnaryExpr(_, arg) => AlikeEval(docs, files, v, w, labels, stack, a, b, variables, arg);
    case BinaryExpr(_, left, right) =>
      AlikeEval(docs, files, v, w, labels, stack, a, b, variables, left);
      AlikeEval(docs, files, v, w, labels, stack, a, b, variables, right);
    case VariableExpr(ident) =>
      if ident !in variables && a.args.Some? {
        var call := a.args.value;
        var i := ParamIndex(call.params, ident);
        if i.Some? && i.value < |call.args| {
          AlikeEval(docs, files, v, w, labels, stack, call.callsite, b.args.value.callsite, map[], call.args[i.value]);
        }
      }
    case MacroCallExpr(_, _, _) => AlikeCall(docs, files, v, w, labels, stack, a, b, variables, e);
  }

  lemma SameMacro(docs: seq<Document>, files: set<nat>, v: World, w: World, name: string, a: nat, b: nat)
    requires SameWorld(docs, files, v, w) && Home(docs, files, a) == Home(docs, files, b)
    ensures FindMacro(w, name, b) == FindMacro(v, name, a) && w.prog.exprMacros == v.prog.exprMacros
    ensures forall stack :: Remaining(w, stack) == Remaining(v, stack)
    ensures forall arg :: ApplyForeignText(w, name, arg) == ApplyForeignText(v, name, arg)
  {
    SameNames(docs, files, v.docs, v.prog, name, a, b);
    hide Home, Bare, Extends, SameForeign, ExprMacroIn, AllMacros;
  }

  lemma {:induction false} AlikeCall(docs: seq<Document>, files: set<nat>, v: World, w: World, labels: Labels, stack: set<nat>,
                                     a: Scope, b: Scope, variables: map<string, Value>, e: Expr)
    requires SameWorld(docs, files, v, w) && LabelsApart(files, labels) && Alike(docs, files, a, b) && e.MacroCallExpr?
    ensures Eval(w, labels, stack, Env(b, variables), e) == Eval(v, labels, stack, Env(a, variables), e)
    decreases Remaining(v, stack), a, e, 0
  {
    hide Remaining, Apply, ApplyBuiltin, ApplyForeignText, FindMacro, Bind, FromInt, IsBuiltin, IsForeignText, EvalLabel, SameWorld, LabelsApart, Home;
    var args, ident := e.args, e.ident;
    SameMacro(docs, files, v, w, ident, a.doc, b.doc);
    var m := if e.builtin then None else FindMacro(v, ident, a.doc);
    if m.None? {
      if |args| == 1 && IsBuiltin(ident) && !IsForeignText(ident) {
        AlikeEval(docs, files, v, w, labels, stack, a, b, variables, args[0]);
        var r := Eval(v, labels, stack, Env(a, variables), args[0]);
        if r.Known? {
          AlikeBuiltin(docs, files, v, w, ident, a.doc, b.doc, r.value);
        }
      }
    } else if m.value < |v.prog.exprMacros| {
      var def := v.prog.exprMacros[m.value];
      if |args| == |def.params| {
        AlikeArgs(docs, files, v, w, labels, stack, a, b, variables, args);
        var values := EvalArgs(v, labels, stack, Env(a, variables), args);
        if values.KnownArgs? && m.value !in stack {
          EnterShrinks(v, stack, m.value);
          var inside := Scope(def.doc, None);
          AlikeSame(docs, files, inside);
          AlikeEval(docs, files, v, w, labels, stack + {m.value}, inside, inside, Bind(def.params, values.values, |args|), def.body);
        }
      }
    }
  }

  lemma {:induction false} AlikeArgs(docs: seq<Document>, files: set<nat>, v: World, w: World, labels: Labels, stack: set<nat>,
                                     a: Scope, b: Scope, variables: map<string, Value>, args: seq<Expr>)
    requires SameWorld(docs, files, v, w) && LabelsApart(files, labels) && Alike(docs, files, a, b)
    ensures EvalArgs(w, labels, stack, Env(b, variables), args) == EvalArgs(v, labels, stack, Env(a, variables), args)
    decreases Remaining(v, stack), a, args
  {
    hide Eval, SameWorld, LabelsApart, Alike, Remaining;
    if args != [] {
      AlikeEval(docs, files, v, w, labels, stack, a, b, variables, args[0]);
      AlikeArgs(docs, files, v, w, labels, stack, a, b, variables, args[1..]);
    }
  }

  // ----- the stages of compilation -----

  /** Units that differ in files only. */
  ghost predicate AlikeUnits(docs: seq<Document>, files: set<nat>, u: Unit, v: Unit) {
    && SameWorld(docs, files, u.w, v.w) && v.t == u.t && v.table == u.table && NoneInFiles(files, u.table)
    && |u.scopes| == |v.scopes| && forall k :: 0 <= k < |u.scopes| ==> Alike(docs, files, u.scopes[k], v.scopes[k])
  }

  lemma AlikeArg(docs: seq<Document>, files: set<nat>, u: Unit, v: Unit, labels: Labels, k: nat, arg: Expr)
    requires AlikeUnits(docs, files, u, v) && k < |u.scopes| && LabelsApart(files, labels)
    ensures k < |v.scopes| && EvalArg(v, labels, v.scopes[k], arg) == EvalArg(u, labels, u.scopes[k], arg)
  {
    hide SameWorld, LabelsApart, Alike, Eval, NoneInFiles;
    AlikeEval(docs, files, u.w, v.w, labels, {}, u.scopes[k], v.scopes[k], map[], arg);
  }

  lemma AlikePre(docs: seq<Document>, files: set<nat>, u: Unit, v: Unit, k: nat, inst: Instr)
    requires AlikeUnits(docs, files, u, v) && k < |u.scopes|
    ensures k < |v.scopes| && PreEvaluated(v, v.scopes[k], inst) == PreEvaluated(u, u.scopes[k], inst)
  {
    if inst.arg.Some? {
      AlikeArg(docs, files, u, v, NoLabels, k, inst.arg.value);
    }
    assert v.t == u.t && |v.scopes| == |u.scopes|;
    hide AlikeUnits, EvalArg, IsPush, Bytes, AssignPushArg, ExplicitSize;
  }

  lemma AlikeLength(docs: seq<Document>, files: set<nat>, u: Unit, v: Unit)
    requires AlikeUnits(docs, files, u, v)
    ensures |v.scopes| == |u.scopes|
  {
  }

  lemma {:induction false} AlikePreErrors(docs: seq<Document>, files: set<nat>, u: Unit, v: Unit, instrs: seq<Instr>, n: nat)
    requires AlikeUnits(docs, files, u, v) && n <= |instrs| <= |u.scopes|
    ensures |instrs| <= |v.scopes| && PreErrors(v, instrs, n) == PreErrors(u, instrs, n)
  {
    hide *;
    AlikeLength(docs, files, u, v);
    OneMoreError(u, instrs, n);
    OneMoreError(v, instrs, n);
    if n > 0 {
      AlikePreErrors(docs, files, u, v, instrs, n - 1);
      AlikePre(docs, files, u, v, n - 1, instrs[n - 1]);
    }
  }

  lemma AlikePreInstrs(docs: seq<Document>, files: set<nat>, u: Unit, v: Unit, instrs: seq<Instr>)
    requires AlikeUnits(docs, files, u, v) && |instrs| <= |u.scopes|
    ensures |instrs| <= |v.scopes| && PreInstrs(v, instrs) == PreInstrs(u, instrs)
  {
    assert |v.scopes| == |u.scopes|;
    hide PreEvaluated, AlikeUnits;
    forall k | 0 <= k < |instrs|
      ensures PreEvaluated(v, v.scopes[k], instrs[k]) == PreEvaluated(u, u.scopes[k], instrs[k])
    {
      AlikePre(docs, files, u, v, k, instrs[k]);
    }
  }

  lemma AlikeEvaluated(docs: seq<Document>, files: set<nat>, u: Unit, v: Unit, labels: Labels, k: nat, inst: Instr)
    requires AlikeUnits(docs, files, u, v) && k < |u.scopes| && LabelsApart(files, labels)
    ensures k < |v.scopes| && Evaluated(v, labels, v.scopes[k], inst) == Evaluated(u, labels, u.scopes[k], inst)
  {
    if inst.arg.Some? {
      AlikeArg(docs, files, u, v, labels, k, inst.arg.value);
    }
    assert v.t == u.t && |v.scopes| == |u.scopes|;
    hide AlikeUnits, EvalArg, IsPush, AssignPushArg, LabelsApart;
  }

  lemma {:induction false} AlikeEvaluateFrom(docs: seq<Document>, files: set<nat>, u: Unit, v: Unit, labels: Labels, instrs: seq<Instr>, k: nat)
    requires AlikeUnits(docs, files, u, v) && k <= |instrs| <= |u.scopes| && LabelsApart(files, labels)
    ensures |instrs| <= |v.scopes| && EvaluateFrom(v, labels, instrs, k) == EvaluateFrom(u, labels, instrs, k)
    decreases |instrs| - k
  {
    assert |v.scopes| == |u.scopes|;
    hide Evaluated, AlikeUnits, LabelsApart;
    if k < |instrs| {
      AlikeEvaluated(docs, files, u, v, labels, k, instrs[k]);
      AlikeEvaluateFrom(docs, files, u, v, labels, instrs[k := Evaluated(u, labels, u.scopes[k], instrs[k]).0], k + 1);
    }
  }

  lemma AlikeRound(docs: seq<Document>, files: set<nat>, u: Unit, v: Unit, instrs: seq<Instr>)
    requires AlikeUnits(docs, files, u, v) && |instrs| <= |u.scopes|
    ensures |instrs| <= |v.scopes| && Round(v, instrs) == Round(u, instrs)
  {
    assert v.table == u.table && LabelsApart(files, Placed(u.table, PCs(instrs)));
    AlikeEvaluateFrom(docs, files, u, v, Placed(u.table, PCs(instrs)), WithPCs(instrs), 0);
    hide EvaluateFrom, AlikeUnits;
  }

  lemma {:induction false} AlikeRelaxed(docs: seq<Document>, files: set<nat>, u: Unit, v: Unit, instrs: seq<Instr>)
    requires AlikeUnits(docs, files, u, v) && |instrs| <= |u.scopes|
    ensures |instrs| <= |v.scopes| && Relaxed(v, instrs) == Relaxed(u, instrs)
    decreases Slack(instrs)
  {
    AlikeRound(docs, files, u, v, instrs);
    RoundFacts(u, instrs);
    hide Round, AlikeUnits, Slack;
    var (r, o) := Round(u, instrs);
    if o.Stopped? && o.error == VariablePushOverflow {
      AlikeRelaxed(docs, files, u, v, Bumped(r, o.k));
    }
  }

  // ----- whole programs -----

  lemma {:induction false} AlikeOperations(docs: seq<Document>, files: set<nat>, a: seq<Item>, b: seq<Item>)
    requires AlikeItems(docs, files, a, b)
    ensures AlikeItems(docs, files, Operations(a), Operations(b)) && Marks(a) == Marks(b)
    ensures forall l :: 0 <= l < |Marks(a)| ==> Marks(a)[l].1 !in files
    decreases |a|
  {
    if a != [] {
      var n := |a| - 1;
      assert AlikeItem(docs, files, a[n], b[n]);
      hide Alike;
      AlikeOperations(docs, files, a[..n], b[..n]);
    }
  }

  /** The lists of the two programs differ in files only. */
  lemma ProgramAlike(i: Input, files: set<nat>)
    requires PlainFiles(i, files)
    ensures var (l, m) := (ListProgram(i.t, i.p), ListProgram(i.t, InlinedProgram(i.p)));
            && (l.Listed? <==> m.Listed?)
            && (l.Listed? ==>
                  && l.next == m.next && Extends(i.p.docs, l.next.docs)
                  && AlikeItems(i.p.docs, files, FullList(i.t, i.p), FullList(i.t, InlinedProgram(i.p))))
  {
    var p, q, top, ctx := i.p, InlinedProgram(i.p), Scope(i.p.top, None), Context(i.p.docs, map[]);
    SameBodyList(i.t, p, q, q.statements, top, {}, ctx);
    AlikeSame(p.docs, files, top);
    assert Standing(p.docs, files, p.statements, top, top);
    hide Bare, Placeable, SameForeign, Standing, AwayFrom, Alike, ListBody, Inlined, AlikeItem, Home;
    InlinedAlike(p.docs, files, i.t, p, p.statements, top, top, {}, ctx);
    var l, m := ListProgram(i.t, p), ListProgram(i.t, q);
    if l.Listed? {
      AlikeOperations(p.docs, files, l.items, m.items);
      EndAlike(p.docs, files, p, q, l.items, m.items);
    }
  }

  lemma EndAlike(docs: seq<Document>, files: set<nat>, p: Program, q: Program, a: seq<Item>, b: seq<Item>)
    requires AlikeItems(docs, files, a, b) && Marks(a) == Marks(b) && |Operations(a)| == |Operations(b)| && q.top == p.top
    ensures AlikeItems(docs, files, a + EndItems(p, a), b + EndItems(q, b))
  {
    AlikeSame(docs, files, Scope(p.top, None));
    hide Alike, Operations, Marks;
  }

  /** Programs with alike lists have the same instructions and labels, and alike scopes. */
  lemma AlikePrograms(t: Target, docs: seq<Document>, files: set<nat>, q: Prog, r: Prog, a: seq<Item>, b: seq<Item>, ctx: Context)
    requires Finished(t, q) && Finished(t, r) && Holds(q, a) && Holds(r, b) && InContext(q, ctx) && InContext(r, ctx)
    requires AlikeItems(docs, files, a, b)
    ensures q.instrs == r.instrs && q.labels == r.labels && q.docs == r.docs && GlobalDefs(q) == GlobalDefs(r)
    ensures |Scopes(q)| == |Scopes(r)| == |q.instrs|
    ensures forall k :: 0 <= k < |Scopes(q)| ==> Alike(docs, files, Scopes(q)[k], Scopes(r)[k])
    ensures forall l :: 0 <= l < |q.labels| ==> q.labels[l].doc !in files
  {
    AlikeOperations(docs, files, a, b);
    SameGlobals(q, r, ctx);
    hide Alike, Operations, Marks, InContext, Fits, JumpPair, JumpDestAt, Iterate, GlobalDefs;
    var ops, others := Operations(a), Operations(b);
    forall k | 0 <= k < |ops|
      ensures q.instrs[k] == r.instrs[k] && Alike(docs, files, Scopes(q)[k], Scopes(r)[k])
    {
      assert HoldsOperation(q, k, ops[k]) && HoldsOperation(r, k, others[k]) && AlikeItem(docs, files, ops[k], others[k]);
    }
    forall l | 0 <= l < |Marks(a)|
      ensures q.labels[l] == r.labels[l] && q.labels[l].doc !in files
    {
      assert HoldsMark(q, l, Marks(a)[l]) && HoldsMark(r, l, Marks(b)[l]);
    }
  }

  lemma SameGlobals(q: Prog, r: Prog, ctx: Context)
    requires InContext(q, ctx) && InContext(r, ctx)
    ensures GlobalDefs(q) == GlobalDefs(r) && q.docs == r.docs
  {
    assert GlobalDefs(q).Keys == ctx.globals.Keys == GlobalDefs(r).Keys by {
      assert forall name :: name in q.globalLabels.Keys <==> name in ctx.globals.Keys;
      assert forall name :: name in r.globalLabels.Keys <==> name in ctx.globals.Keys;
    }
    forall name | name in ctx.globals
      ensures GlobalDefs(q)[name] == ctx.globals[name] == GlobalDefs(r)[name]
    {
      assert name in GlobalDefs(q).Keys && name in GlobalDefs(r).Keys;
    }
  }

  lemma {:induction false} TableApart(files: set<nat>, labels: seq<CompLabel>)
    requires forall l :: 0 <= l < |labels| ==> labels[l].doc !in files
    ensures NoneInFiles(files, RegisteredLabels(labels, |labels|))
  {
    forall key | key in RegisteredLabels(labels, |labels|) && key.doc.Some?
      ensures key.doc.value !in files
    {
      RegisteredOnly(labels, |labels|, key);
    }
  }

  /** The units of the two programs differ in files only. */
  lemma UnitsAlike(i: Input, j: Input, files: set<nat>, q: Prog, r: Prog)
    requires PlainFiles(i, files) && j == i.(p := InlinedProgram(i.p)) && Extends(i.p.docs, q.docs)
    requires q.labels == r.labels && q.docs == r.docs && GlobalDefs(q) == GlobalDefs(r)
    requires |Scopes(q)| == |Scopes(r)| && forall k :: 0 <= k < |Scopes(q)| ==> Alike(i.p.docs, files, Scopes(q)[k], Scopes(r)[k])
    requires forall l :: 0 <= l < |q.labels| ==> q.labels[l].doc !in files
    ensures AlikeUnits(i.p.docs, files, UnitOf(i, q), UnitOf(j, r))
  {
    TableApart(files, q.labels);
    hide Alike, Extends, Bare, SameForeign, NoneInFiles, GlobalDefs, RegisteredLabels, Scopes, Placeable, AwayFrom;
  }

  /** The result of the stages after expansion. */
  lemma SameStages(i: Input, j: Input, files: set<nat>, q: Prog, r: Prog)
    requires ValidTarget(i.t) && j == i.(p := j.p) && AlikeUnits(i.p.docs, files, UnitOf(i, q), UnitOf(j, r))
    requires q == ExpandProgram(i.t, i.p).prog && r == ExpandProgram(j.t, j.p).prog && q.instrs == r.instrs
    requires ExpandProgram(i.t, i.p).errors == ExpandProgram(j.t, j.p).errors
    ensures Build(j).instrs == Build(i).instrs && Build(j).errors == Build(i).errors && Build(j).unit.t == Build(i).unit.t
  {
    BuildOf(i);
    BuildOf(j);
    var docs, u, v := i.p.docs, UnitOf(i, q), UnitOf(j, r);
    assert v.t == u.t;
    hide *;
    AlikePreErrors(docs, files, u, v, q.instrs, |q.instrs|);
    AlikePreInstrs(docs, files, u, v, q.instrs);
    AlikeRelaxed(docs, files, u, v, PreInstrs(u, q.instrs));
  }

  /**
   * Included files that place no labels and define no local names can be written in place of their
   * include statements, in any nesting: the program compiles without error if and only if it did
   * before, and its code is the same.
   */
  lemma IncludesInPlace(i: Input, files: set<nat>)
    requires ValidTarget(i.t) && PlainFiles(i, files)
    ensures var (b, c) := (Build(i), Build(i.(p := InlinedProgram(i.p))));
            (b.errors == [] <==> c.errors == []) && (b.errors == [] ==> CodeOf(c) == CodeOf(b))
  {
    var j := i.(p := InlinedProgram(i.p));
    var p, q := ExpandProgram(i.t, i.p), ExpandProgram(j.t, j.p);
    ProgramAlike(i, files);
    ExpansionLists(i.t, i.p);
    ExpansionLists(j.t, j.p);
    BuildOf(i);
    BuildOf(j);
    hide *;
    if p.errors == [] {
      AlikePrograms(i.t, i.p.docs, files, p.prog, q.prog, FullList(i.t, i.p), FullList(j.t, j.p), ListProgram(i.t, i.p).next);
      ExtendsDocs(p.prog, ListProgram(i.t, i.p).next);
      UnitsAlike(i, j, files, p.prog, q.prog);
      SameStages(i, j, files, p.prog, q.prog);
      SameCode(Build(i), Build(j));
    }
  }

  lemma ExtendsDocs(q: Prog, ctx: Context)
    requires InContext(q, ctx)
    ensures q.docs == ctx.docs
  {
  }

  lemma SameCode(b: Built, c: Built)
    requires c.instrs == b.instrs && c.unit.t == b.unit.t
    ensures CodeOf(c) == CodeOf(b)
  {
    hide Generated;
  }
}
