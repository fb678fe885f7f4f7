/**
 * What a list of statements stands for: its operations and labels in order, with the bodies of macro
 * calls and included files in place. Expansion (asm/compiler_expand.go) emits exactly this list.
 */
module Listing {
  import opened Base
  import opened EvmOps
  import opened InstructionSets
  import opened Ast
  import opened Evaluator
  import opened CompilerProg
  import opened Expansion

  /** A line of the list. The scope of an operation is that of the body it stands in. */
  datatype Item =
    | Operation(op: string, arg: Option<Expr>, data: seq<Byte>, claims: Option<nat>, scope: Scope)
    | Mark(def: LabelDef, doc: nat)

  /** What statements depend on besides their scope: the documents, and the global labels in place so far. */
  datatype Context = Context(docs: seq<Document>, globals: map<string, LabelDef>)

  /** The list, and the context of the statements that follow; or one of the statements is in error. */
  datatype Listed = Improper | Listed(items: seq<Item>, next: Context)

  function Plain(op: string, arg: Option<Expr>, scope: Scope): Item {
    Operation(op, arg, [], None, scope)
  }

  function Then(first: Listed, rest: Listed): Listed {
    if first.Improper? || rest.Improper? then Improper else Listed(first.items + rest.items, rest.next)
  }

  // ----- single statements -----

  /** A global label may be in place once. Only labels without dot are a destination of jumps. */
  function ListLabel(def: LabelDef, scope: Scope, ctx: Context): Listed {
    if !IsGlobal(def.ident) then Listed(LabelItems(def, scope), ctx)
    else if def.ident in ctx.globals then Improper
    else Listed(LabelItems(def, scope), ctx.(globals := ctx.globals[def.ident := def]))
  }

  function LabelItems(def: LabelDef, scope: Scope): seq<Item> {
    [Mark(def, scope.doc)] + if def.dotted then [] else [Plain("JUMPDEST", None, scope)]
  }

  /** The definition that a label reference finds; global labels in place come first. */
  function FindDef(p: Program, ctx: Context, ident: string, doc: nat): Option<LabelDef> {
    if ident in ctx.globals then Some(ctx.globals[ident]) else LookupLabel(p, ctx.docs, ident, doc)
  }

  /** Jumps take a label without dot. */
  predicate NamesDestination(p: Program, ctx: Context, arg: Expr, doc: nat) {
    && arg.LabelRefExpr? && !arg.dotted
    && var def := FindDef(p, ctx, arg.ident, doc);
    && def.Some? && !def.value.dotted
  }

  /** PUSH and its sized forms take an argument, jumps may, other operations take their immediates only. */
  predicate Proper(t: Target, p: Program, ctx: Context, op: string, arg: Option<Expr>, immediates: seq<int>, doc: nat) {
    if IsPush(op) && op != "PUSH0" then arg.Some? && (op == "PUSH" || op in t.fork.byName)
    else if IsJump(t, op) then op in t.fork.byName && (arg.Some? ==> NamesDestination(p, ctx, arg.value, doc))
    else
      && op in t.fork.byName && arg.None?
      && if t.fork.byName[op].hasImmediate then immediates != [] && EncodeImmediateArgs(t.fork.byName[op].name, immediates).Some?
         else immediates == []
  }

  /** A jump to a label is written as a push of the label and the jump. */
  function OpcodeItems(t: Target, op: string, arg: Option<Expr>, immediates: seq<int>, scope: Scope): seq<Item> {
    if arg.Some? && IsJump(t, op) && (IsPush(op) ==> op == "PUSH0") then [Plain("PUSH", arg, scope), Plain(op, arg, scope)]
    else if arg.None? && op in t.fork.byName && t.fork.byName[op].hasImmediate && !IsJump(t, op) then
      match EncodeImmediateArgs(t.fork.byName[op].name, immediates)
      case None => []
      case Some(b) => [Operation(op, None, [b], None, scope)]
    else [Plain(op, arg, scope)]
  }

  ghost predicate Distinct(names: seq<string>) {
    forall i, j :: 0 <= i < j < |names| ==> names[i] != names[j]
  }

  // ----- bodies in place -----

  /**
   * The list of a statement. The body of a macro call is in the scope of a new copy of its document,
   * with the arguments of the call, which belong to the scope of the call. The body of a loaded file
   * is in the scope of the file, with the macro arguments of the place of inclusion. No macro may be
   * called within its own body.
   */
  ghost function ListStmt(t: Target, p: Program, s: Stmt, scope: Scope, open: set<nat>, ctx: Context): Listed
    decreases MacrosLeft(p, open), s, 1
  {
    match s
    case OpcodeStmt(op, arg, immediates) =>
      if Proper(t, p, ctx, op, arg, immediates, scope.doc) then Listed(OpcodeItems(t, op, arg, immediates, scope), ctx) else Improper
    case LabelStmt(def) => ListLabel(def, scope, ctx)
    case PCLabelStmt(pc) => Listed([Operation("", None, [], Some(pc), scope)], ctx)
    case MacroCallStmt(ident, args) =>
      var m := LookupInstrMacro(p, ctx.docs, ident, scope.doc);
      if m.None? || m.value >= |p.instrMacros| || m.value in open || |args| != |p.instrMacros[m.value].params| then Improper
      else
        var def := p.instrMacros[m.value];
        EnterLeaves(p, open, m.value);
        ListBody(t, p, def.body, Scope(|ctx.docs|, Some(CallArgs(scope, def.params, args))), open + {m.value},
                 ctx.(docs := ctx.docs + [Document(Some(def.doc), map[], map[], map[])]))
    case IncludeStmt(incdoc, loaded, body) =>
      if loaded then ListBody(t, p, body, Scope(incdoc, scope.args), open, ctx) else Listed([], ctx)
    case BytesStmt(value, name) =>
      var data := Listed([Plain(BYTES, Some(value), scope)], ctx);
      if name.None? then data
      else
        var l := ListLabel(name.value, scope, ctx);
        if l.Improper? then Improper else Listed(l.items + data.items, l.next)
    case MacroDefStmt(params) => if Distinct(params) then Listed([], ctx) else Improper
    case OtherStmt => Listed([], ctx)
  }

  ghost function ListBody(t: Target, p: Program, stmts: seq<Stmt>, scope: Scope, open: set<nat>, ctx: Context): Listed
    decreases MacrosLeft(p, open), stmts, 0
  {
    if stmts == [] then Listed([], ctx)
    else
      var first := ListStmt(t, p, stmts[0], scope, open, ctx);
      if first.Improper? then Improper else Then(first, ListBody(t, p, stmts[1..], scope, open, first.next))
  }

  /** The list of a whole program. */
  ghost function ListProgram(t: Target, p: Program): Listed {
    ListBody(t, p, p.statements, Scope(p.top, None), {}, Context(p.docs, map[]))
  }

  // ----- programs that hold a list -----

  /** The operations of a list. */
  function Operations(items: seq<Item>): seq<Item> {
    if items == [] then []
    else
      var n := |items| - 1;
      Operations(items[..n]) + if items[n].Operation? then [items[n]] else []
  }

  /** The labels of a list, each with its document and the number of operations before it. */
  function Marks(items: seq<Item>): seq<(LabelDef, nat, nat)> {
    if items == [] then []
    else
      var n := |items| - 1;
      Marks(items[..n]) + if items[n].Mark? then [(items[n].def, items[n].doc, |Operations(items[..n])|)] else []
  }

  /** The instruction of an operation, as expansion leaves it. */
  function InstrOf(item: Item): Instr
    requires item.Operation?
  {
    Instr(item.op, item.arg, item.claims, 0, |item.data|, item.data, false)
  }

  ghost predicate HoldsOperation(q: Prog, k: nat, item: Item)
    requires k < |q.instrs| == |q.owners|
  {
    && item.Operation? && q.instrs[k] == InstrOf(item)
    && q.owners[k] < |q.sections| && q.sections[q.owners[k]].scope == item.scope
  }

  ghost predicate HoldsMark(q: Prog, l: nat, mark: (LabelDef, nat, nat))
    requires l < |q.labels| == |q.places|
  {
    q.labels[l].def == mark.0 && q.labels[l].doc == mark.1 && q.places[l] == mark.2
  }

  /**
   * The instructions of a program are the operations of the list, in order, each owned by a section
   * with the scope of the operation; and its labels are those of the list, at the same places.
   */
  ghost predicate Holds(q: Prog, items: seq<Item>) {
    var (ops, marks) := (Operations(items), Marks(items));
    && |q.instrs| == |q.owners| == |ops| && |q.labels| == |q.places| == |marks|
    && (forall k :: 0 <= k < |ops| ==> HoldsOperation(q, k, ops[k]))
    && (forall l :: 0 <= l < |marks| ==> HoldsMark(q, l, marks[l]))
  }

  /** The context that a program is. */
  ghost predicate InContext(q: Prog, ctx: Context) {
    && q.docs == ctx.docs && q.globalLabels.Keys == ctx.globals.Keys
    && (forall name :: name in ctx.globals ==>
          q.globalLabels[name] < |q.labels| && q.labels[q.globalLabels[name]].def == ctx.globals[name])
  }

  /** A program that is within a scope, and has been given a list so far. */
  ghost predicate At(q: Prog, scope: Scope, items: seq<Item>, ctx: Context) {
    HasSection(q) && CurScope(q) == scope && Holds(q, items) && InContext(q, ctx)
  }

  lemma OperationsSnoc(items: seq<Item>, item: Item)
    ensures Operations(items + [item]) == Operations(items) + if item.Operation? then [item] else []
    ensures Marks(items + [item]) == Marks(items) + if item.Mark? then [(item.def, item.doc, |Operations(items)|)] else []
  {
    assert (items + [item])[..|items|] == items;
  }

  /** Documents and sections can be added, and the current section can change. */
  lemma HoldsFrame(q: Prog, r: Prog, items: seq<Item>)
    requires Holds(q, items)
    requires r.instrs == q.instrs && r.owners == q.owners && r.labels == q.labels && r.places == q.places
    requires |q.sections| <= |r.sections| && r.sections[..|q.sections|] == q.sections
    ensures Holds(r, items)
  {
    hide Operations, Marks;
    var ops, marks := Operations(items), Marks(items);
    forall k | 0 <= k < |ops|
      ensures HoldsOperation(r, k, ops[k])
    {
      assert HoldsOperation(q, k, ops[k]);
      assert r.sections[..|q.sections|][q.owners[k]] == q.sections[q.owners[k]];
    }
    forall l | 0 <= l < |marks|
      ensures HoldsMark(r, l, marks[l])
    {
      assert HoldsMark(q, l, marks[l]);
    }
  }

  lemma OperationAdded(q: Prog, scope: Scope, items: seq<Item>, ctx: Context, item: Item)
    requires At(q, scope, items, ctx) && item.Operation? && item.scope == scope
    ensures At(AddInstruction(q, InstrOf(item)), scope, items + [item], ctx)
  {
    OperationsSnoc(items, item);
    hide Operations, Marks;
    var r := AddInstruction(q, InstrOf(item));
    var ops, marks := Operations(items + [item]), Marks(items + [item]);
    forall k | 0 <= k < |ops|
      ensures HoldsOperation(r, k, ops[k])
    {
      if k < |q.instrs| {
        assert HoldsOperation(q, k, Operations(items)[k]);
      }
    }
    forall l | 0 <= l < |marks|
      ensures HoldsMark(r, l, marks[l])
    {
      assert HoldsMark(q, l, Marks(items)[l]);
    }
  }

  ghost function WithGlobal(ctx: Context, def: LabelDef): Context {
    if IsGlobal(def.ident) then ctx.(globals := ctx.globals[def.ident := def]) else ctx
  }

  lemma MarkAdded(q: Prog, scope: Scope, items: seq<Item>, ctx: Context, def: LabelDef)
    requires At(q, scope, items, ctx)
    ensures At(AddLabel(q, def, scope.doc), scope, items + [Mark(def, scope.doc)], WithGlobal(ctx, def))
  {
    OperationsSnoc(items, Mark(def, scope.doc));
    hide Operations, Marks, IsGlobal;
    var r := AddLabel(q, def, scope.doc);
    var ops, marks := Operations(items + [Mark(def, scope.doc)]), Marks(items + [Mark(def, scope.doc)]);
    forall k | 0 <= k < |ops|
      ensures HoldsOperation(r, k, ops[k])
    {
      assert HoldsOperation(q, k, Operations(items)[k]);
    }
    forall l | 0 <= l < |marks|
      ensures HoldsMark(r, l, marks[l])
    {
      if l < |q.labels| {
        assert HoldsMark(q, l, Marks(items)[l]);
      }
    }
  }

  // ----- single statements emit their lists -----

  /** A statement that is in error is reported; otherwise the program has been given the list as well. */
  ghost predicate Emits(r: (Prog, Option<CompileError>), scope: Scope, items: seq<Item>, l: Listed) {
    if l.Improper? then r.1.Some? else r.1.None? && At(r.0, scope, items + l.items, l.next)
  }

  lemma LabelEmits(q: Prog, scope: Scope, items: seq<Item>, ctx: Context, def: LabelDef)
    requires At(q, scope, items, ctx)
    ensures Emits(ExpandLabel(q, def, scope.doc), scope, items, ListLabel(def, scope, ctx))
  {
    hide Holds, IsGlobal;
    MarkAdded(q, scope, items, ctx, def);
    var marked, dest := items + [Mark(def, scope.doc)], Plain("JUMPDEST", None, scope);
    if def.dotted {
      assert items + LabelItems(def, scope) == marked;
    } else {
      hide At, InContext;
      OperationAdded(AddLabel(q, def, scope.doc), scope, marked, WithGlobal(ctx, def), dest);
      assert items + LabelItems(def, scope) == marked + [dest];
    }
  }

  lemma FindDefAgrees(q: Prog, p: Program, ctx: Context, ident: string, doc: nat)
    requires InContext(q, ctx)
    ensures ProgLabel(p, q, ident, doc) == FindDef(p, ctx, ident, doc)
  {
    hide LookupLabel;
    assert ident in q.globalLabels.Keys <==> ident in ctx.globals.Keys;
  }

  lemma JumpArgAgrees(q: Prog, p: Program, ctx: Context, arg: Option<Expr>, doc: nat)
    requires InContext(q, ctx)
    ensures JumpArgError(p, q, doc, arg).None? <==> (arg.Some? ==> NamesDestination(p, ctx, arg.value, doc))
  {
    hide InContext, ProgLabel, FindDef;
    if arg.Some? && arg.value.LabelRefExpr? {
      FindDefAgrees(q, p, ctx, arg.value.ident, doc);
    }
  }

  lemma PushEmits(t: Target, p: Program, q: Prog, scope: Scope, items: seq<Item>, ctx: Context,
                  op: string, arg: Option<Expr>, immediates: seq<int>)
    requires At(q, scope, items, ctx) && IsPush(op) && op != "PUSH0"
    ensures var proper := Proper(t, p, ctx, op, arg, immediates, scope.doc);
            var l := if proper then Listed(OpcodeItems(t, op, arg, immediates, scope), ctx) else Improper;
            Emits(ExpandPush(t, q, op, arg), scope, items, l)
  {
    OperationAdded(q, scope, items, ctx, Plain(op, arg, scope));
    hide At, IsPush, NamesDestination;
  }

  lemma JumpEmits(t: Target, p: Program, q: Prog, scope: Scope, items: seq<Item>, ctx: Context,
                  op: string, arg: Option<Expr>, immediates: seq<int>)
    requires At(q, scope, items, ctx) && IsJump(t, op) && (IsPush(op) ==> op == "PUSH0")
    ensures var proper := Proper(t, p, ctx, op, arg, immediates, scope.doc);
            var l := if proper then Listed(OpcodeItems(t, op, arg, immediates, scope), ctx) else Improper;
            Emits(ExpandJump(t, p, q, op, arg, scope.doc), scope, items, l)
  {
    JumpArgAgrees(q, p, ctx, arg, scope.doc);
    hide At, IsPush, IsJump, NamesDestination, JumpArgError;
    var push, jump := Plain("PUSH", arg, scope), Plain(op, arg, scope);
    if arg.None? {
      OperationAdded(q, scope, items, ctx, jump);
    } else {
      OperationAdded(q, scope, items, ctx, push);
      OperationAdded(AddInstruction(q, InstrOf(push)), scope, items + [push], ctx, jump);
      assert items + [push, jump] == items + [push] + [jump];
    }
  }

  lemma PlainEmits(t: Target, p: Program, q: Prog, scope: Scope, items: seq<Item>, ctx: Context,
                   op: string, arg: Option<Expr>, immediates: seq<int>)
    requires At(q, scope, items, ctx) && !IsJump(t, op) && (IsPush(op) ==> op == "PUSH0")
    ensures var proper := Proper(t, p, ctx, op, arg, immediates, scope.doc);
            var l := if proper then Listed(OpcodeItems(t, op, arg, immediates, scope), ctx) else Improper;
            Emits(ExpandPlain(t, q, op, arg, immediates), scope, items, l)
  {
    if Proper(t, p, ctx, op, arg, immediates, scope.doc) {
      hide EncodeImmediateArgs;
      var item := OpcodeItems(t, op, arg, immediates, scope)[0];
      OperationAdded(q, scope, items, ctx, item);
      hide At, IsPush, IsJump, NamesDestination;
    } else {
      hide At, IsPush, IsJump, NamesDestination, EncodeImmediateArgs;
    }
  }

  lemma OpcodeEmits(t: Target, p: Program, q: Prog, scope: Scope, items: seq<Item>, ctx: Context,
                    op: string, arg: Option<Expr>, immediates: seq<int>)
    requires At(q, scope, items, ctx)
    ensures var proper := Proper(t, p, ctx, op, arg, immediates, scope.doc);
            var l := if proper then Listed(OpcodeItems(t, op, arg, immediates, scope), ctx) else Improper;
            Emits(ExpandOpcode(t, p, q, op, arg, immediates, scope.doc), scope, items, l)
  {
    hide At, Emits, Proper, OpcodeItems, ExpandPush, ExpandJump, ExpandPlain;
    if IsPush(op) && op != "PUSH0" {
      PushEmits(t, p, q, scope, items, ctx, op, arg, immediates);
    } else if IsJump(t, op) {
      JumpEmits(t, p, q, scope, items, ctx, op, arg, immediates);
    } else {
      PlainEmits(t, p, q, scope, items, ctx, op, arg, immediates);
    }
  }

  lemma BytesEmits(t: Target, p: Program, q: Prog, scope: Scope, items: seq<Item>, ctx: Context,
                   value: Expr, name: Option<LabelDef>, open: set<nat>)
    requires At(q, scope, items, ctx)
    ensures Emits(ExpandBytes(q, value, name, scope.doc), scope, items, ListStmt(t, p, BytesStmt(value, name), scope, open, ctx))
  {
    hide At, ExpandLabel, ListLabel;
    var data := Plain(BYTES, Some(value), scope);
    if name.None? {
      OperationAdded(q, scope, items, ctx, data);
    } else {
      LabelEmits(q, scope, items, ctx, name.value);
      var l := ListLabel(name.value, scope, ctx);
      if l.Listed? {
        OperationAdded(ExpandLabel(q, name.value, scope.doc).0, scope, items + l.items, l.next, data);
        assert items + (l.items + [data]) == items + l.items + [data];
      }
    }
  }

  lemma {:induction false} NoDuplicates(params: seq<string>)
    ensures Duplicates(params) == 0 <==> Distinct(params)
  {
    if params != [] {
      var n := |params| - 1;
      NoDuplicates(params[..n]);
      assert params[..n] + [params[n]] == params;
      if Distinct(params[..n]) && params[n] !in params[..n] {
        forall i, j | 0 <= i < j < |params|
          ensures params[i] != params[j]
        {
          assert params[i] == params[..n][i];
          if j < n {
            assert params[j] == params[..n][j];
          }
        }
      } else if !Distinct(params[..n]) {
        var i, j :| 0 <= i < j < n && params[..n][i] == params[..n][j];
        assert params[i] == params[j];
      } else {
        var i :| 0 <= i < n && params[..n][i] == params[n];
        assert params[i] == params[n];
      }
    }
  }

  lemma {:induction false} DuplicateErrorsLength(n: nat)
    ensures |DuplicateErrors(n)| == n
  {
    if n > 0 {
      DuplicateErrorsLength(n - 1);
    }
  }

  // ----- errors are kept -----

  lemma {:induction false} ErrorsKeptStmt(t: Target, p: Program, s: Stmt, doc: nat, st: Expanding)
    requires HasSection(st.prog)
    ensures st.errors <= ExpandStmt(t, p, s, doc, st).errors
    decreases MacrosLeft(p, st.macroStack), s, 1
  {
    hide ExpandOpcode, ExpandLabel, ExpandBytes, Restored, LookupInstrMacro, MacrosLeft;
    if s.MacroCallStmt? {
      var m := LookupInstrMacro(p, st.prog.docs, s.ident, doc);
      if m.Some? && m.value < |p.instrMacros| && m.value !in st.macroStack && |s.args| == |p.instrMacros[m.value].params| {
        var def := p.instrMacros[m.value];
        EnterLeaves(p, st.macroStack, m.value);
        ErrorsKept(t, p, def.body, |st.prog.docs|, EnterMacro(st, def, m.value, s.args));
      }
    } else if s.IncludeStmt? && s.loaded {
      ErrorsKept(t, p, s.body, s.doc, EnterInclude(st, s.doc));
    }
  }

  lemma {:induction false} ErrorsKept(t: Target, p: Program, stmts: seq<Stmt>, doc: nat, st: Expanding)
    requires HasSection(st.prog)
    ensures st.errors <= Expand(t, p, stmts, doc, st).errors
    decreases MacrosLeft(p, st.macroStack), stmts, 0
  {
    hide ExpandStmt, MacrosLeft;
    if stmts != [] {
      ErrorsKeptStmt(t, p, stmts[0], doc, st);
      ErrorsKept(t, p, stmts[1..], doc, ExpandStmt(t, p, stmts[0], doc, st));
    }
  }

  // ----- all statements emit their lists -----

  /** The same for a whole step of expansion. */
  ghost predicate Lists(st: Expanding, r: Expanding, scope: Scope, items: seq<Item>, l: Listed) {
    if l.Improper? then |r.errors| > |st.errors|
    else r.errors == st.errors && At(r.prog, scope, items + l.items, l.next)
  }

  lemma EmitsLists(st: Expanding, r: (Prog, Option<CompileError>), scope: Scope, items: seq<Item>, l: Listed)
    requires Emits(r, scope, items, l)
    ensures Lists(st, WithError(st.(prog := r.0), r.1), scope, items, l)
  {
    hide At;
  }

  lemma EnterLists(q: Prog, scope: Scope, items: seq<Item>, ctx: Context, inner: Scope, docs: seq<Document>)
    requires At(q, scope, items, ctx)
    ensures At(PushSection(q.(docs := docs), inner), inner, items, ctx.(docs := docs))
  {
    var r := PushSection(q.(docs := docs), inner);
    HoldsFrame(q, r, items);
    hide Holds;
  }

  /** Leaving a section returns to the scope of the section around it. */
  lemma LeaveLists(st: Expanding, entered: Expanding, inner: Expanding, added: set<nat>,
                   scope: Scope, within: Scope, items: seq<Item>, l: Listed)
    requires HasSection(st.prog) && CurScope(st.prog) == scope
    requires |entered.prog.sections| == |st.prog.sections| + 1
    requires entered.prog.sections[..|st.prog.sections|] == st.prog.sections
    requires entered.prog.cur == |st.prog.sections| && entered.prog.sections[entered.prog.cur].parent == Some(st.prog.cur)
    requires entered.macroStack == st.macroStack + added && st.macroStack !! added
    requires entered.errors == st.errors
    requires Restored(entered, inner) && Lists(entered, inner, within, items, l)
    ensures HasSection(inner.prog) && inner.prog.sections[inner.prog.cur].parent.Some?
    ensures Lists(st, LeaveSection(inner, added), scope, items, l)
  {
    hide Holds;
    EnterLeaveRestores(st, entered, inner, added);
    if l.Listed? {
      var r := LeaveSection(inner, added).prog;
      HoldsFrame(inner.prog, r, items + l.items);
      assert r.sections[..|st.prog.sections|][r.cur] == st.prog.sections[r.cur];
    }
  }

  lemma {:induction false} CallLists(t: Target, p: Program, ident: string, args: seq<Expr>, scope: Scope, st: Expanding, items: seq<Item>, ctx: Context)
    requires At(st.prog, scope, items, ctx)
    ensures Lists(st, ExpandCall(t, p, ident, args, scope.doc, st), scope, items,
                  ListStmt(t, p, MacroCallStmt(ident, args), scope, st.macroStack, ctx))
    decreases MacrosLeft(p, st.macroStack), MacroCallStmt(ident, args), 0
  {
    hide Holds, MacrosLeft, LookupInstrMacro, Restored;
    var m := LookupInstrMacro(p, st.prog.docs, ident, scope.doc);
    if m.Some? && m.value < |p.instrMacros| && m.value !in st.macroStack && |args| == |p.instrMacros[m.value].params| {
      var def, copy := p.instrMacros[m.value], |st.prog.docs|;
      var docs := st.prog.docs + [Document(Some(def.doc), map[], map[], map[])];
      var within := Scope(copy, Some(CallArgs(scope, def.params, args)));
      EnterLeaves(p, st.macroStack, m.value);
      var entered := EnterMacro(st, def, m.value, args);
      EnterLists(st.prog, scope, items, ctx, within, docs);
      BodyLists(t, p, def.body, within, entered, items, ctx.(docs := docs));
      var l := ListBody(t, p, def.body, within, entered.macroStack, ctx.(docs := docs));
      hide At, Expand, ListBody;
      LeaveLists(st, entered, Expand(t, p, def.body, copy, entered), {m.value}, scope, within, items, l);
    }
  }

  lemma {:induction false} IncludeLists(t: Target, p: Program, s: Stmt, scope: Scope, st: Expanding, items: seq<Item>, ctx: Context)
    requires At(st.prog, scope, items, ctx) && s.IncludeStmt?
    ensures Lists(st, ExpandStmt(t, p, s, scope.doc, st), scope, items, ListStmt(t, p, s, scope, st.macroStack, ctx))
    decreases MacrosLeft(p, st.macroStack), s, 0
  {
    hide Holds, MacrosLeft, Restored;
    if s.loaded {
      var within := Scope(s.doc, scope.args);
      var entered := EnterInclude(st, s.doc);
      assert st.prog.(docs := st.prog.docs) == st.prog;
      assert ctx.(docs := st.prog.docs) == ctx;
      EnterLists(st.prog, scope, items, ctx, within, st.prog.docs);
      BodyLists(t, p, s.body, within, entered, items, ctx);
      var l := ListBody(t, p, s.body, within, st.macroStack, ctx);
      hide At, Expand, ListBody;
      LeaveLists(st, entered, Expand(t, p, s.body, s.doc, entered), {}, scope, within, items, l);
    } else {
      assert items + [] == items;
    }
  }

  lemma {:induction false} StmtLists(t: Target, p: Program, s: Stmt, scope: Scope, st: Expanding, items: seq<Item>, ctx: Context)
    requires At(st.prog, scope, items, ctx)
    ensures Lists(st, ExpandStmt(t, p, s, scope.doc, st), scope, items, ListStmt(t, p, s, scope, st.macroStack, ctx))
    decreases MacrosLeft(p, st.macroStack), s, 1
  {
    hide At, MacrosLeft, ExpandOpcode, ExpandLabel, ExpandBytes, ExpandCall, Emits, Lists, ListLabel, Proper, OpcodeItems, Restored;
    match s
    case OpcodeStmt(op, arg, immediates) =>
      OpcodeEmits(t, p, st.prog, scope, items, ctx, op, arg, immediates);
      EmitsLists(st, ExpandOpcode(t, p, st.prog, op, arg, immediates, scope.doc), scope, items,
                 ListStmt(t, p, s, scope, st.macroStack, ctx));
    case LabelStmt(def) =>
      LabelEmits(st.prog, scope, items, ctx, def);
      EmitsLists(st, ExpandLabel(st.prog, def, scope.doc), scope, items, ListLabel(def, scope, ctx));
    case PCLabelStmt(pc) =>
      PCLabelLists(t, p, pc, scope, st, items, ctx);
    case MacroCallStmt(ident, args) => CallLists(t, p, ident, args, scope, st, items, ctx);
    case IncludeStmt(incdoc, loaded, body) => IncludeLists(t, p, s, scope, st, items, ctx);
    case BytesStmt(value, name) =>
      BytesEmits(t, p, st.prog, scope, items, ctx, value, name, st.macroStack);
      EmitsLists(st, ExpandBytes(st.prog, value, name, scope.doc), scope, items,
                 ListStmt(t, p, s, scope, st.macroStack, ctx));
    case MacroDefStmt(params) => MacroDefLists(t, p, params, scope, st, items, ctx);
    case OtherStmt =>
      assert items + [] == items;
      NothingListed(st, scope, items, ctx);
  }

  lemma NothingListed(st: Expanding, scope: Scope, items: seq<Item>, ctx: Context)
    requires At(st.prog, scope, items, ctx)
    ensures Lists(st, st, scope, items, Listed([], ctx))
  {
    assert items + [] == items;
  }

  lemma PCLabelLists(t: Target, p: Program, pc: nat, scope: Scope, st: Expanding, items: seq<Item>, ctx: Context)
    requires At(st.prog, scope, items, ctx)
    ensures Lists(st, ExpandStmt(t, p, PCLabelStmt(pc), scope.doc, st), scope, items,
                  ListStmt(t, p, PCLabelStmt(pc), scope, st.macroStack, ctx))
  {
    var item := Operation("", None, [], Some(pc), scope);
    OperationAdded(st.prog, scope, items, ctx, item);
    hide At, MacrosLeft;
  }

  lemma MacroDefLists(t: Target, p: Program, params: seq<string>, scope: Scope, st: Expanding, items: seq<Item>, ctx: Context)
    requires At(st.prog, scope, items, ctx)
    ensures Lists(st, ExpandStmt(t, p, MacroDefStmt(params), scope.doc, st), scope, items,
                  ListStmt(t, p, MacroDefStmt(params), scope, st.macroStack, ctx))
  {
    NoDuplicates(params);
    DuplicateErrorsLength(Duplicates(params));
    assert items + [] == items;
    hide At, MacrosLeft, Distinct, Duplicates, DuplicateErrors;
    if Distinct(params) {
      assert DuplicateErrors(0) == [];
      assert st.errors + [] == st.errors;
    }
  }

  /** A body expands statement by statement. */
  lemma ExpandFirst(t: Target, p: Program, stmts: seq<Stmt>, doc: nat, st: Expanding)
    requires HasSection(st.prog) && stmts != []
    ensures var next := ExpandStmt(t, p, stmts[0], doc, st);
            && HasSection(next.prog) && next.macroStack == st.macroStack
            && Expand(t, p, stmts, doc, st) == Expand(t, p, stmts[1..], doc, next)
  {
    hide ExpandStmt;
  }

  /** One step of expansion after the other. */
  lemma ListsThen(st: Expanding, next: Expanding, r: Expanding, scope: Scope, items: seq<Item>, first: Listed, rest: Listed)
    requires Lists(st, next, scope, items, first)
    requires if first.Improper? then next.errors <= r.errors else Lists(next, r, scope, items + first.items, rest)
    ensures Lists(st, r, scope, items, if first.Improper? then Improper else Then(first, rest))
  {
    hide At;
    if first.Listed? && rest.Listed? {
      assert items + (first.items + rest.items) == items + first.items + rest.items;
    }
  }

  /** A step that goes well ends where the next one begins. */
  lemma ListsAt(st: Expanding, next: Expanding, scope: Scope, items: seq<Item>, first: Listed)
    requires Lists(st, next, scope, items, first) && first.Listed?
    ensures At(next.prog, scope, items + first.items, first.next)
  {
  }

  lemma AtSection(q: Prog, scope: Scope, items: seq<Item>, ctx: Context)
    requires At(q, scope, items, ctx)
    ensures HasSection(q)
  {
  }

  /** Expansion of a body emits the list of the body, and reports an error if and only if there is none. */
  lemma {:induction false} BodyLists(t: Target, p: Program, stmts: seq<Stmt>, scope: Scope, st: Expanding, items: seq<Item>, ctx: Context)
    requires At(st.prog, scope, items, ctx)
    ensures Lists(st, Expand(t, p, stmts, scope.doc, st), scope, items, ListBody(t, p, stmts, scope, st.macroStack, ctx))
    decreases MacrosLeft(p, st.macroStack), stmts, 0
  {
    AtSection(st.prog, scope, items, ctx);
    if stmts == [] {
      hide At, ExpandStmt, ListStmt;
      NothingListed(st, scope, items, ctx);
    } else {
      hide At, Lists, Expand, ExpandStmt, ListStmt, MacrosLeft;
      StmtLists(t, p, stmts[0], scope, st, items, ctx);
      ExpandFirst(t, p, stmts, scope.doc, st);
      var next := ExpandStmt(t, p, stmts[0], scope.doc, st);
      var first := ListStmt(t, p, stmts[0], scope, st.macroStack, ctx);
      if first.Improper? {
        ErrorsKept(t, p, stmts[1..], scope.doc, next);
        ListsThen(st, next, Expand(t, p, stmts[1..], scope.doc, next), scope, items, first, Improper);
      } else {
        ListsAt(st, next, scope, items, first);
        BodyLists(t, p, stmts[1..], scope, next, items + first.items, first.next);
        ListsThen(st, next, Expand(t, p, stmts[1..], scope.doc, next), scope, items, first,
                  ListBody(t, p, stmts[1..], scope, st.macroStack, first.next));
      }
    }
  }

  // ----- whole programs -----

  /** Labels at the end of a program lead to an empty operation. */
  ghost function EndItems(p: Program, items: seq<Item>): seq<Item> {
    if exists l :: 0 <= l < |Marks(items)| && Marks(items)[l].2 == |Operations(items)|
    then [Plain("", None, Scope(p.top, None))] else []
  }

  /** The list of a program with its end. */
  ghost function FullList(t: Target, p: Program): seq<Item>
    requires ListProgram(t, p).Listed?
  {
    ListProgram(t, p).items + EndItems(p, ListProgram(t, p).items)
  }

  lemma EndHolds(t: Target, p: Program, q: Prog, items: seq<Item>, ctx: Context)
    requires Sound(t, q) && At(q, Scope(p.top, None), items, ctx)
    ensures Holds(FinishExpansion(q), items + EndItems(p, items)) && InContext(FinishExpansion(q), ctx)
  {
    hide Operations, Marks, Fits, JumpPair, JumpDestAt, Walk;
    var end := Plain("", None, Scope(p.top, None));
    if |q.currentLabels| > 0 {
      var l := q.currentLabels[0];
      assert LabelLinked(q, l) && HoldsMark(q, l, Marks(items)[l]);
      OperationAdded(q, Scope(p.top, None), items, ctx, end);
      HoldsFrame(AddInstruction(q, InstrOf(end)), FinishExpansion(q), items + [end]);
    } else {
      forall l | 0 <= l < |Marks(items)|
        ensures Marks(items)[l].2 != |Operations(items)|
      {
        assert LabelLinked(q, l) && HoldsMark(q, l, Marks(items)[l]);
      }
      assert items + [] == items;
      HoldsFrame(q, FinishExpansion(q), items);
    }
  }

  lemma StartHolds(p: Program)
    ensures At(NewProg(p.docs, p.top), Scope(p.top, None), [], Context(p.docs, map[]))
  {
  }

  /**
   * The expansion of a program succeeds if and only if the program has a list. The instructions are
   * then the operations of the list, in order, each owned by a section whose scope is that of the
   * body around it, and the labels are those of the list.
   */
  lemma ExpansionLists(t: Target, p: Program)
    requires ValidTarget(t)
    ensures var (r, l) := (ExpandProgram(t, p), ListProgram(t, p));
            && (r.errors == [] <==> l.Listed?)
            && (l.Listed? ==> Holds(r.prog, FullList(t, p)) && InContext(r.prog, l.next))
  {
    var start := Expanding(NewProg(p.docs, p.top), {}, []);
    StartHolds(p);
    BodyLists(t, p, p.statements, Scope(p.top, None), start, [], Context(p.docs, map[]));
    var l := ListProgram(t, p);
    if l.Listed? {
      var q := Expand(t, p, p.statements, p.top, start).prog;
      assert [] + l.items == l.items;
      assert Sound(t, q) by {
        NewProgWellFormed(p.docs, p.top);
        assert Sound(t, start.prog);
        hide Sound, Expand, ListBody;
        ExpandSound(t, p, p.statements, p.top, start);
      }
      hide Sound, Expand, ListBody, Holds, FinishExpansion, EndItems;
      EndHolds(t, p, q, l.items, l.next);
    }
  }
}
