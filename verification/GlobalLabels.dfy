/** Programs without dotted definitions of global labels: all of their jumps land. */
module GlobalLabels {
  import opened Base
  import opened Ast
  import opened CompilerProg
  import opened Expansion
  import opened Assembly
  import opened CodeOutput
  import opened LabelAddresses
  import opened JumpTargets

  predicate PlainDef(def: LabelDef) {
    IsGlobal(def.ident) ==> !def.dotted
  }

  /** No statement defines a global label with a dot, or names data with a global name. */
  predicate PlainStmt(s: Stmt)
    decreases s
  {
    match s
    case LabelStmt(def) => PlainDef(def)
    case BytesStmt(_, name) => name.Some? ==> PlainDef(name.value)
    case IncludeStmt(_, _, body) => PlainStmts(body)
    case _ => true
  }

  predicate PlainStmts(stmts: seq<Stmt>)
    decreases stmts
  {
    stmts == [] || (PlainStmt(stmts[0]) && PlainStmts(stmts[1..]))
  }

  /** This can be read off the source of a program. */
  predicate PlainProgram(p: Program) {
    PlainStmts(p.statements) && forall m :: 0 <= m < |p.instrMacros| ==> PlainStmts(p.instrMacros[m].body)
  }

  ghost predicate PlainLabels(q: Prog) {
    forall l :: 0 <= l < |q.labels| ==> PlainDef(q.labels[l].def)
  }

  lemma AddKeepsLabels(q: Prog, inst: Instr)
    ensures PlainLabels(AddInstruction(q, inst)) <==> PlainLabels(q)
  {
    hide PlainDef;
    var r := AddInstruction(q, inst);
    assert forall l :: 0 <= l < |q.labels| ==> r.labels[l].def == q.labels[l].def;
  }

  lemma OpcodeKeepsLabels(t: Target, p: Program, q: Prog, op: string, arg: Option<Expr>, immediates: seq<int>, doc: nat)
    ensures PlainLabels(ExpandOpcode(t, p, q, op, arg, immediates, doc).0) <==> PlainLabels(q)
  {
    hide PlainLabels, AddInstruction;
    forall r: Prog, inst
      ensures PlainLabels(AddInstruction(r, inst)) <==> PlainLabels(r)
    {
      AddKeepsLabels(r, inst);
    }
  }

  lemma LabelIsPlain(q: Prog, def: LabelDef, doc: nat)
    requires PlainLabels(q) && PlainDef(def)
    ensures PlainLabels(ExpandLabel(q, def, doc).0)
  {
    hide PlainDef;
    assert PlainLabels(AddLabel(q, def, doc));
    hide PlainLabels, AddLabel;
    AddKeepsLabels(AddLabel(q, def, doc), NewInstr("JUMPDEST", None));
  }

  lemma BytesArePlain(q: Prog, value: Expr, name: Option<LabelDef>, doc: nat)
    requires PlainLabels(q) && (name.Some? ==> PlainDef(name.value))
    ensures PlainLabels(ExpandBytes(q, value, name, doc).0)
  {
    hide PlainLabels, PlainDef, ExpandLabel, AddInstruction;
    if name.Some? {
      LabelIsPlain(q, name.value, doc);
    }
    var (r, e) := if name.None? then (q, None) else ExpandLabel(q, name.value, doc);
    AddKeepsLabels(r, NewInstr(BYTES, Some(value)));
  }

  lemma {:induction false} StmtIsPlain(t: Target, p: Program, s: Stmt, doc: nat, st: Expanding)
    requires HasSection(st.prog) && PlainProgram(p) && PlainStmt(s) && PlainLabels(st.prog)
    ensures PlainLabels(ExpandStmt(t, p, s, doc, st).prog)
    decreases MacrosLeft(p, st.macroStack), 1, s
  {
    hide PlainProgram, PlainDef, ExpandOpcode, ExpandLabel, ExpandBytes, ExpandCall, Restored, Expand, AddInstruction, PlainStmts;
    match s
    case OpcodeStmt(op, arg, immediates) => OpcodeKeepsLabels(t, p, st.prog, op, arg, immediates, doc);
    case LabelStmt(def) => LabelIsPlain(st.prog, def, doc);
    case PCLabelStmt(pc) => AddKeepsLabels(st.prog, NewInstr("", None).(assertedPC := Some(pc)));
    case MacroCallStmt(ident, args) => CallIsPlain(t, p, ident, args, doc, st);
    case IncludeStmt(incdoc, loaded, body) =>
      if loaded {
        var entered := EnterInclude(st, incdoc);
        assert PlainLabels(entered.prog);
        StmtsArePlain(t, p, body, incdoc, entered);
        var inner := Expand(t, p, body, incdoc, entered);
        EnterLeaveRestores(st, entered, inner, {});
        assert LeaveSection(inner, {}).prog.labels == inner.prog.labels;
      }
    case BytesStmt(value, name) => BytesArePlain(st.prog, value, name, doc);
    case MacroDefStmt(params) =>
    case OtherStmt =>
  }

  lemma {:induction false} CallIsPlain(t: Target, p: Program, ident: string, args: seq<Expr>, doc: nat, st: Expanding)
    requires HasSection(st.prog) && PlainProgram(p) && PlainLabels(st.prog)
    ensures PlainLabels(ExpandCall(t, p, ident, args, doc, st).prog)
    decreases MacrosLeft(p, st.macroStack), 0
  {
    hide PlainDef, Restored, Expand, PlainStmts;
    var m := LookupInstrMacro(p, st.prog.docs, ident, doc);
    if m.Some? && m.value < |p.instrMacros| && m.value !in st.macroStack && |args| == |p.instrMacros[m.value].params| {
      var def := p.instrMacros[m.value];
      EnterLeaves(p, st.macroStack, m.value);
      var entered := EnterMacro(st, def, m.value, args);
      assert PlainLabels(entered.prog);
      StmtsArePlain(t, p, def.body, |st.prog.docs|, entered);
      var inner := Expand(t, p, def.body, |st.prog.docs|, entered);
      EnterLeaveRestores(st, entered, inner, {m.value});
      assert LeaveSection(inner, {m.value}).prog.labels == inner.prog.labels;
    }
  }

  lemma {:induction false} StmtsArePlain(t: Target, p: Program, stmts: seq<Stmt>, doc: nat, st: Expanding)
    requires HasSection(st.prog) && PlainProgram(p) && PlainStmts(stmts) && PlainLabels(st.prog)
    ensures PlainLabels(Expand(t, p, stmts, doc, st).prog)
    decreases MacrosLeft(p, st.macroStack), 1, stmts
  {
    hide PlainProgram, PlainLabels, PlainStmt, ExpandStmt;
    if stmts != [] {
      StmtIsPlain(t, p, stmts[0], doc, st);
      StmtsArePlain(t, p, stmts[1..], doc, ExpandStmt(t, p, stmts[0], doc, st));
    }
  }

  lemma ProgramIsPlain(t: Target, p: Program)
    requires PlainProgram(p)
    ensures PlainLabels(ExpandProgram(t, p).prog)
  {
    var st := Expanding(NewProg(p.docs, p.top), {}, []);
    StmtsArePlain(t, p, p.statements, p.top, st);
    hide PlainProgram, PlainDef, Expand;
    var r := Expand(t, p, p.statements, p.top, st);
    AddKeepsLabels(r.prog, NewInstr("", None));
  }

  /**
   * In a program without data and without dotted definitions of global labels, every accepted jump to a
   * label pushes the offset of a JUMPDEST that a sweep over the code reaches.
   */
  lemma AllJumpsLand(i: Input, k: nat) returns (l: nat)
    requires MachineCodes(i.t) && Build(i).errors == [] && NoData(Build(i)) && PlainProgram(i.p)
    requires k < |Build(i).instrs| && LabelJump(Build(i), k)
    ensures LandsAt(Build(i), k, l) && ValidDestination(CodeOf(Build(i)), OffsetOf(Build(i), l))
  {
    l := OnlyDottedGlobalsFail(i, k);
    ProgramIsPlain(i.t, i.p);
    BuiltProg(i);
    hide Build, LandsAt, ValidDestination, CodeOf, PlainProgram, MachineCodes, NoData;
    LandsOn(Build(i), k, l);
    assert PlainDef(Build(i).prog.labels[l].def);
  }

  lemma LandsOn(b: Built, k: nat, l: nat)
    requires LandsAt(b, k, l)
    ensures HasPlaces(b) && l < |b.prog.labels|
  {
  }

  lemma BuiltProg(i: Input)
    requires ValidTarget(i.t)
    ensures Build(i).prog == ExpandProgram(i.t, i.p).prog
  {
    hide ExpandProgram;
  }
}
