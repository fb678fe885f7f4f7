/** A jump to a global label that is accepted although the label turns out to be dotted. */
module DottedJump {
  import opened Base
  import opened Lzint
  import opened InstructionSets
  import opened Ast
  import opened Evaluator
  import opened CompilerProg
  import opened Expansion
  import opened Relaxation
  import opened Assembly
  import opened CodeOutput
  import opened LabelAddresses
  import opened JumpTargets
  import SmallTarget

  /** An instruction set with plain JUMP and STOP operations. */
  ghost predicate HasJumps(t: Target) {
    && MachineCodes(t) && IsJump(t, "JUMP") && !IsJump(t, "STOP")
    && "JUMP" in t.fork.byName && t.fork.byName["JUMP"].code == 0x56
    && "STOP" in t.fork.byName && t.fork.byName["STOP"].code == 0x00 && !t.fork.byName["STOP"].hasImmediate
  }

  const PLAIN: LabelDef := LabelDef(0, "Foo", false)
  const DOTTED: LabelDef := LabelDef(1, "Foo", true)

  const EMPTY_DOC: Document := Document(None, map[], map[], map[])

  const REF: Expr := LabelRefExpr("Foo", false)
  const JUMP: Stmt := OpcodeStmt("JUMP", Some(REF), [])
  const STOP: Stmt := OpcodeStmt("STOP", None, [])
  const CALL: Stmt := MacroCallStmt("m", [])

  /**
   * Two instruction macros define the global label Foo. The first one, with "Foo:", is never called;
   * the second one, with ".Foo:", is called after the jump.
   *
   *   #define %unused() { Foo: }
   *   #define %m() { .Foo: stop }
   *   jump @Foo
   *   %m()
   */
  const PROGRAM: Program := Program(
    [EMPTY_DOC.(instrMacros := map["unused" := 0, "m" := 1]), EMPTY_DOC, EMPTY_DOC],
    Document(None, map["Foo" := PLAIN], map[], map[]),
    [],
    [InstrMacro("unused", [], [LabelStmt(PLAIN)], 1), InstrMacro("m", [], [LabelStmt(DOTTED), STOP], 2)],
    0,
    [JUMP, CALL])

  const START: Expanding := Expanding(NewProg(PROGRAM.docs, 0), {}, [])

  lemma NotPush()
    ensures !IsPush("JUMP") && !IsPush("STOP") && IsPush("PUSH")
  {
    assert "JUMP"[..4][0] == 'J' && "STOP"[..4][0] == 'S' && "PUSH"[0] == 'P' && "PUSH"[..4] == "PUSH";
  }

  // ----- expansion -----

  /** After the jump: its two instructions, and no labels. */
  ghost predicate AfterJump(st: Expanding) {
    && st.errors == [] && st.macroStack == {} && HasSection(st.prog) && st.prog.cur == 0
    && st.prog.docs == PROGRAM.docs && st.prog.sections == START.prog.sections
    && st.prog.globalLabels == map[] && st.prog.labels == [] && st.prog.currentLabels == [] && st.prog.places == []
    && st.prog.instrs == [NewInstr("PUSH", Some(REF)), NewInstr("JUMP", Some(REF))] && st.prog.owners == [0, 0]
  }

  /** The jump is accepted, because the definition in the first macro is the one on record. */
  lemma JumpAccepted(t: Target)
    requires HasJumps(t)
    ensures AfterJump(ExpandStmt(t, PROGRAM, JUMP, 0, START))
  {
    NotPush();
    hide IsPush, MachineCodes;
    assert IsGlobal("Foo");
    assert JumpArgError(PROGRAM, START.prog, 0, Some(REF)) == None;
  }

  /** The expanded program: one dotted instance of Foo, in front of the STOP of the macro. */
  ghost predicate Expanded(q: Prog) {
    && q.instrs == [NewInstr("PUSH", Some(REF)), NewInstr("JUMP", Some(REF)), NewInstr("STOP", None)]
    && |q.owners| == 3 && q.owners[0] == 0 && |q.sections| > 0 && q.sections[0] == Section(Scope(0, None), None)
    && q.globalLabels == map["Foo" := 0] && q.places == [2]
    && |q.labels| == 1 && q.labels[0].def == DOTTED && q.labels[0].instr == Some(2)
  }

  lemma BodyExpands(t: Target, entered: Expanding)
    requires HasJumps(t) && HasSection(entered.prog) && entered.prog.globalLabels == map[]
    ensures var q := AddInstruction(AddLabel(entered.prog, DOTTED, 3), NewInstr("STOP", None));
            Expand(t, PROGRAM, PROGRAM.instrMacros[1].body, 3, entered) == entered.(prog := q)
  {
    NotPush();
    hide IsPush, MachineCodes, AddInstruction, AddLabel;
    assert IsGlobal("Foo");
    var labelled := entered.(prog := AddLabel(entered.prog, DOTTED, 3));
    assert ExpandStmt(t, PROGRAM, LabelStmt(DOTTED), 3, entered) == labelled;
    var done := labelled.(prog := AddInstruction(labelled.prog, NewInstr("STOP", None)));
    assert HasSection(labelled.prog);
    assert ExpandStmt(t, PROGRAM, STOP, 3, labelled) == done;
    var body := PROGRAM.instrMacros[1].body;
    assert body == [LabelStmt(DOTTED), STOP] && body[1..] == [STOP] && [STOP][1..] == [];
    hide ExpandStmt;
    assert Expand(t, PROGRAM, [], 3, done) == done;
    assert Expand(t, PROGRAM, [STOP], 3, labelled) == done;
  }

  lemma CallExpands(t: Target, st: Expanding)
    requires HasJumps(t) && AfterJump(st)
    ensures var r := ExpandCall(t, PROGRAM, "m", [], 0, st);
            r.errors == [] && Expanded(r.prog) && r.prog.currentLabels == []
  {
    hide HasJumps;
    assert !IsGlobal("m");
    assert LookupInstrMacro(PROGRAM, st.prog.docs, "m", 0) == Some(1);
    var def := PROGRAM.instrMacros[1];
    var entered := EnterMacro(st, def, 1, []);
    assert entered.prog.globalLabels == map[] && entered.prog.labels == [] && |st.prog.docs| == 3;
    BodyExpands(t, entered);
    hide Expand;
    var q := AddInstruction(AddLabel(entered.prog, DOTTED, 3), NewInstr("STOP", None));
    assert IsGlobal("Foo");
    assert q.labels == [CompLabel(3, DOTTED, Some(2))];
  }

  lemma FirstExpands(t: Target, stmts: seq<Stmt>, doc: nat, st: Expanding)
    requires HasSection(st.prog) && stmts != []
    ensures Expand(t, PROGRAM, stmts, doc, st) == Expand(t, PROGRAM, stmts[1..], doc, ExpandStmt(t, PROGRAM, stmts[0], doc, st))
    ensures Expand(t, PROGRAM, [], doc, st) == st
  {
    hide ExpandStmt;
  }

  lemma CallStmtExpands(t: Target, st: Expanding)
    requires HasSection(st.prog)
    ensures ExpandStmt(t, PROGRAM, CALL, 0, st) == ExpandCall(t, PROGRAM, "m", [], 0, st)
  {
    hide ExpandCall;
  }

  lemma FinishKeeps(q: Prog)
    requires Expanded(q) && q.currentLabels == []
    ensures Expanded(FinishExpansion(q))
  {
  }

  lemma ProgramExpands(t: Target)
    requires HasJumps(t)
    ensures var r := ExpandProgram(t, PROGRAM); r.errors == [] && Expanded(r.prog)
  {
    JumpAccepted(t);
    var st := ExpandStmt(t, PROGRAM, JUMP, 0, START);
    CallExpands(t, st);
    assert HasSection(st.prog) && PROGRAM.statements[0] == JUMP && PROGRAM.statements[1..] == [CALL] && [CALL][1..] == [];
    hide ExpandCall, HasJumps, AfterJump, ExpandStmt, Expand, Expanded, FinishExpansion;
    CallStmtExpands(t, st);
    var last := ExpandCall(t, PROGRAM, "m", [], 0, st);
    FirstExpands(t, PROGRAM.statements, 0, START);
    FirstExpands(t, [CALL], 0, st);
    FirstExpands(t, [CALL], 0, last);
    FinishKeeps(last.prog);
  }

  // ----- compilation -----

  lemma FooFound(i: Input, q: Prog)
    requires i.p == PROGRAM && Expanded(q)
    ensures FindLabel(UnitOf(i, q).w, "Foo", 0) == Some(DOTTED)
    ensures UnitOf(i, q).table == map[LabelKey(None, DOTTED) := 2] && |UnitOf(i, q).scopes| == 3 && UnitOf(i, q).scopes[0] == Scope(0, None)
  {
    assert IsGlobal("Foo");
    assert KeyOf(q.labels[0]) == LabelKey(None, DOTTED);
    assert RegisteredLabels(q.labels, 0) == map[];
  }

  /** The value of the reference in any round: the position of the third instruction. */
  lemma FooValue(u: Unit, pcs: seq<nat>)
    requires FindLabel(u.w, "Foo", 0) == Some(DOTTED) && u.table == map[LabelKey(None, DOTTED) := 2] && |pcs| == 3
    ensures EvalArg(u, Placed(u.table, pcs), Scope(0, None), REF) == Known(FromInt(pcs[2]))
    ensures EvalArg(u, NoLabels, Scope(0, None), REF) == LabelUnassigned
  {
    hide FindLabel;
    assert IsGlobal("Foo");
  }

  const PUSH_PRE: Instr := NewInstr("PUSH", Some(REF)).(dataSize := 1)
  const JUMP_INSTR: Instr := NewInstr("JUMP", Some(REF))
  const STOP_INSTR: Instr := NewInstr("STOP", None)

  lemma FooPre(u: Unit, q: Prog)
    requires Expanded(q) && |u.scopes| == 3 && u.scopes[0] == Scope(0, None)
    requires EvalArg(u, NoLabels, Scope(0, None), REF) == LabelUnassigned
    ensures PreInstrs(u, q.instrs) == [PUSH_PRE, JUMP_INSTR, STOP_INSTR] && PreErrors(u, q.instrs, 3) == []
  {
    NotPush();
    assert "PUSH" != BYTES && "JUMP" != BYTES && "STOP" != BYTES by { assert BYTES[0] == '#'; }
    hide IsPush, EvalArg;
    assert ExplicitSize("PUSH") == None;
    assert PreEvaluated(u, u.scopes[0], q.instrs[0]) == (PUSH_PRE, None);
    assert PreEvaluated(u, u.scopes[1], q.instrs[1]) == (JUMP_INSTR, None);
    assert PreEvaluated(u, u.scopes[2], q.instrs[2]) == (STOP_INSTR, None);
    hide PreEvaluated;
    assert PreErrors(u, q.instrs, 0) == [] && PreErrors(u, q.instrs, 1) == [] && PreErrors(u, q.instrs, 2) == [];
  }

  lemma FooPositions(pre: seq<Instr>)
    requires pre == [PUSH_PRE, JUMP_INSTR, STOP_INSTR]
    ensures PCs(pre) == [0, 2, 3] && WithPCs(pre) == [PUSH_PRE, JUMP_INSTR.(pc := 2), STOP_INSTR.(pc := 3)]
  {
    assert BYTES[0] == '#';
    assert SizeBefore(pre, 0) == 0 && SizeBefore(pre, 1) == 2 && SizeBefore(pre, 2) == 3;
  }

  const PUSHED: Instr := PUSH_PRE.(data := [3])
  const FINAL: seq<Instr> := [PUSHED, JUMP_INSTR.(pc := 2), STOP_INSTR.(pc := 3)]

  lemma ThreeIsByte()
    ensures MinimalBytes(3) == [3]
  {
    assert BitLen(3) == 2;
    assert ToBase(256, 3, 0) == [];
  }

  lemma FooRelaxed(u: Unit, pre: seq<Instr>)
    requires pre == [PUSH_PRE, JUMP_INSTR, STOP_INSTR] && |u.scopes| == 3 && u.scopes[0] == Scope(0, None)
    requires EvalArg(u, Placed(u.table, PCs(pre)), Scope(0, None), REF) == Known(FromInt(3))
    ensures Relaxed(u, pre) == (FINAL, None)
  {
    FooPositions(pre);
    NotPush();
    ThreeIsByte();
    hide IsPush, EvalArg, MinimalBytes;
    var labels, placed := Placed(u.table, PCs(pre)), WithPCs(pre);
    assert ExplicitSize("PUSH") == None;
    assert Evaluated(u, labels, u.scopes[0], placed[0]) == (PUSHED, None);
    assert Evaluated(u, labels, u.scopes[1], FINAL[1]) == (FINAL[1], None);
    assert Evaluated(u, labels, u.scopes[2], FINAL[2]) == (FINAL[2], None);
    hide Evaluated, PCs, WithPCs;
    assert placed[0 := PUSHED] == FINAL && FINAL[1 := FINAL[1]] == FINAL && FINAL[2 := FINAL[2]] == FINAL;
    assert EvaluateFrom(u, labels, FINAL, 3) == (FINAL, Assigned);
    assert EvaluateFrom(u, labels, FINAL, 2) == (FINAL, Assigned);
    assert EvaluateFrom(u, labels, FINAL, 1) == (FINAL, Assigned);
    assert EvaluateFrom(u, labels, placed, 0) == (FINAL, Assigned);
  }

  /** The program compiles without error. */
  lemma FooBuilds(i: Input)
    requires HasJumps(i.t) && i.p == PROGRAM
    ensures var b := Build(i); b.errors == [] && b.instrs == FINAL && Expanded(b.prog) && b.unit == UnitOf(i, b.prog)
  {
    ProgramExpands(i.t);
    var q := ExpandProgram(i.t, i.p).prog;
    var u := UnitOf(i, q);
    FooFound(i, q);
    hide ExpandProgram, HasJumps, UnitOf;
    var pre: seq<Instr> := [PUSH_PRE, JUMP_INSTR, STOP_INSTR];
    FooPositions(pre);
    FooValue(u, PCs(pre));
    FooPre(u, q);
    FooRelaxed(u, pre);
    assert PCErrors(FINAL, 0) == [] && PCErrors(FINAL, 1) == [] && PCErrors(FINAL, 2) == [] && PCErrors(FINAL, 3) == [];
    hide PCErrors, PreErrors, Relaxed, PreInstrs;
    BuiltParts(i, q, pre);
  }

  lemma BuiltParts(i: Input, q: Prog, pre: seq<Instr>)
    requires ValidTarget(i.t) && q == ExpandProgram(i.t, i.p).prog && ExpandProgram(i.t, i.p).errors == [] && |q.instrs| == 3
    requires |UnitOf(i, q).scopes| == 3 && PreInstrs(UnitOf(i, q), q.instrs) == pre && PreErrors(UnitOf(i, q), q.instrs, 3) == []
    requires |pre| == 3 && Relaxed(UnitOf(i, q), pre) == (FINAL, None) && PCErrors(FINAL, 3) == []
    ensures Build(i).prog == q && Build(i).unit == UnitOf(i, q) && Build(i).instrs == FINAL && Build(i).errors == []
  {
    hide ExpandProgram, PreErrors, Relaxed, PCErrors, PreInstrs, UnitOf;
  }

  // ----- the code -----

  lemma FooPieces(t: Target)
    requires HasJumps(t)
    ensures PieceOf(t, FINAL[0]) == Code([0x60, 0x03]) && PieceOf(t, FINAL[1]) == Code([0x56]) && PieceOf(t, FINAL[2]) == Code([0x00])
  {
    NotPush();
    assert "PUSH" != BYTES && "JUMP" != BYTES && "STOP" != BYTES by { assert BYTES[0] == '#'; }
    hide IsPush;
    assert t.fork.byName[PushName(1)].code == 0x60;
    hide PushName;
    assert [0x60] + ZeroBytes(0) + [3] == [0x60, 3];
  }

  lemma FooCode(b: Built)
    requires AllReady(b) && HasJumps(b.unit.t) && b.instrs == FINAL
    ensures CodeOf(b) == [0x60, 0x03, 0x56, 0x00]
  {
    TargetComplete(b.unit.t);
    FooPieces(b.unit.t);
    hide *;
    GeneratedStep(b, 1);
    GeneratedStep(b, 2);
    GeneratedStep(b, 3);
    GeneratedNone(b);
    WholeCode(b);
    assert [0x60, 0x03] + [0x56] + [0x00] == [0x60, 0x03, 0x56, 0x00];
  }

  lemma GeneratedNone(b: Built)
    ensures Generated(b.unit.t, b.instrs, 0) == Written([], 0)
  {
  }

  lemma WholeCode(b: Built)
    requires Generated(b.unit.t, b.instrs, |b.instrs|).Written?
    ensures CodeOf(b) == Generated(b.unit.t, b.instrs, |b.instrs|).code
  {
    hide Generated;
  }

  lemma TargetComplete(t: Target)
    requires HasJumps(t)
    ensures CompleteTarget(t) && MachineCodes(t)
  {
  }

  lemma FooPlace(b: Built)
    requires HasPlaces(b) && Expanded(b.prog) && b.instrs == FINAL
    ensures OffsetOf(b, 0) == 3 && !MeetsDest(b.prog.instrs, b.prog.places[0])
    ensures Denotes(b.prog, "Foo", DOTTED, 0, 0)
  {
    assert IsGlobal("Foo");
    assert BYTES[0] == '#';
    assert SizeBefore(b.instrs, 0) == 0 && SizeBefore(b.instrs, 1) == 2 && SizeBefore(b.instrs, 2) == 3;
  }

  /**
   * For every instruction set with JUMP and STOP, the program compiles without error to the code
   * 60 03 56 00. Its jump names Foo without a dot and passes validation, and pushes the offset 3 of the
   * dotted instance: a STOP, and no valid destination.
   */
  lemma AcceptedDottedJump(i: Input)
    requires HasJumps(i.t) && i.p == PROGRAM
    ensures ValidTarget(i.t)
    ensures var b := Build(i);
            && b.errors == [] && CodeOf(b) == [0x60, 0x03, 0x56, 0x00]
            && |b.instrs| == 3 && LabelJump(b, 1) && LandsAt(b, 1, 0) && OffsetOf(b, 0) == 3
            && !ValidDestination(CodeOf(b), 3)
  {
    TargetComplete(i.t);
    FooBuilds(i);
    BuildReady(i);
    BuildHasPlaces(i);
    BuiltFor(i);
    var b := Build(i);
    hide Build, AllReady, HasJumps, MachineCodes, ValidDestination, CodeOf, Expanded;
    FooCode(b);
    FooPlace(b);
    FooJump(b);
    hide HasPlaces, LandsAt, OffsetOf, MeetsDest;
    var l := JumpsLand(i, 1);
    OnlyLabel(b, l);
  }

  lemma FooJump(b: Built)
    requires b.instrs == FINAL
    ensures LabelJump(b, 1) && NoData(b)
  {
    NotPush();
    assert BYTES[0] == '#';
  }

  lemma OnlyLabel(b: Built, l: nat)
    requires LandsAt(b, 1, l) && Expanded(b.prog) && HasPlaces(b) && OffsetOf(b, 0) == 3
    requires !MeetsDest(b.prog.instrs, b.prog.places[0])
    ensures l == 0 && !ValidDestination(CodeOf(b), 3)
  {
    hide MeetsDest, ValidDestination, CodeOf, OffsetOf;
  }

  /** There is such an instruction set. */
  lemma SmallHasJumps()
    ensures HasJumps(SmallTarget.Small())
  {
    SmallTarget.SmallIsTarget();
    SmallTarget.SmallHas(SmallTarget.STOP_CODE);
    SmallTarget.SmallHas(SmallTarget.JUMP_CODE);
    hide MachineCodes;
  }
}
