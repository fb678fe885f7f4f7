/** Expansion of statements into sections of instructions (asm/compiler_expand.go). */
module Expansion {
  import opened Base
  import opened Numerals
  import opened Lzint
  import opened EvmOps
  import opened InstructionSets
  import opened Ast
  import opened Evaluator
  import opened CompilerProg

  datatype CompileError =
    | DuplicateLabel
    | DuplicateParam
    | UnknownOpcode
    | PushWithoutArgument
    | JumpNeedsLiteralLabel
    | JumpToDottedLabel
    | JumpToUndefinedLabel
    | Push0WithArgument
    | UnexpectedArgument
    | MissingImmediate
    | BadImmediate
    | UnexpectedImmediate
    | UndefinedInstrMacro
    | RecursiveMacro
    | MacroArgumentCount
    | LabelInBytes
    | EvalFailed(cause: EvalError)
    | UnassignedLabel
    | BytesFailed(reason: BytesError)
    | NegativeResult
    | PushOverflow256
    | FixedSizePushOverflow
    | VariablePushOverflow
    | PCMismatch

  /** The table of all operations, and the instruction set of the target fork. */
  datatype Target = Target(table: map<string, Op>, fork: OpTable)

  datatype Expanding = Expanding(prog: Prog, macroStack: set<nat>, errors: seq<CompileError>)

  function WithError(st: Expanding, e: Option<CompileError>): Expanding {
    if e.Some? then st.(errors := st.errors + [e.value]) else st
  }

  // ----- labels and opcodes -----

  /** The definition of a label; an instantiated global label comes first. */
  function ProgLabel(p: Program, prog: Prog, name: string, doc: nat): Option<LabelDef> {
    if name in prog.globalLabels && prog.globalLabels[name] < |prog.labels| then Some(prog.labels[prog.globalLabels[name]].def)
    else LookupLabel(p, prog.docs, name, doc)
  }

  ghost predicate SameSection(before: Prog, after: Prog) {
    after.cur == before.cur && after.sections == before.sections
  }

  function ExpandLabel(prog: Prog, def: LabelDef, doc: nat): (r: (Prog, Option<CompileError>))
    ensures SameSection(prog, r.0)
  {
    if IsGlobal(def.ident) && def.ident in prog.globalLabels then (prog, Some(DuplicateLabel))
    else
      var q := AddLabel(prog, def, doc);
      (if def.dotted then q else AddInstruction(q, NewInstr("JUMPDEST", None)), None)
  }

  predicate IsJump(t: Target, op: string) {
    op in t.table && t.table[op].jump
  }

  /** Checks that the argument of a jump is a defined label. */
  function JumpArgError(p: Program, prog: Prog, doc: nat, arg: Option<Expr>): Option<CompileError> {
    if arg.None? then None
    else if !arg.value.LabelRefExpr? then Some(JumpNeedsLiteralLabel)
    else if arg.value.dotted then Some(JumpToDottedLabel)
    else
      match ProgLabel(p, prog, arg.value.ident, doc)
      case None => Some(JumpToUndefinedLabel)
      case Some(def) => if def.dotted then Some(JumpToDottedLabel) else None
  }

  function ExpandPush(t: Target, prog: Prog, op: string, arg: Option<Expr>): (r: (Prog, Option<CompileError>))
    ensures SameSection(prog, r.0)
  {
    if op != "PUSH" && op !in t.fork.byName then (prog, Some(UnknownOpcode))
    else if arg.None? then (prog, Some(PushWithoutArgument))
    else (AddInstruction(prog, NewInstr(op, arg)), None)
  }

  /** A jump to a label turns into a push of the label and the jump. */
  function ExpandJump(t: Target, p: Program, prog: Prog, op: string, arg: Option<Expr>, doc: nat): (r: (Prog, Option<CompileError>))
    ensures SameSection(prog, r.0)
  {
    var e := JumpArgError(p, prog, doc, arg);
    if e.Some? then (prog, e)
    else if op !in t.fork.byName then (prog, Some(UnknownOpcode))
    else
      var q := if arg.Some? then AddInstruction(prog, NewInstr("PUSH", arg)) else prog;
      (AddInstruction(q, NewInstr(op, arg)), None)
  }

  function ExpandPlain(t: Target, prog: Prog, op: string, arg: Option<Expr>, immediates: seq<int>): (r: (Prog, Option<CompileError>))
    ensures SameSection(prog, r.0)
  {
    if op !in t.fork.byName then (prog, Some(UnknownOpcode))
    else if arg.Some? then (prog, Some(if op == "PUSH0" then Push0WithArgument else UnexpectedArgument))
    else if t.fork.byName[op].hasImmediate then
      if immediates == [] then (prog, Some(MissingImmediate))
      else
        match EncodeImmediateArgs(t.fork.byName[op].name, immediates)
        case None => (prog, Some(BadImmediate))
        case Some(imm) => (AddInstruction(prog, NewInstr(op, None).(data := [imm], dataSize := 1)), None)
    else if immediates != [] then (prog, Some(UnexpectedImmediate))
    else (AddInstruction(prog, NewInstr(op, None)), None)
  }

  function ExpandOpcode(t: Target, p: Program, prog: Prog, op: string, arg: Option<Expr>, immediates: seq<int>, doc: nat)
    : (r: (Prog, Option<CompileError>))
    ensures SameSection(prog, r.0)
  {
    if IsPush(op) && op != "PUSH0" then ExpandPush(t, prog, op, arg)
    else if IsJump(t, op) then ExpandJump(t, p, prog, op, arg, doc)
    else ExpandPlain(t, prog, op, arg, immediates)
  }

  function ExpandBytes(prog: Prog, value: Expr, name: Option<LabelDef>, doc: nat): (r: (Prog, Option<CompileError>))
    ensures SameSection(prog, r.0)
  {
    var (q, e) := if name.None? then (prog, None) else ExpandLabel(prog, name.value, doc);
    if e.Some? then (q, e) else (AddInstruction(q, NewInstr(BYTES, Some(value))), None)
  }

  /** The number of repeated names in a parameter list. */
  function Duplicates(params: seq<string>): nat {
    if params == [] then 0
    else
      var n := |params| - 1;
      Duplicates(params[..n]) + (if params[n] in params[..n] then 1 else 0)
  }

  function DuplicateErrors(n: nat): seq<CompileError> {
    if n == 0 then [] else DuplicateErrors(n - 1) + [DuplicateParam]
  }

  // ----- statements -----

  /** How many more instruction macros can be entered. */
  function MacrosLeft(p: Program, stack: set<nat>): nat {
    |AllMacros(|p.instrMacros|) - stack|
  }

  lemma EnterLeaves(p: Program, stack: set<nat>, m: nat)
    requires m < |p.instrMacros| && m !in stack
    ensures MacrosLeft(p, stack + {m}) < MacrosLeft(p, stack)
  {
    var all := AllMacros(|p.instrMacros|);
    assert all - (stack + {m}) == (all - stack) - {m};
  }

  /** The macro stack and the section stack are as they were; earlier sections are unchanged. */
  ghost predicate Restored(before: Expanding, after: Expanding) {
    && after.macroStack == before.macroStack
    && after.prog.cur == before.prog.cur
    && |before.prog.sections| <= |after.prog.sections|
    && after.prog.sections[..|before.prog.sections|] == before.prog.sections
  }

  /** The scope of a macro expansion: a copy of the body document, and the arguments of the call. */
  function EnterMacro(st: Expanding, def: InstrMacro, m: nat, args: seq<Expr>): (r: Expanding)
    requires HasSection(st.prog)
    ensures HasSection(r.prog)
    ensures |r.prog.sections| == |st.prog.sections| + 1 && r.prog.sections[..|st.prog.sections|] == st.prog.sections
    ensures r.prog.cur == |st.prog.sections| && r.prog.sections[r.prog.cur].parent == Some(st.prog.cur)
    ensures r.macroStack == st.macroStack + {m}
  {
    var copy := Document(Some(def.doc), map[], map[], map[]);
    var scope := Scope(|st.prog.docs|, Some(CallArgs(CurScope(st.prog), def.params, args)));
    Expanding(PushSection(st.prog.(docs := st.prog.docs + [copy]), scope), st.macroStack + {m}, st.errors)
  }

  /** Whatever was expanded in between, leaving restores what entering found. */
  lemma EnterLeaveRestores(st: Expanding, entered: Expanding, inner: Expanding, added: set<nat>)
    requires HasSection(st.prog)
    requires |entered.prog.sections| == |st.prog.sections| + 1
    requires entered.prog.sections[..|st.prog.sections|] == st.prog.sections
    requires entered.prog.cur == |st.prog.sections| && entered.prog.sections[entered.prog.cur].parent == Some(st.prog.cur)
    requires entered.macroStack == st.macroStack + added && st.macroStack !! added
    requires Restored(entered, inner)
    ensures HasSection(inner.prog) && inner.prog.sections[inner.prog.cur].parent == Some(st.prog.cur)
    ensures Restored(st, LeaveSection(inner, added))
  {
    var n := |st.prog.sections|;
    assert inner.prog.sections[..n + 1][n] == entered.prog.sections[n];
    assert inner.prog.sections[..n] == inner.prog.sections[..n + 1][..n];
  }

  function EnterInclude(st: Expanding, incdoc: nat): (r: Expanding)
    requires HasSection(st.prog)
    ensures HasSection(r.prog)
    ensures |r.prog.sections| == |st.prog.sections| + 1 && r.prog.sections[..|st.prog.sections|] == st.prog.sections
    ensures r.prog.cur == |st.prog.sections| && r.prog.sections[r.prog.cur].parent == Some(st.prog.cur)
    ensures r.macroStack == st.macroStack
  {
    st.(prog := PushSection(st.prog, Scope(incdoc, CurScope(st.prog).args)))
  }

  /** Returns from a section, and takes macros off the stack. */
  function LeaveSection(inner: Expanding, entered: set<nat>): Expanding
    requires HasSection(inner.prog) && inner.prog.sections[inner.prog.cur].parent.Some?
  {
    Expanding(PopSection(inner.prog), inner.macroStack - entered, inner.errors)
  }

  /** Expands the body of an instruction macro. */
  function ExpandCall(t: Target, p: Program, ident: string, args: seq<Expr>, doc: nat, st: Expanding): (r: Expanding)
    requires HasSection(st.prog)
    ensures Restored(st, r) && HasSection(r.prog)
    decreases MacrosLeft(p, st.macroStack), 0
  {
    var m := LookupInstrMacro(p, st.prog.docs, ident, doc);
    if m.None? || m.value >= |p.instrMacros| then WithError(st, Some(UndefinedInstrMacro))
    else if m.value in st.macroStack then WithError(st, Some(RecursiveMacro))
    else
      var def := p.instrMacros[m.value];
      if |args| != |def.params| then WithError(st, Some(MacroArgumentCount))
      else
        EnterLeaves(p, st.macroStack, m.value);
        var entered := EnterMacro(st, def, m.value, args);
        var inner := Expand(t, p, def.body, |st.prog.docs|, entered);
        EnterLeaveRestores(st, entered, inner, {m.value});
        LeaveSection(inner, {m.value})
  }

  /** Expands one statement. */
  function ExpandStmt(t: Target, p: Program, s: Stmt, doc: nat, st: Expanding): (r: Expanding)
    requires HasSection(st.prog)
    ensures Restored(st, r) && HasSection(r.prog)
    decreases MacrosLeft(p, st.macroStack), 1, s
  {
    match s
    case OpcodeStmt(op, arg, immediates) =>
      var (q, e) := ExpandOpcode(t, p, st.prog, op, arg, immediates, doc);
      WithError(st.(prog := q), e)
    case LabelStmt(def) =>
      var (q, e) := ExpandLabel(st.prog, def, doc);
      WithError(st.(prog := q), e)
    case PCLabelStmt(pc) => st.(prog := AddInstruction(st.prog, NewInstr("", None).(assertedPC := Some(pc))))
    case MacroCallStmt(ident, args) => ExpandCall(t, p, ident, args, doc, st)
    case IncludeStmt(incdoc, loaded, body) =>
      if !loaded then st
      else
        var entered := EnterInclude(st, incdoc);
        var inner := Expand(t, p, body, incdoc, entered);
        EnterLeaveRestores(st, entered, inner, {});
        LeaveSection(inner, {})
    case BytesStmt(value, name) =>
      var (q, e) := ExpandBytes(st.prog, value, name, doc);
      WithError(st.(prog := q), e)
    case MacroDefStmt(params) => st.(errors := st.errors + DuplicateErrors(Duplicates(params)))
    case OtherStmt => st
  }

  /** Expands statements in order. */
  function Expand(t: Target, p: Program, stmts: seq<Stmt>, doc: nat, st: Expanding): (r: Expanding)
    requires HasSection(st.prog)
    ensures Restored(st, r) && HasSection(r.prog)
    decreases MacrosLeft(p, st.macroStack), 1, stmts
  {
    if stmts == [] then st
    else
      var next := ExpandStmt(t, p, stmts[0], doc, st);
      var r := Expand(t, p, stmts[1..], doc, next);
      RestoredTransitive(st, next, r);
      r
  }

  lemma RestoredTransitive(a: Expanding, b: Expanding, c: Expanding)
    requires Restored(a, b) && Restored(b, c)
    ensures Restored(a, c)
  {
    var n := |a.prog.sections|;
    assert c.prog.sections[..n] == c.prog.sections[..|b.prog.sections|][..n];
  }

  // ----- what expansion establishes -----

  /** An instruction as expansion leaves it: only immediates have data, and only known operations occur. */
  ghost predicate Fits(t: Target, inst: Instr) {
    && !inst.argNoLabels && inst.pc == 0
    && if inst.op == "" then inst.data == [] && inst.dataSize == 0 && inst.arg.None?
       else if inst.op == BYTES then inst.data == [] && inst.dataSize == 0 && inst.arg.Some?
       else if IsPush(inst.op) then
         && inst.data == [] && inst.dataSize == 0
         && (inst.op == "PUSH" || inst.op in t.fork.byName)
         && (inst.arg.None? <==> inst.op == "PUSH0")
       else
         && (inst.op == "JUMPDEST" || inst.op in t.fork.byName)
         && inst.dataSize == |inst.data|
         && (inst.arg.Some? ==> IsJump(t, inst.op))
         && (inst.data != [] ==>
               && inst.op in t.fork.byName && t.fork.byName[inst.op].hasImmediate
               && |inst.data| == 1 && Emitted(t.fork.byName[inst.op].name, inst.data[0]))
  }

  /** The label that a jump names is defined, and no dotted label, unless its name is global. */
  ghost predicate LocalTarget(p: Prog, ident: string, doc: nat) {
    !IsGlobal(ident) ==> LabelIn(p.docs, ident, doc).Some? && !LabelIn(p.docs, ident, doc).value.dotted
  }

  /** A jump with an argument follows a push of the same label, in the same section. */
  ghost predicate JumpPair(t: Target, p: Prog, k: nat)
    requires k < |p.instrs| == |p.owners| && p.owners[k] < |p.sections|
  {
    !IsPush(p.instrs[k].op) && p.instrs[k].op != BYTES && p.instrs[k].arg.Some? ==>
      && k > 0 && p.instrs[k - 1].op == "PUSH" && p.instrs[k - 1].arg == p.instrs[k].arg && p.owners[k - 1] == p.owners[k]
      && p.instrs[k].arg.value.LabelRefExpr? && !p.instrs[k].arg.value.dotted
      && LocalTarget(p, p.instrs[k].arg.value.ident, p.sections[p.owners[k]].scope.doc)
  }

  ghost predicate Sound(t: Target, p: Prog) {
    && WellFormed(p)
    && (forall l :: 0 <= l < |p.labels| ==> JumpDestAt(p, l))
    && (forall k :: 0 <= k < |p.instrs| ==> Fits(t, p.instrs[k]))
    && (forall k :: 0 <= k < |p.instrs| ==> JumpPair(t, p, k))
  }

  lemma {:induction false} LabelInMore(docs: seq<Document>, more: seq<Document>, name: string, doc: nat)
    requires LabelIn(docs, name, doc).Some?
    ensures LabelIn(docs + more, name, doc) == LabelIn(docs, name, doc)
    decreases doc
  {
    if name !in docs[doc].labels {
      LabelInMore(docs, more, name, Enclosing(docs, doc).value);
    }
  }

  lemma JumpPairKept(t: Target, p: Prog, q: Prog, more: seq<Document>, k: nat)
    requires k < |p.instrs| == |p.owners| && k < |q.instrs| == |q.owners|
    requires p.owners[..k + 1] == q.owners[..k + 1] && p.instrs[..k + 1] == q.instrs[..k + 1]
    requires p.owners[k] < |p.sections| && p.owners[k] < |q.sections|
    requires q.sections[p.owners[k]] == p.sections[p.owners[k]]
    requires q.docs == p.docs + more
    requires JumpPair(t, p, k)
    ensures q.owners[k] < |q.sections| && JumpPair(t, q, k)
  {
    hide LabelIn;
    assert p.owners[..k + 1][k] == q.owners[k] && p.instrs[..k + 1][k] == q.instrs[k];
    if k > 0 {
      assert p.owners[..k + 1][k - 1] == q.owners[k - 1] && p.instrs[..k + 1][k - 1] == q.instrs[k - 1];
    }
    if p.instrs[k].arg.Some? && p.instrs[k].arg.value.LabelRefExpr? {
      var ident, doc := p.instrs[k].arg.value.ident, p.sections[p.owners[k]].scope.doc;
      if !IsGlobal(ident) && LabelIn(p.docs, ident, doc).Some? {
        LabelInMore(p.docs, more, ident, doc);
      }
    }
  }

  /** Operations that do not add instructions keep the facts about instructions. */
  lemma SoundFrame(t: Target, p: Prog, q: Prog, more: seq<Document>)
    requires Sound(t, p) && WellFormed(q)
    requires q.instrs == p.instrs && q.owners == p.owners && q.docs == p.docs + more
    requires |p.sections| <= |q.sections| && q.sections[..|p.sections|] == p.sections
    requires forall l :: 0 <= l < |q.labels| ==> JumpDestAt(q, l)
    ensures Sound(t, q)
  {
    hide Fits, JumpDestAt;
    forall k | 0 <= k < |q.instrs|
      ensures JumpPair(t, q, k)
    {
      assert JumpPair(t, p, k);
      assert q.sections[..|p.sections|][p.owners[k]] == p.sections[p.owners[k]];
      hide WellFormed, JumpPair;
      JumpPairKept(t, p, q, more, k);
    }
  }

  lemma LabelsKept(p: Prog, q: Prog)
    requires WellFormed(p) && WellFormed(q)
    requires forall l :: 0 <= l < |p.labels| ==> JumpDestAt(p, l)
    requires |q.labels| == |p.labels| && q.places == p.places
    requires |p.instrs| <= |q.instrs| && q.instrs[..|p.instrs|] == p.instrs
    requires forall l :: 0 <= l < |p.labels| ==> q.labels[l].def == p.labels[l].def
    ensures forall l :: 0 <= l < |q.labels| ==> JumpDestAt(q, l)
  {
    hide Walk, LabelLinked;
    forall l | 0 <= l < |q.labels|
      ensures JumpDestAt(q, l)
    {
      assert JumpDestAt(p, l);
      if !q.labels[l].def.dotted {
        assert q.instrs[..|p.instrs|][q.places[l]] == p.instrs[p.places[l]];
      }
    }
  }

  lemma SoundSection(t: Target, p: Prog, scope: Scope, more: seq<Document>)
    requires Sound(t, p)
    ensures Sound(t, PushSection(p.(docs := p.docs + more), scope))
  {
    var q := p.(docs := p.docs + more);
    assert WellFormed(q) by { WellFormedDocs(p, more); }
    PushSectionWellFormed(q, scope);
    var r := PushSection(q, scope);
    hide WellFormed;
    LabelsKept(p, r);
    SoundFrame(t, p, r, more);
  }

  lemma WellFormedDocs(p: Prog, more: seq<Document>)
    requires WellFormed(p)
    ensures WellFormed(p.(docs := p.docs + more))
  {
    hide Walk;
    var q := p.(docs := p.docs + more);
    forall l | 0 <= l < |q.labels|
      ensures LabelLinked(q, l)
    {
      assert LabelLinked(p, l);
    }
  }

  lemma SoundPop(t: Target, p: Prog)
    requires Sound(t, p) && HasSection(p) && p.sections[p.cur].parent.Some?
    ensures Sound(t, PopSection(p))
  {
    PopSectionWellFormed(p);
    hide WellFormed;
    LabelsKept(p, PopSection(p));
    assert p.docs + [] == p.docs;
    SoundFrame(t, p, PopSection(p), []);
  }

  lemma InstrAdded(t: Target, p: Prog, q: Prog, inst: Instr)
    requires Sound(t, p) && WellFormed(q) && Fits(t, inst)
    requires q.instrs == p.instrs + [inst] && q.owners == p.owners + [p.cur]
    requires q.sections == p.sections && q.docs == p.docs
    requires forall l :: 0 <= l < |q.labels| ==> JumpDestAt(q, l)
    requires |q.instrs| == |q.owners| && JumpPair(t, q, |p.instrs|)
    ensures Sound(t, q)
  {
    assert p.docs + [] == q.docs;
    hide Fits, JumpDestAt, Walk, LabelLinked;
    forall k | 0 <= k < |q.instrs|
      ensures Fits(t, q.instrs[k]) && JumpPair(t, q, k)
    {
      if k < |p.instrs| {
        assert JumpPair(t, p, k) && Fits(t, p.instrs[k]);
        assert p.owners[..k + 1] == q.owners[..k + 1] && p.instrs[..k + 1] == q.instrs[..k + 1];
        hide WellFormed, JumpPair;
        JumpPairKept(t, p, q, [], k);
      }
    }
  }

  /** Adding an instruction that fits. */
  lemma SoundAdd(t: Target, p: Prog, inst: Instr)
    requires Sound(t, p) && Fits(t, inst) && HasSection(p)
    requires |p.owners| == |p.instrs| && JumpPair(t, AddInstruction(p, inst), |p.instrs|)
    ensures Sound(t, AddInstruction(p, inst))
  {
    AddInstructionWellFormed(p, inst);
    var q := AddInstruction(p, inst);
    assert q.instrs[..|p.instrs|] == p.instrs;
    hide WellFormed, JumpPair, Fits;
    LabelsKept(p, q);
    InstrAdded(t, p, q, inst);
  }

  /** Instructions without argument, pushes and data are not jumps to labels. */
  lemma SoundAddPlain(t: Target, p: Prog, inst: Instr)
    requires Sound(t, p) && Fits(t, inst)
    requires inst.arg.None? || IsPush(inst.op) || inst.op == BYTES
    ensures Sound(t, AddInstruction(p, inst))
  {
    hide LocalTarget, JumpDestAt, Walk, LabelLinked, Fits;
    var q := AddInstruction(p, inst);
    assert q.owners[|p.instrs|] == p.cur < |q.sections|;
    assert JumpPair(t, q, |p.instrs|);
    SoundAdd(t, p, inst);
  }

  lemma SoundDotted(t: Target, p: Prog, def: LabelDef, doc: nat)
    requires Sound(t, p) && def.dotted
    ensures Sound(t, AddLabel(p, def, doc))
  {
    AddLabelWellFormed(p, def, doc);
    var q := AddLabel(p, def, doc);
    forall l | 0 <= l < |q.labels|
      ensures JumpDestAt(q, l)
    {
      if l < |p.labels| {
        assert JumpDestAt(p, l);
      }
    }
    assert p.docs + [] == q.docs;
    hide WellFormed, JumpDestAt, JumpPair, Fits;
    SoundFrame(t, p, q, []);
  }

  lemma DestFits(t: Target)
    ensures Fits(t, NewInstr("JUMPDEST", None))
  {
    assert "JUMPDEST"[..4][0] == 'J';
    assert "PUSH"[0] == 'P';
  }

  lemma SoundLabelled(t: Target, p: Prog, def: LabelDef, doc: nat)
    requires Sound(t, p)
    ensures Sound(t, AddInstruction(AddLabel(p, def, doc), NewInstr("JUMPDEST", None)))
  {
    LabelledJumpDest(p, def, doc);
    DestFits(t);
    var inst := NewInstr("JUMPDEST", None);
    hide Walk, LabelLinked, JumpDestAt, LocalTarget, Fits;
    var r := AddInstruction(AddLabel(p, def, doc), inst);
    assert JumpPair(t, r, |p.instrs|);
    hide WellFormed, JumpPair;
    InstrAdded(t, p, r, inst);
  }

  lemma SoundLabel(t: Target, p: Prog, def: LabelDef, doc: nat)
    requires Sound(t, p)
    ensures Sound(t, ExpandLabel(p, def, doc).0)
  {
    hide Sound;
    if def.dotted {
      SoundDotted(t, p, def, doc);
    } else {
      SoundLabelled(t, p, def, doc);
    }
  }

  lemma SoundPush(t: Target, p: Prog, op: string, arg: Option<Expr>)
    requires Sound(t, p) && IsPush(op) && op != "PUSH0"
    ensures Sound(t, ExpandPush(t, p, op, arg).0)
  {
    if (op == "PUSH" || op in t.fork.byName) && arg.Some? {
      assert Fits(t, NewInstr(op, arg));
      hide Sound, Fits;
      SoundAddPlain(t, p, NewInstr(op, arg));
    }
  }

  lemma SoundPlain(t: Target, p: Prog, op: string, arg: Option<Expr>, immediates: seq<int>)
    requires Sound(t, p) && (IsPush(op) ==> op == "PUSH0") && ValidTarget(t)
    ensures Sound(t, ExpandPlain(t, p, op, arg, immediates).0)
  {
    if op in t.fork.byName && arg.None? {
      var inst := NewInstr(op, None);
      if t.fork.byName[op].hasImmediate {
        var imm := EncodeImmediateArgs(t.fork.byName[op].name, immediates);
        if imm.Some? {
          assert Emitted(t.fork.byName[op].name, imm.value);
          assert Fits(t, inst.(data := [imm.value], dataSize := 1));
          hide Sound, Fits;
          SoundAddPlain(t, p, inst.(data := [imm.value], dataSize := 1));
        }
      } else {
        assert Fits(t, inst);
        hide Sound, Fits;
        SoundAddPlain(t, p, inst);
      }
    }
  }

  /** PUSH operations have data bytes, but no immediates. */
  ghost predicate PushesHaveNoImmediate(t: Target) {
    forall op :: op in t.fork.byName && IsPush(op) ==> !t.fork.byName[op].hasImmediate
  }

  /** PUSH operations are no jumps, and no operation has an empty name. */
  ghost predicate ValidTarget(t: Target) {
    && PushesHaveNoImmediate(t)
    && (forall op :: IsPush(op) ==> !IsJump(t, op))
    && "" !in t.fork.byName && BYTES !in t.fork.byName
  }

  lemma SoundJump(t: Target, p: Program, prog: Prog, op: string, arg: Option<Expr>, doc: nat)
    requires Sound(t, prog) && IsJump(t, op) && ValidTarget(t)
    requires HasSection(prog) && doc == CurScope(prog).doc
    ensures Sound(t, ExpandJump(t, p, prog, op, arg, doc).0)
  {
    if JumpArgError(p, prog, doc, arg).None? && op in t.fork.byName {
      var inst := NewInstr(op, arg);
      assert Fits(t, inst);
      if arg.None? {
        hide Sound, Fits, ValidTarget;
        SoundAddPlain(t, prog, inst);
      } else {
        var push := NewInstr("PUSH", arg);
        assert IsPush("PUSH") by { assert "PUSH"[..4] == "PUSH"; }
        assert Fits(t, push);
        SoundAddPlain(t, prog, push);
        var q := AddInstruction(prog, push);
        ValidatedTarget(p, prog, doc, arg.value);
        JumpPairAdded(t, prog, q, push, inst, doc);
        hide JumpPair, Fits, JumpDestAt, WellFormed, LocalTarget;
        SoundAdd(t, q, inst);
      }
    }
  }

  lemma ValidatedTarget(p: Program, prog: Prog, doc: nat, arg: Expr)
    requires WellFormed(prog) && JumpArgError(p, prog, doc, Some(arg)).None?
    ensures arg.LabelRefExpr? && !arg.dotted && LocalTarget(prog, arg.ident, doc)
  {
    hide Walk, LabelLinked;
  }

  lemma JumpPairAdded(t: Target, p: Prog, q: Prog, push: Instr, inst: Instr, doc: nat)
    requires Sound(t, p) && Sound(t, q) && q == AddInstruction(p, push)
    requires HasSection(p) && doc == CurScope(p).doc
    requires push.op == "PUSH" && push.arg == inst.arg && inst.arg.Some? && inst.arg.value.LabelRefExpr? && !inst.arg.value.dotted
    requires LocalTarget(p, inst.arg.value.ident, doc)
    ensures HasSection(q) && |q.owners| == |q.instrs|
    ensures var r := AddInstruction(q, inst);
            |r.owners| == |r.instrs| && r.owners[|q.instrs|] < |r.sections| && JumpPair(t, r, |q.instrs|)
  {
    hide Walk, LabelLinked, LabelIn, JumpDestAt, Fits;
  }

  lemma SoundOpcode(t: Target, p: Program, prog: Prog, op: string, arg: Option<Expr>, immediates: seq<int>, doc: nat)
    requires Sound(t, prog) && ValidTarget(t)
    requires HasSection(prog) && doc == CurScope(prog).doc
    ensures Sound(t, ExpandOpcode(t, p, prog, op, arg, immediates, doc).0)
  {
    hide Sound, ValidTarget;
    if IsPush(op) && op != "PUSH0" {
      SoundPush(t, prog, op, arg);
    } else if IsJump(t, op) {
      SoundJump(t, p, prog, op, arg, doc);
    } else {
      SoundPlain(t, prog, op, arg, immediates);
    }
  }

  lemma SoundBytes(t: Target, prog: Prog, value: Expr, name: Option<LabelDef>, doc: nat)
    requires Sound(t, prog)
    ensures Sound(t, ExpandBytes(prog, value, name, doc).0)
  {
    var inst := NewInstr(BYTES, Some(value));
    assert Fits(t, inst);
    hide Sound, ExpandLabel, Fits;
    if name.Some? {
      SoundLabel(t, prog, name.value, doc);
    }
    var (q, e) := if name.None? then (prog, None) else ExpandLabel(prog, name.value, doc);
    if e.None? {
      SoundAddPlain(t, q, inst);
    }
  }

  // ----- all statements -----

  lemma {:induction false} ExpandStmtSound(t: Target, p: Program, s: Stmt, doc: nat, st: Expanding)
    requires HasSection(st.prog) && doc == CurScope(st.prog).doc && Sound(t, st.prog) && ValidTarget(t)
    ensures Sound(t, ExpandStmt(t, p, s, doc, st).prog)
    decreases MacrosLeft(p, st.macroStack), 1, s
  {
    hide Sound, ValidTarget, ExpandOpcode, ExpandLabel, ExpandBytes, ExpandCall, Restored;
    match s
    case OpcodeStmt(op, arg, immediates) => SoundOpcode(t, p, st.prog, op, arg, immediates, doc);
    case LabelStmt(def) => SoundLabel(t, st.prog, def, doc);
    case PCLabelStmt(pc) =>
      var inst := NewInstr("", None).(assertedPC := Some(pc));
      assert Fits(t, inst);
      SoundAddPlain(t, st.prog, inst);
    case MacroCallStmt(ident, args) => ExpandCallSound(t, p, ident, args, doc, st);
    case IncludeStmt(incdoc, loaded, body) =>
      if loaded {
        var entered := EnterInclude(st, incdoc);
        SoundSection(t, st.prog, Scope(incdoc, CurScope(st.prog).args), []);
        assert st.prog.docs + [] == st.prog.docs;
        ExpandSound(t, p, body, incdoc, entered);
        SoundLeave(t, st, entered, Expand(t, p, body, incdoc, entered), {});
      }
    case BytesStmt(value, name) => SoundBytes(t, st.prog, value, name, doc);
    case MacroDefStmt(params) =>
    case OtherStmt =>
  }

  lemma SoundLeave(t: Target, st: Expanding, entered: Expanding, inner: Expanding, added: set<nat>)
    requires HasSection(st.prog) && Sound(t, inner.prog)
    requires |entered.prog.sections| == |st.prog.sections| + 1
    requires entered.prog.sections[..|st.prog.sections|] == st.prog.sections
    requires entered.prog.cur == |st.prog.sections| && entered.prog.sections[entered.prog.cur].parent == Some(st.prog.cur)
    requires entered.macroStack == st.macroStack + added && st.macroStack !! added
    requires Restored(entered, inner)
    ensures HasSection(inner.prog) && inner.prog.sections[inner.prog.cur].parent.Some?
    ensures Sound(t, LeaveSection(inner, added).prog)
  {
    hide Sound;
    EnterLeaveRestores(st, entered, inner, added);
    SoundPop(t, inner.prog);
  }

  lemma {:induction false} ExpandCallSound(t: Target, p: Program, ident: string, args: seq<Expr>, doc: nat, st: Expanding)
    requires HasSection(st.prog) && doc == CurScope(st.prog).doc && Sound(t, st.prog) && ValidTarget(t)
    ensures Sound(t, ExpandCall(t, p, ident, args, doc, st).prog)
    decreases MacrosLeft(p, st.macroStack), 0
  {
    hide Sound, ValidTarget, Restored;
    var m := LookupInstrMacro(p, st.prog.docs, ident, doc);
    if m.Some? && m.value < |p.instrMacros| && m.value !in st.macroStack && |args| == |p.instrMacros[m.value].params| {
      var def := p.instrMacros[m.value];
      EnterLeaves(p, st.macroStack, m.value);
      var entered := EnterMacro(st, def, m.value, args);
      SoundSection(t, st.prog, Scope(|st.prog.docs|, Some(CallArgs(CurScope(st.prog), def.params, args))),
                   [Document(Some(def.doc), map[], map[], map[])]);
      ExpandSound(t, p, def.body, |st.prog.docs|, entered);
      SoundLeave(t, st, entered, Expand(t, p, def.body, |st.prog.docs|, entered), {m.value});
    }
  }

  /** Expansion of statements in the document of the current section. */
  lemma {:induction false} ExpandSound(t: Target, p: Program, stmts: seq<Stmt>, doc: nat, st: Expanding)
    requires HasSection(st.prog) && doc == CurScope(st.prog).doc && Sound(t, st.prog) && ValidTarget(t)
    ensures Sound(t, Expand(t, p, stmts, doc, st).prog)
    decreases MacrosLeft(p, st.macroStack), 1, stmts
  {
    hide Sound, ValidTarget, ExpandStmt;
    if stmts != [] {
      ExpandStmtSound(t, p, stmts[0], doc, st);
      var next := ExpandStmt(t, p, stmts[0], doc, st);
      ScopeRestored(st, next);
      ExpandSound(t, p, stmts[1..], doc, next);
    }
  }

  lemma ScopeRestored(before: Expanding, after: Expanding)
    requires HasSection(before.prog) && Restored(before, after)
    ensures HasSection(after.prog) && CurScope(after.prog) == CurScope(before.prog)
  {
    assert after.prog.sections[..|before.prog.sections|][before.prog.cur] == after.prog.sections[before.prog.cur];
  }

  /** The expansion of a whole program. */
  function ExpandProgram(t: Target, p: Program): Expanding {
    var r := Expand(t, p, p.statements, p.top, Expanding(NewProg(p.docs, p.top), {}, []));
    r.(prog := FinishExpansion(r.prog))
  }

  /** The facts about a finished program that the later stages rest on. */
  ghost predicate Finished(t: Target, q: Prog) {
    && Iterate(q) == Owned(q.owners) && |q.owners| == |q.instrs| && |q.places| == |q.labels|
    && (forall k :: 0 <= k < |q.owners| ==> q.owners[k] < |q.sections|)
    && (forall l :: 0 <= l < |q.labels| ==> q.labels[l].instr == Some(q.places[l]) && q.places[l] < |q.instrs|)
    && (forall l :: 0 <= l < |q.labels| ==> JumpDestAt(q, l))
    && (forall k :: 0 <= k < |q.instrs| ==> Fits(t, q.instrs[k]))
    && (forall k :: 0 <= k < |q.instrs| ==> JumpPair(t, q, k))
    && (forall name :: name in q.globalLabels ==>
          IsGlobal(name) && q.globalLabels[name] < |q.labels| && q.labels[q.globalLabels[name]].def.ident == name)
  }

  /**
   * Expansion terminates despite recursive macros, leaves the macro stack empty and the section stack
   * unwound, and pairs each instruction with the section that was current when it was added; every
   * label leads to the instruction that follows it, which is a JUMPDEST unless the label is dotted.
   */
  lemma ExpandedProgram(t: Target, p: Program)
    requires ValidTarget(t)
    ensures var r := ExpandProgram(t, p); r.macroStack == {} && r.prog.cur == TOPLEVEL && Finished(t, r.prog)
  {
    var st := Expanding(NewProg(p.docs, p.top), {}, []);
    NewProgWellFormed(p.docs, p.top);
    assert Sound(t, st.prog);
    var r := Expand(t, p, p.statements, p.top, st);
    hide Expand, ValidTarget;
    ExpandSound(t, p, p.statements, p.top, st);
    FinishedSound(t, r.prog);
  }

  lemma FinishedSound(t: Target, p: Prog)
    requires Sound(t, p) && p.cur == TOPLEVEL
    ensures Finished(t, FinishExpansion(p)) && FinishExpansion(p).cur == TOPLEVEL
  {
    FinishedProgram(p);
    var inst := NewInstr("", None);
    var q := if |p.currentLabels| > 0 then AddInstruction(p, inst) else p;
    if |p.currentLabels| > 0 {
      assert Fits(t, inst);
      hide Fits, JumpPair, JumpDestAt, Walk;
      SoundAddPlain(t, p, inst);
    }
    FinishedFacts(t, q, FinishExpansion(p));
  }

  lemma FinishedFacts(t: Target, q: Prog, r: Prog)
    requires Sound(t, q) && r == q.(elems := r.elems)
    requires Iterate(r) == Owned(r.owners) && |r.owners| == |r.instrs| && |r.places| == |r.labels|
    requires forall l :: 0 <= l < |r.labels| ==> r.labels[l].instr == Some(r.places[l]) && r.places[l] < |r.instrs|
    ensures Finished(t, r)
  {
    hide Fits, Walk, LabelLinked, Iterate;
    forall k | 0 <= k < |r.instrs|
      ensures JumpPair(t, r, k)
    {
      assert JumpPair(t, q, k);
    }
    forall l | 0 <= l < |r.labels|
      ensures JumpDestAt(r, l)
    {
      assert JumpDestAt(q, l);
    }
  }
}
